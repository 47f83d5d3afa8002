/** The comment styles that come with the licence script, and that the round trip covers them. */
module LicenseRules {
  import opened License
  import opened LicenseNotice
  import opened LicenseRoundTrip
  import opened LicenseText
  import opened Lines
  import N = NoticeRoundTrip
  import opened Sequences

  /** The different styles of the suffix table: shell, C, C++, Lisp, Haskell, HTML and XML, M4, Mx, PHP. */
  const RULES: seq<Style> := [
    Style("", "", "# ", ""), Style("/*", " */", " * ", ""), Style("", "", "// ", ""),
    Style("", "", "; ", ""), Style("", "", "-- ", ""), Style("<!--", "-->", "", ""),
    Style("", "", "dnl ", ""), Style("", "", "@' ", ""), Style("<?php", "?>", "# ", "")
  ]

  /** A licence, as a list of lines, that can be told from a file in this style: no line ends like
      the one that opens a notice block, and where the licence comes first its first line is not
      an Emacs mode line. */
  predicate PlainLicense(st: Style, license: seq<string>) {
    && (forall i :: 0 <= i < |license| ==> OneLine(license[i]) && !Contains(license[i] + "\n", NOTICE))
    && (license != [] && st.pre == "" ==> !Contains(license[0], "-*-"))
  }

  predicate Bracket(s: string) {
    OneLine(s) && (s != "" ==> !IsSpace(s[|s| - 1])) && 'C' !in s
  }

  predicate EndsInOneSpace(s: string) {
    |s| >= 2 && s[|s| - 1] == ' ' && Bracket(s[..|s| - 1])
  }

  /** What all the styles have in common. Where nothing goes before the licence, the start of its
      first line is neither empty nor like a header. */
  predicate Regular(st: Style) {
    && Bracket(st.pre) && Bracket(st.post) && st.end == ""
    && (st.start == "" || EndsInOneSpace(st.start))
    && (if st.pre != "" then !LooksLikeHeader(st.pre + "\n")
        else st.post == "" && |st.start| >= 2 && st.start[0] != '<' && '!' !in st.start && '*' !in st.start)
  }

  lemma {:induction false} FirstStartsEndInOneSpace(k: nat)
    requires k < 4
    ensures EndsInOneSpace(RULES[k].start)
  {
  }

  lemma {:induction false} StartsEndInOneSpace(k: nat)
    requires k < |RULES|
    ensures RULES[k].start == "" || EndsInOneSpace(RULES[k].start)
  {
    if k < 4 {
      FirstStartsEndInOneSpace(k);
    }
  }

  lemma {:induction false} NoHeader(line: string)
    requires line != "" && line[0] != '#' && (|line| > 2 ==> line[2] != 'x') && ('-' !in line || '*' !in line)
    ensures !LooksLikeHeader(line)
  {
    assert |line| >= 2 ==> line[..2][0] == line[0];
    assert |line| >= 5 ==> line[..5][2] == line[2];
    forall i: nat | i + 3 <= |line|
      ensures !OccursAt(line, "-*-", i)
    {
      assert line[i..i + 3][0] == line[i] && line[i..i + 3][1] == line[i + 1];
    }
  }

  lemma {:induction false} BracketsOfRules(k: nat)
    requires k < |RULES|
    ensures Bracket(RULES[k].pre) && Bracket(RULES[k].post)
  {
  }

  lemma {:induction false} FirstLinesOfRules(k: nat)
    requires k < |RULES|
    ensures var st := RULES[k];
            if st.pre != "" then !LooksLikeHeader(st.pre + "\n")
            else st.post == "" && |st.start| >= 2 && st.start[0] != '<' && '!' !in st.start && '*' !in st.start
  {
    if RULES[k].pre != "" {
      NoHeader(RULES[k].pre + "\n");
    }
  }

  lemma {:induction false} RulesAreRegular(k: nat)
    requires k < |RULES|
    ensures Regular(RULES[k])
  {
    BracketsOfRules(k);
    StartsEndInOneSpace(k);
    FirstLinesOfRules(k);
    assert RULES[k].end == "";
  }

  /** No notice arises where the start of a line meets its text. */
  lemma {:induction false} NoNoticeAtStart(s: string, l: string)
    requires OneLine(s) && 'C' !in s && OneLine(l) && !Contains(l + "\n", NOTICE)
    ensures !Contains(s + l + "\n", NOTICE)
  {
    var line, text, n := s + l + "\n", l + "\n", |NOTICE|;
    assert n > 0 && NOTICE[0] == 'C';
    forall i: nat | i + n <= |line|
      ensures !OccursAt(line, NOTICE, i)
    {
      assert line[i..i + n][0] == line[i];
      if i < |s| {
        assert line[i] == s[i] && s[i] in s;
      } else {
        assert line[i..i + n] == text[i - |s|..i - |s| + n];
        assert !OccursAt(text, NOTICE, i - |s|);
      }
    }
  }

  lemma {:induction false} NoNoticeInBracket(s: string)
    requires Bracket(s)
    ensures !Contains(s + "\n", NOTICE)
  {
    NoticeIsLine();
    assert "" + "\n" == "\n" && s + "" == s;
    NoNoticeAtStart(s, "");
  }

  /** The start of a licence line, as written. */
  function Start(st: Style, l: string): string {
    if l == "" || l[0] == '\t' then TrimRight(st.start) else st.start
  }

  lemma {:induction false} StartShape(st: Style, l: string)
    requires Regular(st)
    ensures LicenseLine(st, l) == Start(st, l) + l + "\n"
    ensures OneLine(Start(st, l)) && 'C' !in Start(st, l)
    ensures Start(st, l) <= st.start && |st.start| - 1 <= |Start(st, l)|
  {
    if st.start != "" {
      var a := st.start[..|st.start| - 1];
      assert TrimRight(st.start) == TrimRight(a) == a;
    }
    assert Start(st, l) + l + "" == Start(st, l) + l;
  }

  lemma {:induction false} PlainLine(st: Style, l: string)
    requires Regular(st) && OneLine(l) && !Contains(l + "\n", NOTICE)
    ensures !Contains(LicenseLine(st, l), NOTICE)
  {
    StartShape(st, l);
    NoNoticeAtStart(Start(st, l), l);
  }

  /** No Emacs mode mark arises where the start of a line meets its text. */
  lemma {:induction false} NotModeLine(s: string, l: string)
    requires '*' !in s && !Contains(l, "-*-")
    requires s != "" && s[|s| - 1] == '-' ==> l == "" || l[0] != '*'
    ensures !Contains(s + l + "\n", "-*-")
  {
    var line := s + l + "\n";
    forall i: nat | i + 3 <= |line|
      ensures !OccursAt(line, "-*-", i)
    {
      var m := line[i..i + 3];
      assert m[0] == line[i] && m[1] == line[i + 1] && m[2] == line[i + 2];
      if i + 1 < |s| {
        assert m[1] == s[i + 1] && s[i + 1] in s;
      } else if i < |s| {
        assert m[0] == s[|s| - 1] && (l != "" ==> m[1] == l[0]);
      } else if i + 3 <= |s| + |l| {
        assert m == l[i - |s|..i - |s| + 3];
        assert !OccursAt(l, "-*-", i - |s|);
      } else {
        assert m[2] == LF;
      }
    }
  }

  lemma {:induction false} FirstLineIsNoHeader(st: Style, l: string)
    requires Regular(st) && st.pre == "" && OneLine(l) && !Contains(l, "-*-")
    ensures !LooksLikeHeader(LicenseLine(st, l))
  {
    StartShape(st, l);
    var s, line := Start(st, l), LicenseLine(st, l);
    assert s != "" && s[0] == st.start[0] && line[0] == s[0];
    assert line[1] == if |s| > 1 then st.start[1] else (l + "\n")[0];
    assert line[..2][1] == line[1] && line[..1][0] == line[0];
    assert |line| >= 5 ==> line[..5][0] == line[0];
    assert forall c :: c in s ==> c in st.start;
    assert s == st.start ==> s[|s| - 1] == ' ';
    NotModeLine(s, l);
  }

  lemma {:induction false} NoNoticeInBlock(st: Style, license: seq<string>, i: nat)
    requires Regular(st) && PlainLicense(st, license) && i < |BlockLines(st, license)|
    ensures !Contains(BlockLines(st, license)[i], NOTICE)
  {
    var above := |OptionalLine(st.pre)|;
    if i < above {
      NoNoticeInBracket(st.pre);
    } else if i < above + |license| {
      PlainLine(st, license[i - above]);
    } else {
      NoNoticeInBracket(st.post);
    }
  }

  lemma {:induction false} BlockStartsWithNoHeader(st: Style, license: seq<string>)
    requires Regular(st) && PlainLicense(st, license)
    ensures BlockLines(st, license) != [] ==> !LooksLikeHeader(BlockLines(st, license)[0])
  {
    if st.pre == "" {
      if license != [] {
        FirstLineIsNoHeader(st, license[0]);
      }
    }
  }

  lemma {:induction false} RegularIsUsable(st: Style, license: seq<string>)
    requires Regular(st) && PlainLicense(st, license)
    ensures Usable(st, license)
  {
    StartShape(st, "");
    forall i | 0 <= i < |BlockLines(st, license)|
      ensures !Contains(BlockLines(st, license)[i], NOTICE)
    {
      NoNoticeInBlock(st, license, i);
    }
    BlockStartsWithNoHeader(st, license);
    NotOnlySpace(st.pre);
    NotOnlySpace(st.post);
    assert OneLine(st.start) by {
      assert forall i :: 0 <= i < |st.start| - 1 ==> st.start[..|st.start| - 1][i] == st.start[i];
    }
  }

  /** What makes a licence unfit for a style makes it unfit for the round trip. */
  lemma {:induction false} UsableIsPlain(st: Style, license: seq<string>)
    requires Usable(st, license) && st.end == ""
    ensures PlainLicense(st, license)
  {
    var lines, above := BlockLines(st, license), |OptionalLine(st.pre)|;
    forall i | 0 <= i < |license|
      ensures !Contains(license[i] + "\n", NOTICE)
    {
      assert lines[above + i] == LicenseLine(st, license[i]);
      if Contains(license[i] + "\n", NOTICE) {
        InLicenseLine(st, license[i], license[i] + "\n", "", NOTICE);
      }
    }
    if license != [] && st.pre == "" && Contains(license[0], "-*-") {
      assert lines[0] == LicenseLine(st, license[0]);
      InLicenseLine(st, license[0], license[0], "\n", "-*-");
    }
  }

  lemma {:induction false} InLicenseLine(st: Style, l: string, text: string, behind: string, t: string)
    requires st.end == "" && text + behind == l + "\n" && Contains(text, t)
    ensures Contains(LicenseLine(st, l), t)
  {
    var a := Start(st, l);
    assert l + "" == l;
    ContainsInside(a, text, behind, t);
    assert a + text + behind == a + (text + behind);
    assert a + l + "" + "\n" == a + (l + "\n");
    assert a + st.end == a;
  }

  /** With any of the styles, a licence can be told from the rest of a file if and only if it is
      plain for that style. */
  lemma {:induction false} RulesAreUsable(k: nat, license: seq<string>)
    requires k < |RULES|
    ensures Usable(RULES[k], license) <==> PlainLicense(RULES[k], license)
  {
    RulesAreRegular(k);
    if PlainLicense(RULES[k], license) {
      RegularIsUsable(RULES[k], license);
    }
    if Usable(RULES[k], license) {
      UsableIsPlain(RULES[k], license);
    }
  }

  lemma {:induction false} NotOnlySpace(s: string)
    requires s != "" ==> !IsSpace(s[|s| - 1])
    ensures s != "" ==> Normalize(s) != ""
  {
    if |s| > 1 {
      NotOnlySpace(s[1..]);
      NormalizeCons(s);
    } else if |s| == 1 {
      NormalizeCons(s);
    }
  }

  // ----- In a notice block -----

  /** A licence, as a list of lines, that can be told from the line that opens it in a notice block:
      the first line is not only white space. */
  predicate PlainStart(license: seq<string>) {
    && (forall i :: 0 <= i < |license| ==> OneLine(license[i]))
    && license != [] && Normalize(license[0]) != ""
  }

  lemma {:induction false} FirstLineIsSaid(st: Style, l: string)
    requires Regular(st)
    ensures Normalize(LicenseLine(st, l)) != Normalize(st.start) <==> Normalize(l) != ""
  {
    StartShape(st, l);
    N.NormalizeTrimRight(st.start);
    NormalizeTrailing(l, LF);
    NormalizeBehind(Start(st, l), l + "\n");
    assert Start(st, l) + (l + "\n") == LicenseLine(st, l);
  }

  lemma {:induction false} StartsAreNoRules(k: nat)
    requires k < |RULES|
    ensures |RULES[k].start| <= 4
  {
  }

  lemma {:induction false} RulesAreNoticeUsable(k: nat, license: seq<string>)
    requires k < |RULES|
    ensures N.NoticeUsable(RULES[k], license) <==> PlainStart(license)
  {
    var st := RULES[k];
    RulesAreRegular(k);
    StartsAreNoRules(k);
    StartShape(st, "\t");
    StartShape(st, "");
    assert st.start == "" || OneLine(st.start[..|st.start| - 1]);
    if license != [] {
      FirstLineIsSaid(st, license[0]);
    }
  }

  // ----- Both -----

  /** The licence can be told from the rest of this file, in this style of the script. */
  predicate Plain(text: string, st: Style, license: seq<string>) {
    if Contains(text, NOTICE) then PlainStart(license) else PlainLicense(st, license)
  }

  /** For every file, any style of the script and any such licence, removing undoes adding if and
      only if the file comes back by the rules. */
  lemma {:induction false} RoundTripOfRules(k: nat, license: seq<string>, text: string)
    requires k < |RULES| && Plain(text, RULES[k], license)
    ensures Removed(Added(text, RULES[k], license), RULES[k], license) == Written(text) <==> ComesBack(text, RULES[k])
  {
    RulesAreUsable(k, license);
    RulesAreNoticeUsable(k, license);
    RoundTrip(text, RULES[k], license);
  }

  // ----- An input for every way to fail -----

  lemma {:induction false} PlainWord()
    ensures PlainLicense(RULES[0], ["L"])
  {
    var line := "L\n";
    assert |line| < |NOTICE|;
  }

  lemma {:induction false} BlankLineIsLost()
    ensures Removed(Added("\nx\n", RULES[0], ["L"]), RULES[0], ["L"]) == Written("x\n")
  {
    var text := "\nx\n";
    PlainWord();
    RulesAreUsable(0, ["L"]);
    FirstLineOf(BLANK, "x\n");
    assert text == BLANK + "x\n";
    NotHeaders();
    assert Headers(HEADERS, text) == ("", text);
    assert |text| < |NOTICE|;
    RemovedAfterAdded(text, RULES[0], ["L"]);
    assert "" + SkipBlank(text) == "x\n";
  }

  lemma {:induction false} CutHeaderIsChanged()
    ensures Removed(Added("#!sh", RULES[0], ["L"]), RULES[0], ["L"]) != Written("#!sh")
  {
    var text := "#!sh";
    LastLine(text);
    assert text[0..2] == "#!";
    assert Is(Interpreter, FirstLine(text));
    HeadersOfNothing(HEADERS[1..]);
    assert text + "" == text;
    assert Headers(HEADERS, text).0 == text;
    assert |text| < |NOTICE|;
    CutHeaderIsNotRestored(text, RULES[0], ["L"]);
  }

  const LISTED: string := N.Telling("#", " ")

  lemma {:induction false} HashIsStart()
    ensures Normalize(RULES[0].start) == "#" == Normalize("#")
  {
    NormalizeWord("#");
    NormalizeTrailing("#", ' ');
    assert "#" + [' '] == "# ";
  }

  lemma {:induction false} NothingIsStart()
    ensures Normalize(RULES[5].start) == ""
  {
    NothingSaid("");
  }

  lemma {:induction false} OneLetter()
    ensures PlainStart(["L"])
  {
    NormalizeWord("L");
  }

  /** Where the notice comes first. */
  lemma {:induction false} NoticeFirst(behind: string)
    requires IsLine(behind) && |behind| >= 2 && behind[|behind| - 2] != '-'
    ensures var text := NOTICE + behind;
            && Contains(text, NOTICE) && NoticeEnd(text) == |NOTICE|
            && text[..|NOTICE|] == NOTICE && text[|NOTICE|..] == behind
  {
    var text := NOTICE + behind;
    assert text[0..|NOTICE|] == NOTICE;
    assert OccursAt(text, NOTICE, 0);
    assert text[|NOTICE|..] == behind;
    FirstLineOf(behind, "");
    assert behind + "" == behind;
  }

  /** A contributors line behind the notice is removed with the licence. */
  lemma {:induction false} ContributorsAreLost()
    ensures Removed(Added(NOTICE + LISTED, RULES[0], ["L"]), RULES[0], ["L"]) == Written(NOTICE)
  {
    N.TellingIsLine("#", " ");
    NoticeFirst(LISTED);
    HashIsStart();
    N.TellingSays("#", " ");
    N.TellingIsListed("#", " ");
    OneLetter();
    RulesAreNoticeUsable(0, ["L"]);
    N.LineIsLost(NOTICE + LISTED, RULES[0], ["L"]);
  }

  const CREDITS: string := N.Telling("", "")

  lemma {:induction false} NoticeHasOneSpace(j: nat)
    requires j < |NOTICE|
    ensures |NOTICE| == 18 && (NOTICE[j] == ' ' <==> j == 9)
  {
  }

  /** Where the notice comes behind one word, which does not contain its space. */
  lemma {:induction false} NoticeLast(word: string)
    requires ' ' !in word
    ensures var text := word + NOTICE; Contains(text, NOTICE) && NoticeEnd(text) == |text|
  {
    var text := word + NOTICE;
    assert text[|word|..|word| + |NOTICE|] == NOTICE;
    assert OccursAt(text, NOTICE, |word|);
    assert forall k :: 0 <= k < |word| ==> text[k] == word[k];
    NoticeHasOneSpace(9);
    var i := FirstOccurrence(text, NOTICE);
    AtSlice(text, i, i + |NOTICE|, 9);
    if i < |word| <= i + 9 {
      NoticeHasOneSpace(i + 9 - |word|);
    }
    assert text[|text|..] == "";
  }

  lemma {:induction false} CreditsAreAWord()
    ensures ' ' !in CREDITS
  {
    N.ContributorsIsWord();
    assert CREDITS == CONTRIBUTORS + "\n";
  }

  /** In a style without comment starts, a file that ends with the notice does not come back if its
      first line tells of contributors. */
  lemma {:induction false} FileIsRepeated()
    ensures Removed(Added(CREDITS + NOTICE, RULES[5], ["L"]), RULES[5], ["L"]) != Written(CREDITS + NOTICE)
  {
    CreditsAreAWord();
    NoticeLast(CREDITS);
    NothingIsStart();
    N.TellingIsLine("", "");
    N.TellingSays("", "");
    N.CompleteLineOf(CREDITS, NOTICE);
    OneLetter();
    RulesAreNoticeUsable(5, ["L"]);
    N.FirstLineCounts(CREDITS + NOTICE, RULES[5], ["L"]);
  }
}
