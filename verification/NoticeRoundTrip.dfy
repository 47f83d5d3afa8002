/** Removing a licence from a copyright notice block undoes adding it there: for which files. */
module NoticeRoundTrip {
  import opened LicenseNotice
  import opened LicenseText
  import opened Lines
  import opened Sequences
  import opened Wrappers

  /** Styles and licences whose lines can be told from the line that opens the licence in a notice
      block, which itself is not taken for the rule of the block. */
  predicate NoticeUsable(st: Style, license: seq<string>) {
    && OneLine(st.start) && OneLine(st.end) && (forall i :: 0 <= i < |license| ==> OneLine(license[i]))
    && !IsRule(StartLine(st))
    && license != [] && Normalize(LicenseLine(st, license[0])) != Normalize(st.start)
  }

  /** What follows the notice is not taken for a list of contributors. Where no line is complete
      there and comments have no start, the script looks at the first line of the file. */
  predicate NoContributors(text: string, st: Style)
    requires Contains(text, NOTICE)
  {
    var rest, start := text[NoticeEnd(text)..], Normalize(st.start);
    var line := CompleteLine(rest);
    if Normalize(line) != start then !(SaysContributors(line) && StartsWith(Normalize(line), start))
    else !SaysContributors(CompleteLine(Onward(text, rest)))
  }

  // ----- The notice is found again -----

  lemma {:induction false} OccursInBoth(front: string, x: string, y: string, t: string, i: nat)
    requires i + |t| <= |front|
    ensures OccursAt(front + x, t, i) <==> OccursAt(front + y, t, i)
  {
    SliceOfFront(front, x, i, i + |t|);
    SliceOfFront(front, y, i, i + |t|);
  }

  lemma {:induction false} FirstOccurrenceStays(front: string, x: string, y: string, t: string)
    requires Contains(front + x, t) && FirstOccurrence(front + x, t) + |t| <= |front|
    ensures Contains(front + y, t) && FirstOccurrence(front + y, t) == FirstOccurrence(front + x, t)
  {
    var i := FirstOccurrence(front + x, t);
    OccursInBoth(front, x, y, t, i);
    assert OccursAt(front + y, t, i);
    var j := FirstOccurrence(front + y, t);
    if j < i {
      OccursInBoth(front, x, y, t, j);
    }
  }

  lemma {:induction false} RuleIsLine(s: string)
    requires IsRule(FirstLine(s))
    ensures IsLine(FirstLine(s))
  {
    var rule := FirstLine(s);
    FirstLineIsLine(s);
    assert rule[|rule| - 1] in s;
  }

  /** The rule at the start of what is behind the notice, if there is one. */
  function Rule(s: string): (rule: string)
    ensures rule <= s
  {
    if IsRule(FirstLine(s)) then FirstLine(s) else ""
  }

  /** The rule below the notice is kept, or there is none. */
  lemma {:induction false} RuleStays(s: string, x: string)
    requires !IsRule(FirstLine(x))
    ensures Rule(Rule(s) + x) == Rule(s)
  {
    if IsRule(FirstLine(s)) {
      RuleIsLine(s);
      FirstLineOf(FirstLine(s), x);
    } else {
      NothingAdded(x);
    }
  }

  lemma {:induction false} FrontBehind(text: string, i: nat, part: string, x: string)
    requires i <= |text| && part <= text[i..]
    ensures (text[..i + |part|] + x)[i..] == part + x && text[..i + |part|] + text[i + |part|..] == text
  {
  }

  lemma {:induction false} NoticeEndIs(text: string)
    requires Contains(text, NOTICE)
    ensures var i := FirstOccurrence(text, NOTICE) + |NOTICE|;
            i <= |text| && NoticeEnd(text) == i + |Rule(text[i..])|
  {
  }

  /** The notice block starts where it did when something is put behind it. */
  lemma {:induction false} NoticeEndStays(text: string, x: string)
    requires Contains(text, NOTICE) && !IsRule(FirstLine(x))
    ensures var front := text[..NoticeEnd(text)];
            Contains(front + x, NOTICE) && NoticeEnd(front + x) == |front|
  {
    NoticeEndIs(text);
    var front, i := text[..NoticeEnd(text)], FirstOccurrence(text, NOTICE) + |NOTICE|;
    var rule := Rule(text[i..]);
    FrontBehind(text, i, rule, x);
    FirstOccurrenceStays(front, text[NoticeEnd(text)..], x, NOTICE);
    RuleStays(text[i..], x);
    NoticeEndIs(front + x);
  }

  // ----- The licence is read over -----

  lemma {:induction false} CompleteLineOf(line: string, rest: string)
    requires IsLine(line)
    ensures CompleteLine(line + rest) == line && forall data :: Onward(data, line + rest) == rest
  {
    FirstLineOf(line, rest);
    assert (line + rest)[|line|..] == rest;
  }

  lemma {:induction false} LicenseLineMatches(st: Style, l: string)
    requires OneLine(st.start) && OneLine(st.end) && OneLine(l)
    ensures IsLine(LicenseLine(st, l)) && Contains(Normalize(LicenseLine(st, l)), Normalize(l))
  {
    var a := LicenseLineShape(st, l);
    NormalizedInside(a, l, st.end + "\n");
  }

  lemma {:induction false} LinesAreRead(data: string, st: Style, license: seq<string>, rest: string)
    requires OneLine(st.start) && OneLine(st.end) && forall i :: 0 <= i < |license| ==> OneLine(license[i])
    ensures BehindLines(data, Joined(LicenseLines(st, license)) + rest, license) == Some(rest)
    decreases |license|
  {
    if license == [] {
      NothingAdded(rest);
    } else {
      JoinedLicenseLines(st, license, rest);
      LicenseLineMatches(st, license[0]);
      CompleteLineOf(LicenseLine(st, license[0]), Joined(LicenseLines(st, license[1..])) + rest);
      LinesAreRead(data, st, license[1..], rest);
    }
  }

  lemma {:induction false} NormalizeTrimRight(s: string)
    ensures Normalize(TrimRight(s)) == Normalize(s)
  {
    if s != "" && IsSpace(s[|s| - 1]) {
      NormalizeTrimRight(s[..|s| - 1]);
      NormalizeTrailing(s[..|s| - 1], s[|s| - 1]);
      assert s[..|s| - 1] + [s[|s| - 1]] == s;
    }
  }

  lemma {:induction false} StartLineShape(st: Style)
    requires OneLine(st.start)
    ensures IsLine(StartLine(st)) && Normalize(StartLine(st)) == Normalize(st.start)
  {
    TrimRightIsOneLine(st.start);
    EndedIsLine(TrimRight(st.start));
    NormalizeTrimRight(st.start);
    NormalizeTrailing(TrimRight(st.start), LF);
  }

  lemma {:induction false} SkipOne(line: string, rest: string, like: string)
    requires IsLine(line)
    ensures SkipAhead(line + rest, like) == if Normalize(line) == like then SkipAhead(rest, like) else line + rest
  {
    CompleteLineOf(line, rest);
    assert (line + rest)[|line|..] == rest;
  }

  /** The line that opens the licence is skipped, and no more. */
  lemma {:induction false} StartIsSkipped(data: string, st: Style, line: string, rest: string)
    requires OneLine(st.start) && IsLine(line) && Normalize(line) != Normalize(st.start)
    ensures SkipLike(data, StartLine(st) + (line + rest), Normalize(st.start)) == line + rest
  {
    StartLineShape(st);
    SkipOne(StartLine(st), line + rest, Normalize(st.start));
    SkipOne(line, rest, Normalize(st.start));
    CompleteLineOf(line, rest);
  }

  // ----- What follows is left -----

  /** A list that starts before a line which cannot be part of it ends before that line. */
  lemma {:induction false} ListEndsBefore(front: string, line: string, rest: string, start: string)
    requires (front == "" || front[|front| - 1] == LF) && IsLine(line) && !InList(line, start)
    ensures |BehindList(front + (line + rest), start)| >= |line| + |rest|
    decreases |front|
  {
    var x := line + rest;
    if front == "" {
      CompleteLineOf(line, rest);
      assert front + x == x;
    } else {
      assert front[|front| - 1] in front;
      FirstLineIsLine(front);
      var first, others := FirstLine(front), AfterLine(front);
      Assoc(first, others, x);
      CompleteLineOf(first, others + x);
      ListEndsBefore(others, line, rest, start);
    }
  }

  // ----- The round trip -----

  /** The file with the licence put in. */
  lemma {:induction false} AddedShape(text: string, st: Style, license: seq<string>)
    requires Contains(text, NOTICE) && NoticeUsable(st, license)
    ensures var front, rest := text[..NoticeEnd(text)], text[NoticeEnd(text)..];
            var block := Joined(LicenseLines(st, license)) + rest;
            AddedToNotice(text, st, license) == front + (StartLine(st) + block)
  {
    var front, rest := text[..NoticeEnd(text)], text[NoticeEnd(text)..];
    Assoc4(front, StartLine(st), Joined(LicenseLines(st, license)), rest);
  }

  /** Removing finds the licence, and what is left behind it is what was there before. */
  lemma {:induction false} LicenseIsFound(text: string, st: Style, license: seq<string>)
    requires Contains(text, NOTICE) && NoticeUsable(st, license)
    ensures var pos, data := NoticeEnd(text), AddedToNotice(text, st, license);
            && Contains(data, NOTICE) && NoticeEnd(data) == pos && data[..pos] == text[..pos]
            && BehindLines(data, SkipLike(data, data[pos..], Normalize(st.start)), license) == Some(text[pos..])
  {
    var pos, data := NoticeEnd(text), AddedToNotice(text, st, license);
    var rest := text[pos..];
    var block := Joined(LicenseLines(st, license)) + rest;
    AddedShape(text, st, license);
    StartLineShape(st);
    CompleteLineOf(StartLine(st), block);
    NoticeEndStays(text, StartLine(st) + block);
    assert data[pos..] == StartLine(st) + block;
    LicenseLineMatches(st, license[0]);
    JoinedLicenseLines(st, license, rest);
    StartIsSkipped(data, st, LicenseLine(st, license[0]), Joined(LicenseLines(st, license[1..])) + rest);
    LinesAreRead(data, st, license, rest);
  }

  /** Whatever follows the notice, no mismatch is reported, and what comes back is the file, or the
      file without what is taken for a list of contributors. */
  lemma {:induction false} RemovedAfterAdded(text: string, st: Style, license: seq<string>)
    requires Contains(text, NOTICE) && NoticeUsable(st, license)
    ensures var pos, data := NoticeEnd(text), AddedToNotice(text, st, license);
            && Contains(data, NOTICE)
            && RemovedFromNotice(data, st, license)
               == Written(text[..pos] + BehindContributors(data, text[pos..], Normalize(st.start)))
  {
    LicenseIsFound(text, st, license);
  }

  lemma {:induction false} EndOfOccurrence(text: string, i: nat)
    requires OccursAt(text, NOTICE, i)
    ensures text[i + |NOTICE| - 1] == LF
  {
    AtSlice(text, i, i + |NOTICE|, |NOTICE| - 1);
  }

  lemma {:induction false} EndOfRule(text: string, j: nat)
    requires 0 < j <= |text| && text[j - 1] == LF
    ensures text[j + |Rule(text[j..])| - 1] == LF
  {
    var rule := Rule(text[j..]);
    if rule != "" {
      RuleIsLine(text[j..]);
      assert rule[|rule| - 1] == text[j..][|rule| - 1] == text[j + |rule| - 1];
    }
  }

  /** What is before the licence ends with a complete line. */
  lemma {:induction false} FrontIsComplete(text: string)
    requires Contains(text, NOTICE)
    ensures NoticeEnd(text) > 0 && text[NoticeEnd(text) - 1] == LF
  {
    EndOfOccurrence(text, FirstOccurrence(text, NOTICE));
    NoticeEndIs(text);
    EndOfRule(text, FirstOccurrence(text, NOTICE) + |NOTICE|);
  }

  lemma {:induction false} SameFirstLine(front: string, x: string)
    requires front != "" && front[|front| - 1] == LF
    ensures CompleteLine(front + x) == FirstLine(front)
  {
    assert front[|front| - 1] in front;
    FirstLineIsLine(front);
    Assoc(FirstLine(front), AfterLine(front), x);
    CompleteLineOf(FirstLine(front), AfterLine(front) + x);
  }

  lemma {:induction false} ContributorsAreSaid(line: string, start: string)
    requires SaysContributors(line)
    ensures line != "" && |Normalize(line)| >= |CONTRIBUTORS| > 1
  {
    NothingSaid(start);
    var i :| 0 <= i <= |Normalize(line)| && OccursAt(Normalize(line), CONTRIBUTORS, i);
    assert |CONTRIBUTORS| == 12;
  }

  lemma {:induction false} ListIsShorter(rest: string, start: string)
    ensures BehindList(rest, start) == rest <==> CompleteLine(rest) == "" || !InList(CompleteLine(rest), start)
  {
  }

  lemma {:induction false} LeftIfDifferent(data: string, rest: string, start: string)
    requires Normalize(CompleteLine(rest)) != start
    ensures BehindContributors(data, rest, start) == rest
       <==> !(SaysContributors(CompleteLine(rest)) && StartsWith(Normalize(CompleteLine(rest)), start))
  {
    ListIsShorter(rest, start);
    if SaysContributors(CompleteLine(rest)) {
      ContributorsAreSaid(CompleteLine(rest), start);
    }
  }

  lemma {:induction false} LeftIfLike(data: string, rest: string, start: string)
    requires Normalize(CompleteLine(rest)) == start && CompleteLine(rest) != ""
    ensures BehindContributors(data, rest, start) == rest <==> !SaysContributors(CompleteLine(Onward(data, rest)))
  {
  }

  /** Where no line is complete, reading goes on at the beginning of the file with the licence. */
  lemma {:induction false} LeftIfCut(front: string, st: Style, x: string, rest: string)
    requires front != "" && front[|front| - 1] == LF && OneLine(st.start)
    requires CompleteLine(rest) == "" && Normalize(st.start) == ""
    ensures var data := front + (StartLine(st) + (x + rest));
            && CompleteLine(data) == CompleteLine(front + rest)
            && (BehindContributors(data, rest, "") == rest <==> !SaysContributors(CompleteLine(data)))
  {
    NothingSaid("");
    SameFirstLine(front, rest);
    SameFirstLine(front, StartLine(st) + (x + rest));
    StartLineShape(st);
    ListEndsBefore(front, StartLine(st), x + rest, "");
  }

  /** Behind the licence as in the file before: nothing is lost if nothing says who contributed. */
  lemma {:induction false} LeftAsItIs(text: string, st: Style, x: string)
    requires Contains(text, NOTICE) && OneLine(st.start)
    ensures var pos, start := NoticeEnd(text), Normalize(st.start);
            var data := text[..pos] + (StartLine(st) + (x + text[pos..]));
            BehindContributors(data, text[pos..], start) == text[pos..] <==> NoContributors(text, st)
  {
    var pos, start := NoticeEnd(text), Normalize(st.start);
    var front, rest := text[..pos], text[pos..];
    var data, line := front + (StartLine(st) + (x + rest)), CompleteLine(rest);
    if Normalize(line) != start {
      LeftIfDifferent(data, rest, start);
    } else if line != "" {
      LeftIfLike(data, rest, start);
    } else {
      NothingSaid("");
      FrontIsComplete(text);
      assert front + rest == text;
      LeftIfCut(front, st, x, rest);
    }
  }

  lemma {:induction false} SameBehind(front: string, x: string, y: string)
    ensures front + x == front + y <==> x == y
  {
    assert (front + x)[|front|..] == x && (front + y)[|front|..] == y;
  }

  lemma {:induction false} LeftBehindAdded(text: string, st: Style, license: seq<string>)
    requires Contains(text, NOTICE) && NoticeUsable(st, license)
    ensures var pos, data := NoticeEnd(text), AddedToNotice(text, st, license);
            BehindContributors(data, text[pos..], Normalize(st.start)) == text[pos..] <==> NoContributors(text, st)
  {
    AddedShape(text, st, license);
    LeftAsItIs(text, st, Joined(LicenseLines(st, license)));
  }

  lemma {:induction false} RestoredWith(text: string, pos: nat, r: Outcome, behind: string)
    requires pos <= |text| && r == Written(text[..pos] + behind)
    ensures r == Written(text) <==> behind == text[pos..]
  {
    assert text[..pos] + text[pos..] == text;
    SameBehind(text[..pos], behind, text[pos..]);
  }

  /** For every file with a notice block: removing undoes adding if and only if nothing that
      follows the notice is taken for a list of contributors. */
  lemma {:induction false} RoundTrip(text: string, st: Style, license: seq<string>)
    requires Contains(text, NOTICE) && NoticeUsable(st, license)
    ensures Contains(AddedToNotice(text, st, license), NOTICE)
    ensures RemovedFromNotice(AddedToNotice(text, st, license), st, license) == Written(text)
       <==> NoContributors(text, st)
  {
    var pos, data := NoticeEnd(text), AddedToNotice(text, st, license);
    RemovedAfterAdded(text, st, license);
    LeftBehindAdded(text, st, license);
    var behind := BehindContributors(data, text[pos..], Normalize(st.start));
    RestoredWith(text, pos, RemovedFromNotice(data, st, license), behind);
  }

  // ----- What is lost -----

  function Telling(start: string, gap: string): string {
    start + gap + CONTRIBUTORS + "\n"
  }

  lemma {:induction false} ContributorsIsWord()
    ensures Normalize(CONTRIBUTORS) == CONTRIBUTORS && OneLine(CONTRIBUTORS) && ' ' !in CONTRIBUTORS
    ensures |CONTRIBUTORS| == 12 && CONTRIBUTORS[11] == 's'
  {
    NormalizeWord(CONTRIBUTORS);
  }

  lemma {:induction false} TellingSays(start: string, gap: string)
    ensures SaysContributors(Telling(start, gap))
  {
    ContributorsIsWord();
    NormalizedInside(start + gap, CONTRIBUTORS, "\n");
  }

  lemma {:induction false} TellingIsLine(start: string, gap: string)
    requires OneLine(start) && OneLine(gap)
    ensures var line := Telling(start, gap); IsLine(line) && |line| >= 13 && line[|line| - 2] == 's'
  {
    ContributorsIsWord();
    EndedIsLine(start + gap + CONTRIBUTORS);
  }

  /** A line that starts like a comment and tells of contributors is taken for their list. */
  lemma {:induction false} TellingIsListed(start: string, gap: string)
    requires |Normalize(start)| < |CONTRIBUTORS|
    ensures InList(Telling(start, gap), Normalize(start)) && Normalize(Telling(start, gap)) != Normalize(start)
  {
    var line := Telling(start, gap);
    TellingSays(start, gap);
    ContributorsAreSaid(line, start);
    Assoc4(start, gap, CONTRIBUTORS, "\n");
    NormalizePrefix(start, gap + (CONTRIBUTORS + "\n"));
  }

  /** Such a line behind the notice is lost. */
  lemma {:induction false} LineIsLost(text: string, st: Style, license: seq<string>)
    requires Contains(text, NOTICE) && NoticeUsable(st, license)
    requires var line := text[NoticeEnd(text)..];
             && IsLine(line) && SaysContributors(line)
             && InList(line, Normalize(st.start)) && Normalize(line) != Normalize(st.start)
    ensures Contains(AddedToNotice(text, st, license), NOTICE)
    ensures RemovedFromNotice(AddedToNotice(text, st, license), st, license) == Written(text[..NoticeEnd(text)])
  {
    var line := text[NoticeEnd(text)..];
    RemovedAfterAdded(text, st, license);
    CompleteLineOf(line, "");
    NothingAdded(line);
    OneLineList(line, Normalize(st.start));
    NothingAdded(text[..NoticeEnd(text)]);
  }

  lemma {:induction false} OneLineList(line: string, start: string)
    requires CompleteLine(line) == line != "" && InList(line, start)
    ensures BehindList(line, start) == ""
  {
    assert line[|line|..] == "";
  }

  /** At the end of the file, in a style without comment starts, the first line counts. */
  lemma {:induction false} FirstLineCounts(text: string, st: Style, license: seq<string>)
    requires Contains(text, NOTICE) && NoticeUsable(st, license)
    requires Normalize(st.start) == "" && NoticeEnd(text) == |text| && SaysContributors(CompleteLine(text))
    ensures Contains(AddedToNotice(text, st, license), NOTICE)
    ensures RemovedFromNotice(AddedToNotice(text, st, license), st, license) != Written(text)
  {
    NothingSaid("");
    RoundTrip(text, st, license);
    assert text[|text|..] == "" && CompleteLine("") == "";
  }
}
