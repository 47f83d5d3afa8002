/** Removing a licence undoes adding it: for which files, and what comes back for the others. */
module LicenseRoundTrip {
  import opened License
  import opened LicenseNotice
  import opened LicenseText
  import opened Lines
  import N = NoticeRoundTrip
  import opened Sequences

  /** Styles and licences whose lines can be told apart from the rest of a file: no line breaks
      inside, no comment line that is only white space, no copyright notice, and a first written
      line that is not taken for a header. */
  predicate Usable(st: Style, license: seq<string>) {
    && OneLine(st.pre) && OneLine(st.post) && OneLine(st.start) && OneLine(st.end)
    && (forall i :: 0 <= i < |license| ==> OneLine(license[i]))
    && (st.pre != "" ==> Normalize(st.pre) != "")
    && (st.post != "" ==> Normalize(st.post) != "")
    && (forall i :: 0 <= i < |BlockLines(st, license)| ==> !Contains(BlockLines(st, license)[i], NOTICE))
    && (BlockLines(st, license) != [] ==> !LooksLikeHeader(BlockLines(st, license)[0]))
  }

  /** The header lines end in a line feed; only a file that is nothing but headers can fail this. */
  predicate HeadersComplete(text: string) {
    Complete(Headers(HEADERS, text).0)
  }

  predicate BlankBehindHeaders(text: string) {
    FirstLine(Headers(HEADERS, text).1) == BLANK
  }

  // ----- Small facts -----

  lemma {:induction false} NotHeaders()
    ensures !LooksLikeHeader("") && !LooksLikeHeader(BLANK)
  {
  }

  lemma {:induction false} BlockLinesAreLines(st: Style, license: seq<string>)
    requires Usable(st, license)
    ensures forall i :: 0 <= i < |BlockLines(st, license)| ==> IsLine(BlockLines(st, license)[i])
  {
    EndedIsLine(st.pre);
    EndedIsLine(st.post);
    forall i | 0 <= i < |license|
      ensures IsLine(LicenseLine(st, license[i]))
    {
      var _ := LicenseLineShape(st, license[i]);
    }
  }

  // ----- The licence block is recognised -----

  lemma {:induction false} BehindOptionalLine(x: string, s: string)
    requires OneLine(x) && (x != "" ==> Normalize(x) != "")
    ensures BehindLine(Normalize(x), Joined(OptionalLine(x)) + s) == Written(s)
  {
    if x == "" {
      assert "" + s == s;
    } else {
      EndedIsLine(x);
      FirstLineOf(x + "\n", s);
      NormalizeTrailing(x, LF);
      assert Joined(OptionalLine(x)) == x + "\n" + "";
      assert x + "\n" + "" + s == (x + "\n") + s;
    }
  }

  /** One licence line is read over. */
  lemma {:induction false} BehindLicenseLine(st: Style, l: string, behind: string)
    requires OneLine(st.start) && OneLine(st.end) && OneLine(l)
    ensures var s := LicenseLine(st, l) + behind;
            Contains(Normalize(FirstLine(s)), Normalize(l)) && AfterLine(s) == behind
  {
    var a := LicenseLineShape(st, l);
    FirstLineOf(LicenseLine(st, l), behind);
    NormalizedInside(a, l, st.end + "\n");
  }

  lemma {:induction false} BehindLicenseLines(st: Style, license: seq<string>, s: string)
    requires OneLine(st.start) && OneLine(st.end) && forall i :: 0 <= i < |license| ==> OneLine(license[i])
    ensures BehindLicense(license, Joined(LicenseLines(st, license)) + s) == Written(s)
    decreases |license|
  {
    if license == [] {
      NothingAdded(s);
    } else {
      JoinedLicenseLines(st, license, s);
      BehindLicenseLine(st, license[0], Joined(LicenseLines(st, license[1..])) + s);
      BehindLicenseLines(st, license[1..], s);
    }
  }

  lemma {:induction false} JoinedBlock(st: Style, license: seq<string>, s: string)
    ensures Joined(BlockLines(st, license)) + s
         == Joined(OptionalLine(st.pre)) + (Joined(LicenseLines(st, license)) + (Joined(OptionalLine(st.post)) + s))
  {
    var a, b, c := OptionalLine(st.pre), LicenseLines(st, license), OptionalLine(st.post);
    JoinedAppend(a + b, c);
    JoinedAppend(a, b);
    Nested(Joined(a), Joined(b), Joined(c), s);
  }

  lemma {:induction false} Nested(w: string, x: string, y: string, z: string)
    ensures w + x + y + z == w + (x + (y + z))
  {
  }

  lemma {:induction false} BehindParts(st: Style, license: seq<string>, s0: string, s1: string, s2: string, s3: string)
    requires BehindLine(Normalize(st.pre), s0) == Written(s1)
    requires BehindLicense(license, s1) == Written(s2)
    requires BehindLine(Normalize(st.post), s2) == Written(s3)
    ensures BehindBlock(st, license, s0) == Written(s3)
  {
  }

  lemma {:induction false} BehindWholeBlock(st: Style, license: seq<string>, s: string)
    requires Usable(st, license)
    ensures BehindBlock(st, license, Joined(BlockLines(st, license)) + s) == Written(s)
  {
    var s2 := Joined(OptionalLine(st.post)) + s;
    var s1 := Joined(LicenseLines(st, license)) + s2;
    var s0 := Joined(OptionalLine(st.pre)) + s1;
    BehindOptionalLine(st.pre, s1);
    BehindLicenseLines(st, license, s2);
    BehindOptionalLine(st.post, s);
    BehindParts(st, license, s0, s1, s2, s);
    JoinedBlock(st, license, s);
  }

  // ----- The header lines are recognised -----

  lemma {:induction false} KeptStartsWithHeader(hs: seq<Header>, s: string)
    ensures Headers(hs, s).0 != "" ==> LooksLikeHeader(FirstLine(s)) && FirstLine(s) != "" && FirstLine(s) != BLANK
  {
    NotHeaders();
    if hs != [] && !Is(hs[0], FirstLine(s)) {
      KeptStartsWithHeader(hs[1..], s);
    }
  }

  lemma {:induction false} HeadersOfNothing(hs: seq<Header>)
    ensures Headers(hs, "") == ("", "")
  {
  }

  /** The first line of a text that has a line feed does not depend on what is appended. */
  lemma {:induction false} FirstLineOfPrefix(k: string, x: string)
    requires LF in k
    ensures FirstLine(k + x) == FirstLine(k) && IsLine(FirstLine(k)) && AfterLine(k + x) == AfterLine(k) + x
  {
    FirstLineIsLine(k);
    var l := FirstLine(k);
    assert l + (AfterLine(k) + x) == k + x;
    FirstLineOf(l, AfterLine(k) + x);
  }

  /** `kept` with the licence in place of the body. */
  function Before(kept: string, b: string): string {
    if kept == "" then b else kept + (BLANK + b)
  }

  predicate Complete(kept: string) {
    kept == "" || kept[|kept| - 1] == LF
  }

  lemma {:induction false} CompleteHasLineFeed(k: string)
    requires Complete(k) && k != ""
    ensures LF in k
  {
    assert k[|k| - 1] in k;
  }

  /** Behind the first of the header lines come the others. */
  lemma {:induction false} KeptFirstAndRest(hs: seq<Header>, s: string)
    requires hs != [] && Is(hs[0], FirstLine(s)) && Complete(Headers(hs, s).0)
    ensures var kept := Headers(hs, s).0;
            var kept' := Headers(hs[1..], AfterLine(s)).0;
            && kept == FirstLine(s) + kept' && LF in kept
            && FirstLine(kept) == FirstLine(s) && AfterLine(kept) == kept' && Complete(kept')
  {
    NotHeaders();
    var kept := Headers(hs, s).0;
    CompleteHasLineFeed(kept);
    FirstLineOfPrefix(kept, Headers(hs, s).1);
  }

  /** The blank line put behind the headers is skipped when no header is left, and a header is not
      taken for it. */
  lemma {:induction false} SkipBlankBefore(hs: seq<Header>, s: string, b: string)
    requires Complete(Headers(hs, s).0)
    ensures var kept := Headers(hs, s).0; SkipBlank(kept + (BLANK + b)) == Before(kept, b)
  {
    var kept := Headers(hs, s).0;
    if kept == "" {
      FirstLineOf(BLANK, b);
      NothingAdded(BLANK + b);
    } else {
      CompleteHasLineFeed(kept);
      KeptStartsWithHeader(hs, s);
      FirstLineOfPrefix(kept, Headers(hs, s).1);
      FirstLineOfPrefix(kept, BLANK + b);
    }
  }

  /** When the first line of `s` is a header that is kept, the rest behaves like the whole. */
  lemma {:induction false} BeforeRest(hs: seq<Header>, s: string, b: string)
    requires hs != [] && Is(hs[0], FirstLine(s)) && Complete(Headers(hs, s).0)
    ensures var kept := Headers(hs, s).0;
            var kept' := Headers(hs[1..], AfterLine(s)).0;
            && Complete(kept') && kept == FirstLine(s) + kept' && kept != ""
            && FirstLine(Before(kept, b)) == FirstLine(s)
            && SkipBlank(AfterLine(Before(kept, b))) == Before(kept', b)
  {
    KeptFirstAndRest(hs, s);
    FirstLineOfPrefix(Headers(hs, s).0, BLANK + b);
    SkipBlankBefore(hs[1..], AfterLine(s), b);
  }

  /** When it is not, it is not taken for that header on removal either. */
  lemma {:induction false} BeforeSame(hs: seq<Header>, s: string, b: string)
    requires hs != [] && !Is(hs[0], FirstLine(s)) && Complete(Headers(hs, s).0)
    requires !LooksLikeHeader(FirstLine(b))
    ensures !Is(hs[0], FirstLine(Before(Headers(hs, s).0, b)))
  {
    var kept := Headers(hs, s).0;
    if kept != "" {
      assert kept[|kept| - 1] in kept;
      FirstLineOfPrefix(kept, Headers(hs, s).1);
      FirstLineOfPrefix(kept, BLANK + b);
    }
  }

  lemma {:induction false} SkippingHeaders(hs: seq<Header>, s: string, b: string)
    requires !LooksLikeHeader(FirstLine(b)) && Complete(Headers(hs, s).0)
    ensures HeadersSkipping(hs, Before(Headers(hs, s).0, b)) == (Headers(hs, s).0, b)
    decreases |hs|
  {
    if hs != [] {
      if Is(hs[0], FirstLine(s)) {
        BeforeRest(hs, s, b);
        SkippingHeaders(hs[1..], AfterLine(s), b);
      } else {
        BeforeSame(hs, s, b);
        SkippingHeaders(hs[1..], s, b);
      }
    }
  }

  // ----- No copyright notice appears -----

  lemma {:induction false} NoNoticeInLines(ls: seq<string>)
    requires forall i :: 0 <= i < |ls| ==> IsLine(ls[i]) && !Contains(ls[i], NOTICE)
    ensures !Contains(Joined(ls), NOTICE) && (ls != [] ==> Joined(ls) != "" && Joined(ls)[|Joined(ls)| - 1] == LF)
  {
    if ls != [] {
      NoNoticeInLines(ls[1..]);
      NoNoticeBetween(ls[0], Joined(ls[1..]));
    }
  }

  lemma {:induction false} NoNoticeBetween(x: string, y: string)
    requires (x == "" || x[|x| - 1] == LF) && !Contains(x, NOTICE) && !Contains(y, NOTICE)
    ensures !Contains(x + y, NOTICE)
  {
    if Contains(x + y, NOTICE) {
      NoticeIsLine();
      LineOccursInPart(x, y, NOTICE);
    }
  }

  lemma {:induction false} NoNoticeInPart(a: string, s: string, b: string)
    requires !Contains(a + s + b, NOTICE)
    ensures !Contains(s, NOTICE)
  {
    if Contains(s, NOTICE) {
      ContainsInside(a, s, b, NOTICE);
    }
  }

  lemma {:induction false} NoNoticeBelow(body: string)
    requires !Contains(body, NOTICE)
    ensures !Contains(Below(body), NOTICE)
  {
    NoticeIsLine();
    var behind := SkipBlank(body);
    var front := body[..|body| - |behind|];
    assert front + behind + "" == body;
    NoNoticeInPart(front, behind, "");
    NoNoticeBetween(BLANK, behind);
  }

  lemma {:induction false} NoNoticeBefore(kept: string, b: string)
    requires Complete(kept) && !Contains(kept, NOTICE) && !Contains(b, NOTICE)
    ensures !Contains(Before(kept, b), NOTICE)
  {
    NoticeIsLine();
    NoNoticeBetween(BLANK, b);
    NoNoticeBetween(kept, BLANK + b);
  }

  lemma {:induction false} NoNoticeAdded(text: string, st: Style, license: seq<string>)
    requires Usable(st, license) && !Contains(text, NOTICE) && HeadersComplete(text)
    ensures !Contains(Added(text, st, license), NOTICE)
  {
    var (kept, body) := Headers(HEADERS, text);
    assert "" + kept + body == text && kept + body + "" == text;
    NoNoticeInPart("", kept, body);
    NoNoticeInPart(kept, body, "");
    NoNoticeBelow(body);
    BlockLinesAreLines(st, license);
    NoNoticeInLines(BlockLines(st, license));
    var block := Joined(BlockLines(st, license));
    NoNoticeBetween(block, Below(body));
    NoNoticeBefore(kept, block + Below(body));
    AddedShape(text, st, license, kept, body);
  }

  // ----- The round trip -----

  lemma {:induction false} FirstOfJoined(ls: seq<string>, s: string)
    requires ls != [] && IsLine(ls[0])
    ensures FirstLine(Joined(ls) + s) == ls[0]
  {
    FirstLineOf(ls[0], Joined(ls[1..]) + s);
    assert Joined(ls) + s == ls[0] + (Joined(ls[1..]) + s);
  }

  lemma {:induction false} FirstOfBelow(body: string)
    ensures FirstLine(Below(body)) == if body == "" then "" else BLANK
    ensures SkipBlank(Below(body)) == SkipBlank(body)
  {
  }

  lemma {:induction false} FirstWrittenLine(st: Style, license: seq<string>, body: string)
    requires Usable(st, license)
    ensures !LooksLikeHeader(FirstLine(Joined(BlockLines(st, license)) + Below(body)))
  {
    var ls := BlockLines(st, license);
    BlockLinesAreLines(st, license);
    if ls == [] {
      assert Joined(ls) + Below(body) == Below(body);
      FirstOfBelow(body);
      NotHeaders();
    } else {
      FirstOfJoined(ls, Below(body));
    }
  }

  lemma {:induction false} AddedShape(text: string, st: Style, license: seq<string>, kept: string, body: string)
    requires !Contains(text, NOTICE) && Headers(HEADERS, text) == (kept, body)
    ensures var b := Joined(BlockLines(st, license)) + Below(body);
            Added(text, st, license) == Before(kept, b)
  {
    Regrouped(kept, if kept == "" then "" else BLANK, Joined(BlockLines(st, license)), Below(body));
  }

  lemma {:induction false} Regrouped(w: string, x: string, y: string, z: string)
    ensures w + x + y + z == if w == "" && x == "" then y + z else w + (x + (y + z))
  {
  }

  lemma {:induction false} RemovedShape(t: string, st: Style, license: seq<string>, kept: string, s: string,
                                        behind: string)
    requires !Contains(t, NOTICE) && HeadersSkipping(HEADERS, t) == (kept, s)
    requires BehindBlock(st, license, s) == Written(behind)
    ensures Removed(t, st, license) == Written(kept + SkipBlank(behind))
  {
  }

  /** What comes back: everything but one blank line directly behind the header lines, or at the
      very start when there are none. No mismatch is ever reported. */
  lemma {:induction false} RemovedAfterAdded(text: string, st: Style, license: seq<string>)
    requires Usable(st, license) && !Contains(text, NOTICE) && HeadersComplete(text)
    ensures var (kept, body) := Headers(HEADERS, text);
            Removed(Added(text, st, license), st, license) == Written(kept + SkipBlank(body))
  {
    var (kept, body) := Headers(HEADERS, text);
    var b := Joined(BlockLines(st, license)) + Below(body);
    AddedShape(text, st, license, kept, body);
    NoNoticeAdded(text, st, license);
    FirstWrittenLine(st, license, body);
    SkippingHeaders(HEADERS, text, b);
    BehindWholeBlock(st, license, Below(body));
    RemovedShape(Added(text, st, license), st, license, kept, b, Below(body));
    FirstOfBelow(body);
  }

  // ----- Header lines without a line feed -----

  lemma {:induction false} IsIgnoresLineFeed(h: Header, l: string)
    requires LF !in l
    ensures Is(h, l + "\n") <==> Is(h, l)
  {
    var m := l + "\n";
    assert m[..|l|] == l;
    match h {
      case Interpreter => PrefixIgnoresLineFeed(l, "#!");
      case XmlDeclaration => PrefixIgnoresLineFeed(l, "<?xml");
      case EmacsMode =>
        if Contains(l, "-*-") {
          ContainsInside("", l, "\n", "-*-");
          assert "" + l + "\n" == m;
        }
        if Contains(m, "-*-") {
          var i :| 0 <= i <= |m| && OccursAt(m, "-*-", i);
          assert m[i..i + 3][2] == '-';
          assert m[i + 2] == '-';
          assert l[i..i + 3] == m[i..i + 3];
          assert OccursAt(l, "-*-", i);
        }
    }
  }

  lemma {:induction false} PrefixIgnoresLineFeed(l: string, t: string)
    requires LF !in t
    ensures StartsWith(l + "\n", t) <==> StartsWith(l, t)
  {
    var m := l + "\n";
    assert forall i :: 0 <= i < |t| ==> t[i] in t;
    assert m[..|m|] == m && m[|l|] == LF;
    assert |t| <= |l| ==> m[..|t|] == l[..|t|];
  }

  lemma {:induction false} RestOfCutHeaders(hs: seq<Header>, s: string)
    requires hs != [] && LF in s && s[|s| - 1] != LF
    requires Is(hs[0], FirstLine(s)) && Headers(hs, s).0 == s
    ensures var s' := AfterLine(s);
            s' != "" && s'[|s'| - 1] != LF && Headers(hs[1..], s').0 == s' && FirstLine(s') != BLANK
  {
    var l, s' := FirstLine(s), AfterLine(s);
    FirstLineOfPrefix(s, "");
    assert s == l + s';
    assert s' != "" && s'[|s'| - 1] == s[|s| - 1];
    assert (l + Headers(hs[1..], s').0)[|l|..] == Headers(hs[1..], s').0;
    KeptStartsWithHeader(hs[1..], s');
  }

  /** The step of the proof below over a complete header line. */
  lemma {:induction false} CutHeaderBehind(hs: seq<Header>, s: string, b: string)
    requires hs != [] && LF in s && Is(hs[0], FirstLine(s))
    requires AfterLine(s) != "" && FirstLine(AfterLine(s)) != BLANK
    ensures |HeadersSkipping(hs, s + (BLANK + b)).0|
         == |FirstLine(s)| + |HeadersSkipping(hs[1..], AfterLine(s) + (BLANK + b)).0|
  {
    FirstLineOfPrefix(s, BLANK + b);
    NotBlankFirst(AfterLine(s), b);
  }

  lemma {:induction false} LastLine(s: string)
    requires LF !in s
    ensures FirstLine(s) == s
  {
    if s != "" {
      LastLine(s[1..]);
    }
  }

  lemma {:induction false} CompletedLine(s: string, b: string)
    requires LF !in s
    ensures FirstLine(s + (BLANK + b)) == s + "\n"
  {
    EndedIsLine(s);
    FirstLineOf(s + "\n", b);
    assert s + (BLANK + b) == (s + "\n") + b;
  }

  lemma {:induction false} SkippingStep(hs: seq<Header>, t: string)
    requires hs != []
    ensures if Is(hs[0], FirstLine(t)) then |HeadersSkipping(hs, t).0| >= |FirstLine(t)|
            else HeadersSkipping(hs, t) == HeadersSkipping(hs[1..], t)
  {
  }

  /** A header cut off by the end of the file gains a line feed, and keeps it. */
  lemma {:induction false} CutHeaderGrows(hs: seq<Header>, s: string, b: string)
    requires s != "" && s[|s| - 1] != LF && Headers(hs, s).0 == s
    ensures |HeadersSkipping(hs, s + (BLANK + b)).0| > |s|
    decreases |hs|
  {
    if LF !in s {
      LastLine(s);
      CompletedLine(s, b);
      IsIgnoresLineFeed(hs[0], s);
      SkippingStep(hs, s + (BLANK + b));
      if !Is(hs[0], s) {
        CutHeaderGrows(hs[1..], s, b);
      }
    } else if Is(hs[0], FirstLine(s)) {
      RestOfCutHeaders(hs, s);
      CutHeaderBehind(hs, s, b);
      CutHeaderGrows(hs[1..], AfterLine(s), b);
    } else {
      FirstLineOfPrefix(s, BLANK + b);
      CutHeaderGrows(hs[1..], s, b);
    }
  }

  lemma {:induction false} NotBlankFirst(s: string, b: string)
    requires s != "" && FirstLine(s) != BLANK
    ensures SkipBlank(s + (BLANK + b)) == s + (BLANK + b)
  {
  }

  lemma {:induction false} IncompleteMeansAllHeaders(hs: seq<Header>, s: string)
    requires var kept := Headers(hs, s).0; kept != "" && kept[|kept| - 1] != LF
    ensures Headers(hs, s) == (s, "")
    decreases |hs|
  {
    if hs != [] {
      if Is(hs[0], FirstLine(s)) {
        FirstLineIsLine(s);
        NotHeaders();
        var l, s' := FirstLine(s), AfterLine(s);
        if IsLine(l) {
          var kept' := Headers(hs[1..], s').0;
          assert kept' == "" ==> Headers(hs, s).0 == l;
          IncompleteMeansAllHeaders(hs[1..], s');
        } else {
          HeadersOfNothing(hs[1..]);
        }
      } else {
        IncompleteMeansAllHeaders(hs[1..], s);
      }
    }
  }

  /** A notice that a text only has with something behind it ends behind the text. */
  lemma {:induction false} NoticeEndsBehind(text: string, x: string)
    requires !Contains(text, NOTICE) && Contains(text + x, NOTICE)
    ensures NoticeEnd(text + x) > |text|
  {
    var i := FirstOccurrence(text + x, NOTICE);
    if i + |NOTICE| <= |text| {
      OccursInFront(text, x, NOTICE, i);
    }
  }

  lemma {:induction false} CutHeaderIsNotRestored(text: string, st: Style, license: seq<string>)
    requires !Contains(text, NOTICE) && !HeadersComplete(text)
    ensures Removed(Added(text, st, license), st, license) != Written(text)
  {
    IncompleteMeansAllHeaders(HEADERS, text);
    var block := Joined(BlockLines(st, license));
    assert Added(text, st, license) == text + (BLANK + block);
    if Contains(text + (BLANK + block), NOTICE) {
      NoticeEndsBehind(text, BLANK + block);
      KeepsFront(text + (BLANK + block), st, license);
    } else {
      CutHeaderGrows(HEADERS, text, block);
    }
  }

  lemma {:induction false} KeepsFront(text: string, st: Style, license: seq<string>)
    requires Contains(text, NOTICE)
    ensures var r := RemovedFromNotice(text, st, license); r.Written? ==> |r.text| >= NoticeEnd(text)
  {
  }

  /** For a file without a notice block, removing undoes adding if and only if no blank line follows
      the header lines directly (or starts the file when there are none) and the last header line
      is not cut off by the end of the file. */
  lemma {:induction false} RoundTripBehindHeaders(text: string, st: Style, license: seq<string>)
    requires Usable(st, license) && !Contains(text, NOTICE)
    ensures Removed(Added(text, st, license), st, license) == Written(text)
       <==> HeadersComplete(text) && !BlankBehindHeaders(text)
  {
    if HeadersComplete(text) {
      RemovedAfterAdded(text, st, license);
      var (kept, body) := Headers(HEADERS, text);
      if BlankBehindHeaders(text) {
        assert |kept + SkipBlank(body)| < |text|;
      }
    } else {
      CutHeaderIsNotRestored(text, st, license);
    }
  }

  /** The licence can be told from the rest of a file, where it goes in that file. */
  predicate CanTell(text: string, st: Style, license: seq<string>) {
    if Contains(text, NOTICE) then N.NoticeUsable(st, license) else Usable(st, license)
  }

  /** What the file itself has to meet. */
  predicate ComesBack(text: string, st: Style) {
    if Contains(text, NOTICE) then N.NoContributors(text, st)
    else HeadersComplete(text) && !BlankBehindHeaders(text)
  }

  /** For every file, removing undoes adding if and only if the file comes back by these rules. */
  lemma {:induction false} RoundTrip(text: string, st: Style, license: seq<string>)
    requires CanTell(text, st, license)
    ensures Removed(Added(text, st, license), st, license) == Written(text) <==> ComesBack(text, st)
  {
    if Contains(text, NOTICE) {
      N.RoundTrip(text, st, license);
    } else {
      RoundTripBehindHeaders(text, st, license);
    }
  }
}
