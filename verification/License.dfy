/** Inserting a licence text at the head of a file, after its header lines, or into its copyright
    notice block if it has one, and removing it again. */
module License {
  import opened LicenseNotice
  import opened LicenseText
  import opened Lines

  // ----- Header lines -----

  datatype Header = Interpreter | EmacsMode | XmlDeclaration

  predicate Is(h: Header, line: string) {
    match h
    case Interpreter => StartsWith(line, "#!")
    case EmacsMode => Contains(line, "-*-")
    case XmlDeclaration => StartsWith(line, "<?xml")
  }

  const HEADERS: seq<Header> := [Interpreter, EmacsMode, XmlDeclaration]

  predicate LooksLikeHeader(line: string) {
    Is(Interpreter, line) || Is(EmacsMode, line) || Is(XmlDeclaration, line)
  }

  /** Splits off the header lines, each kind at most once and in this order. */
  function Headers(hs: seq<Header>, s: string): (r: (string, string))
    ensures r.0 + r.1 == s
  {
    if hs == [] then ("", s)
    else if Is(hs[0], FirstLine(s)) then
      var (kept, body) := Headers(hs[1..], AfterLine(s));
      (FirstLine(s) + kept, body)
    else Headers(hs[1..], s)
  }

  /** What makes a line one to be kept. */
  lemma {:induction false} HeaderKinds(line: string)
    ensures Is(Interpreter, line) <==> "#!" <= line
    ensures Is(EmacsMode, line) <==> Contains(line, "-*-")
    ensures Is(XmlDeclaration, line) <==> "<?xml" <= line
  {
  }

  /** What is in front of `s` if it is to be kept, and what is behind that. */
  function Kept(keep: bool, s: string): (string, string) {
    if keep then (FirstLine(s), AfterLine(s)) else ("", s)
  }

  lemma {:induction false} HeadersStep(h: Header, hs: seq<Header>, s: string)
    ensures var (line, behind) := Kept(Is(h, FirstLine(s)), s);
            var (kept, body) := Headers(hs, behind);
            Headers([h] + hs, s) == (line + kept, body)
  {
    assert ([h] + hs)[1..] == hs;
    assert "" + Headers(hs, s).0 == Headers(hs, s).0;
  }

  lemma {:induction false} Regroup(a: string, b: string, c: string)
    ensures a + (b + (c + "")) == a + b + c
  {
  }

  /** What stays on top of the file: a line that starts with "#!", then one with "-*-" in it, then one
      that starts with "<?xml", as far as they are there. */
  lemma {:induction false} KeptOnTop(s: string)
    ensures var (a, t) := Kept("#!" <= FirstLine(s), s);
            var (b, u) := Kept(Contains(FirstLine(t), "-*-"), t);
            var (c, body) := Kept("<?xml" <= FirstLine(u), u);
            Headers(HEADERS, s) == (a + b + c, body)
  {
    var (a, t) := Kept("#!" <= FirstLine(s), s);
    var (b, u) := Kept(Contains(FirstLine(t), "-*-"), t);
    var (c, body) := Kept("<?xml" <= FirstLine(u), u);
    HeaderKinds(FirstLine(s));
    HeaderKinds(FirstLine(t));
    HeaderKinds(FirstLine(u));
    HeadersStep(Interpreter, [EmacsMode, XmlDeclaration], s);
    HeadersStep(EmacsMode, [XmlDeclaration], t);
    HeadersStep(XmlDeclaration, [], u);
    assert HEADERS == [Interpreter] + [EmacsMode, XmlDeclaration];
    assert [EmacsMode, XmlDeclaration] == [EmacsMode] + [XmlDeclaration];
    assert [XmlDeclaration] == [XmlDeclaration] + [];
    Regroup(a, b, c);
  }

  function SkipBlank(s: string): string {
    if FirstLine(s) == BLANK then AfterLine(s) else s
  }

  /** The same on removal, where a blank line behind each header line is dropped. */
  function HeadersSkipping(hs: seq<Header>, s: string): (string, string) {
    if hs == [] then ("", s)
    else if Is(hs[0], FirstLine(s)) then
      var (kept, body) := HeadersSkipping(hs[1..], SkipBlank(AfterLine(s)));
      (FirstLine(s) + kept, body)
    else HeadersSkipping(hs[1..], s)
  }

  /** The text with the headers `hs` still to be looked for in `s`, behind `out`. */
  function Copied(hs: seq<Header>, skipping: bool, out: string, s: string): (string, string) {
    var (kept, body) := if skipping then HeadersSkipping(hs, s) else Headers(hs, s);
    (out + kept, body)
  }

  lemma {:induction false} CopiedStep(h: Header, hs: seq<Header>, skipping: bool, out: string, s: string)
    ensures var behind := if skipping then SkipBlank(AfterLine(s)) else AfterLine(s);
            Copied([h] + hs, skipping, out, s)
            == if Is(h, FirstLine(s)) then Copied(hs, skipping, out + FirstLine(s), behind)
               else Copied(hs, skipping, out, s)
  {
    var behind := if skipping then SkipBlank(AfterLine(s)) else AfterLine(s);
    assert ([h] + hs)[1..] == hs;
    var kept := if skipping then HeadersSkipping(hs, behind).0 else Headers(hs, behind).0;
    assert out + (FirstLine(s) + kept) == (out + FirstLine(s)) + kept;
  }

  lemma {:induction false} HeaderKept(h: Header, hs: seq<Header>, skipping: bool, out: string, line: string,
                                      ahead: string)
    requires line == FirstLine(line + ahead) && Is(h, line)
    ensures Copied([h] + hs, skipping, out, line + ahead)
         == Copied(hs, skipping, out + line, if skipping then SkipBlank(ahead) else ahead)
  {
    CopiedStep(h, hs, skipping, out, line + ahead);
    FirstLineSplit(line, ahead, line + ahead);
  }

  lemma {:induction false} HeaderAbsent(h: Header, hs: seq<Header>, skipping: bool, out: string, line: string,
                                        ahead: string)
    requires line == FirstLine(line + ahead) && !Is(h, line)
    ensures Copied([h] + hs, skipping, out, line + ahead) == Copied(hs, skipping, out, line + ahead)
  {
    CopiedStep(h, hs, skipping, out, line + ahead);
  }

  method ReadLine(ahead: string) returns (line: string, rest: string)
    ensures line == FirstLine(ahead) && rest == AfterLine(ahead) && line + rest == ahead
  {
    line, rest := FirstLine(ahead), AfterLine(ahead);
  }

  /** Copies the line just read if it is a header of this kind, and reads the next one; when
      `skipping`, over one blank line. */
  method CopyHeader(h: Header, ghost hs: seq<Header>, skipping: bool, out: string, line: string, ahead: string)
    returns (out': string, line': string, ahead': string)
    requires line == FirstLine(line + ahead)
    ensures line' == FirstLine(line' + ahead')
    ensures Copied([h] + hs, skipping, out, line + ahead) == Copied(hs, skipping, out', line' + ahead')
    ensures out' == "" <==> out == "" && !Is(h, line)
  {
    if Is(h, line) {
      HeaderKept(h, hs, skipping, out, line, ahead);
      HeaderIsNotEmpty(h);
      out' := out + line;
      line', ahead' := ReadLine(ahead);
      if skipping && line' == BLANK {
        line', ahead' := ReadLine(ahead');
      }
    } else {
      HeaderAbsent(h, hs, skipping, out, line, ahead);
      out', line', ahead' := out, line, ahead;
    }
  }

  lemma {:induction false} HeaderIsNotEmpty(h: Header)
    ensures !Is(h, "")
  {
  }

  lemma {:induction false} FirstLineSplit(line: string, ahead: string, s: string)
    requires s == line + ahead && line == FirstLine(s)
    ensures AfterLine(s) == ahead && (line == "" ==> ahead == "")
  {
  }

  /** Copies all header lines, leaving the reader on the first other line. */
  method CopyHeaders(text: string, skipping: bool) returns (out: string, line: string, ahead: string)
    ensures (out, line + ahead) == if skipping then HeadersSkipping(HEADERS, text) else Headers(HEADERS, text)
    ensures line == FirstLine(line + ahead)
  {
    out, line, ahead := "", FirstLine(text), AfterLine(text);
    assert HEADERS == [Interpreter] + [EmacsMode, XmlDeclaration];
    ghost var whole := if skipping then HeadersSkipping(HEADERS, text) else Headers(HEADERS, text);
    assert Copied(HEADERS, skipping, "", text) == whole by {
      assert "" + whole.0 == whole.0;
    }
    out, line, ahead := CopyHeader(Interpreter, [EmacsMode, XmlDeclaration], skipping, out, line, ahead);
    assert [EmacsMode, XmlDeclaration] == [EmacsMode] + [XmlDeclaration];
    out, line, ahead := CopyHeader(EmacsMode, [XmlDeclaration], skipping, out, line, ahead);
    assert [XmlDeclaration] == [XmlDeclaration] + [];
    out, line, ahead := CopyHeader(XmlDeclaration, [], skipping, out, line, ahead);
    assert Copied([], skipping, out, line + ahead) == (out, line + ahead) by {
      assert out + "" == out;
    }
  }

  // ----- Adding -----

  function Added(text: string, st: Style, license: seq<string>): string {
    if Contains(text, NOTICE) then AddedToNotice(text, st, license)
    else
      var (kept, body) := Headers(HEADERS, text);
      kept + (if kept == "" then "" else BLANK) + Joined(BlockLines(st, license)) + Below(body)
  }

  /** The body behind the licence: one blank line, its own if it starts with one. */
  function Below(body: string): string {
    if body == "" then "" else BLANK + SkipBlank(body)
  }

  method AddLicense(text: string, st: Style, license: seq<string>) returns (r: string)
    ensures r == Added(text, st, license)
  {
    if Contains(text, NOTICE) {
      r := AddToNotice(text, st, license);
      return;
    }
    var out, line, ahead := CopyHeaders(text, false);
    if out != "" {
      out := out + "\n";
    }
    var block := WriteBlock(st, license);
    out := out + block;
    ghost var above := out;
    if line != "" {
      out := out + "\n";
    }
    if line != "" && line != "\n" {
      out := out + line;
    }
    BelowAsWritten(line, ahead, above);
    r := out + ahead;
  }

  /** The blank line, the line read last unless it is blank itself, and the rest of the file. */
  lemma {:induction false} BelowAsWritten(line: string, ahead: string, above: string)
    requires line == FirstLine(line + ahead)
    ensures above + Below(line + ahead) == if line == "" then above + ahead
                                           else if line == BLANK then above + "\n" + ahead
                                           else above + "\n" + line + ahead
  {
  }

  /** The lines around the licence and the licence itself, as they are written. */
  method WriteBlock(st: Style, license: seq<string>) returns (out: string)
    ensures out == Joined(BlockLines(st, license))
  {
    JoinedAppend(OptionalLine(st.pre) + LicenseLines(st, license), OptionalLine(st.post));
    JoinedAppend(OptionalLine(st.pre), LicenseLines(st, license));
    out := "";
    if st.pre != "" {
      out := out + (st.pre + "\n");
    }
    var lines := WriteLines(st, license);
    out := out + lines;
    if st.post != "" {
      out := out + (st.post + "\n");
    }
  }

  // ----- Removing -----

  /** What is left of `s` behind the lines of the licence, if they match. */
  function BehindLicense(license: seq<string>, s: string): Outcome {
    if license == [] then Written(s)
    else if Contains(Normalize(FirstLine(s)), Normalize(license[0])) then BehindLicense(license[1..], AfterLine(s))
    else Mismatch
  }

  /** The same for a single line that must agree as a whole; nothing is expected for "". */
  function BehindLine(expected: string, s: string): Outcome {
    if expected == "" then Written(s)
    else if Normalize(FirstLine(s)) == expected then Written(AfterLine(s))
    else Mismatch
  }

  function BehindBlock(st: Style, license: seq<string>, s: string): Outcome {
    var a := BehindLine(Normalize(st.pre), s);
    if !a.Written? then a
    else
      var b := BehindLicense(license, a.text);
      if !b.Written? then b else BehindLine(Normalize(st.post), b.text)
  }

  function Removed(text: string, st: Style, license: seq<string>): Outcome {
    if Contains(text, NOTICE) then RemovedFromNotice(text, st, license)
    else
      var (kept, s) := HeadersSkipping(HEADERS, text);
      var behind := BehindBlock(st, license, s);
      if behind.Written? then Written(kept + SkipBlank(behind.text)) else behind
  }

  method DelLicense(text: string, st: Style, license: seq<string>) returns (r: Outcome)
    ensures r == Removed(text, st, license)
  {
    if Contains(text, NOTICE) {
      r := DelFromNotice(text, st, license);
      return;
    }
    var out, line, ahead := CopyHeaders(text, true);
    var ok;
    ok, line, ahead := MatchBlock(st, license, line, ahead);
    if !ok {
      return Mismatch;
    }
    FirstLineSplit(line, ahead, line + ahead);
    if line != "" && line != "\n" {
      out := out + line;
    }
    r := Written(out + ahead);
  }

  /** Reads over the lines around the licence and the licence itself, starting with `line`. */
  method MatchBlock(st: Style, license: seq<string>, line0: string, ahead0: string)
    returns (ok: bool, line: string, ahead: string)
    requires line0 == FirstLine(line0 + ahead0)
    ensures BehindBlock(st, license, line0 + ahead0) == if ok then Written(line + ahead) else Mismatch
    ensures line == FirstLine(line + ahead)
  {
    ok, line, ahead := MatchLine(Normalize(st.pre), line0, ahead0);
    if !ok {
      return;
    }
    ghost var s := line + ahead;
    for i := 0 to |license|
      invariant line == FirstLine(line + ahead)
      invariant BehindLicense(license[i..], line + ahead) == BehindLicense(license, s)
    {
      if !Contains(Normalize(line), Normalize(license[i])) {
        return false, line, ahead;
      }
      assert license[i..][1..] == license[i + 1..];
      FirstLineSplit(line, ahead, line + ahead);
      line, ahead := FirstLine(ahead), AfterLine(ahead);
    }
    ok, line, ahead := MatchLine(Normalize(st.post), line, ahead);
  }

  method MatchLine(expected: string, line0: string, ahead0: string)
    returns (ok: bool, line: string, ahead: string)
    requires line0 == FirstLine(line0 + ahead0)
    ensures BehindLine(expected, line0 + ahead0) == if ok then Written(line + ahead) else Mismatch
    ensures line == FirstLine(line + ahead)
  {
    ok, line, ahead := true, line0, ahead0;
    FirstLineSplit(line, ahead, line + ahead);
    if expected != "" {
      if Normalize(line) == expected {
        line, ahead := FirstLine(ahead), AfterLine(ahead);
      } else {
        ok := false;
      }
    }
  }
}
