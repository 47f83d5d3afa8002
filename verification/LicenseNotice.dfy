/** Files with a copyright notice block of their own: the licence goes behind the line that opens
    the block. Where no line feed is ahead, the script takes the next line to start at the beginning
    of the file. */
module LicenseNotice {
  import opened LicenseText
  import opened Lines
  import opened Sequences
  import opened Wrappers

  const CONTRIBUTORS: string := "Contributors"

  function FirstOccurrence(s: string, t: string): (i: nat)
    requires Contains(s, t)
    ensures OccursAt(s, t, i) && forall j: nat :: j < i ==> !OccursAt(s, t, j)
  {
    if StartsWith(s, t) then 0
    else
      OccursLater(s, t);
      1 + FirstOccurrence(s[1..], t)
  }

  lemma {:induction false} OccursOneLater(s: string, t: string, i: nat)
    requires s != ""
    ensures OccursAt(s, t, i + 1) <==> OccursAt(s[1..], t, i)
  {
    if i + 1 + |t| <= |s| {
      assert s[i + 1..i + 1 + |t|] == s[1..][i..i + |t|];
    }
  }

  lemma {:induction false} OccursLater(s: string, t: string)
    requires Contains(s, t) && !StartsWith(s, t)
    ensures s != "" && Contains(s[1..], t)
    ensures forall i: nat :: i > 0 ==> (OccursAt(s, t, i) <==> OccursAt(s[1..], t, i - 1))
  {
    var i :| 0 <= i <= |s| && OccursAt(s, t, i);
    forall k: nat | k > 0
      ensures OccursAt(s, t, k) <==> OccursAt(s[1..], t, k - 1)
    {
      OccursOneLater(s, t, k - 1);
    }
    assert OccursAt(s[1..], t, i - 1);
  }

  /** A line that ends in six dashes or more. */
  predicate IsRule(line: string) {
    |line| >= 7 && line[|line| - 1] == LF && forall i :: |line| - 7 <= i < |line| - 1 ==> line[i] == '-'
  }

  lemma {:induction false} RuleEndsInDashes(line: string)
    ensures IsRule(line) <==> |line| >= 7 && line == line[..|line| - 7] + "------\n"
  {
    if |line| >= 7 {
      var front, end := line[..|line| - 7], line[|line| - 7..];
      assert line == front + end;
      if IsRule(line) {
        assert forall i :: 0 <= i < 6 ==> end[i] == line[|line| - 7 + i] == '-';
        assert end == "------\n";
      }
      if line == front + "------\n" {
        assert end == (front + "------\n")[|line| - 7..] == "------\n";
        assert forall i :: |line| - 7 <= i < |line| - 1 ==> line[i] == end[i - (|line| - 7)] == '-';
      }
    }
  }

  /** Behind the line that opens the notice block, and a rule below it. */
  function NoticeEnd(text: string): (pos: nat)
    requires Contains(text, NOTICE)
    ensures pos <= |text|
  {
    var i := FirstOccurrence(text, NOTICE) + |NOTICE|;
    if IsRule(FirstLine(text[i..])) then i + |FirstLine(text[i..])| else i
  }

  /** The notice ends behind the first "Copyright Notice:" at the end of a line, or, when the next line
      ends in six dashes or more, behind that. */
  lemma {:induction false} WhereTheNoticeEnds(text: string) returns (i: nat, rule: string)
    requires Contains(text, NOTICE)
    ensures OccursAt(text, "Copyright Notice:\n", i)
    ensures forall j: nat :: j < i ==> !OccursAt(text, "Copyright Notice:\n", j)
    ensures var line := FirstLine(text[i + 18..]);
            && rule == (if |line| >= 7 && line == line[..|line| - 7] + "------\n" then line else "")
            && NoticeEnd(text) == i + 18 + |rule|
  {
    i := FirstOccurrence(text, NOTICE);
    RuleEndsInDashes(FirstLine(text[i + 18..]));
    rule := if IsRule(FirstLine(text[i + 18..])) then FirstLine(text[i + 18..]) else "";
  }

  // ----- Adding -----

  function StartLine(st: Style): string {
    TrimRight(st.start) + "\n"
  }

  function AddedToNotice(text: string, st: Style, license: seq<string>): string
    requires Contains(text, NOTICE)
  {
    var pos := NoticeEnd(text);
    text[..pos] + StartLine(st) + Joined(LicenseLines(st, license)) + text[pos..]
  }

  method AddToNotice(text: string, st: Style, license: seq<string>) returns (out: string)
    requires Contains(text, NOTICE)
    ensures out == AddedToNotice(text, st, license)
  {
    var pos := NoticeEnd(text);
    out := text[..pos];
    out := out + (TrimRight(st.start) + "\n");
    var lines := WriteLines(st, license);
    out := out + lines + text[pos..];
  }

  // ----- Lines of what is left -----

  /** The next line; nothing if it is cut off by the end of the file. */
  function CompleteLine(rest: string): (line: string)
    ensures line <= rest
  {
    var line := FirstLine(rest);
    if line != "" && line[|line| - 1] == LF then line else ""
  }

  /** What is left behind the next line: the whole file where none is complete. */
  function Onward(data: string, rest: string): string {
    var line := CompleteLine(rest);
    if line == "" then data else rest[|line|..]
  }

  // ----- Removing -----

  /** What is left behind the lines that are like this one in normal form. */
  function SkipAhead(rest: string, like: string): (r: string)
    ensures |r| <= |rest|
    decreases |rest|
  {
    var line := CompleteLine(rest);
    if line != "" && Normalize(line) == like then SkipAhead(rest[|line|..], like) else rest
  }

  /** The same, going on at the beginning of the file where no line is complete. */
  function SkipLike(data: string, rest: string, like: string): string {
    var r := SkipAhead(rest, like);
    if CompleteLine(r) == "" && like == "" then SkipAhead(data, like) else r
  }

  function BehindLines(data: string, rest: string, license: seq<string>): Option<string>
    decreases |license|
  {
    if license == [] then Some(rest)
    else if Contains(Normalize(CompleteLine(rest)), Normalize(license[0]))
    then BehindLines(data, Onward(data, rest), license[1..])
    else None
  }

  /** A line of a list: it starts like a comment and says something. */
  predicate InList(line: string, start: string) {
    StartsWith(Normalize(line), start) && |Normalize(line)| > 1
  }

  /** More than one character is enough, with the start of a comment in front. */
  lemma {:induction false} ListLines(line: string, start: string)
    ensures InList(line, start) <==> start <= Normalize(line) && |Normalize(line)| >= 2
  {
    assert StartsWith(Normalize(line), start) <==> start <= Normalize(line);
  }

  /** What is left behind a list. */
  function BehindList(rest: string, start: string): (r: string)
    ensures |r| <= |rest|
    decreases |rest|
  {
    var line := CompleteLine(rest);
    if line != "" && InList(line, start) then BehindList(rest[|line|..], start) else rest
  }

  predicate SaysContributors(line: string) {
    Contains(Normalize(line), CONTRIBUTORS)
  }

  /** What is left behind a list of contributors, if one follows, with one comment line before it. */
  function BehindContributors(data: string, rest: string, start: string): string {
    var r := if Normalize(CompleteLine(rest)) == start then Onward(data, rest) else rest;
    if SaysContributors(CompleteLine(r)) then BehindList(r, start) else rest
  }

  /** An empty licence makes the script fail. */
  function RemovedFromNotice(text: string, st: Style, license: seq<string>): Outcome
    requires Contains(text, NOTICE)
  {
    var pos, start := NoticeEnd(text), Normalize(st.start);
    var behind := BehindLines(text, SkipLike(text, text[pos..], start), license);
    if behind == None then Mismatch
    else if license == [] then Failed
    else Written(text[..pos] + BehindContributors(text, behind.value, start))
  }

  // ----- Lines by position -----

  /** Where the line behind the one at `pos` starts: 0 where no line feed is ahead. */
  function NextLine(data: string, pos: nat): (next: nat)
    requires pos <= |data|
    ensures next == 0 || pos < next <= |data|
    decreases |data| - pos
  {
    if pos == |data| then 0 else if data[pos] == LF then pos + 1 else NextLine(data, pos + 1)
  }

  function Slice(data: string, i: nat, j: nat): string
    requires j <= |data|
  {
    if i <= j then data[i..j] else ""
  }

  lemma {:induction false} CompleteLineOfRest(rest: string)
    requires rest != "" && rest[0] != LF
    ensures var line := CompleteLine(rest[1..]);
            CompleteLine(rest) == if line == "" then "" else [rest[0]] + line
  {
  }

  lemma {:induction false} NextLineLength(data: string, pos: nat)
    requires pos <= |data|
    ensures var line := CompleteLine(data[pos..]);
            NextLine(data, pos) == if line == "" then 0 else pos + |line|
    decreases |data| - pos
  {
    if pos < |data| && data[pos] != LF {
      assert data[pos..][1..] == data[pos + 1..];
      CompleteLineOfRest(data[pos..]);
      NextLineLength(data, pos + 1);
    }
  }

  /** The line at a position and what is behind it. */
  lemma {:induction false} LineAt(data: string, pos: nat)
    requires pos <= |data|
    ensures var next := NextLine(data, pos);
            && Slice(data, pos, next) == CompleteLine(data[pos..])
            && data[next..] == Onward(data, data[pos..])
            && (next == 0 <==> CompleteLine(data[pos..]) == "")
  {
    NextLineLength(data, pos);
    var line := CompleteLine(data[pos..]);
    assert data[0..] == data;
    assert line != "" ==>
        data[pos..pos + |line|] == data[pos..][..|line|] && data[pos..][|line|..] == data[pos + |line|..];
  }

  // ----- The loops end -----

  lemma {:induction false} NoticeIsSaid(line: string)
    requires Contains(line, NOTICE)
    ensures Normalize(line) != ""
  {
    var i :| 0 <= i <= |line| && OccursAt(line, NOTICE, i);
    var a, b := line[..i], line[i + |NOTICE|..];
    assert line == a + NOTICE + b;
    NormalizedInside(a, NOTICE, b);
    assert Words(NOTICE) != [];
    assert Normalize(NOTICE) != "";
  }

  lemma {:induction false} NoticeHasLineFeed(s: string)
    requires Contains(s, NOTICE)
    ensures LF in s
  {
    var i :| 0 <= i <= |s| && OccursAt(s, NOTICE, i);
    AtSlice(s, i, i + |NOTICE|, |NOTICE| - 1);
    assert s[i + |NOTICE| - 1] == LF;
  }

  lemma {:induction false} NoticeIsLine()
    ensures IsLine(NOTICE) && !Contains(BLANK, NOTICE) && !Contains("", NOTICE)
  {
  }

  lemma {:induction false} NoticeEndsItsLine(s: string)
    requires Contains(s, NOTICE)
    ensures IsLine(FirstLine(s)) && CompleteLine(s) == FirstLine(s)
    ensures Contains(FirstLine(s), NOTICE) || Contains(AfterLine(s), NOTICE)
  {
    NoticeHasLineFeed(s);
    FirstLineIsLine(s);
    NoticeIsLine();
    LineOccursInPart(FirstLine(s), AfterLine(s), NOTICE);
  }

  lemma {:induction false} NothingSaid(start: string)
    ensures Normalize("") == "" && !InList("", start)
  {
  }

  /** Skipping blank lines stops at the line with the notice. */
  lemma {:induction false} StopsAtNotice(rest: string)
    requires Contains(rest, NOTICE)
    ensures CompleteLine(SkipAhead(rest, "")) != ""
    decreases |rest|
  {
    NoticeEndsItsLine(rest);
    var line := FirstLine(rest);
    if Normalize(line) == "" {
      if Contains(line, NOTICE) {
        NoticeIsSaid(line);
      }
      StopsAtNotice(AfterLine(rest));
    }
  }

  /** The state of skipping from `rest0`, with `rest` left; `again` when it has begun anew. */
  ghost predicate Skipping(data: string, rest0: string, start: string, rest: string, again: bool) {
    if again then SkipAhead(rest, start) == SkipLike(data, rest0, start) && CompleteLine(SkipAhead(rest, start)) != ""
    else SkipLike(data, rest, start) == SkipLike(data, rest0, start)
  }

  lemma {:induction false} SkipStep(data: string, rest0: string, start: string, rest: string, again: bool)
    requires Contains(data, NOTICE)
    requires Skipping(data, rest0, start, rest, again) && Normalize(CompleteLine(rest)) == start
    ensures Skipping(data, rest0, start, Onward(data, rest), again || CompleteLine(rest) == "")
    ensures again ==> CompleteLine(rest) != ""
  {
    if CompleteLine(rest) == "" {
      NothingSaid(start);
      StopsAtNotice(data);
    }
  }

  lemma {:induction false} SkipDone(data: string, rest0: string, start: string, rest: string, again: bool)
    requires Skipping(data, rest0, start, rest, again) && Normalize(CompleteLine(rest)) != start
    ensures rest == SkipLike(data, rest0, start)
  {
    NothingSaid(start);
  }

  /** Reads over the line that opens the licence and all like it. */
  method SkipStart(data: string, pos0: nat, start: string) returns (pos: nat)
    requires pos0 <= |data| && Contains(data, NOTICE)
    ensures pos <= |data| && data[pos..] == SkipLike(data, data[pos0..], start)
  {
    pos := pos0;
    var nl := NextLine(data, pos);
    ghost var again := false;
    LineAt(data, pos);
    while Normalize(Slice(data, pos, nl)) == start
      invariant pos <= |data| && nl == NextLine(data, pos)
      invariant Skipping(data, data[pos0..], start, data[pos..], again)
      invariant Slice(data, pos, nl) == CompleteLine(data[pos..]) && data[nl..] == Onward(data, data[pos..])
      invariant nl == 0 <==> CompleteLine(data[pos..]) == ""
      decreases !again, |data| - pos
    {
      SkipStep(data, data[pos0..], start, data[pos..], again);
      again := again || nl == 0;
      pos := nl;
      nl := NextLine(data, pos);
      LineAt(data, pos);
    }
    SkipDone(data, data[pos0..], start, data[pos..], again);
  }

  method MatchLines(data: string, pos0: nat, license: seq<string>) returns (ok: bool, pos: nat)
    requires pos0 <= |data|
    ensures pos <= |data|
    ensures BehindLines(data, data[pos0..], license) == if ok then Some(data[pos..]) else None
  {
    pos := pos0;
    var nl := NextLine(data, pos);
    var line := Slice(data, pos, nl);
    for i := 0 to |license|
      invariant pos <= |data| && nl == NextLine(data, pos) && line == Slice(data, pos, nl)
      invariant BehindLines(data, data[pos..], license[i..]) == BehindLines(data, data[pos0..], license)
    {
      LineAt(data, pos);
      if !Contains(Normalize(line), Normalize(license[i])) {
        return false, pos;
      }
      assert license[i..][1..] == license[i + 1..];
      pos := nl;
      nl := NextLine(data, pos);
      line := Slice(data, pos, nl);
    }
    ok := true;
  }

  /** Reads over a list of contributors. */
  method SkipList(data: string, pos0: nat, start: string) returns (pos: nat)
    requires pos0 <= |data|
    ensures pos <= |data| && data[pos..] == BehindList(data[pos0..], start)
  {
    pos := pos0;
    var nl := NextLine(data, pos);
    var line := Slice(data, pos, nl);
    LineAt(data, pos);
    NothingSaid(start);
    while InList(line, start)
      invariant pos <= |data| && nl == NextLine(data, pos)
      invariant line == CompleteLine(data[pos..]) && data[nl..] == Onward(data, data[pos..])
      invariant nl == 0 <==> line == ""
      invariant BehindList(data[pos..], start) == BehindList(data[pos0..], start)
      decreases |data| - pos
    {
      pos := nl;
      nl := NextLine(data, pos);
      line := Slice(data, pos, nl);
      LineAt(data, pos);
    }
  }

  method DelFromNotice(text: string, st: Style, license: seq<string>) returns (r: Outcome)
    requires Contains(text, NOTICE)
    ensures r == RemovedFromNotice(text, st, license)
  {
    var pos, start := NoticeEnd(text), Normalize(st.start);
    var out := text[..pos];
    NormalizeTwice(st.start);
    pos := SkipStart(text, pos, Normalize(start));
    var ok;
    ok, pos := MatchLines(text, pos, license);
    if !ok {
      return Mismatch;
    }
    if license == [] {
      return Failed;
    }
    var pos2, nl := pos, NextLine(text, pos);
    LineAt(text, pos);
    if Normalize(Slice(text, pos, nl)) == Normalize(start) {
      pos2 := nl;
      nl := NextLine(text, pos2);
    }
    LineAt(text, pos2);
    if SaysContributors(Slice(text, pos2, nl)) {
      pos := SkipList(text, pos2, Normalize(start));
    }
    r := Written(out + text[pos..]);
  }
}
