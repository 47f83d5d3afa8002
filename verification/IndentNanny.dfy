/** The indentation rewriter: it accepts a line, rewrites its indent step by step until it is
    acceptable, or gives up. */
module IndentNanny {
  import opened Wrappers

  const LF: char := '\n'
  const TAB: char := '\t'

  /** A line as a reader returns it: a line feed only at its end, if anywhere. */
  predicate SingleLine(s: string) {
    forall i :: 0 <= i < |s| - 1 ==> s[i] != LF
  }

  predicate IsBlankChar(c: char) { c == ' ' || c == TAB }

  // ----- The patterns -----

  predicate OnlyBlanks(s: string) {
    forall i :: 0 <= i < |s| ==> IsBlankChar(s[i]) || (i == |s| - 1 && s[i] == LF)
  }

  predicate Flush(s: string) {
    s != "" && !IsBlankChar(s[0])
  }

  function LeadingTabs(s: string): (n: nat)
    ensures n <= |s|
    ensures forall i :: 0 <= i < n ==> s[i] == TAB
    ensures n < |s| ==> s[n] != TAB
  {
    if s == "" || s[0] != TAB then 0 else 1 + LeadingTabs(s[1..])
  }

  predicate Tabbed(s: string) {
    s != "" && s[0] == TAB && Flush(s[LeadingTabs(s)..])
  }

  predicate TwoSpaces(s: string) {
    |s| >= 2 && s[..2] == "  " && Flush(s[2..])
  }

  predicate CommentStar(s: string) {
    " *" <= s
  }

  predicate AccessLabel(s: string) {
    " public" <= s || " private" <= s
  }

  predicate Good(s: string) {
    OnlyBlanks(s) || Flush(s) || Tabbed(s) || TwoSpaces(s) || CommentStar(s)
  }

  /** The first replacement that applies, if any. */
  function Replaced(s: string): Option<string> {
    var n := LeadingTabs(s);
    if "    " <= s then Some([TAB] + s[4..])
    else if n > 0 && "    " <= s[n..] then Some(s[..n] + [TAB] + s[n + 4..])
    else if AccessLabel(s) then Some(" " + s)
    else None
  }

  method CheckLine(line0: string) returns (r: Option<string>)
    requires SingleLine(line0)
    ensures r == Checked(line0)
  {
    var line := line0;
    while true
      invariant Checked(line) == Checked(line0)
      decreases AccessLabel(line), |line|
    {
      GoodIsKept(line);
      if Good(line) {
        return Some(line);
      }
      var next := Replaced(line);
      ReplacedKeeps(line);
      if next == None {
        return None;
      }
      line := next.value;
    }
  }

  // ----- What it amounts to -----

  /** The text with its indent regrouped: every tab and every four spaces make one tab. */
  function Regrouped(s: string): Option<string> {
    if Flush(s) || s == "" then Some(s)
    else
      var unit := if s[0] == TAB then 1 else 4;
      if s[0] == TAB || "    " <= s then
        var rest := Regrouped(s[unit..]);
        if rest == None then None else Some([TAB] + rest.value)
      else None
  }

  /** A blank line and an acceptable one stay, an indent of tabs and groups of four spaces becomes
      tabs, and an access label gains a space. */
  function Checked(s: string): Option<string> {
    if OnlyBlanks(s) || TwoSpaces(s) || CommentStar(s) then Some(s)
    else if AccessLabel(s) then Some(" " + s)
    else Regrouped(s)
  }

  lemma {:induction false} TabsAreRegrouped(s: string)
    requires Flush(s[LeadingTabs(s)..])
    ensures Regrouped(s) == Some(s)
  {
    if s[0] == TAB {
      assert s[LeadingTabs(s)..] == s[1..][LeadingTabs(s[1..])..];
      TabsAreRegrouped(s[1..]);
      assert [TAB] + s[1..] == s;
    }
  }

  lemma {:induction false} GoodIsKept(s: string)
    ensures Good(s) ==> Checked(s) == Some(s)
  {
    if Tabbed(s) {
      TabsAreRegrouped(s);
    }
  }

  /** `s` with the four characters at `n` replaced by a tab. */
  function TabAt(s: string, n: nat): string
    requires n + 4 <= |s|
  {
    s[..n] + [TAB] + s[n + 4..]
  }

  lemma {:induction false} TabBehindFirst(s: string, n: nat)
    requires 0 < n && n + 4 <= |s|
    ensures TabAt(s, n)[0] == s[0] && TabAt(s, n)[1..] == TabAt(s[1..], n - 1)
  {
    assert s[1..][..n - 1] == s[1..n] && s[1..][n + 3..] == s[n + 4..];
    assert s[..n][1..] == s[1..n];
  }

  lemma {:induction false} RegroupedTab(s: string)
    requires s != "" && s[0] == TAB
    ensures Regrouped(s) == match Regrouped(s[1..]) case None => None case Some(t) => Some([TAB] + t)
  {
  }

  /** Replacing behind leading tabs regroups the same. */
  lemma {:induction false} RegroupedBehindTabs(s: string, n: nat)
    requires n <= LeadingTabs(s) && n + 4 <= |s| && "    " <= s[n..]
    ensures Regrouped(TabAt(s, n)) == Regrouped(s)
  {
    if n == 0 {
      assert TabAt(s, 0)[1..] == s[4..];
      assert s[0] == s[0..][0] == ' ';
      RegroupedTab(TabAt(s, 0));
    } else {
      assert s[1..][n - 1..] == s[n..];
      RegroupedBehindTabs(s[1..], n - 1);
      TabBehindFirst(s, n);
      RegroupedTab(s);
      RegroupedTab(TabAt(s, n));
    }
  }

  lemma {:induction false} NotRegrouped(s: string)
    requires s != "" && !Good(s) && Replaced(s) == None
    ensures Regrouped(s) == None
  {
    TabsThenNothing(s);
  }

  lemma {:induction false} TabsThenNothing(s: string)
    requires s != "" && !Flush(s[LeadingTabs(s)..]) && !("    " <= s[LeadingTabs(s)..])
    requires LeadingTabs(s) < |s|
    ensures Regrouped(s) == None
  {
    if s[0] == TAB {
      assert s[LeadingTabs(s)..] == s[1..][LeadingTabs(s[1..])..];
      TabsThenNothing(s[1..]);
    }
  }

  /** Every replacement leads to the same end, and towards it. */
  lemma {:induction false} ReplacedKeeps(s: string)
    requires !Good(s)
    ensures match Replaced(s)
            case None => Checked(s) == None
            case Some(t) =>
              && Checked(t) == Checked(s)
              && (if AccessLabel(s) then !AccessLabel(t) else !AccessLabel(t) && |t| < |s|)
  {
    var n := LeadingTabs(s);
    if "    " <= s {
      GroupReplaced(s, 0);
      assert TabAt(s, 0) == [TAB] + s[4..];
    } else if n > 0 && "    " <= s[n..] {
      GroupReplaced(s, n);
    } else if AccessLabel(s) {
      LabelReplaced(s);
    } else {
      NotRegrouped(s);
    }
  }

  lemma {:induction false} GroupReplaced(s: string, n: nat)
    requires !Good(s) && n <= LeadingTabs(s) && n + 4 <= |s| && "    " <= s[n..]
    ensures var t := TabAt(s, n);
            Checked(t) == Checked(s) && !AccessLabel(t) && !AccessLabel(s)
  {
    var t := TabAt(s, n);
    RegroupedBehindTabs(s, n);
    assert s[n] == s[n..][0] && s[n + 1] == s[n..][1] && s[n + 2] == s[n..][2] && s[n + 3] == s[n..][3];
    assert n > 0 ==> s[0] == TAB;
    assert t[0] == TAB;
    BlanksReplaced(s, n);
  }

  lemma {:induction false} BlanksReplaced(s: string, n: nat)
    requires n <= LeadingTabs(s) && n + 4 <= |s| && !OnlyBlanks(s)
    requires s[n] == ' ' && s[n + 1] == ' ' && s[n + 2] == ' ' && s[n + 3] == ' '
    ensures !OnlyBlanks(TabAt(s, n))
  {
    var t := TabAt(s, n);
    var i :| 0 <= i < |s| && !IsBlankChar(s[i]) && !(i == |s| - 1 && s[i] == LF);
    assert i >= n + 4;
    assert t[i - 3] == s[i];
  }

  lemma {:induction false} LabelStarts(s: string)
    ensures AccessLabel(s) ==> |s| >= 2 && s[0] == ' ' && s[1] == 'p'
  {
  }

  lemma {:induction false} LabelReplaced(s: string)
    requires AccessLabel(s)
    ensures Checked(" " + s) == Checked(s) && !AccessLabel(" " + s)
  {
    var t := " " + s;
    assert s[0] == ' ' && s[1] == 'p';
    assert t[..2] == "  " && t[2..] == s[1..];
    assert t[1] == ' ';
  }

  // ----- What is accepted, and what comes back -----

  function Indent(s: string): (i: string)
    ensures i <= s && (|i| < |s| ==> s[|i|] != ' ' && s[|i|] != '\t')
    ensures forall k :: 0 <= k < |i| ==> i[k] == ' ' || i[k] == '\t'
  {
    if s == "" || !IsBlankChar(s[0]) then "" else [s[0]] + Indent(s[1..])
  }

  function Body(s: string): string {
    s[|Indent(s)|..]
  }

  /** The column an indent ends in, a tab counting for four. */
  function Width(indent: string): nat {
    if indent == "" then 0 else (if indent[0] == TAB then 4 else 1) + Width(indent[1..])
  }

  /** A sequence of tabs and groups of four spaces. */
  function Spelled(units: seq<bool>): string {
    if units == [] then "" else (if units[0] then "\t" else "    ") + Spelled(units[1..])
  }

  ghost predicate Grouped(indent: string) {
    exists units :: Spelled(units) == indent
  }

  lemma {:induction false} RegroupedIffGrouped(s: string)
    ensures Regrouped(s) != None <==> Grouped(Indent(s))
    decreases |s|
  {
    if Flush(s) || s == "" {
      assert Spelled([]) == Indent(s);
    } else {
      if s[0] == TAB || "    " <= s {
        var unit := if s[0] == TAB then 1 else 4;
        RegroupedIffGrouped(s[unit..]);
        IndentBehindUnit(s);
        GroupedBehindUnit(Indent(s), s[0] == TAB);
      } else {
        assert Indent(s)[0] == s[0];
        forall units
          ensures Spelled(units) != Indent(s)
        {
          assert units != [] ==> (if units[0] then "\t" else "    ") <= Spelled(units);
        }
      }
    }
  }

  lemma {:induction false} IndentOfBlanks(p: string, s: string)
    requires forall k :: 0 <= k < |p| ==> IsBlankChar(p[k])
    ensures Indent(p + s) == p + Indent(s)
  {
    if p == "" {
      assert p + s == s;
    } else {
      assert (p + s)[1..] == p[1..] + s;
      IndentOfBlanks(p[1..], s);
    }
  }

  lemma {:induction false} WidthOfSpaces(p: string, i: string)
    requires forall k :: 0 <= k < |p| ==> p[k] == ' '
    ensures Width(p + i) == |p| + Width(i)
  {
    if p == "" {
      assert p + i == i;
    } else {
      assert (p + i)[1..] == p[1..] + i;
      WidthOfSpaces(p[1..], i);
    }
  }

  lemma {:induction false} IndentBehindUnit(s: string)
    requires s != "" && (s[0] == TAB || "    " <= s)
    ensures var unit := if s[0] == TAB then "\t" else "    ";
            Indent(s) == unit + Indent(s[|unit|..])
  {
  }

  lemma {:induction false} GroupedBehindUnit(i: string, tab: bool)
    requires (if tab then "\t" else "    ") <= i
    ensures Grouped(i) <==> Grouped(i[if tab then 1 else 4..])
  {
    var unit := if tab then "\t" else "    ";
    var rest := i[|unit|..];
    assert i == unit + rest;
    if Grouped(i) {
      var units :| Spelled(units) == i;
      assert units != [] && units[0] == tab;
      assert Spelled(units[1..]) == rest;
    }
    if Grouped(rest) {
      var units :| Spelled(units) == rest;
      assert ([tab] + units)[1..] == units;
      assert Spelled([tab] + units) == i;
    }
  }

  /** A line comes back if and only if it is blank, or its indent is a sequence of tabs and groups
      of four spaces, or exactly two spaces, or it starts like a comment line or an access label. */
  lemma {:induction false} AcceptedLines(s: string)
    ensures Checked(s) != None
       <==> (forall i :: 0 <= i < |s| ==> s[i] == ' ' || s[i] == '\t' || (i == |s| - 1 && s[i] == '\n'))
            || Grouped(Indent(s))
            || (Indent(s) == "  " && Body(s) != "") || " *" <= s || " public" <= s || " private" <= s
  {
    RegroupedIffGrouped(s);
    if |s| >= 2 {
      assert s[2..] == s[1..][1..];
    }
  }

  lemma {:induction false} BehindUnit(s: string)
    requires s != "" && (s[0] == TAB || "    " <= s)
    ensures var rest := s[if s[0] == TAB then 1 else 4..];
            Body(s) == Body(rest) && Width(Indent(s)) == 4 + Width(Indent(rest))
  {
    var rest := s[if s[0] == TAB then 1 else 4..];
    IndentBehindUnit(s);
    if s[0] == TAB {
      assert Indent(s)[1..] == Indent(rest);
    } else {
      WidthOfSpaces("    ", Indent(rest));
    }
  }

  lemma {:induction false} TabInFront(t: string)
    requires Regrouped(t) == Some(t)
    ensures var u := [TAB] + t;
            && Regrouped(u) == Some(u) && Body(u) == Body(t)
            && Indent(u) == [TAB] + Indent(t) && Width(Indent(u)) == 4 + Width(Indent(t))
  {
    var u := [TAB] + t;
    assert u[1..] == t;
    BehindUnit(u);
  }

  predicate AllTabs(indent: string) {
    forall k :: 0 <= k < |indent| ==> indent[k] == TAB
  }

  lemma {:induction false} RegroupedUnit(s: string)
    requires Regrouped(s) != None && !Flush(s) && s != ""
    ensures s[0] == TAB || "    " <= s
    ensures var rest := s[if s[0] == TAB then 1 else 4..];
            Regrouped(rest) != None && Regrouped(s) == Some([TAB] + Regrouped(rest).value)
  {
  }

  lemma {:induction false} RegroupedShape(s: string)
    requires Regrouped(s) != None
    ensures var t := Regrouped(s).value;
            && Body(t) == Body(s) && Width(Indent(t)) == Width(Indent(s))
            && AllTabs(Indent(t)) && Regrouped(t) == Some(t)
    decreases |s|
  {
    if !Flush(s) && s != "" {
      RegroupedUnit(s);
      var rest := s[if s[0] == TAB then 1 else 4..];
      RegroupedShape(rest);
      BehindUnit(s);
      TabInFront(Regrouped(rest).value);
    }
  }

  lemma {:induction false} LabelMoves(s: string)
    requires AccessLabel(s)
    ensures Body(" " + s) == Body(s) && Width(Indent(" " + s)) == 2
  {
    LabelStarts(s);
    var word := s[1..];
    assert s == " " + word && " " + s == "  " + word;
    IndentOfBlanks(" ", word);
    IndentOfBlanks("  ", word);
    WidthOfSpaces("  ", "");
    assert "  " + "" == "  ";
  }

  /** What comes back is a fixed point; the text behind the indent is untouched; and the column it
      starts in is, too, except that an access label moves from column one to column two. */
  lemma {:induction false} ReturnedLines(s: string)
    requires Checked(s) != None
    ensures var t := Checked(s).value;
            && Checked(t) == Some(t)
            && Body(t) == Body(s)
            && Width(Indent(t)) == if AccessLabel(s) then 2 else Width(Indent(s))
  {
    var t := Checked(s).value;
    if OnlyBlanks(s) || TwoSpaces(s) || CommentStar(s) {
      LabelStarts(s);
    } else if AccessLabel(s) {
      LabelReplaced(s);
      LabelMoves(s);
    } else {
      RegroupedShape(s);
      RegroupedStays(s, t);
    }
  }

  /** A regrouped line is not taken for one of the other kinds. */
  lemma {:induction false} RegroupedStays(s: string, t: string)
    requires Regrouped(s) == Some(t) && !OnlyBlanks(s) && !TwoSpaces(s) && !CommentStar(s) && !AccessLabel(s)
    requires Body(t) == Body(s) && Regrouped(t) == Some(t)
    requires AllTabs(Indent(t))
    ensures Checked(t) == Some(t)
  {
  }
}
