/** Licence texts as they are written into files of different comment styles. */
module LicenseText {
  import opened Lines
  import opened Sequences

  const BLANK: string := "\n"
  const NOTICE: string := "Copyright Notice:\n"

  /** The comment style of a file type: lines around the licence and text around each line. */
  datatype Style = Style(pre: string, post: string, start: string, end: string)

  /** What removing a licence leads to: a file, a line that does not match, or a failure of the
      script itself on a variable that was never set. */
  datatype Outcome = Written(text: string) | Mismatch | Failed

  /** A licence line as written; before a tab, or an empty line, the start loses its spaces. */
  function LicenseLine(st: Style, l: string): string {
    if (l != "" && l[0] == '\t') || (l == "" && (st.end == "" || st.end[0] == '\t'))
    then TrimRight(st.start) + l + st.end + "\n"
    else st.start + l + st.end + "\n"
  }

  function LicenseLines(st: Style, license: seq<string>): seq<string> {
    seq(|license|, i requires 0 <= i < |license| => LicenseLine(st, license[i]))
  }

  function OptionalLine(s: string): seq<string> {
    if s == "" then [] else [s + "\n"]
  }

  function BlockLines(st: Style, license: seq<string>): seq<string> {
    OptionalLine(st.pre) + LicenseLines(st, license) + OptionalLine(st.post)
  }

  function Joined(ls: seq<string>): string {
    if ls == [] then "" else ls[0] + Joined(ls[1..])
  }

  lemma {:induction false} JoinedAppend(xs: seq<string>, ys: seq<string>)
    ensures Joined(xs + ys) == Joined(xs) + Joined(ys)
  {
    if xs == [] {
      assert xs + ys == ys;
    } else {
      assert (xs + ys)[1..] == xs[1..] + ys;
      JoinedAppend(xs[1..], ys);
    }
  }

  lemma {:induction false} JoinedNext(st: Style, license: seq<string>, i: nat)
    requires i < |license|
    ensures Joined(LicenseLines(st, license[..i + 1]))
         == Joined(LicenseLines(st, license[..i])) + LicenseLine(st, license[i])
  {
    var l := LicenseLine(st, license[i]);
    assert LicenseLines(st, license[..i + 1]) == LicenseLines(st, license[..i]) + [l];
    JoinedAppend(LicenseLines(st, license[..i]), [l]);
    assert Joined([l]) == l + "";
  }

  /** The licence itself, line by line, as it is written. */
  method WriteLines(st: Style, license: seq<string>) returns (out: string)
    ensures out == Joined(LicenseLines(st, license))
  {
    out := "";
    for i := 0 to |license|
      invariant out == Joined(LicenseLines(st, license[..i]))
    {
      var l := license[i];
      JoinedNext(st, license, i);
      if (l != "" && l[0] == '\t') || (l == "" && (st.end == "" || st.end[0] == '\t')) {
        out := out + (TrimRight(st.start) + l + st.end + "\n");
      } else {
        out := out + (st.start + l + st.end + "\n");
      }
    }
    assert license[..|license|] == license;
  }

  // ----- Lines of a licence -----

  predicate OneLine(s: string) {
    LF !in s
  }

  lemma {:induction false} TrimRightIsOneLine(s: string)
    requires OneLine(s)
    ensures OneLine(TrimRight(s))
  {
    if s != "" && IsSpace(s[|s| - 1]) {
      TrimRightIsOneLine(s[..|s| - 1]);
    }
  }

  lemma {:induction false} EndedIsLine(s: string)
    requires OneLine(s)
    ensures IsLine(s + "\n")
  {
  }

  /** A licence line is the text with something around it, and one line. */
  lemma {:induction false} LicenseLineShape(st: Style, l: string) returns (a: string)
    requires OneLine(st.start) && OneLine(st.end) && OneLine(l)
    ensures LicenseLine(st, l) == a + l + (st.end + "\n") && IsLine(LicenseLine(st, l))
  {
    TrimRightIsOneLine(st.start);
    a := if (l != "" && l[0] == '\t') || (l == "" && (st.end == "" || st.end[0] == '\t'))
    then TrimRight(st.start) else st.start;
    assert a + l + st.end + "\n" == a + l + (st.end + "\n");
    EndedIsLine(a + l + st.end);
  }

  lemma {:induction false} JoinedLicenseLines(st: Style, license: seq<string>, s: string)
    requires license != []
    ensures Joined(LicenseLines(st, license)) + s
         == LicenseLine(st, license[0]) + (Joined(LicenseLines(st, license[1..])) + s)
  {
    assert LicenseLines(st, license)[1..] == LicenseLines(st, license[1..]);
    Assoc(LicenseLine(st, license[0]), Joined(LicenseLines(st, license[1..])), s);
  }

  /** In front of a tab, or of nothing at all, the start is written without its trailing white space;
      otherwise it is written as it is. */
  lemma {:induction false} LicenseLineIs(st: Style, l: string) returns (start: string)
    ensures LicenseLine(st, l) == start + l + st.end + "\n"
    ensures var trimmed := (l != "" && l[0] == '\t') || (l == "" && (st.end == "" || st.end[0] == '\t'));
            if trimmed
            then start <= st.start && (start == "" || !IsWhite(start[|start| - 1]))
                 && forall i :: |start| <= i < |st.start| ==> IsWhite(st.start[i])
            else start == st.start
  {
    var trimmed := (l != "" && l[0] == '\t') || (l == "" && (st.end == "" || st.end[0] == '\t'));
    TrimRightCutsWhite(st.start);
    start := if trimmed then TrimRight(st.start) else st.start;
  }
}
