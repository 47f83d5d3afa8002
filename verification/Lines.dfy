/** Text read line by line, substring search, and white space normalisation. */
module Lines {
  import opened Sequences

  const LF: char := '\n'

  /** The line a reader would return next, its line feed included; empty at the end. */
  function FirstLine(s: string): (l: string)
    ensures |l| <= |s| && l == s[..|l|] && (s != "" ==> l != "")
  {
    if s == "" then ""
    else if s[0] == LF then s[..1]
    else [s[0]] + FirstLine(s[1..])
  }

  function AfterLine(s: string): (r: string)
    ensures FirstLine(s) + r == s && (s != "" ==> |r| < |s|)
  {
    s[|FirstLine(s)|..]
  }

  /** A complete line: one line feed, at its end. */
  predicate IsLine(x: string) {
    x != "" && x[|x| - 1] == LF && forall i :: 0 <= i < |x| - 1 ==> x[i] != LF
  }

  lemma {:induction false} FirstLineOf(x: string, y: string)
    requires IsLine(x)
    ensures FirstLine(x + y) == x && AfterLine(x + y) == y
  {
    if |x| > 1 {
      FirstLineOf(x[1..], y);
      assert (x + y)[1..] == x[1..] + y;
    }
  }

  /** A line that is read is complete, or it is the rest of the text. */
  lemma {:induction false} FirstLineIsLine(s: string)
    ensures s == "" || IsLine(FirstLine(s)) || (FirstLine(s) == s && LF !in s)
  {
    if s != "" && s[0] != LF {
      FirstLineIsLine(s[1..]);
      assert s == [s[0]] + s[1..];
    }
  }

  predicate OccursAt(s: string, t: string, i: nat) {
    i + |t| <= |s| && s[i..i + |t|] == t
  }

  predicate Contains(s: string, t: string) {
    exists i :: 0 <= i <= |s| && OccursAt(s, t, i)
  }

  predicate StartsWith(s: string, t: string) {
    OccursAt(s, t, 0)
  }

  lemma {:induction false} ContainsInside(a: string, s: string, b: string, t: string)
    requires Contains(s, t)
    ensures Contains(a + s + b, t)
  {
    var i :| 0 <= i <= |s| && OccursAt(s, t, i);
    assert (a + s + b)[|a| + i..|a| + i + |t|] == s[i..i + |t|];
    assert OccursAt(a + s + b, t, |a| + i);
  }

  lemma {:induction false} OccursInFront(x: string, y: string, t: string, i: nat)
    requires OccursAt(x + y, t, i) && i + |t| <= |x|
    ensures Contains(x, t)
  {
    SliceOfFront(x, y, i, i + |t|);
    assert OccursAt(x, t, i);
  }

  lemma {:induction false} OccursBehind(x: string, y: string, t: string, i: nat)
    requires OccursAt(x + y, t, i) && i >= |x|
    ensures Contains(y, t)
  {
    SliceOfBack(x, y, i, i + |t|);
    assert OccursAt(y, t, i - |x|);
  }

  /** A pattern that is one complete line cannot straddle the end of a complete line. */
  lemma {:induction false} LineOccursInPart(x: string, y: string, t: string)
    requires IsLine(t) && (x == "" || x[|x| - 1] == LF) && Contains(x + y, t)
    ensures Contains(x, t) || Contains(y, t)
  {
    var s := x + y;
    var i :| 0 <= i <= |s| && OccursAt(s, t, i);
    var end := |x| - 1 - i;
    if 0 <= end < |t| {
      AtSlice(s, i, i + |t|, end);
      assert t[end] == LF;
    }
    if i + |t| <= |x| {
      OccursInFront(x, y, t, i);
    } else if i >= |x| {
      OccursBehind(x, y, t, i);
    } else {
      assert false;
    }
  }

  // ----- White space -----

  predicate IsSpace(c: char) {
    c == ' ' || c == '\t' || c == '\n' || c == '\r' || c == '\U{0B}' || c == '\U{0C}'
  }

  function TrimRight(s: string): string {
    if s != "" && IsSpace(s[|s| - 1]) then TrimRight(s[..|s| - 1]) else s
  }

  /** The maximal runs of other characters. */
  function Words(s: string): (ws: seq<string>)
    ensures s != "" && !IsSpace(s[0]) ==> ws != []
    ensures forall i :: 0 <= i < |ws| ==> ws[i] != ""
  {
    if s == "" then []
    else if IsSpace(s[0]) then Words(s[1..])
    else
      var ws := Words(s[1..]);
      if |s| == 1 || IsSpace(s[1]) then [[s[0]]] + ws
      else [[s[0]] + ws[0]] + ws[1..]
  }

  function Spaced(ws: seq<string>): string {
    if ws == [] then "" else if |ws| == 1 then ws[0] else ws[0] + " " + Spaced(ws[1..])
  }

  /** Leading and trailing white space dropped, every other run of it replaced by one space. */
  function Normalize(s: string): string {
    Spaced(Words(s))
  }

  lemma {:induction false} NormalizeCons(s: string)
    requires s != ""
    ensures var rest := Normalize(s[1..]);
            Normalize(s) == if IsSpace(s[0]) then rest
                            else if |s| > 1 && !IsSpace(s[1]) then [s[0]] + rest
                            else if rest == "" then [s[0]] else [s[0]] + " " + rest
    ensures Normalize(s) == "" || Normalize(s)[0] != ' '
  {
    var ws := Words(s[1..]);
    if !IsSpace(s[0]) {
      if |s| > 1 && !IsSpace(s[1]) {
        assert Words(s)[1..] == ws[1..];
      } else {
        assert Words(s)[1..] == ws;
      }
    } else if |s| > 1 {
      NormalizeCons(s[1..]);
    }
  }

  lemma {:induction false} NormalizeSuffix(a: string, l: string)
    ensures var n := Normalize(a + l);
            |Normalize(l)| <= |n| && n[|n| - |Normalize(l)|..] == Normalize(l)
  {
    if a == "" {
      assert a + l == l;
    } else {
      NormalizeSuffix(a[1..], l);
      assert (a + l)[1..] == a[1..] + l;
      NormalizeCons(a + l);
    }
  }

  lemma {:induction false} NormalizePrefix(l: string, b: string)
    ensures Normalize(l) <= Normalize(l + b)
  {
    if l != "" {
      NormalizePrefix(l[1..], b);
      assert (l + b)[1..] == l[1..] + b;
      NormalizeCons(l);
      NormalizeCons(l + b);
    }
  }

  /** Whatever is put around a text, its normal form is found inside the normal form of the whole. */
  lemma {:induction false} NormalizedInside(a: string, l: string, b: string)
    ensures Contains(Normalize(a + l + b), Normalize(l))
  {
    var n, m := Normalize(a + l + b), Normalize(l + b);
    assert a + l + b == a + (l + b);
    NormalizeSuffix(a, l + b);
    NormalizePrefix(l, b);
    var i := |n| - |m|;
    assert n[i..i + |Normalize(l)|] == n[i..][..|Normalize(l)|];
    assert OccursAt(n, Normalize(l), i);
  }

  lemma {:induction false} NormalizeTrailing(s: string, c: char)
    requires IsSpace(c)
    ensures Normalize(s + [c]) == Normalize(s)
  {
    if s == "" {
      assert s + [c] == [c];
      assert Words([c]) == Words([c][1..]);
    } else {
      NormalizeTrailing(s[1..], c);
      assert (s + [c])[1..] == s[1..] + [c];
      NormalizeCons(s);
      NormalizeCons(s + [c]);
    }
  }

  lemma {:induction false} NormalizeStart(s: string)
    ensures Normalize(s) == "" || !IsSpace(Normalize(s)[0])
    ensures s != "" && !IsSpace(s[0]) ==> Normalize(s) != "" && Normalize(s)[0] == s[0]
  {
    if s != "" {
      NormalizeCons(s);
      NormalizeStart(s[1..]);
    }
  }

  /** A normal form is in normal form. */
  lemma {:induction false} NormalizeTwice(s: string)
    ensures Normalize(Normalize(s)) == Normalize(s)
  {
    if s != "" {
      var n := Normalize(s[1..]);
      NormalizeTwice(s[1..]);
      NormalizeStart(s[1..]);
      NormalizeCons(s);
      if !IsSpace(s[0]) {
        var m := Normalize(s);
        NormalizeCons(m);
        if |s| > 1 && !IsSpace(s[1]) {
          assert m[1..] == n;
        } else if n == "" {
          assert m[1..] == "";
        } else {
          assert m[1..] == " " + n;
          NormalizeCons(" " + n);
          assert (" " + n)[1..] == n;
        }
      }
    }
  }

  /** White space behind a text does not change its normal form, and anything else makes it longer. */
  lemma {:induction false} NormalizeBehind(s: string, l: string)
    ensures if Normalize(l) == "" then Normalize(s + l) == Normalize(s) else |Normalize(s + l)| > |Normalize(s)|
    decreases |s|
  {
    if s == "" {
      assert s + l == l;
    } else {
      NormalizeBehind(s[1..], l);
      assert (s + l)[1..] == s[1..] + l;
      NormalizeCons(s);
      NormalizeCons(s + l);
      if |s| == 1 && l != "" {
        NormalizeStart(l);
      }
    }
  }

  lemma {:induction false} NormalizeWord(s: string)
    requires forall i :: 0 <= i < |s| ==> !IsSpace(s[i])
    ensures Normalize(s) == s
  {
    if s != "" {
      NormalizeWord(s[1..]);
      NormalizeCons(s);
    }
  }

  // ----- What white space is -----

  predicate IsWhite(c: char) {
    c == ' ' || '\t' <= c <= '\r'
  }

  /** What a text has other than white space. */
  function NonWhite(s: string): string {
    if s == "" then "" else (if IsWhite(s[0]) then "" else [s[0]]) + NonWhite(s[1..])
  }

  lemma {:induction false} TrimRightCutsWhite(s: string)
    ensures TrimRight(s) <= s && (forall i :: |TrimRight(s)| <= i < |s| ==> IsWhite(s[i]))
    ensures TrimRight(s) == "" || !IsWhite(TrimRight(s)[|TrimRight(s)| - 1])
  {
    if s != "" && IsSpace(s[|s| - 1]) {
      TrimRightCutsWhite(s[..|s| - 1]);
    }
  }

  /** White space is single spaces, none at the start or the end. */
  predicate SingleSpaces(n: string) {
    forall i :: 0 <= i < |n| && IsWhite(n[i]) ==>
      n[i] == ' ' && 0 < i < |n| - 1 && !IsWhite(n[i - 1]) && !IsWhite(n[i + 1])
  }

  lemma {:induction false} SpacedInFront(c: char, n: string)
    requires !IsWhite(c) && SingleSpaces(n) && n != ""
    ensures SingleSpaces([c] + " " + n)
  {
    var m := [c] + " " + n;
    assert !IsWhite(n[0]);
    forall i | 0 <= i < |m| && IsWhite(m[i])
      ensures m[i] == ' ' && 0 < i < |m| - 1 && !IsWhite(m[i - 1]) && !IsWhite(m[i + 1])
    {
      assert i >= 2 ==> m[i] == n[i - 2];
    }
  }

  lemma {:induction false} CharInFront(c: char, n: string)
    requires !IsWhite(c) && SingleSpaces(n)
    ensures SingleSpaces([c] + n)
  {
  }

  lemma {:induction false} NonWhiteInFront(c: char, n: string)
    requires !IsWhite(c)
    ensures NonWhite([c] + n) == [c] + NonWhite(n) == NonWhite([c] + " " + n)
  {
    assert ([c] + n)[1..] == n;
    var m := [c] + " " + n;
    assert m[1..][1..] == n && m[1..][0] == ' ';
  }

  lemma {:induction false} NormalizeKeepsNonWhite(s: string)
    ensures NonWhite(Normalize(s)) == NonWhite(s)
  {
    if s != "" {
      NormalizeKeepsNonWhite(s[1..]);
      NormalizeCons(s);
      if !IsSpace(s[0]) {
        NonWhiteInFront(s[0], Normalize(s[1..]));
        NonWhiteInFront(s[0], "");
        assert [s[0]] + "" == [s[0]];
      }
    }
  }

  lemma {:induction false} NormalizeIsSingleSpaced(s: string)
    ensures SingleSpaces(Normalize(s))
  {
    if s != "" {
      NormalizeIsSingleSpaced(s[1..]);
      NormalizeCons(s);
      var rest := Normalize(s[1..]);
      if !IsSpace(s[0]) {
        CharInFront(s[0], rest);
        if rest != "" {
          SpacedInFront(s[0], rest);
        }
      }
    }
  }

  /** A normal form has the same characters other than white space, in the same order, and single
      spaces between them. */
  lemma {:induction false} NormalizeShape(s: string)
    ensures NonWhite(Normalize(s)) == NonWhite(s) && SingleSpaces(Normalize(s))
  {
    NormalizeKeepsNonWhite(s);
    NormalizeIsSingleSpaced(s);
  }

  /** Where a word of the text ends, a word of its normal form ends, and only there. */
  lemma {:induction false} NormalizeKeepsWords(s: string)
    requires s != "" && !IsWhite(s[0])
    ensures var n := Normalize(s);
            && n != "" && n[0] == s[0]
            && (|s| > 1 && !IsWhite(s[1]) ==> n == [s[0]] + Normalize(s[1..]))
            && (|s| == 1 || IsWhite(s[1]) ==> n == [s[0]] || n == [s[0]] + " " + Normalize(s[1..]))
  {
    NormalizeCons(s);
    NormalizeStart(s);
  }
}
