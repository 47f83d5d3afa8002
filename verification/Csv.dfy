/** Comma-separated values: the printer that quotes fields, and the stateful tokenizer and parser
    that read text back. The fields follow the quoting of RFC 4180, section 2, rules 5 to 7. */
module Csv {
  import opened Sequences

  type Row = seq<string>

  const QUOTE: char := '\"'
  const COMMA: char := ','
  const LF: char := '\n'
  const CR: char := '\r'

  // ----- Printing -----

  function Doubled(s: string): string {
    if s == "" then "" else (if s[0] == QUOTE then [QUOTE, QUOTE] else [s[0]]) + Doubled(s[1..])
  }

  predicate NeedsQuotes(f: string) {
    QUOTE in f || COMMA in f || LF in f
  }

  function FormatValue(f: string): string {
    if NeedsQuotes(f) then [QUOTE] + Doubled(f) + [QUOTE] else f
  }

  function FormatRow(row: Row): string {
    if row == [] then ""
    else if |row| == 1 then FormatValue(row[0])
    else FormatValue(row[0]) + [COMMA] + FormatRow(row[1..])
  }

  /** Rows joined by `nl`; the printer itself joins them by a line feed. */
  function FormatWith(rows: seq<Row>, nl: string): string {
    if rows == [] then ""
    else if |rows| == 1 then FormatRow(rows[0])
    else FormatRow(rows[0]) + nl + FormatWith(rows[1..], nl)
  }

  function Format(rows: seq<Row>): string {
    FormatWith(rows, [LF])
  }

  lemma {:induction false} DoubledIsLonger(s: string)
    ensures |Doubled(s)| >= |s|
  {
    if s != "" {
      DoubledIsLonger(s[1..]);
    }
  }

  /** A field is printed bare if and only if it has no quote, comma or line feed; otherwise it is
      printed between quotes. */
  lemma {:induction false} PrintedBare(f: string)
    ensures FormatValue(f) == f <==> '\"' !in f && ',' !in f && '\n' !in f
    ensures FormatValue(f) != f ==>
              |FormatValue(f)| >= |f| + 2 && FormatValue(f)[0] == FormatValue(f)[|FormatValue(f)| - 1] == '\"'
  {
    DoubledIsLonger(f);
  }

  // ----- Reading, on what is left of the text -----

  /** A field, what is left of the text behind it, and whether an end of line followed it. */
  datatype Lexeme = Lexeme(field: string, rest: string, eol: bool)

  /** How far the closing quote is; the whole length when there is none. */
  function Close(s: string): (n: nat)
    ensures n <= |s|
  {
    if s == "" then 0
    else if s[0] != QUOTE then 1 + Close(s[1..])
    else if |s| > 1 && s[1] == QUOTE then 2 + Close(s[2..])
    else 0
  }

  /** Every doubled quote replaced by one, from the left. */
  function Undoubled(s: string): string {
    if s == "" then ""
    else if |s| > 1 && s[0] == QUOTE && s[1] == QUOTE then [QUOTE] + Undoubled(s[2..])
    else [s[0]] + Undoubled(s[1..])
  }

  /** Quotes come in pairs. */
  predicate Paired(s: string) {
    s == "" || (s[0] != '\"' && Paired(s[1..])) || ("\"\"" <= s && Paired(s[2..]))
  }

  /** The closing quote is the first that is not one of a pair. */
  lemma {:induction false} CloseIsUnpaired(s: string)
    ensures var n := Close(s);
            && Paired(s[..n])
            && (n < |s| ==> s[n] == '\"' && (n + 1 < |s| ==> s[n + 1] != '\"'))
    decreases |s|
  {
    if s != "" && s[0] != QUOTE {
      CloseIsUnpaired(s[1..]);
      assert s[..Close(s)][1..] == s[1..][..Close(s[1..])];
    } else if |s| > 1 && s[1] == QUOTE {
      CloseIsUnpaired(s[2..]);
      assert s[..Close(s)][2..] == s[2..][..Close(s[2..])];
    }
  }

  predicate Separates(c: char) {
    c == COMMA || c == CR || c == LF
  }

  /** How far the first separator is; the whole length when there is none. */
  function FirstSeparator(s: string): (n: nat)
    ensures n <= |s|
    ensures forall i :: 0 <= i < n ==> !Separates(s[i])
    ensures n < |s| ==> Separates(s[n])
  {
    if s == "" || Separates(s[0]) then 0 else 1 + FirstSeparator(s[1..])
  }

  function From(s: string, n: nat): string {
    if n <= |s| then s[n..] else ""
  }

  /** What the tokenizer leaves of `tail`, the text behind a field: it skips one character,
      whatever it is, or the two of a line end. */
  function Behind(tail: string): (r: string)
    ensures |r| < |tail| || r == ""
  {
    if |tail| > 1 && tail[0] == CR && tail[1] == LF then tail[2..] else From(tail, 1)
  }

  predicate StartsWithLineEnd(tail: string) {
    tail != "" && (tail[0] == CR || tail[0] == LF)
  }

  function Lex(s: string): (l: Lexeme)
    requires s != ""
    ensures |l.rest| < |s|
  {
    if s[0] == QUOTE then
      var i := 1 + Close(s[1..]);
      var tail := From(s, i + 1);
      Lexeme(Undoubled(s[1..i]), Behind(tail), StartsWithLineEnd(tail))
    else
      var tail := s[FirstSeparator(s)..];
      Lexeme(s[..FirstSeparator(s)], Behind(tail), StartsWithLineEnd(tail))
  }

  /** What is left behind a field: without the comma or line end that follows, or without whatever
      other character stands there. */
  predicate LeftBehind(tail: string, rest: string) {
    if tail == "" then rest == ""
    else if |tail| > 1 && tail[0] == '\r' && tail[1] == '\n' then rest == tail[2..]
    else rest == tail[1..]
  }

  /** On any text: a field without a quote at its start ends before the first comma or line end; one
      with a quote ends at the closing quote, or at the end of the text. An end of line is told by
      what follows. */
  lemma {:induction false} LexIs(s: string) returns (tail: string)
    requires s != ""
    ensures LeftBehind(tail, Lex(s).rest)
    ensures Lex(s).eol <==> tail != "" && (tail[0] == '\r' || tail[0] == '\n')
    ensures s[0] != '\"' ==>
              && Lex(s).field + tail == s
              && (forall i :: 0 <= i < |Lex(s).field| ==> s[i] != ',' && s[i] != '\r' && s[i] != '\n')
              && (tail != "" ==> tail[0] == ',' || tail[0] == '\r' || tail[0] == '\n')
    ensures s[0] == '\"' ==>
              var n := Close(s[1..]);
              Lex(s).field == Undoubled(s[1..n + 1]) && tail == if n + 2 <= |s| then s[n + 2..] else ""
  {
    tail := if s[0] == QUOTE then From(s, Close(s[1..]) + 2) else s[FirstSeparator(s)..];
  }

  function ParseRow(s: string): (r: (Row, string))
    requires s != ""
    ensures |r.1| < |s| && r.0 != []
    decreases |s|
  {
    var l := Lex(s);
    if l.eol || l.rest == "" then ([l.field], l.rest)
    else
      var (row, rest) := ParseRow(l.rest);
      ([l.field] + row, rest)
  }

  function Parse(s: string): seq<Row>
    decreases |s|
  {
    if s == "" then [] else [ParseRow(s).0] + Parse(ParseRow(s).1)
  }

  // ----- The round trip -----

  /** A carriage return is only safe in a field that gets quoted for another reason. */
  predicate Faithful(f: string) {
    CR in f ==> NeedsQuotes(f)
  }

  predicate FaithfulRow(row: Row) {
    row != [] && forall i :: 0 <= i < |row| ==> Faithful(row[i])
  }

  predicate FaithfulRows(rows: seq<Row>) {
    forall i :: 0 <= i < |rows| ==> FaithfulRow(rows[i])
  }

  predicate EndsEmpty(rows: seq<Row>) {
    rows != [] && rows[|rows| - 1] != [] && rows[|rows| - 1][|rows[|rows| - 1]| - 1] == ""
  }

  predicate LineEnd(nl: string) {
    nl == [LF] || nl == [CR, LF] || nl == [CR]
  }

  /** What may follow a printed field: nothing, a comma, or an end of line that is not cut in two. */
  predicate Tail(tail: string, rest: string, eol: bool, nl: string) {
    || (tail == "" && rest == "" && !eol)
    || (tail == [COMMA] + rest && !eol)
    || (tail == nl + rest && eol && (nl == [CR] && rest != "" ==> rest[0] != LF))
  }

  lemma {:induction false} UndoubledDoubled(s: string)
    ensures Undoubled(Doubled(s)) == s
  {
    if s != "" {
      UndoubledDoubled(s[1..]);
      var d := Doubled(s[1..]);
      if s[0] == QUOTE {
        assert ([QUOTE, QUOTE] + d)[2..] == d;
      } else {
        assert ([s[0]] + d)[1..] == d;
      }
    }
  }

  lemma {:induction false} CloseAfterDoubled(s: string, t: string)
    requires t == "" || t[0] != QUOTE
    ensures Close(Doubled(s) + [QUOTE] + t) == |Doubled(s)|
  {
    var whole := Doubled(s) + [QUOTE] + t;
    if s == "" {
      assert whole == [QUOTE] + t;
    } else {
      CloseAfterDoubled(s[1..], t);
      var d := Doubled(s[1..]) + [QUOTE] + t;
      if s[0] == QUOTE {
        assert whole == [QUOTE, QUOTE] + d;
        assert whole[2..] == d;
      } else {
        assert whole == [s[0]] + d;
        assert whole[1..] == d;
      }
    }
  }

  lemma {:induction false} BehindTail(tail: string, rest: string, eol: bool, nl: string)
    requires LineEnd(nl) && Tail(tail, rest, eol, nl)
    ensures Behind(tail) == rest && StartsWithLineEnd(tail) == eol
    ensures tail == "" || Separates(tail[0])
  {
    if eol {
      assert tail[|nl|..] == rest;
    }
  }

  lemma {:induction false} LexEnclosed(d: string, tail: string)
    requires Close(d + [QUOTE] + tail) == |d|
    ensures Lex([QUOTE] + d + [QUOTE] + tail) == Lexeme(Undoubled(d), Behind(tail), StartsWithLineEnd(tail))
  {
    var s := [QUOTE] + d + [QUOTE] + tail;
    assert s[1..] == d + [QUOTE] + tail;
    assert s[1..1 + |d|] == d;
    assert s[|d| + 2..] == tail;
  }

  lemma {:induction false} LexQuoted(f: string, tail: string, rest: string, eol: bool, nl: string)
    requires LineEnd(nl) && Tail(tail, rest, eol, nl) && NeedsQuotes(f)
    ensures Lex(FormatValue(f) + tail) == Lexeme(f, rest, eol)
  {
    BehindTail(tail, rest, eol, nl);
    CloseAfterDoubled(f, tail);
    LexEnclosed(Doubled(f), tail);
    UndoubledDoubled(f);
  }

  lemma {:induction false} FirstSeparatorAfter(f: string, tail: string)
    requires forall i :: 0 <= i < |f| ==> !Separates(f[i])
    requires tail == "" || Separates(tail[0])
    ensures FirstSeparator(f + tail) == |f|
  {
    var s := f + tail;
    assert forall i :: 0 <= i < |f| ==> s[i] == f[i];
    assert tail != "" ==> s[|f|] == tail[0];
  }

  /** The tokenizer on an unquoted field, given where its separator is. */
  lemma {:induction false} LexAtSeparator(s: string, f: string, tail: string)
    requires s == f + tail && s != "" && s[0] != QUOTE && FirstSeparator(s) == |f|
    ensures Lex(s) == Lexeme(f, Behind(tail), StartsWithLineEnd(tail))
  {
    assert s[..|f|] == f;
    assert s[|f|..] == tail;
  }

  lemma {:induction false} LexPlain(f: string, tail: string, rest: string, eol: bool, nl: string)
    requires LineEnd(nl) && Tail(tail, rest, eol, nl)
    requires Faithful(f) && !NeedsQuotes(f) && f + tail != ""
    ensures Lex(FormatValue(f) + tail) == Lexeme(f, rest, eol)
  {
    var s := f + tail;
    assert s[0] != QUOTE by {
      if f != "" {
        assert s[0] == f[0] && f[0] in f;
      }
    }
    FirstSeparatorAfter(f, tail);
    LexAtSeparator(s, f, tail);
    BehindTail(tail, rest, eol, nl);
  }

  lemma {:induction false} LexField(f: string, tail: string, rest: string, eol: bool, nl: string)
    requires LineEnd(nl) && Tail(tail, rest, eol, nl) && Faithful(f) && FormatValue(f) + tail != ""
    ensures Lex(FormatValue(f) + tail) == Lexeme(f, rest, eol)
  {
    if NeedsQuotes(f) {
      LexQuoted(f, tail, rest, eol, nl);
    } else {
      LexPlain(f, tail, rest, eol, nl);
    }
  }

  /** The fields of a row that come back when nothing follows it: an empty last field is lost. */
  function Surviving(row: Row, more: bool): Row {
    if !more && row != [] && row[|row| - 1] == "" then row[..|row| - 1] else row
  }

  lemma {:induction false} RowTextIsEmpty(row: Row)
    requires row != []
    ensures FormatRow(row) == "" <==> row == [""]
  {
  }

  /** The parser on a field that ends its row, and on one that does not. */
  lemma {:induction false} ParseRowStep(s: string)
    requires s != ""
    ensures var l := Lex(s);
            ParseRow(s) == if l.eol || l.rest == "" then ([l.field], l.rest)
                           else ([l.field] + ParseRow(l.rest).0, ParseRow(l.rest).1)
  {
  }

  lemma {:induction false} SurvivingOfCons(row: Row, more: bool)
    requires |row| > 1
    ensures Surviving(row, more) == if row[1..] == [""] && !more then [row[0]]
                                    else [row[0]] + Surviving(row[1..], more)
  {
    if row[1..] == [""] {
      assert row[|row| - 1] == row[1..][0];
    }
    assert row == [row[0]] + row[1..];
  }

  lemma {:induction false} ParseLastField(f: string, tail: string, rest: string, eol: bool, nl: string)
    requires LineEnd(nl) && Tail(tail, rest, eol, nl) && (tail == "" || eol)
    requires Faithful(f) && FormatValue(f) + tail != ""
    ensures ParseRow(FormatValue(f) + tail) == ([f], rest)
  {
    LexField(f, tail, rest, eol, nl);
    ParseRowStep(FormatValue(f) + tail);
  }

  lemma {:induction false} ParseFieldBeforeComma(f: string, behind: string)
    requires Faithful(f)
    ensures FormatValue(f) + ([COMMA] + behind) != ""
    ensures ParseRow(FormatValue(f) + ([COMMA] + behind))
         == if behind == "" then ([f], "") else ([f] + ParseRow(behind).0, ParseRow(behind).1)
  {
    LexField(f, [COMMA] + behind, behind, false, [LF]);
    ParseRowStep(FormatValue(f) + ([COMMA] + behind));
  }

  lemma {:induction false} RowTextSplit(row: Row, tail: string)
    requires |row| > 1
    ensures FormatRow(row) + tail == FormatValue(row[0]) + ([COMMA] + (FormatRow(row[1..]) + tail))
  {
    Assoc4(FormatValue(row[0]), [COMMA], FormatRow(row[1..]), tail);
  }

  /** A printed row, followed by nothing or by an end of line and other text, is read back. */
  lemma {:induction false} ParseRowOfFormat(row: Row, tail: string, rest: string, eol: bool, nl: string)
    requires LineEnd(nl) && FaithfulRow(row)
    requires Tail(tail, rest, eol, nl) && (tail == "" || eol)
    requires FormatRow(row) + tail != ""
    ensures ParseRow(FormatRow(row) + tail) == (Surviving(row, eol), rest)
    decreases |row|
  {
    RowTextIsEmpty(row);
    if |row| == 1 {
      assert row == [row[0]];
      ParseLastField(row[0], tail, rest, eol, nl);
    } else {
      var behind := FormatRow(row[1..]) + tail;
      RowTextSplit(row, tail);
      ParseFieldBeforeComma(row[0], behind);
      RowTextIsEmpty(row[1..]);
      SurvivingOfCons(row, eol);
      if behind != "" {
        ParseRowOfFormat(row[1..], tail, rest, eol, nl);
      }
    }
  }

  lemma {:induction false} TextStart(rows: seq<Row>, nl: string)
    requires rows != [] && nl == [CR] && FormatWith(rows, nl) != ""
    ensures FormatWith(rows, nl)[0] != LF
  {
    var row := rows[0];
    if FormatRow(row) != "" && row[0] != "" {
      assert row[0][0] in row[0];
      assert FormatRow(row)[0] == FormatValue(row[0])[0];
    }
  }

  /** The rows that come back: all of them, except that an empty field at the very end is lost,
      and its row with it when it was the only one. */
  function Returned(rows: seq<Row>): seq<Row> {
    if !EndsEmpty(rows) then rows
    else
      var n := |rows| - 1;
      if rows[n] == [""] then rows[..n] else rows[..n] + [rows[n][..|rows[n]| - 1]]
  }

  lemma {:induction false} ParseStep(s: string)
    requires s != ""
    ensures Parse(s) == [ParseRow(s).0] + Parse(ParseRow(s).1)
  {
  }

  lemma {:induction false} ReturnedOfOne(row: Row)
    requires row != []
    ensures Returned([row]) == if row == [""] then [] else [Surviving(row, false)]
  {
  }

  lemma {:induction false} ParseOfLastRow(row: Row, nl: string)
    requires LineEnd(nl) && FaithfulRow(row)
    ensures Parse(FormatRow(row)) == Returned([row])
  {
    RowTextIsEmpty(row);
    if row != [""] {
      NothingAdded(FormatRow(row));
      ParseRowOfFormat(row, "", "", false, nl);
      ParseStep(FormatRow(row));
      NothingAdded([Surviving(row, false)]);
    }
    ReturnedOfOne(row);
  }

  lemma {:induction false} ParseOfFormat(rows: seq<Row>, nl: string)
    requires LineEnd(nl) && FaithfulRows(rows)
    ensures Parse(FormatWith(rows, nl)) == Returned(rows)
    decreases |rows|
  {
    if |rows| == 1 {
      ParseOfLastRow(rows[0], nl);
      assert rows == [rows[0]];
    } else if |rows| > 1 {
      var behind := FormatWith(rows[1..], nl);
      var text := FormatRow(rows[0]) + (nl + behind);
      assert FormatWith(rows, nl) == text;
      if nl == [CR] && behind != "" {
        TextStart(rows[1..], nl);
      }
      ParseRowOfFormat(rows[0], nl + behind, behind, true, nl);
      assert Parse(text) == [rows[0]] + Parse(behind);
      ParseOfFormat(rows[1..], nl);
      ReturnedOfCons(rows);
    }
  }

  lemma {:induction false} ReturnedOfCons(rows: seq<Row>)
    requires |rows| > 1
    ensures [rows[0]] + Returned(rows[1..]) == Returned(rows)
  {
    var n := |rows| - 1;
    assert [rows[0]] + rows[1..][..n - 1] == rows[..n];
    assert [rows[0]] + rows[1..] == rows;
    assert rows[1..][n - 1] == rows[n];
  }

  // ----- Why every condition is needed -----

  lemma {:induction false} ParsedRowsAreNonempty(s: string, i: nat)
    requires i < |Parse(s)|
    ensures Parse(s)[i] != []
    decreases |s|
  {
    if i > 0 {
      ParsedRowsAreNonempty(ParseRow(s).1, i - 1);
    }
  }

  /** An unquoted field is cut at its carriage return. */
  lemma {:induction false} UnfaithfulFieldIsCut(f: string, tail: string)
    requires !Faithful(f)
    ensures FormatValue(f) + tail != "" && |Lex(FormatValue(f) + tail).field| < |f|
  {
    var s := f + tail;
    var i :| 0 <= i < |f| && f[i] == CR;
    assert s[i] == CR;
    assert s[0] == f[0] && f[0] in f;
  }

  lemma {:induction false} UnfaithfulRowIsNotRead(row: Row, tail: string, nl: string)
    requires LineEnd(nl) && row != [] && !FaithfulRow(row)
    ensures FormatRow(row) + tail != "" && ParseRow(FormatRow(row) + tail).0 != row
    decreases |row|
  {
    var f := row[0];
    var behind := if |row| == 1 then tail else [COMMA] + (FormatRow(row[1..]) + tail);
    assert FormatRow(row) + tail == FormatValue(f) + behind;
    if !Faithful(f) {
      UnfaithfulFieldIsCut(f, behind);
    } else {
      assert |row| > 1;
      assert !FaithfulRow(row[1..]) by {
        var i :| 0 <= i < |row| && !Faithful(row[i]);
        assert row[1..][i - 1] == row[i];
      }
      UnfaithfulRowIsNotRead(row[1..], tail, nl);
      LexField(f, behind, FormatRow(row[1..]) + tail, false, nl);
    }
  }

  lemma {:induction false} UnfaithfulRowsAreNotRead(rows: seq<Row>, nl: string)
    requires LineEnd(nl) && (forall i :: 0 <= i < |rows| ==> rows[i] != []) && !FaithfulRows(rows)
    ensures FormatWith(rows, nl) != "" && Parse(FormatWith(rows, nl)) != rows
    decreases |rows|
  {
    var tail := if |rows| == 1 then "" else nl + FormatWith(rows[1..], nl);
    var text := FormatWith(rows, nl);
    assert text == FormatRow(rows[0]) + tail;
    if !FaithfulRow(rows[0]) {
      UnfaithfulRowIsNotRead(rows[0], tail, nl);
    } else {
      var behind := rows[1..];
      assert !FaithfulRows(behind) by {
        var i :| 0 <= i < |rows| && !FaithfulRow(rows[i]);
        assert behind[i - 1] == rows[i];
      }
      UnfaithfulRowsAreNotRead(behind, nl);
      if nl == [CR] {
        TextStart(behind, nl);
      }
      CutIsKept(rows[0], FormatWith(behind, nl), nl);
    }
  }

  /** Whatever stands behind a printed row and its end of line is parsed next, unless the end of
      line runs into a line feed and is read as one with it. */
  lemma {:induction false} CutIsKept(row: Row, behind: string, nl: string)
    requires LineEnd(nl) && FaithfulRow(row) && behind != "" && (nl == [CR] ==> behind[0] != LF)
    ensures ParseRow(FormatRow(row) + (nl + behind)) == (row, behind)
  {
    ParseRowOfFormat(row, nl + behind, behind, true, nl);
  }

  /** The round trip holds if and only if every row has a field, no field has a carriage return
      without a quote, comma or line feed, and the very last field is not empty. The same
      condition serves all three line ends that the parser knows. */
  lemma {:induction false} RoundTrip(rows: seq<Row>, nl: string)
    requires LineEnd(nl)
    ensures Parse(FormatWith(rows, nl)) == rows <==> FaithfulRows(rows) && !EndsEmpty(rows)
  {
    if forall i :: 0 <= i < |rows| ==> rows[i] != [] {
      if FaithfulRows(rows) {
        ParseOfFormat(rows, nl);
        if EndsEmpty(rows) {
          assert |rows[|rows| - 1][..|rows[|rows| - 1]| - 1]| < |rows[|rows| - 1]|;
        }
      } else {
        UnfaithfulRowsAreNotRead(rows, nl);
      }
    } else {
      var i :| 0 <= i < |rows| && rows[i] == [];
      if Parse(FormatWith(rows, nl)) == rows {
        ParsedRowsAreNonempty(FormatWith(rows, nl), i);
      }
    }
  }

  // ----- An input for every way to fail -----

  lemma {:induction false} EmptyLastFieldIsLost()
    ensures Parse(Format([[""]])) == [] && Parse(Format([["a", ""]])) == [["a"]]
  {
    ParseOfFormat([[""]], [LF]);
    ParseOfFormat([["a", ""]], [LF]);
    assert ["a", ""][..1] == ["a"];
  }

  lemma {:induction false} EmptyRowIsLost()
    ensures Parse(Format([[]])) == []
  {
  }

  lemma {:induction false} LoneCarriageReturnEndsARow()
    ensures Parse(Format([["\r"]])) == [[""]]
  {
    var s := "\r";
    assert FormatValue(s) == s && FirstSeparator(s) == 0;
    assert s[0..] == s && From(s, 1) == "" && s[..0] == "";
    assert Lex(s) == Lexeme("", "", true);
  }
}
