/** The parser as it runs: a tokenizer that keeps its place in the text, and the loops that
    collect its tokens into rows. */
module CsvReader {
  import opened Csv
  import opened Sequences
  import opened Wrappers

  datatype Token = EOF | EOL | Field(value: string)

  class Tokenizer {
    const text: string
    var lastIndex: nat  // may run past the end of the text
    var eol: bool       // the token just given was followed by an end of line

    ghost function Ahead(): string
      reads this
    {
      From(text, lastIndex)
    }

    constructor (text: string)
      ensures this.text == text && lastIndex == 0 && !eol && Ahead() == text
    {
      this.text, lastIndex, eol := text, 0, false;
    }

    method Next() returns (t: Token)
      modifies this
      ensures Gives(old(Ahead()), old(eol), t, Ahead(), eol)
    {
      if lastIndex >= |text| {
        return EOF;
      }
      if eol {
        eol := false;
        return EOL;
      }
      if text[lastIndex] == QUOTE {
        t := Quoted();
      } else {
        t := Plain();
      }
    }

    /** Looks for the quote that closes the field opened at `j`, stepping over doubled quotes;
        ends at the end of the text when there is none. */
    method FindClose(j: nat) returns (i: nat)
      requires j < |text|
      ensures j < i <= |text| && Close(text[j + 1..]) == i - j - 1
    {
      i := j + 1;
      while i < |text|
        invariant j < i <= |text|
        invariant Close(text[j + 1..]) == i - j - 1 + Close(text[i..])
      {
        ghost var s := text[i..];
        assert s[1..] == text[i + 1..];
        if text[i] == QUOTE {
          if i + 1 >= |text| || text[i + 1] != QUOTE {
            break;
          }
          assert s[2..] == text[i + 2..];
          i := i + 1;
        }
        i := i + 1;
      }
    }

    method Quoted() returns (t: Token)
      requires lastIndex < |text| && text[lastIndex] == QUOTE && !eol
      modifies this
      ensures t == Field(Lex(old(Ahead())).field) && Ahead() == Lex(old(Ahead())).rest && eol == Lex(old(Ahead())).eol
    {
      var j := lastIndex;
      var i := FindClose(j);
      QuotedAt(text, j, i);
      StepOver(i);
      t := Field(Undoubled(text[j + 1..i]));
    }

    /** Moves over the closing quote at `i` and the character behind it, or the line end. */
    method StepOver(i: nat)
      requires !eol
      modifies this
      ensures Ahead() == Behind(From(text, i + 1)) && eol == StartsWithLineEnd(From(text, i + 1))
    {
      BehindAt(text, i + 1);
      lastIndex := i + 2;
      if i + 1 < |text| && text[i + 1] == CR {
        eol := true;
        if i + 2 < |text| && text[i + 2] == LF {
          lastIndex := lastIndex + 1;
        }
      } else if i + 1 < |text| && text[i + 1] == LF {
        eol := true;
      }
    }

    method FindSeparator(j: nat) returns (k: nat)
      requires j <= |text|
      ensures j <= k <= |text| && FirstSeparator(text[j..]) == k - j
    {
      k := j;
      while k < |text| && !Separates(text[k])
        invariant j <= k <= |text|
        invariant FirstSeparator(text[j..]) == k - j + FirstSeparator(text[k..])
      {
        assert text[k..][1..] == text[k + 1..];
        k := k + 1;
      }
    }

    method Plain() returns (t: Token)
      requires lastIndex < |text| && text[lastIndex] != QUOTE && !eol
      modifies this
      ensures t == Field(Lex(old(Ahead())).field) && Ahead() == Lex(old(Ahead())).rest && eol == Lex(old(Ahead())).eol
    {
      var j := lastIndex;
      var k := FindSeparator(j);
      PlainAt(text, j, k);
      BehindAt(text, k);
      t := Field(text[j..k]);
      if k < |text| {
        lastIndex := if text[k] == CR && k + 1 < |text| && text[k + 1] == LF then k + 2 else k + 1;
        eol := text[k] != COMMA;
      } else {
        lastIndex := |text|;
      }
    }

    /** Collects the row that the field `first` opens, up to the token that ends it. */
    method Row(first: Token) returns (a: Row, t: Token)
      requires first.Field?
      modifies this
      ensures a == RestOfRow(first, old(Ahead()), old(eol)).0
      ensures Ahead() == RestOfRow(first, old(Ahead()), old(eol)).1
      ensures t == (if Ahead() == "" then EOF else EOL) && (t == EOL ==> !eol)
      ensures |Ahead()| <= |old(Ahead())|
    {
      a := [];
      t := first;
      ghost var whole := RestOfRow(first, Ahead(), eol);
      while t != EOL && t != EOF
        invariant Collected(whole, a, t, Ahead(), eol)
        invariant !t.Field? ==> t == (if Ahead() == "" then EOF else EOL) && (t == EOL ==> !eol)
        invariant |Ahead()| <= |old(Ahead())|
        decreases |Ahead()|, t.Field?
      {
        ghost var a0, t0, ahead0, eol0 := a, t, Ahead(), eol;
        a := a + [t.value];
        t := Next();
        NextOfRow(whole, a0, t0, ahead0, eol0, t, Ahead(), eol);
      }
    }
  }

  /** The field that is opened at `j` and closed at `i`, in place. */
  lemma {:induction false} QuotedAt(text: string, j: nat, i: nat)
    requires j < i <= |text| && text[j] == QUOTE && Close(text[j + 1..]) == i - j - 1
    ensures var tail := From(text, i + 1);
            Lex(text[j..]) == Lexeme(Undoubled(text[j + 1..i]), Behind(tail), StartsWithLineEnd(tail))
  {
    var s := text[j..];
    assert s[1..] == text[j + 1..] && s[1..i - j] == text[j + 1..i];
    assert From(s, i - j + 1) == From(text, i + 1);
  }

  lemma {:induction false} PlainAt(text: string, j: nat, k: nat)
    requires j <= k <= |text| && j < |text| && text[j] != QUOTE && FirstSeparator(text[j..]) == k - j
    ensures Lex(text[j..]) == Lexeme(text[j..k], Behind(From(text, k)), StartsWithLineEnd(From(text, k)))
    ensures k < |text| ==> Separates(text[k])
  {
    assert text[j..] == text[j..k] + text[k..] && text[j..][k - j..] == text[k..];
    LexAtSeparator(text[j..], text[j..k], text[k..]);
  }

  lemma {:induction false} BehindAt(text: string, k: nat)
    ensures var tail := From(text, k);
            && Behind(tail) == From(text, if k + 1 < |text| && text[k] == CR && text[k + 1] == LF then k + 2 else k + 1)
            && (StartsWithLineEnd(tail) <==> k < |text| && (text[k] == CR || text[k] == LF))
  {
    if k + 1 < |text| {
      assert text[k..][1..] == text[k + 1..] && text[k..][2..] == text[k + 2..];
    }
  }

  /** What the tokenizer gives, with `ahead` before it and `eol` set or not, and what it leaves:
      the end of the text, the end of a line, or a field. */
  ghost predicate Gives(ahead: string, eol: bool, t: Token, ahead': string, eol': bool) {
    if ahead == "" then t == EOF && ahead' == "" && eol' == eol
    else if eol then t == EOL && ahead' == ahead && !eol'
    else t == Field(Lex(ahead).field) && ahead' == Lex(ahead).rest && eol' == Lex(ahead).eol
  }

  /** `whole` is the row collected so far followed by the rest of it, and what is left then. */
  ghost predicate Collected(whole: (Row, string), a: Row, t: Token, ahead: string, eol: bool) {
    var rest := RestOfRow(t, ahead, eol);
    a + rest.0 == whole.0 && rest.1 == whole.1
  }

  lemma {:induction false} Moved<T>(xs: seq<T>, x: T, ys: seq<T>)
    ensures xs + ([x] + ys) == (xs + [x]) + ys
  {
  }

  lemma {:induction false} RestAfterToken(t: Token, ahead: string, eol: bool, t': Token, ahead': string, eol': bool)
    requires t.Field? && Gives(ahead, eol, t', ahead', eol')
    ensures RestOfRow(t, ahead, eol) == ([t.value] + RestOfRow(t', ahead', eol').0, RestOfRow(t', ahead', eol').1)
    ensures ahead != "" && !eol ==> RestOfRow(t', ahead', eol') == ParseRow(ahead)
  {
    if ahead != "" && !eol {
      ParseRowStep(ahead);
    } else {
      assert [t.value] + [] == [t.value];
    }
  }

  lemma {:induction false} NextOfRow(whole: (Row, string), a: Row, t: Token, ahead: string, eol: bool, t': Token,
                                     ahead': string, eol': bool)
    requires t.Field? && Gives(ahead, eol, t', ahead', eol') && Collected(whole, a, t, ahead, eol)
    ensures Collected(whole, a + [t.value], t', ahead', eol')
    ensures !t'.Field? ==> t' == (if ahead' == "" then EOF else EOL) && (t' == EOL ==> !eol')
    ensures |ahead'| <= |ahead| && (t'.Field? ==> |ahead'| < |ahead|)
  {
    RestAfterToken(t, ahead, eol, t', ahead', eol');
    Moved(a, t.value, RestOfRow(t', ahead', eol').0);
  }

  /** What a token and the text ahead of it still contribute to the row under way. */
  ghost function RestOfRow(t: Token, ahead: string, eol: bool): (r: (Row, string)) {
    if !t.Field? then ([], ahead)
    else if eol || ahead == "" then ([t.value], ahead)
    else ([t.value] + ParseRow(ahead).0, ParseRow(ahead).1)
  }

  /** `all` is the rows collected so far followed by those that `t` and the text ahead give. */
  ghost predicate RowsCollected(all: seq<Row>, rows: seq<Row>, t: Token, ahead: string, eol: bool) {
    if t == EOF then rows == all
    else t.Field? && var r := RestOfRow(t, ahead, eol); rows + ([r.0] + Parse(r.1)) == all
  }

  lemma {:induction false} NextRow(all: seq<Row>, rows: seq<Row>, t: Token, ahead: string, eol: bool,
                eol1: bool, t': Token, ahead': string, eol': bool)
    requires t.Field? && RowsCollected(all, rows, t, ahead, eol)
    requires var r := RestOfRow(t, ahead, eol); (r.1 != "" ==> !eol1) && Gives(r.1, eol1, t', ahead', eol')
    ensures RowsCollected(all, rows + [RestOfRow(t, ahead, eol).0], t', ahead', eol')
  {
    var r := RestOfRow(t, ahead, eol);
    Moved(rows, r.0, Parse(r.1));
    if r.1 == "" {
      assert Parse(r.1) == [];
    } else {
      RestAfterToken(Field(""), r.1, false, t', ahead', eol');
      assert Parse(r.1) == [ParseRow(r.1).0] + Parse(ParseRow(r.1).1);
    }
  }

  /** What a callback makes of the rows and their numbers; the rows it makes nothing of are left
      out. */
  function Kept<T>(rows: seq<Row>, f: (Row, nat) -> Option<T>): seq<T> {
    if rows == [] then []
    else
      var n := |rows| - 1;
      Kept(rows[..n], f) + f(rows[n], n).ToSeq()
  }

  lemma {:induction false} KeptOneMore<T>(rows: seq<Row>, row: Row, f: (Row, nat) -> Option<T>)
    ensures Kept(rows + [row], f) == Kept(rows, f) + f(row, |rows|).ToSeq()
  {
    assert (rows + [row])[..|rows|] == rows;
  }

  /** `rows` is what the callback made of the rows read so far. */
  ghost predicate KeptSoFar<T>(read: seq<Row>, f: (Row, nat) -> Option<T>, rows: seq<T>, n: nat) {
    n == |read| && rows == Kept(read, f)
  }

  lemma {:induction false} KeptNext<T>(read: seq<Row>, row: Row, f: (Row, nat) -> Option<T>, rows: seq<T>, n: nat)
    requires KeptSoFar(read, f, rows, n)
    ensures KeptSoFar(read + [row], f, rows + f(row, n).ToSeq(), n + 1)
  {
    KeptOneMore(read, row, f);
  }

  /** A row that the callback makes nothing of is left out. */
  method Keep<T>(rows: seq<T>, v: Option<T>) returns (kept: seq<T>)
    ensures kept == rows + v.ToSeq()
  {
    kept := if v.Some? then rows + [v.value] else rows;
    NothingAdded(rows);
  }

  lemma {:induction false} KeptAll(rows: seq<Row>)
    ensures Kept(rows, (row, k) => Some(row)) == rows
    decreases |rows|
  {
    if rows != [] {
      KeptAll(rows[..|rows| - 1]);
      assert rows[..|rows| - 1] + [rows[|rows| - 1]] == rows;
    }
  }

  /** Reads all rows and passes each with its number through the callback. */
  method ParseRowsWith<T>(text: string, f: (Row, nat) -> Option<T>) returns (rows: seq<T>)
    ensures rows == Kept(Parse(text), f)
  {
    rows := [];
    var n := 0;
    ghost var read := [];
    var tokens := new Tokenizer(text);
    var t := tokens.Next();
    while t != EOF
      invariant RowsCollected(Parse(text), read, t, tokens.Ahead(), tokens.eol)
      invariant KeptSoFar(read, f, rows, n)
      decreases |tokens.Ahead()|, t != EOF
    {
      ghost var read0, t0, ahead0, eol0 := read, t, tokens.Ahead(), tokens.eol;
      var a;
      a, t := tokens.Row(t);
      ghost var eol1 := tokens.eol;
      KeptNext(read, a, f, rows, n);
      read := read + [a];
      rows := Keep(rows, f(a, n));
      n := n + 1;
      t := tokens.Next();
      NextRow(Parse(text), read0, t0, ahead0, eol0, eol1, t, tokens.Ahead(), tokens.eol);
    }
  }

  /** Without a callback every row is kept. */
  method ParseRows(text: string) returns (rows: seq<Row>)
    ensures rows == Parse(text)
  {
    rows := ParseRowsWith(text, (row, k) => Some(row));
    KeptAll(Parse(text));
  }

  /** What the parser returns on printed text is what was printed exactly under the condition of
      the round trip. */
  method ReadBack(rows: seq<Row>) returns (same: bool)
    ensures same <==> FaithfulRows(rows) && !EndsEmpty(rows)
  {
    var back := ParseRows(Format(rows));
    RoundTrip(rows, [LF]);
    same := back == rows;
  }
}
