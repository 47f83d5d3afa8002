/** What loading gives back of preferences that were saved. */
module PreferencesRoundTrip {
  import opened Lines
  import opened Preferences

  /** Names that a line can carry, all different. */
  predicate WellNamed(table: seq<Entry>) {
    && (forall i :: 0 <= i < |table| ==>
          var n := table[i].name;
          n != "" && n[0] != '#' && '=' !in n && '\n' !in n && '\0' !in n)
    && (forall i, j :: 0 <= i < j < |table| ==> table[i].name != table[j].name)
  }

  /** The value has no line break and its line fits the buffer. */
  predicate FitsLine(e: Entry, v: Value) {
    LF !in Rendered(v) && |SavedLine(e, v)| < 1024
  }

  /** The lines of the first `n` values fit. */
  predicate FirstFit(table: seq<Entry>, store: seq<Value>, n: nat)
    requires n <= |table| == |store|
  {
    n > 0 ==> FirstFit(table, store, n - 1) && FitsLine(table[n - 1], store[n - 1])
  }

  predicate Savable(table: seq<Entry>, store: seq<Value>) {
    Suits(table, store) && FirstFit(table, store, |table|)
  }

  /** What a saved value is read back as. */
  function Trimmed(v: Value): Value {
    match v
    case Str(s) => Str(TrimRight(CString(s)))
    case _ => v
  }

  /** What loading a saved value leaves, where `now` was before. */
  function Restored(e: Entry, saved: Value, now: Value): Value {
    if e.Accepts(TrimRight(Rendered(saved))) then Trimmed(saved) else now
  }

  lemma {:induction false} ReadDigitsOf(n: nat)
    ensures ReadDigits(Digits(n), 0) == n
    ensures |Digits(n)| > 0 && forall i :: 0 <= i < |Digits(n)| ==> IsDigit(Digits(n)[i])
  {
    if n >= 10 {
      ReadDigitsOf(n / 10);
      ReadDigitsAppend(Digits(n / 10), DigitChar(n % 10), 0);
    } else {
      var d := Digits(n);
      assert d[1..] == "";
    }
  }

  lemma {:induction false} ReadDigitsAppend(s: string, c: char, m: nat)
    requires IsDigit(c) && forall i :: 0 <= i < |s| ==> IsDigit(s[i])
    ensures ReadDigits(s + [c], m) == 10 * ReadDigits(s, m) + (c as int - '0' as int)
  {
    if s == "" {
      assert s + [c] == [c];
      assert [c][1..] == "";
    } else {
      assert (s + [c])[1..] == s[1..] + [c];
      ReadDigitsAppend(s[1..], c, 10 * m + (s[0] as int - '0' as int));
    }
  }

  /** Printing an integer and reading it back. */
  lemma {:induction false} AtoiOfIntText(i: int)
    ensures Atoi(IntText(i)) == i && TrimRight(IntText(i)) == IntText(i)
  {
    var n := if i < 0 then -i else i;
    ReadDigitsOf(n);
    var d := Digits(n);
    assert IsDigit(d[0]) && IsDigit(d[|d| - 1]);
    if i < 0 {
      assert ("-" + d)[1..] == d;
      assert IntText(i)[|d|] == d[|d| - 1];
    }
  }

  lemma {:induction false} DigitsStartWithNoZero(n: nat)
    ensures Digits(n) != "" && (Digits(n)[0] == '0' ==> Digits(n) == "0")
    ensures forall i :: 0 <= i < |Digits(n)| ==> '0' <= Digits(n)[i] <= '9'
  {
    if n >= 10 {
      DigitsStartWithNoZero(n / 10);
    }
  }

  /** A saved integer is digits without a leading zero, with a minus sign exactly where it is
      negative. */
  lemma {:induction false} IntTextIsDecimal(i: int)
    ensures var text := IntText(i);
            var digits := if i < 0 then text[1..] else text;
            && (i < 0 ==> text[0] == '-')
            && digits != "" && (digits[0] == '0' ==> i == 0 && text == "0")
            && forall k :: 0 <= k < |digits| ==> '0' <= digits[k] <= '9'
  {
    var n := if i < 0 then -i else i;
    DigitsStartWithNoZero(n);
    ReadDigitsOf(n);
    if i < 0 {
      assert IntText(i)[1..] == Digits(n);
    }
  }

  lemma {:induction false} TrimRightFixed(s: string)
    ensures TrimRight(TrimRight(s)) == TrimRight(s)
    ensures TrimRight(s) == s <==> s == "" || !IsSpace(s[|s| - 1])
    ensures |TrimRight(s)| <= |s|
    ensures TrimRight(s + "\n") == TrimRight(s)
  {
    assert (s + "\n")[..|s|] == s;
    if s != "" && IsSpace(s[|s| - 1]) {
      TrimRightFixed(s[..|s| - 1]);
    }
  }

  lemma {:induction false} CStringShape(s: string)
    ensures NUL !in CString(s) && CString(s) <= s && (CString(s) == s <==> NUL !in s)
  {
    if s != "" && s[0] != NUL {
      CStringShape(s[1..]);
      assert s == [s[0]] + s[1..];
    }
  }

  lemma {:induction false} RenderedShape(v: Value)
    ensures NUL !in Rendered(v)
    ensures v.Number? || v.Flag? ==> TrimRight(Rendered(v)) == Rendered(v)
  {
    match v {
      case Str(s) => CStringShape(s);
      case Number(i) =>
        AtoiOfIntText(i);
        ReadDigitsOf(if i < 0 then -i else i);
      case Flag(b) =>
        assert "true"[3] == 'e' && "false"[4] == 'e';
    }
  }

  /** A value that fits its entry is read back as it was, up to trailing white space. */
  lemma {:induction false} ReadOfRendered(e: Entry, v: Value)
    requires e.Fits(v)
    ensures e.Read(TrimRight(Rendered(v))) == Trimmed(v)
  {
    RenderedShape(v);
    match v {
      case Str(s) =>
      case Number(i) => AtoiOfIntText(i);
      case Flag(b) =>
        assert "true" != "false" by { assert |"true"| == 4 && |"false"| == 5; }
    }
  }

  lemma {:induction false} FirstEqualsOf(n: string, t: string)
    requires '=' !in n
    ensures FirstEquals(n + "=" + t) == |n|
  {
    var s := n + "=" + t;
    assert s[|n|] == '=';
    assert forall i :: 0 <= i < |n| ==> s[i] == n[i] && n[i] in n;
  }

  lemma {:induction false} LineIsRead(n: string, r: string, rest: string)
    requires LF !in n && LF !in r && NUL !in n && NUL !in r && |n| + |r| + 2 < BUFFER_SIZE
    ensures var line := n + "=" + r + "\n";
            Chunk(line + rest) == line && (line + rest)[|line|..] == rest && CString(line) == line
  {
    var line := n + "=" + r + "\n";
    LineIsWhole(n, r);
    CStringShape(line);
    FirstLineOf(line, rest);
  }

  lemma {:induction false} LineIsSplit(n: string, r: string)
    requires '=' !in n
    ensures Split(n + "=" + r + "\n") == Pair(n, TrimRight(r))
  {
    var line := n + "=" + (r + "\n");
    assert n + "=" + r + "\n" == line;
    FirstEqualsOf(n, r + "\n");
    assert line[..|n|] == n && line[|n| + 1..] == r + "\n";
    TrimRightFixed(r);
  }

  lemma {:induction false} LineIsWhole(n: string, r: string)
    requires LF !in n && LF !in r && NUL !in n && NUL !in r
    ensures var line := n + "=" + r + "\n"; IsLine(line) && NUL !in line
  {
  }

  /** One saved line is read whole and taken apart as it was put together. */
  lemma {:induction false} SavedLineIsRead(e: Entry, v: Value, rest: string)
    requires WellNamed([e]) && FitsLine(e, v)
    ensures var line := SavedLine(e, v);
            && Chunk(line + rest) == line && (line + rest)[|line|..] == rest
            && CString(line) == line && line[0] != '#'
            && Split(line) == Pair(e.name, TrimRight(Rendered(v)))
  {
    assert [e][0] == e;
    RenderedShape(v);
    LineIsRead(e.name, Rendered(v), rest);
    LineIsSplit(e.name, Rendered(v));
    assert SavedLine(e, v)[0] == e.name[0];
  }

  /** The store after the first `k` of the saved values have been loaded over `now`. */
  function Mixed(table: seq<Entry>, saved: seq<Value>, now: seq<Value>, k: nat): (r: seq<Value>)
    requires |saved| == |table| == |now| && k <= |table|
    ensures |r| == |table|
  {
    seq(|table|, i requires 0 <= i < |table| => if i < k then Restored(table[i], saved[i], now[i]) else now[i])
  }

  lemma {:induction false} MixedNext(table: seq<Entry>, saved: seq<Value>, now: seq<Value>, k: nat)
    requires WellNamed(table) && Suits(table, saved) && Suits(table, now) && k < |table|
    requires Suits(table, Mixed(table, saved, now, k))
    ensures Loaded(table, Mixed(table, saved, now, k), table[k].name, TrimRight(Rendered(saved[k])))
         == Mixed(table, saved, now, k + 1)
  {
    var store := Mixed(table, saved, now, k);
    var value := TrimRight(Rendered(saved[k]));
    var i := IndexOf(table, table[k].name);
    assert i == k;
    ReadOfRendered(table[k], saved[k]);
    var next := Mixed(table, saved, now, k + 1);
    assert next == if table[k].Accepts(value) then store[k := Trimmed(saved[k])] else store;
  }

  lemma {:induction false} SavedLinesFrom(table: seq<Entry>, saved: seq<Value>, k: nat)
    requires k < |table| == |saved|
    ensures SavedLines(table[k..], saved[k..])
         == SavedLine(table[k], saved[k]) + SavedLines(table[k + 1..], saved[k + 1..])
  {
    assert table[k..][1..] == table[k + 1..] && saved[k..][1..] == saved[k + 1..];
  }

  lemma {:induction false} MixedSuits(table: seq<Entry>, saved: seq<Value>, now: seq<Value>, k: nat)
    requires Suits(table, saved) && Suits(table, now) && k <= |table|
    ensures Suits(table, Mixed(table, saved, now, k))
  {
    assert forall i :: 0 <= i < |table| ==> table[i].Fits(saved[i]) && table[i].Fits(now[i]);
  }

  /** Loading the saved lines from the one with this number on, when the ones before are loaded. */
  function LoadedFrom(table: seq<Entry>, saved: seq<Value>, now: seq<Value>, k: nat): Loading
    requires Suits(table, saved) && Suits(table, now) && k <= |table|
  {
    MixedSuits(table, saved, now, k);
    LoadedAll(table, Mixed(table, saved, now, k), SavedLines(table[k..], saved[k..]))
  }

  /** Loading the next of the saved lines. */
  lemma {:induction false} LoadNextLine(table: seq<Entry>, saved: seq<Value>, now: seq<Value>, k: nat)
    requires WellNamed(table) && Suits(table, saved) && Suits(table, now) && k < |table|
    requires FitsLine(table[k], saved[k])
    ensures LoadedFrom(table, saved, now, k) == LoadedFrom(table, saved, now, k + 1)
  {
    var rest := SavedLines(table[k + 1..], saved[k + 1..]);
    SavedLinesFrom(table, saved, k);
    MixedSuits(table, saved, now, k);
    MixedSuits(table, saved, now, k + 1);
    assert [table[k]][0] == table[k];
    SavedLineIsRead(table[k], saved[k], rest);
    MixedNext(table, saved, now, k);
  }

  /** As long as their lines fit, values are loaded one after the other. */
  lemma {:induction false} LoadSavedLines(table: seq<Entry>, saved: seq<Value>, now: seq<Value>, k: nat)
    requires WellNamed(table) && Suits(table, saved) && Suits(table, now) && k <= |table|
    requires FirstFit(table, saved, k)
    ensures LoadedFrom(table, saved, now, 0) == LoadedFrom(table, saved, now, k)
  {
    if k > 0 {
      LoadSavedLines(table, saved, now, k - 1);
      LoadNextLine(table, saved, now, k - 1);
    }
  }

  lemma {:induction false} LoadedFromStart(table: seq<Entry>, saved: seq<Value>, now: seq<Value>)
    requires Suits(table, saved) && Suits(table, now)
    ensures LoadedFrom(table, saved, now, 0) == LoadedAll(table, now, SavedLines(table, saved))
  {
    assert table[0..] == table && saved[0..] == saved;
    assert Mixed(table, saved, now, 0) == now;
  }

  lemma {:induction false} HeaderNameIsPlain()
    ensures LF !in HEADER_NAME && NUL !in HEADER_NAME && HEADER_NAME[0] == '#' && |HEADER_NAME| == 22
  {
  }

  lemma {:induction false} HeaderTextIsPlain()
    ensures LF !in HEADER_TEXT && NUL !in HEADER_TEXT && |HEADER_TEXT| == 41
  {
    var t := HEADER_TEXT;
    assert forall i :: 0 <= i < |t| ==> ' ' <= t[i] <= 'z';
  }

  lemma {:induction false} HeaderIsSkipped(rest: string)
    ensures Chunk(HEADER + rest) == HEADER && (HEADER + rest)[|HEADER|..] == rest
    ensures CString(HEADER) != "" && CString(HEADER)[0] == '#'
  {
    HeaderNameIsPlain();
    HeaderTextIsPlain();
    var n, r := HEADER_NAME, HEADER_TEXT;
    LineIsRead(n, r, rest);
    assert HEADER == n + "=" + r + "\n";
    assert HEADER[0] == n[0];
  }

  /** Saving and then loading, into a store with any values, succeeds. Each value comes back, a
      string up to a NUL and without its trailing white space, unless its preference is
      restricted and the text is not among the valid ones; then the old value stays. */
  lemma {:induction false} LoadOfSaved(table: seq<Entry>, saved: seq<Value>, now: seq<Value>)
    requires WellNamed(table) && Savable(table, saved) && Suits(table, now)
    ensures LoadedAll(table, now, HEADER + SavedLines(table, saved))
         == Loading(true, Mixed(table, saved, now, |table|))
  {
    HeaderIsSkipped(SavedLines(table, saved));
    LoadedFromStart(table, saved, now);
    LoadSavedLines(table, saved, now, |table|);
  }

  predicate Clean(v: Value) {
    v.Str? ==> '\0' !in v.s && (v.s == "" || !IsSpace(v.s[|v.s| - 1]))
  }

  lemma {:induction false} ShorterTwice(s: string, c: string, t: string)
    requires c <= s && |t| <= |c|
    ensures t == s <==> c == s && t == c
  {
  }

  lemma {:induction false} CleanIsTrimmed(v: Value)
    ensures Trimmed(v) == v <==> Clean(v)
  {
    if v.Str? {
      var c := CString(v.s);
      CStringShape(v.s);
      TrimRightFixed(c);
      ShorterTwice(v.s, c, TrimRight(c));
    }
  }

  /** A value that an entry of this kind can hold and that is not `v`. */
  function Other(v: Value): Value {
    match v
    case Str(s) => Str(s + "x")
    case Number(i) => Number(i + 1)
    case Flag(b) => Flag(!b)
  }

  function Others(saved: seq<Value>): seq<Value> {
    seq(|saved|, i requires 0 <= i < |saved| => Other(saved[i]))
  }

  /** The value comes back exactly, whatever stood in its place. */
  predicate Survives(e: Entry, v: Value) {
    e.Accepts(TrimRight(Rendered(v))) && Clean(v)
  }

  lemma {:induction false} SurvivorsAreRestored(table: seq<Entry>, saved: seq<Value>, now: seq<Value>)
    requires WellNamed(table) && Savable(table, saved) && Suits(table, now)
    requires forall i :: 0 <= i < |table| ==> Survives(table[i], saved[i])
    ensures LoadedAll(table, now, HEADER + SavedLines(table, saved)) == Loading(true, saved)
  {
    LoadOfSaved(table, saved, now);
    var all := Mixed(table, saved, now, |table|);
    forall i | 0 <= i < |table|
      ensures all[i] == saved[i]
    {
      CleanIsTrimmed(saved[i]);
    }
    assert all == saved;
  }

  lemma {:induction false} OthersSuit(table: seq<Entry>, saved: seq<Value>)
    requires Suits(table, saved)
    ensures Suits(table, Others(saved))
  {
    assert forall k :: 0 <= k < |table| ==> table[k].Fits(saved[k]);
  }

  lemma {:induction false} OtherIsNotRestored(e: Entry, v: Value)
    requires e.Fits(v) && !Survives(e, v)
    ensures Restored(e, v, Other(v)) != v
  {
    CleanIsTrimmed(v);
    assert v.Str? ==> |Other(v).s| == |v.s| + 1;
  }

  lemma {:induction false} OthersAreNotRestored(table: seq<Entry>, saved: seq<Value>, i: nat)
    requires WellNamed(table) && Savable(table, saved)
    requires i < |table| && !Survives(table[i], saved[i])
    ensures Suits(table, Others(saved))
    ensures LoadedAll(table, Others(saved), HEADER + SavedLines(table, saved)).store != saved
  {
    OthersSuit(table, saved);
    LoadOfSaved(table, saved, Others(saved));
    OtherIsNotRestored(table[i], saved[i]);
    assert Mixed(table, saved, Others(saved), |table|)[i] == Restored(table[i], saved[i], Other(saved[i]));
  }

  // ----- Any other line -----

  predicate AllDigits(s: string) {
    forall i :: 0 <= i < |s| ==> '0' <= s[i] <= '9'
  }

  /** The number that these digits spell. */
  function Spelled(digits: string): nat
    requires AllDigits(digits)
  {
    if digits == "" then 0
    else 10 * Spelled(digits[..|digits| - 1]) + (digits[|digits| - 1] as int - '0' as int)
  }

  lemma {:induction false} ReadDigitsStops(digits: string, rest: string, n: nat)
    requires AllDigits(digits) && (rest == "" || !IsDigit(rest[0]))
    ensures ReadDigits(digits + rest, n) == ReadDigits(digits, n)
  {
    if digits == "" {
      assert digits + rest == rest;
    } else {
      assert (digits + rest)[1..] == digits[1..] + rest;
      ReadDigitsStops(digits[1..], rest, 10 * n + (digits[0] as int - '0' as int));
    }
  }

  lemma {:induction false} ReadDigitsIsSpelled(digits: string)
    requires AllDigits(digits)
    ensures ReadDigits(digits, 0) == Spelled(digits)
  {
    if digits != "" {
      var front := digits[..|digits| - 1];
      ReadDigitsIsSpelled(front);
      ReadDigitsAppend(front, digits[|digits| - 1], 0);
      assert front + [digits[|digits| - 1]] == digits;
    }
  }

  lemma {:induction false} AtoiOfSigned(sign: string, digits: string, rest: string)
    requires (sign == "" || sign == "-" || sign == "+") && AllDigits(digits)
    requires rest == "" || !IsDigit(rest[0])
    requires sign + digits == "" && rest != "" ==> !IsWhite(rest[0]) && rest[0] != '-' && rest[0] != '+'
    ensures Atoi(sign + digits + rest) == if sign == "-" then 0 - Spelled(digits) else Spelled(digits)
  {
    ReadDigitsStops(digits, rest, 0);
    ReadDigitsIsSpelled(digits);
    var s := sign + digits + rest;
    if sign == "" {
      assert s == digits + rest;
      assert digits != "" ==> s[0] == digits[0];
    } else {
      assert s[0] == sign[0] && s[1..] == digits + rest;
    }
  }

  /** An integer is read behind white space and one sign, from as many digits as follow; without
      digits it is zero. */
  lemma {:induction false} AtoiReads(white: string, sign: string, digits: string, rest: string)
    requires forall i :: 0 <= i < |white| ==> IsWhite(white[i])
    requires (sign == "" || sign == "-" || sign == "+") && AllDigits(digits)
    requires rest == "" || !('0' <= rest[0] <= '9')
    requires sign + digits == "" && rest != "" ==> !IsWhite(rest[0]) && rest[0] != '-' && rest[0] != '+'
    ensures Atoi(white + (sign + digits + rest)) == if sign == "-" then 0 - Spelled(digits) else Spelled(digits)
    decreases |white|
  {
    var s := sign + digits + rest;
    if white != "" {
      assert (white + s)[1..] == white[1..] + s;
      AtoiReads(white[1..], sign, digits, rest);
    } else {
      assert white + s == s;
      AtoiOfSigned(sign, digits, rest);
    }
  }

  /** A value that is read changes the first preference of its name, and no other: to the text, to
      the number it starts with, or to whether it is "true"; but a restricted one only to one of its
      valid values, and never to nothing. */
  lemma {:induction false} LoadedIs(table: seq<Entry>, store: seq<Value>, name: string, value: string, i: nat)
    requires Suits(table, store) && i < |table|
    ensures var e, now := table[i], Loaded(table, store, name, value)[i];
            if e.name == name && (forall j :: 0 <= j < i ==> table[j].name != name)
               && (!e.restricted || (value != "" && value in e.valid))
            then now == match e.kind
                        case STRING => Str(value)
                        case INT => Number(Atoi(value))
                        case BOOL => Flag(value == "true")
            else now == store[i]
  {
    var k := IndexOf(table, name);
  }

  lemma {:induction false} FittingLine(table: seq<Entry>, store: seq<Value>, line: string, rest: string)
    requires Suits(table, store) && IsLine(line) && '\0' !in line && |line| < 1024
    ensures line + rest != "" && Chunk(line + rest) == line == CString(line) && (line + rest)[|line|..] == rest
  {
    FirstLineOf(line, rest);
    CStringShape(line);
  }

  lemma {:induction false} SplitAt(line: string, k: nat)
    requires k < |line| && line[k] == '=' && '=' !in line[..k] && k + 1 < |line|
    ensures Split(line) == Pair(line[..k], TrimRight(line[k + 1..]))
  {
    FirstEqualsOf(line[..k], line[k + 1..]);
    assert line == line[..k] + "=" + line[k + 1..];
  }

  /** What each kind of line does, when it fits the buffer. A comment does nothing, and a line
      without an equals sign ends the loading. */
  lemma {:induction false} OtherLinesAreLoaded(table: seq<Entry>, store: seq<Value>, line: string, rest: string)
    requires Suits(table, store) && IsLine(line) && '\0' !in line && |line| < 1024
    ensures line[0] == '#' ==> LoadedAll(table, store, line + rest) == LoadedAll(table, store, rest)
    ensures line[0] != '#' && '=' !in line ==> LoadedAll(table, store, line + rest) == Loading(false, store)
  {
    FittingLine(table, store, line, rest);
  }

  /** A line with an equals sign loads what is behind the first, without trailing white space; one
      without a name makes the loading fail but it goes on. */
  lemma {:induction false} PairsAreLoaded(table: seq<Entry>, store: seq<Value>, line: string, rest: string, k: nat)
    requires Suits(table, store) && IsLine(line) && '\0' !in line && |line| < 1024
    requires k < |line| && line[0] != '#' && line[k] == '=' && '=' !in line[..k]
    ensures LoadedAll(table, store, line + rest)
         == if k == 0 then Loading(false, LoadedAll(table, store, rest).store)
            else LoadedAll(table, Loaded(table, store, line[..k], TrimRight(line[k + 1..])), rest)
  {
    FittingLine(table, store, line, rest);
    SplitAt(line, k);
  }

  // ----- Values that no line can carry -----

  /** What can be read of a line for this entry: no line feed, and no more than the buffer holds. */
  predicate Readable(e: Entry, text: string) {
    LF !in text && |e.name| + 1 + |text| < BUFFER_SIZE
  }

  /** The value was there before or was read from a line. */
  ghost predicate KeptOrRead(e: Entry, now: Value, v: Value) {
    v == now || exists text :: Readable(e, text) && v == e.Read(text)
  }

  /** A line feed stands nowhere but at the end. */
  predicate OnlyLastIsLF(s: string) {
    forall i :: 0 <= i < |s| - 1 ==> s[i] != LF
  }

  lemma {:induction false} ChunkHasOneLine(text: string)
    ensures OnlyLastIsLF(CString(Chunk(text))) && |CString(Chunk(text))| < BUFFER_SIZE
  {
    FirstLineIsLine(text);
    CStringShape(Chunk(text));
  }

  lemma {:induction false} TrimmedHasNoLF(s: string)
    requires OnlyLastIsLF(s)
    ensures LF !in TrimRight(s) && |TrimRight(s)| <= |s|
  {
    if s != "" && IsSpace(s[|s| - 1]) {
      TrimmedHasNoLF(s[..|s| - 1]);
    }
  }

  /** A line feed can only stand at the end of what one read returns, and is trimmed. */
  lemma {:induction false} PairIsReadable(e: Entry, text: string)
    ensures var pair := Split(CString(Chunk(text)));
            pair.Pair? && pair.name == e.name ==> Readable(e, pair.value)
  {
    var line := CString(Chunk(text));
    ChunkHasOneLine(text);
    var k := FirstEquals(line);
    if k + 1 < |line| {
      TrimmedHasNoLF(line[k + 1..]);
    }
  }

  lemma {:induction false} StoreIsKeptOrRead(table: seq<Entry>, now: seq<Value>, text: string, i: nat)
    requires Suits(table, now) && i < |table|
    ensures KeptOrRead(table[i], now[i], LoadedAll(table, now, text).store[i])
    decreases |text|
  {
    if text != "" {
      var line, rest := CString(Chunk(text)), text[|Chunk(text)|..];
      if line != "" && line[0] == '#' {
        StoreIsKeptOrRead(table, now, rest, i);
      } else {
        match Split(line) {
          case Malformed =>
          case Pair("", _) => StoreIsKeptOrRead(table, now, rest, i);
          case Pair(name, value) =>
            StoreIsKeptOrRead(table, Loaded(table, now, name, value), rest, i);
            if name == table[i].name {
              PairIsReadable(table[i], text);
            }
        }
      }
    }
  }

  lemma {:induction false} StringIsTooMuch(table: seq<Entry>, saved: seq<Value>, text: string, i: nat)
    requires Suits(table, saved) && i < |table| && saved[i].Str? && !Readable(table[i], saved[i].s)
    ensures Suits(table, Others(saved)) && LoadedAll(table, Others(saved), text).store != saved
  {
    OthersSuit(table, saved);
    StoreIsKeptOrRead(table, Others(saved), text, i);
    assert |Others(saved)[i].s| == |saved[i].s| + 1;
  }

  /** Loading fails if the second read returns a malformed line. */
  lemma {:induction false} SecondChunkStops(table: seq<Entry>, store: seq<Value>, text: string)
    requires Suits(table, store) && text != ""
    requires var line := CString(Chunk(text)); line != "" && line[0] != '#'
    requires var rest := text[|Chunk(text)|..];
             var line := CString(Chunk(rest));
             rest != "" && (line != "" ==> line[0] != '#') && Split(line) == Malformed
    ensures !LoadedAll(table, store, text).ok
  {
  }

  /** A line too long for the buffer is read in parts. */
  lemma {:induction false} LongLineIsCut(line: string, rest: string)
    requires IsLine(line) && NUL !in line && |line| >= BUFFER_SIZE
    ensures var text, n := line + rest, BUFFER_SIZE - 1;
            Chunk(text) == line[..n] == CString(Chunk(text)) && text[n..] == line[n..] + rest
  {
    FirstLineOf(line, rest);
    CStringShape(line[..BUFFER_SIZE - 1]);
  }

  lemma {:induction false} PartIsMalformed(part: string, rest: string)
    requires IsLine(part) && NUL !in part && '=' !in part
    ensures var line := CString(Chunk(part + rest));
            line != "" && line[0] == part[0] && Split(line) == Malformed
  {
    FirstLineOf(part, rest);
    var c := Chunk(part + rest);
    CStringShape(c);
    assert c <= part;
  }

  /** Nothing that would be taken for a comment or the end of a name. */
  predicate Harmless(text: string) {
    '=' !in text && '#' !in text
  }

  lemma {:induction false} NumbersAreHarmless(v: Value)
    requires v.Number? || v.Flag?
    ensures Harmless(Rendered(v)) && LF !in Rendered(v)
  {
    if v.Number? {
      ReadDigitsOf(if v.i < 0 then -v.i else v.i);
    }
  }

  /** The second part of a line of at least the size of the buffer. */
  function SecondPart(e: Entry, v: Value): string
    requires |SavedLine(e, v)| >= BUFFER_SIZE
  {
    SavedLine(e, v)[BUFFER_SIZE - 1..]
  }

  lemma {:induction false} SecondPartIsHarmless(e: Entry, v: Value)
    requires |SavedLine(e, v)| >= BUFFER_SIZE && |e.name| + 1 < BUFFER_SIZE - 1
    requires |SavedLine(e, v)| == BUFFER_SIZE || Harmless(Rendered(v))
    ensures Harmless(SecondPart(e, v))
  {
    var line, part := SavedLine(e, v), SecondPart(e, v);
    forall j | 0 <= j < |part|
      ensures part[j] != '=' && part[j] != '#'
    {
      var k := BUFFER_SIZE - 1 + j;
      assert part[j] == line[k];
      assert k < |line| - 1 ==> line[k] == Rendered(v)[k - |e.name| - 1];
    }
  }

  lemma {:induction false} LongNameIsMalformed(e: Entry, v: Value)
    requires WellNamed([e]) && |SavedLine(e, v)| >= BUFFER_SIZE && |e.name| + 1 >= BUFFER_SIZE - 1
    ensures Split(SavedLine(e, v)[..BUFFER_SIZE - 1]) == Malformed
  {
    assert [e][0] == e;
    var part := SavedLine(e, v)[..BUFFER_SIZE - 1];
    assert forall j :: 0 <= j < |part| && j < |e.name| ==> part[j] == e.name[j] && e.name[j] != '=';
  }

  /** A long line makes loading fail, if what is cut off does not look like a line. */
  lemma {:induction false} LongLineFails(table: seq<Entry>, store: seq<Value>, e: Entry, v: Value, rest: string)
    requires Suits(table, store) && WellNamed([e]) && LF !in Rendered(v) && |SavedLine(e, v)| >= BUFFER_SIZE
    requires |SavedLine(e, v)| == BUFFER_SIZE || Harmless(Rendered(v))
    ensures !LoadedAll(table, store, SavedLine(e, v) + rest).ok
  {
    assert [e][0] == e;
    RenderedShape(v);
    LineIsWhole(e.name, Rendered(v));
    var line := SavedLine(e, v);
    LongLineIsCut(line, rest);
    if |e.name| + 1 >= BUFFER_SIZE - 1 {
      LongNameIsMalformed(e, v);
    } else {
      SecondPartIsHarmless(e, v);
      PartIsMalformed(SecondPart(e, v), rest);
      SecondChunkStops(table, store, line + rest);
    }
  }

  lemma {:induction false} LineIsHarmlessOrFull(e: Entry, v: Value)
    requires e.Fits(v) && !FitsLine(e, v) && (v.Str? ==> Readable(e, v.s))
    ensures LF !in Rendered(v) && |SavedLine(e, v)| >= BUFFER_SIZE
    ensures |SavedLine(e, v)| == BUFFER_SIZE || Harmless(Rendered(v))
  {
    if v.Str? {
      CStringShape(v.s);
    } else {
      NumbersAreHarmless(v);
    }
  }

  lemma {:induction false} UnfitLineFails(table: seq<Entry>, saved: seq<Value>, now: seq<Value>, k: nat)
    requires WellNamed(table) && Suits(table, saved) && Suits(table, now) && k < |table|
    requires LF !in Rendered(saved[k]) && |SavedLine(table[k], saved[k])| >= BUFFER_SIZE
    requires |SavedLine(table[k], saved[k])| == BUFFER_SIZE || Harmless(Rendered(saved[k]))
    ensures !LoadedFrom(table, saved, now, k).ok
  {
    MixedSuits(table, saved, now, k);
    SavedLinesFrom(table, saved, k);
    assert [table[k]][0] == table[k];
    LongLineFails(table, Mixed(table, saved, now, k), table[k], saved[k], SavedLines(table[k + 1..], saved[k + 1..]));
  }

  /** Loading fails at the first line that is too long. */
  lemma {:induction false} LoadingFails(table: seq<Entry>, saved: seq<Value>, now: seq<Value>, k: nat)
    requires WellNamed(table) && Suits(table, saved) && Suits(table, now) && k < |table| && FirstFit(table, saved, k)
    requires LF !in Rendered(saved[k]) && |SavedLine(table[k], saved[k])| >= BUFFER_SIZE
    requires |SavedLine(table[k], saved[k])| == BUFFER_SIZE || Harmless(Rendered(saved[k]))
    ensures !LoadedAll(table, now, HEADER + SavedLines(table, saved)).ok
  {
    HeaderIsSkipped(SavedLines(table, saved));
    LoadedFromStart(table, saved, now);
    LoadSavedLines(table, saved, now, k);
    UnfitLineFails(table, saved, now, k);
  }

  /** The first value whose line does not fit is not restored. */
  lemma {:induction false} UnfitIsNotRestored(table: seq<Entry>, saved: seq<Value>, k: nat)
    requires WellNamed(table) && Suits(table, saved) && k < |table|
    requires FirstFit(table, saved, k) && !FitsLine(table[k], saved[k])
    ensures Suits(table, Others(saved))
    ensures LoadedAll(table, Others(saved), HEADER + SavedLines(table, saved)) != Loading(true, saved)
  {
    OthersSuit(table, saved);
    if saved[k].Str? && !Readable(table[k], saved[k].s) {
      StringIsTooMuch(table, saved, HEADER + SavedLines(table, saved), k);
    } else {
      LineIsHarmlessOrFull(table[k], saved[k]);
      LoadingFails(table, saved, Others(saved), k);
    }
  }

  lemma {:induction false} SomeIsNotRestored(table: seq<Entry>, saved: seq<Value>, i: nat)
    requires WellNamed(table) && Suits(table, saved) && i <= |table|
    requires FirstFit(table, saved, i) && !FirstFit(table, saved, |table|)
    ensures Suits(table, Others(saved))
    ensures LoadedAll(table, Others(saved), HEADER + SavedLines(table, saved)) != Loading(true, saved)
    decreases |table| - i
  {
    if FitsLine(table[i], saved[i]) {
      SomeIsNotRestored(table, saved, i + 1);
    } else {
      UnfitIsNotRestored(table, saved, i);
    }
  }

  /** Everything is restored exactly, whatever the store held before, if and only if every line
      fits the buffer, every value is acceptable for its preference and no string has a line feed,
      a NUL or trailing white space. */
  lemma {:induction false} RoundTrip(table: seq<Entry>, saved: seq<Value>)
    requires WellNamed(table) && Suits(table, saved)
    ensures (forall now :: Suits(table, now) ==>
               LoadedAll(table, now, HEADER + SavedLines(table, saved)) == Loading(true, saved))
       <==> Savable(table, saved) && (forall i :: 0 <= i < |table| ==> Survives(table[i], saved[i]))
  {
    if !Savable(table, saved) {
        SomeIsNotRestored(table, saved, 0);
    } else if forall i :: 0 <= i < |table| ==> Survives(table[i], saved[i]) {
      forall now | Suits(table, now)
        ensures LoadedAll(table, now, HEADER + SavedLines(table, saved)) == Loading(true, saved)
      {
        SurvivorsAreRestored(table, saved, now);
      }
    } else {
      var i :| 0 <= i < |table| && !Survives(table[i], saved[i]);
      OthersAreNotRestored(table, saved, i);
    }
  }

  lemma {:induction false} OnePreference(e: Entry)
    requires e == Entry("N", STRING, false, [])
    ensures WellNamed([e]) && Savable([e], [Str("a ")]) && Suits([e], [Str("")])
  {
    assert [e][0] == e && [Str("a ")][0] == Str("a ") && [Str("")][0] == Str("");
    CStringShape("a ");
    assert NUL !in "a " && LF !in "a ";
  }

  /** A string that ends in a space comes back without it. */
  lemma {:induction false} TrailingSpaceIsLost()
    ensures var table := [Entry("N", STRING, false, [])];
            && Suits(table, [Str("")])
            && LoadedAll(table, [Str("")], HEADER + SavedLines(table, [Str("a ")])) == Loading(true, [Str("a")])
  {
    var e := Entry("N", STRING, false, []);
    OnePreference(e);
    LoadOfSaved([e], [Str("a ")], [Str("")]);
    CStringShape("a ");
    assert "a "[..1] == "a";
    assert TrimRight("a ") == TrimRight("a") == "a";
    assert Mixed([e], [Str("a ")], [Str("")], 1) == [Str("a")];
  }
}
