/** Preferences saved to a file of lines and loaded back through a line buffer of fixed size. */
module Preferences {
  import opened Lines

  const BUFFER_SIZE: nat := 1024
  const HEADER_NAME: string := "# Ambulant Preferences"
  const HEADER_TEXT: string := "Temporary format. DO NOT EDIT this file !"
  const HEADER: string := HEADER_NAME + "=" + HEADER_TEXT + "\n"
  const NUL: char := '\0'

  datatype Kind = STRING | INT | BOOL
  datatype Value = Str(s: string) | Number(i: int) | Flag(b: bool)

  /** A preference; when `restricted`, only the values in `valid` are accepted from a file. */
  datatype Entry = Entry(name: string, kind: Kind, restricted: bool, valid: seq<string>)
  {
    predicate Fits(v: Value) {
      match kind
      case STRING => v.Str?
      case INT => v.Number?
      case BOOL => v.Flag?
    }

    predicate Accepts(text: string) {
      restricted ==> text != "" && text in valid
    }

    function Read(text: string): Value {
      match kind
      case STRING => Str(text)
      case INT => Number(Atoi(text))
      case BOOL => Flag(text == "true")
    }
  }

  predicate Suits(table: seq<Entry>, store: seq<Value>) {
    |store| == |table| && forall i :: 0 <= i < |table| ==> table[i].Fits(store[i])
  }

  // ----- Values as text -----

  /** A string as C code sees it: up to the first NUL. */
  function CString(s: string): string {
    if s == "" || s[0] == NUL then "" else [s[0]] + CString(s[1..])
  }

  function Digits(n: nat): string {
    if n < 10 then [DigitChar(n)] else Digits(n / 10) + [DigitChar(n % 10)]
  }

  function DigitChar(d: nat): char
    requires d < 10
  {
    ('0' as int + d) as char
  }

  predicate IsDigit(c: char) {
    '0' <= c <= '9'
  }

  function IntText(i: int): string {
    if i < 0 then "-" + Digits(-i) else Digits(i)
  }

  /** The leading digits of `s`, read behind the number `n`. */
  function ReadDigits(s: string, n: nat): nat {
    if s == "" || !IsDigit(s[0]) then n else ReadDigits(s[1..], 10 * n + (s[0] as int - '0' as int))
  }

  function Atoi(s: string): (i: int) {
    if s == "" then 0
    else if IsSpace(s[0]) then Atoi(s[1..])
    else if s[0] == '-' then 0 - ReadDigits(s[1..], 0)
    else if s[0] == '+' then ReadDigits(s[1..], 0)
    else ReadDigits(s, 0)
  }

  function Rendered(v: Value): string {
    match v
    case Str(s) => CString(s)
    case Number(i) => IntText(i)
    case Flag(b) => if b then "true" else "false"
  }

  function SavedLine(e: Entry, v: Value): string {
    e.name + "=" + Rendered(v) + "\n"
  }

  function SavedLines(table: seq<Entry>, store: seq<Value>): string
    requires |store| == |table|
  {
    if table == [] then "" else SavedLine(table[0], store[0]) + SavedLines(table[1..], store[1..])
  }

  // ----- Lines as preferences -----

  /** What one read through the buffer returns: a line, or as much of it as fits. */
  function Chunk(text: string): (c: string)
    ensures |c| <= |text| && c == text[..|c|] && (text != "" ==> c != "")
  {
    var l := FirstLine(text);
    if |l| < BUFFER_SIZE then l else l[..BUFFER_SIZE - 1]
  }

  function FirstEquals(s: string): (k: nat)
    ensures k <= |s| && (k < |s| ==> s[k] == '=') && forall i :: 0 <= i < k ==> s[i] != '='
  {
    if s == "" || s[0] == '=' then 0 else 1 + FirstEquals(s[1..])
  }

  datatype Pair = Malformed | Pair(name: string, value: string)

  /** A line without an equals sign, or with nothing behind it, is malformed. */
  function Split(line: string): Pair {
    var k := FirstEquals(line);
    if k + 1 >= |line| then Malformed else Pair(line[..k], TrimRight(line[k + 1..]))
  }

  function IndexOf(table: seq<Entry>, name: string): (i: nat)
    ensures i <= |table| && (i < |table| ==> table[i].name == name)
    ensures forall j :: 0 <= j < i ==> table[j].name != name
  {
    if table == [] || table[0].name == name then 0 else 1 + IndexOf(table[1..], name)
  }

  /** An unknown name and a value that is not accepted leave everything as it is. */
  function Loaded(table: seq<Entry>, store: seq<Value>, name: string, value: string): (r: seq<Value>)
    requires Suits(table, store)
    ensures Suits(table, r)
  {
    var i := IndexOf(table, name);
    if i < |table| && table[i].Accepts(value) then store[i := table[i].Read(value)] else store
  }

  datatype Loading = Loading(ok: bool, store: seq<Value>)

  /** Loading stops at a malformed line; a line without a name makes the result false. */
  function LoadedAll(table: seq<Entry>, store: seq<Value>, text: string): (r: Loading)
    requires Suits(table, store)
    ensures Suits(table, r.store)
    decreases |text|
  {
    if text == "" then Loading(true, store)
    else
      var line := CString(Chunk(text));
      var rest := text[|Chunk(text)|..];
      if line != "" && line[0] == '#' then LoadedAll(table, store, rest)
      else
        match Split(line)
        case Malformed => Loading(false, store)
        case Pair("", _) => Loading(false, LoadedAll(table, store, rest).store)
        case Pair(name, value) => LoadedAll(table, Loaded(table, store, name, value), rest)
  }

  class UnixPreferences {
    const table: seq<Entry>
    const store: array<Value>

    ghost predicate Valid()
      reads this, store
    {
      Suits(table, store[..])
    }

    constructor (table: seq<Entry>, values: seq<Value>)
      requires Suits(table, values)
      ensures Valid() && fresh(store) && this.table == table && store[..] == values
    {
      this.table := table;
      store := new Value[|values|](i requires 0 <= i < |values| => values[i]);
      new;
      assert store[..] == values;
    }

    method Save() returns (text: string)
      requires Valid()
      ensures text == HEADER + SavedLines(table, store[..])
    {
      text := HEADER;
      ghost var values := store[..];
      var i := 0;
      while i < |table|
        invariant 0 <= i <= |table|
        invariant text + SavedLines(table[i..], values[i..]) == HEADER + SavedLines(table, values)
      {
        ghost var before := text;
        assert table[i..][1..] == table[i + 1..] && values[i..][1..] == values[i + 1..];
        text := text + SavedLine(table[i], store[i]);
        i := i + 1;
        assert before + (SavedLine(table[i - 1], values[i - 1]) + SavedLines(table[i..], values[i..]))
            == text + SavedLines(table[i..], values[i..]);
      }
      assert text + "" == text;
    }

    method LoadPreference(name: string, value: string) returns (ok: bool)
      requires Valid()
      modifies store
      ensures Valid()
      ensures ok <==> name != ""
      ensures store[..] == if name == "" then old(store[..]) else Loaded(table, old(store[..]), name, value)
    {
      if name == "" {
        return false;
      }
      var i := 0;
      while i < |table| && table[i].name != name
        invariant 0 <= i <= |table|
        invariant IndexOf(table, name) == i + IndexOf(table[i..], name)
      {
        assert table[i..][1..] == table[i + 1..];
        i := i + 1;
      }
      if i < |table| && (!table[i].restricted || (value != "" && value in table[i].valid)) {
        store[i] := table[i].Read(value);
      }
      ok := true;
    }

    method Load(text: string) returns (ok: bool)
      requires Valid()
      modifies store
      ensures Valid()
      ensures Loading(ok, store[..]) == LoadedAll(table, old(store[..]), text)
    {
      var ahead := text;
      ok := true;
      while ahead != ""
        invariant Valid()
        invariant var all, rest := LoadedAll(table, old(store[..]), text), LoadedAll(table, store[..], ahead);
                  all.store == rest.store && all.ok == (ok && rest.ok)
        decreases |ahead|
      {
        var chunk := Chunk(ahead);
        var line := CString(chunk);
        ahead := ahead[|chunk|..];
        if line != "" && line[0] == '#' {
          continue;
        }
        var pair := Split(line);
        if pair == Malformed {
          return false;
        }
        var known := LoadPreference(pair.name, pair.value);
        ok := ok && known;
      }
    }
  }
}
