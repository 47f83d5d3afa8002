/** The preferences that the player keeps, apart from their names. */
module PlayerSettings {
  import opened Lines
  import opened Preferences
  import opened PreferencesRoundTrip

  datatype Settings = Settings(
    welcomeSeen: bool, logLevel: int, parser: string, scheme: string, namespaces: bool,
    schema: bool, fullChecking: bool, plugins: bool, pluginPath: string, logFile: string)
  {
    /** The stored values in the order of the table. */
    function Values(): seq<Value> {
      [Flag(welcomeSeen), Number(logLevel), Str(parser), Str(scheme), Flag(namespaces),
       Flag(schema), Flag(fullChecking), Flag(plugins), Str(pluginPath), Str(logFile)]
    }
  }

  // ----- Which values come back -----

  predicate ComesBack(e: Entry, v: Value) {
    FitsLine(e, v) && Survives(e, v)
  }

  predicate IsFlag(e: Entry) {
    e.kind == BOOL && (e.restricted ==> "false" in e.valid && "true" in e.valid) && |e.name| <= 50
  }

  lemma {:induction false} FlagComesBack(e: Entry, b: bool)
    requires IsFlag(e)
    ensures ComesBack(e, Flag(b))
  {
    RenderedShape(Flag(b));
    NumbersAreHarmless(Flag(b));
  }

  predicate IsNumber(e: Entry) {
    e.kind == INT && !e.restricted && |e.name| <= 50
  }

  function Power(k: nat): nat {
    if k == 0 then 1 else 10 * Power(k - 1)
  }

  lemma {:induction false} DigitsAreFew(n: nat, k: nat)
    requires n < Power(k) && k > 0
    ensures |Digits(n)| <= k
    decreases k
  {
    if n >= 10 {
      assert Power(1) == 10;
      assert n < 10 * Power(k - 1);
      DigitsAreFew(n / 10, k - 1);
    }
  }

  lemma {:induction false} NumberComesBack(e: Entry, i: int)
    requires IsNumber(e) && -0x8000_0000 <= i < 0x8000_0000
    ensures ComesBack(e, Number(i))
  {
    assert Power(10) == 10_000_000_000 by {
      assert Power(5) == 100_000;
    }
    DigitsAreFew(if i < 0 then -i else i, 10);
    RenderedShape(Number(i));
    NumbersAreHarmless(Number(i));
  }

  /** Text that a line can carry and that is not trimmed when it is read. */
  predicate IsPlain(s: string) {
    '\n' !in s && '\0' !in s && (s == "" || !IsSpace(s[|s| - 1]))
  }

  lemma {:induction false} TextComesBack(e: Entry, s: string)
    requires e.kind == STRING
    ensures ComesBack(e, Str(s)) <==> IsPlain(s) && |e.name| + |s| <= 1021 && e.Accepts(s)
  {
    CStringShape(s);
    TrimRightFixed(s);
  }

  /** One of a few words, all short. */
  predicate IsChoice(e: Entry) {
    e.kind == STRING && e.restricted && |e.name| <= 50
    && forall s :: s in e.valid ==> IsPlain(s) && 0 < |s| <= 6
  }

  predicate IsText(e: Entry) {
    e.kind == STRING && !e.restricted
  }

  predicate FitsSettings(table: seq<Entry>) {
    && |table| == 10
    && IsFlag(table[0]) && IsNumber(table[1]) && IsChoice(table[2]) && IsChoice(table[3])
    && IsFlag(table[4]) && IsFlag(table[5]) && IsFlag(table[6]) && IsFlag(table[7])
    && IsText(table[8]) && IsText(table[9])
  }

  lemma {:induction false} FitsSuits(table: seq<Entry>, x: Settings)
    requires FitsSettings(table)
    ensures Suits(table, x.Values())
  {
  }

  predicate TextsComeBack(table: seq<Entry>, x: Settings)
    requires FitsSettings(table)
  {
    && x.parser in table[2].valid && x.scheme in table[3].valid
    && IsPlain(x.pluginPath) && |table[8].name| + |x.pluginPath| <= 1021
    && IsPlain(x.logFile) && |table[9].name| + |x.logFile| <= 1021
  }

  /** The first `n` values come back. */
  predicate FirstComeBack(table: seq<Entry>, values: seq<Value>, n: nat)
    requires n <= |table| == |values|
  {
    n > 0 ==> FirstComeBack(table, values, n - 1) && ComesBack(table[n - 1], values[n - 1])
  }

  lemma {:induction false} FirstOnesFit(table: seq<Entry>, values: seq<Value>, n: nat)
    requires n <= |table| == |values| && FirstComeBack(table, values, n)
    ensures FirstFit(table, values, n)
  {
    if n > 0 {
      FirstOnesFit(table, values, n - 1);
    }
  }

  lemma {:induction false} FirstOneSurvives(table: seq<Entry>, values: seq<Value>, n: nat, i: nat)
    requires i < n <= |table| == |values| && FirstComeBack(table, values, n)
    ensures Survives(table[i], values[i])
  {
    if i < n - 1 {
      FirstOneSurvives(table, values, n - 1, i);
    }
  }

  lemma {:induction false} NotAllComeBack(table: seq<Entry>, values: seq<Value>, n: nat) returns (i: nat)
    requires n <= |table| == |values| && FirstFit(table, values, n) && !FirstComeBack(table, values, n)
    ensures i < n && !Survives(table[i], values[i])
  {
    if FirstComeBack(table, values, n - 1) {
      i := n - 1;
    } else {
      i := NotAllComeBack(table, values, n - 1);
    }
  }

  lemma {:induction false} AllComeBack(table: seq<Entry>, values: seq<Value>)
    requires |table| == |values|
    ensures FirstComeBack(table, values, |table|)
       <==> FirstFit(table, values, |table|) && forall i :: 0 <= i < |table| ==> Survives(table[i], values[i])
  {
    if FirstComeBack(table, values, |table|) {
      FirstOnesFit(table, values, |table|);
      forall i | 0 <= i < |table|
        ensures Survives(table[i], values[i])
      {
        FirstOneSurvives(table, values, |table|, i);
      }
    } else if FirstFit(table, values, |table|) {
      var i := NotAllComeBack(table, values, |table|);
    }
  }

  lemma {:induction false} FlagAdds(table: seq<Entry>, values: seq<Value>, k: nat)
    requires k < |table| == |values| && IsFlag(table[k]) && values[k].Flag?
    ensures FirstComeBack(table, values, k + 1) <==> FirstComeBack(table, values, k)
  {
    FlagComesBack(table[k], values[k].b);
  }

  lemma {:induction false} NumberAdds(table: seq<Entry>, values: seq<Value>, k: nat)
    requires k < |table| == |values| && IsNumber(table[k]) && values[k].Number?
    requires -0x8000_0000 <= values[k].i < 0x8000_0000
    ensures FirstComeBack(table, values, k + 1) <==> FirstComeBack(table, values, k)
  {
    NumberComesBack(table[k], values[k].i);
  }

  lemma {:induction false} ChoiceAdds(table: seq<Entry>, values: seq<Value>, k: nat)
    requires k < |table| == |values| && IsChoice(table[k]) && values[k].Str?
    ensures FirstComeBack(table, values, k + 1)
       <==> FirstComeBack(table, values, k) && values[k].s in table[k].valid
  {
    TextComesBack(table[k], values[k].s);
  }

  lemma {:induction false} FirstTwoComeBack(table: seq<Entry>, x: Settings)
    requires FitsSettings(table) && -0x8000_0000 <= x.logLevel < 0x8000_0000
    ensures FirstComeBack(table, x.Values(), 2)
  {
    var v := x.Values();
    assert FirstComeBack(table, v, 0);
    FlagAdds(table, v, 0);
    NumberAdds(table, v, 1);
  }

  lemma {:induction false} NextTwoComeBack(table: seq<Entry>, x: Settings)
    requires FitsSettings(table)
    ensures FirstComeBack(table, x.Values(), 4)
       <==> FirstComeBack(table, x.Values(), 2) && x.parser in table[2].valid && x.scheme in table[3].valid
  {
    var v := x.Values();
    ChoiceAdds(table, v, 2);
    ChoiceAdds(table, v, 3);
  }

  lemma {:induction false} NextFourComeBack(table: seq<Entry>, x: Settings)
    requires FitsSettings(table)
    ensures FirstComeBack(table, x.Values(), 8) <==> FirstComeBack(table, x.Values(), 4)
  {
    var v := x.Values();
    FlagAdds(table, v, 4);
    FlagAdds(table, v, 5);
    FlagAdds(table, v, 6);
    FlagAdds(table, v, 7);
  }

  predicate FitsText(e: Entry, s: string) {
    IsPlain(s) && |e.name| + |s| <= 1021
  }

  lemma {:induction false} PathsComeBack(table: seq<Entry>, x: Settings)
    requires FitsSettings(table)
    ensures FirstComeBack(table, x.Values(), 10)
       <==> FirstComeBack(table, x.Values(), 8) && FitsText(table[8], x.pluginPath) && FitsText(table[9], x.logFile)
  {
    TextComesBack(table[8], x.pluginPath);
    TextComesBack(table[9], x.logFile);
    assert FirstComeBack(table, x.Values(), 9)
      <==> FirstComeBack(table, x.Values(), 8) && FitsText(table[8], x.pluginPath);
  }

  lemma {:induction false} SettingsComeBack(table: seq<Entry>, x: Settings)
    requires FitsSettings(table) && -0x8000_0000 <= x.logLevel < 0x8000_0000
    ensures FirstComeBack(table, x.Values(), 10) <==> TextsComeBack(table, x)
  {
    FirstTwoComeBack(table, x);
    NextTwoComeBack(table, x);
    NextFourComeBack(table, x);
    PathsComeBack(table, x);
  }

  /** The parser and the scheme are ones that the player knows, and the path of the plugins and the
      name of the log file are plain text that fits the buffer behind their names. */
  predicate AreKnownAndPlain(x: Settings) {
    && (x.parser == "any" || x.parser == "expat" || x.parser == "xerces")
    && (x.scheme == "never" || x.scheme == "always" || x.scheme == "auto")
    && IsPlain(x.pluginPath) && |x.pluginPath| <= 1001
    && IsPlain(x.logFile) && |x.logFile| <= 1005
  }

  lemma {:induction false} OneOfThree(s: string, valid: seq<string>)
    requires |valid| == 3
    ensures s in valid <==> s == valid[0] || s == valid[1] || s == valid[2]
  {
  }

  lemma {:induction false} KnownAndPlainComeBack(table: seq<Entry>, x: Settings)
    requires FitsSettings(table) && |table[8].name| == 20 && |table[9].name| == 16
    requires table[2].valid == ["any", "expat", "xerces"] && table[3].valid == ["never", "always", "auto"]
    ensures TextsComeBack(table, x) <==> AreKnownAndPlain(x)
  {
    OneOfThree(x.parser, table[2].valid);
    OneOfThree(x.scheme, table[3].valid);
  }

  /** With any table for these settings. */
  lemma {:induction false} SettingsRoundTrip(table: seq<Entry>, x: Settings)
    requires WellNamed(table) && FitsSettings(table) && -0x8000_0000 <= x.logLevel < 0x8000_0000
    ensures Suits(table, x.Values())
    ensures (forall now :: Suits(table, now) ==>
               LoadedAll(table, now, HEADER + SavedLines(table, x.Values())) == Loading(true, x.Values()))
       <==> TextsComeBack(table, x)
  {
    FitsSuits(table, x);
    RoundTrip(table, x.Values());
    AllComeBack(table, x.Values());
    SettingsComeBack(table, x);
  }
}

/** The preferences of the player by name, and which of them come back when loaded. */
module PlayerPreferences {
  import opened Lines
  import opened PlayerSettings
  import opened Preferences
  import opened PreferencesRoundTrip

  const VALID_PARSERS: seq<string> := ["any", "expat", "xerces"]
  const VALID_SCHEMES: seq<string> := ["never", "always", "auto"]
  const VALID_BOOLS: seq<string> := ["false", "true"]

  const TABLE: seq<Entry> := [
    Entry("AMBULANT_WELCOME_SEEN", BOOL, true, VALID_BOOLS),
    Entry("AMBULANT_LOG_LEVEL", INT, false, []),
    Entry("AMBULANT_USE_PARSER", STRING, true, VALID_PARSERS),
    Entry("AMBULANT_VALIDATION_SCHEME", STRING, true, VALID_SCHEMES),
    Entry("AMBULANT_DO_NAMESPACES", BOOL, true, VALID_BOOLS),
    Entry("AMBULANT_DO_SCHEMA", BOOL, true, VALID_BOOLS),
    Entry("AMBULANT_DO_VALIDATION_SCHEMA_FULL_CHECKING", BOOL, true, VALID_BOOLS),
    Entry("AMBULANT_USE_PLUGINS", BOOL, true, VALID_BOOLS),
    Entry("AMBULANT_PLUGIN_PATH", STRING, false, []),
    Entry("AMBULANT_LOGFILE", STRING, false, [])
  ]

  predicate CapitalsOnly(n: string) {
    forall i :: 0 <= i < |n| ==> 'A' <= n[i] <= 'Z' || n[i] == '_'
  }

  lemma {:induction false} FirstNamesAreCapitals()
    ensures CapitalsOnly("AMBULANT_WELCOME_SEEN") && CapitalsOnly("AMBULANT_LOG_LEVEL")
    ensures CapitalsOnly("AMBULANT_USE_PARSER") && CapitalsOnly("AMBULANT_VALIDATION_SCHEME")
    ensures CapitalsOnly("AMBULANT_DO_NAMESPACES") && CapitalsOnly("AMBULANT_DO_SCHEMA")
  {
  }

  lemma {:induction false} LastNamesAreCapitals()
    ensures CapitalsOnly("AMBULANT_DO_VALIDATION_SCHEMA_FULL_CHECKING")
    ensures CapitalsOnly("AMBULANT_USE_PLUGINS") && CapitalsOnly("AMBULANT_PLUGIN_PATH")
    ensures CapitalsOnly("AMBULANT_LOGFILE")
  {
  }

  lemma {:induction false} NamesAreCapitals(i: nat)
    requires i < |TABLE|
    ensures CapitalsOnly(TABLE[i].name)
  {
    FirstNamesAreCapitals();
    LastNamesAreCapitals();
  }

  lemma {:induction false} NamesAreDistinct()
    ensures forall i, j :: 0 <= i < j < |TABLE| ==> TABLE[i].name != TABLE[j].name
    ensures forall i :: 0 <= i < |TABLE| ==> TABLE[i].name != ""
  {
  }

  lemma {:induction false} CapitalsArePlain(n: string)
    requires CapitalsOnly(n)
    ensures '=' !in n && '\n' !in n && '\0' !in n && (n != "" ==> n[0] != '#')
  {
  }

  /** The player's own table meets what the round trip asks of names. */
  lemma {:induction false} TableIsWellNamed()
    ensures WellNamed(TABLE)
  {
    var table := TABLE;
    NamesAreDistinct();
    forall i | 0 <= i < |table|
      ensures var n := table[i].name; n[0] != '#' && '=' !in n && '\n' !in n && '\0' !in n
    {
      NamesAreCapitals(i);
      CapitalsArePlain(table[i].name);
    }
  }

  lemma {:induction false} ChoicesArePlain(s: string)
    requires s in VALID_PARSERS || s in VALID_SCHEMES
    ensures IsPlain(s) && 0 < |s| <= 6
  {
  }

  lemma {:induction false} ChoiceEntries(e: Entry)
    requires e == TABLE[2] || e == TABLE[3]
    ensures IsChoice(e)
  {
    forall s | s in e.valid
      ensures IsPlain(s) && 0 < |s| <= 6
    {
      ChoicesArePlain(s);
    }
  }

  lemma {:induction false} FlagEntries(i: nat)
    requires i == 0 || 4 <= i <= 7
    ensures IsFlag(TABLE[i])
  {
    assert VALID_BOOLS[0] == "false" && VALID_BOOLS[1] == "true";
  }

  lemma {:induction false} OtherEntries()
    ensures |TABLE| == 10 && IsNumber(TABLE[1]) && IsText(TABLE[8]) && IsText(TABLE[9])
    ensures |TABLE[8].name| == 20 && |TABLE[9].name| == 16
  {
  }

  lemma {:induction false} TableFitsSettings()
    ensures FitsSettings(TABLE)
  {
    OtherEntries();
    ChoiceEntries(TABLE[2]);
    ChoiceEntries(TABLE[3]);
    FlagEntries(0);
    FlagEntries(4);
    FlagEntries(5);
    FlagEntries(6);
    FlagEntries(7);
  }

  /** Of the player's own preferences everything comes back, whatever was in memory, if and only if
      the parser and the scheme are ones that it knows, and the path of the plugins and the name of
      the log file are plain text that fits the buffer; flags and numbers always do. */
  lemma {:induction false} PlayerRoundTrip(x: Settings)
    requires -0x8000_0000 <= x.logLevel < 0x8000_0000
    ensures Suits(TABLE, x.Values())
    ensures (forall now :: Suits(TABLE, now) ==>
               LoadedAll(TABLE, now, HEADER + SavedLines(TABLE, x.Values())) == Loading(true, x.Values()))
       <==> AreKnownAndPlain(x)
  {
    TableIsWellNamed();
    TableFitsSettings();
    OtherEntries();
    KnownAndPlainComeBack(TABLE, x);
    SettingsRoundTrip(TABLE, x);
  }
}
