/** The backtracing settings record of `stdlib/public/runtime/Backtrace.cpp`
    and the two stages that fill it from the SWIFT_BACKTRACING environment
    variable: a character-level splitter that cuts `key=value,key=value`
    into pairs, and an interpreter that folds each pair into the record.

    LLVM's `consumeInteger` and `getAsInteger` are not reimplemented; they
    arrive as oracles (`IntegerParsers`) that, like LLVM, report `true` on
    FAILURE.  The branches that consume them are modelled as written. */
module BacktraceSettings {
  import opened Wrappers
  import opened Text

  /** An `unsigned` of the C runtime. */
  type u32 = x: int | 0 <= x < 0x1_0000_0000

  datatype UnwindAlgorithm = Auto | Fast | DWARF | SEH

  /** Off is the zero enumerator, so `if (setting)` in C tests `!= Off`. */
  datatype OnOffTty = Off | On | TTY

  /** `_swift_backtraceSettings` as Backtrace.cpp reads and writes it.  The
      timeout is compared with 0 there (line 380), so it is a signed
      integer in this model; the helper path is a nullable C string. */
  datatype Settings = Settings(
    algorithm: UnwindAlgorithm,
    enabled: OnOffTty,
    symbolicate: bool,
    interactive: OnOffTty,
    color: OnOffTty,
    timeout: int,
    level: u32,
    swiftBacktracePath: Option<string>)

  datatype OS = MacOS | Linux | Windows | OtherOS

  /** The static initialiser of `_swift_backtraceSettings`. */
  function Defaults(os: OS): (s: Settings)
    ensures s.algorithm == Auto && s.symbolicate && s.color == TTY
    ensures s.timeout == 30 && s.level == 1 && s.swiftBacktracePath == None
    ensures s.enabled == TTY <==> os == MacOS
    ensures s.enabled == Off <==> os == OtherOS
    ensures s.interactive == (if os == OtherOS then Off else TTY)
  {
    Settings(
      Auto,
      match os
      case MacOS => TTY
      case Linux => On
      case Windows => On
      case OtherOS => Off,
      true,
      if os == OtherOS then Off else TTY,
      TTY,
      30,
      1,
      None)
  }

  /** The warnings `swift::warning` prints while the settings are read and
      resolved; the model returns them instead of writing them to stderr. */
  datatype Warning =
    | BadTimeoutSeconds(seconds: int)
    | BadTimeout(value: string)
    | UnknownAlgorithm(value: string)
    | BadLevel(value: string)
    | UnknownSetting(key: string)
    | NotSupported
    | HelperNotFound
    | DwarfNotSupported
    | SehNotSupported
    | PathNotConverted
    | PathNotProtected
    | PathTooLong
    | InstallFailed

  /** What `StringRef::consumeInteger(0, count)` leaves behind: its return
      value (`failed`, true on failure), the value then held by `count` and
      the string that remains in `valueCopy`. */
  datatype Consumed = Consumed(failed: bool, count: int, rest: string)

  /** What `StringRef::getAsInteger(0, level)` reports: its return value
      (true on failure) and, on success, the parsed unsigned value. */
  datatype Parsed = Parsed(failed: bool, value: u32)

  datatype IntegerParsers = IntegerParsers(
    consumeInteger: string -> Consumed,
    getAsInteger: string -> Parsed)

  /** The record after one setting, and the warnings it produced. */
  datatype Outcome = Outcome(settings: Settings, warnings: seq<Warning>)

  // ---------------------------------------------------------------------
  // Value parsers
  // ---------------------------------------------------------------------

  /** The six spellings of "yes", in lower case. */
  const TrueWords: set<string> := {"on", "true", "yes", "y", "t", "1"}

  function ParseOnOffTty(value: string): (r: OnOffTty)
    ensures r == On <==> Lower(value) in TrueWords
    ensures r == TTY <==> Lower(value) in {"tty", "auto"}
  {
    LowerOfLowercase("on"); LowerOfLowercase("true"); LowerOfLowercase("yes");
    LowerOfLowercase("y"); LowerOfLowercase("t"); LowerOfLowercase("1");
    LowerOfLowercase("tty"); LowerOfLowercase("auto");
    if EqualsInsensitive(value, "on")
       || EqualsInsensitive(value, "true")
       || EqualsInsensitive(value, "yes")
       || EqualsInsensitive(value, "y")
       || EqualsInsensitive(value, "t")
       || EqualsInsensitive(value, "1")
    then On
    else if EqualsInsensitive(value, "tty") || EqualsInsensitive(value, "auto")
    then TTY
    else Off
  }

  function ParseBoolean(value: string): (r: bool)
    ensures r <==> Lower(value) in TrueWords
  {
    LowerOfLowercase("on"); LowerOfLowercase("true"); LowerOfLowercase("yes");
    LowerOfLowercase("y"); LowerOfLowercase("t"); LowerOfLowercase("1");
    EqualsInsensitive(value, "on")
    || EqualsInsensitive(value, "true")
    || EqualsInsensitive(value, "yes")
    || EqualsInsensitive(value, "y")
    || EqualsInsensitive(value, "t")
    || EqualsInsensitive(value, "1")
  }

  /** `parseBoolean` accepts exactly the words `parseOnOffTty` maps to On. */
  lemma BooleanAgreesWithOnOffTty(value: string)
    ensures ParseBoolean(value) <==> ParseOnOffTty(value) == On
  {
  }

  // ---------------------------------------------------------------------
  // Reference tables, independent of the if-chains below
  // ---------------------------------------------------------------------

  /** The field of the record a setting key addresses. */
  datatype Field =
    | AlgorithmField | EnabledField | SymbolicateField | InteractiveField
    | ColorField | TimeoutField | LevelField | PathField

  const KeyFields: map<string, Field> := map[
    "enable" := EnabledField,
    "symbolicate" := SymbolicateField,
    "interactive" := InteractiveField,
    "color" := ColorField,
    "timeout" := TimeoutField,
    "unwind" := AlgorithmField,
    "level" := LevelField,
    "swift-backtrace" := PathField]

  /** The field a key names, compared without regard to ASCII case. */
  function KeyField(key: string): Option<Field> {
    if Lower(key) in KeyFields then Some(KeyFields[Lower(key)]) else None
  }

  const UnwindNames: map<string, UnwindAlgorithm> := map[
    "auto" := Auto, "fast" := Fast, "dwarf" := DWARF, "seh" := SEH]

  /** Seconds per unit of a timeout; the empty unit means seconds. */
  const TimeoutUnits: map<string, int> := map[
    "" := 1, "s" := 1, "seconds" := 1,
    "m" := 60, "minutes" := 60,
    "h" := 3600, "hours" := 3600]

  /** Every field other than `f` is the same in `a` and `b`. */
  predicate SameExcept(a: Settings, b: Settings, f: Option<Field>) {
    && (f != Some(AlgorithmField) ==> a.algorithm == b.algorithm)
    && (f != Some(EnabledField) ==> a.enabled == b.enabled)
    && (f != Some(SymbolicateField) ==> a.symbolicate == b.symbolicate)
    && (f != Some(InteractiveField) ==> a.interactive == b.interactive)
    && (f != Some(ColorField) ==> a.color == b.color)
    && (f != Some(TimeoutField) ==> a.timeout == b.timeout)
    && (f != Some(LevelField) ==> a.level == b.level)
    && (f != Some(PathField) ==> a.swiftBacktracePath == b.swiftBacktracePath)
  }

  lemma LowerLiterals()
    ensures Lower("enable") == "enable" && Lower("symbolicate") == "symbolicate"
    ensures Lower("interactive") == "interactive" && Lower("color") == "color"
    ensures Lower("timeout") == "timeout" && Lower("unwind") == "unwind"
    ensures Lower("level") == "level" && Lower("swift-backtrace") == "swift-backtrace"
    ensures Lower("none") == "none" && Lower("auto") == "auto" && Lower("fast") == "fast"
    ensures Lower("DWARF") == "dwarf" && Lower("SEH") == "seh"
    ensures Lower("s") == "s" && Lower("seconds") == "seconds"
    ensures Lower("m") == "m" && Lower("minutes") == "minutes"
    ensures Lower("h") == "h" && Lower("hours") == "hours"
  {
    LowerOfLowercase("enable"); LowerOfLowercase("symbolicate");
    LowerOfLowercase("interactive"); LowerOfLowercase("color");
    LowerOfLowercase("timeout"); LowerOfLowercase("unwind");
    LowerOfLowercase("level"); LowerOfLowercase("swift-backtrace");
    LowerOfLowercase("none"); LowerOfLowercase("auto"); LowerOfLowercase("fast");
    LowerOfLowercase("s"); LowerOfLowercase("seconds");
    LowerOfLowercase("m"); LowerOfLowercase("minutes");
    LowerOfLowercase("h"); LowerOfLowercase("hours");
    assert Lower("DWARF") == "dwarf";
    assert Lower("SEH") == "seh";
  }

  /** The table agrees with the case-insensitive comparisons of the
      dispatch: each key spelling selects its field, and any other key
      selects none. */
  lemma KeyFieldCases(key: string)
    ensures KeyField(key) == Some(EnabledField) <==> EqualsInsensitive(key, "enable")
    ensures KeyField(key) == Some(SymbolicateField) <==> EqualsInsensitive(key, "symbolicate")
    ensures KeyField(key) == Some(InteractiveField) <==> EqualsInsensitive(key, "interactive")
    ensures KeyField(key) == Some(ColorField) <==> EqualsInsensitive(key, "color")
    ensures KeyField(key) == Some(TimeoutField) <==> EqualsInsensitive(key, "timeout")
    ensures KeyField(key) == Some(AlgorithmField) <==> EqualsInsensitive(key, "unwind")
    ensures KeyField(key) == Some(LevelField) <==> EqualsInsensitive(key, "level")
    ensures KeyField(key) == Some(PathField) <==> EqualsInsensitive(key, "swift-backtrace")
  {
    LowerLiterals();
  }

  // ---------------------------------------------------------------------
  // _swift_processBacktracingSetting
  // ---------------------------------------------------------------------

  /** The unit after a timeout count, read as in lines 367-383: the count
      scaled by the unit table, or `otherwise` for a unit the table lacks. */
  function ScaleByUnit(count: int, unit: string, otherwise: int): (t: int)
    ensures Lower(unit) in TimeoutUnits ==> t == count * TimeoutUnits[Lower(unit)]
    ensures Lower(unit) !in TimeoutUnits ==> t == otherwise
  {
    LowerOfLowercase("s"); LowerOfLowercase("seconds");
    LowerOfLowercase("m"); LowerOfLowercase("minutes");
    LowerOfLowercase("h"); LowerOfLowercase("hours");
    if unit == [] || EqualsInsensitive(unit, "s") || EqualsInsensitive(unit, "seconds")
    then count
    else if EqualsInsensitive(unit, "m") || EqualsInsensitive(unit, "minutes")
    then count * 60
    else if EqualsInsensitive(unit, "h") || EqualsInsensitive(unit, "hours")
    then count * 3600
    else otherwise
  }

  /** The `timeout` key.  As written, the unit branch runs when
      `consumeInteger` returns true, i.e. when it reports failure; when it
      reports success the value is rejected with a warning. */
  function ProcessTimeout(s: Settings, value: string, p: IntegerParsers): (r: Outcome)
    ensures SameExcept(s, r.settings, Some(TimeoutField))
    ensures s.timeout >= 0 ==> r.settings.timeout >= 0
  {
    if EqualsInsensitive(value, "none") then
      Outcome(s.(timeout := 0), [])
    else
      var c := p.consumeInteger(value);
      if c.failed then
        var t := ScaleByUnit(c.count, Trim(c.rest), s.timeout);
        if t < 0 then Outcome(s.(timeout := 0), [BadTimeoutSeconds(t)])
        else Outcome(s.(timeout := t), [])
      else
        Outcome(s, [BadTimeout(value)])
  }

  /** The timeout key's two fixed answers: "none" is zero, and a number
      that parses in full is refused. */
  lemma ProcessTimeoutFixed(s: Settings, value: string, p: IntegerParsers)
    ensures Lower(value) == "none" ==> ProcessTimeout(s, value, p) == Outcome(s.(timeout := 0), [])
    ensures Lower(value) != "none" && !p.consumeInteger(value).failed
            ==> ProcessTimeout(s, value, p) == Outcome(s, [BadTimeout(value)])
  {
    LowerOfLowercase("none");
  }

  /** Otherwise the unit after the number scales it by the unit table (an
      unknown unit keeps the old value), and a negative result is refused
      and clamped to zero. */
  lemma ProcessTimeoutByUnits(s: Settings, value: string, p: IntegerParsers)
    requires Lower(value) != "none" && p.consumeInteger(value).failed
    ensures var c := p.consumeInteger(value);
            var u := Lower(Trim(c.rest));
            var t := if u in TimeoutUnits then c.count * TimeoutUnits[u] else s.timeout;
            var r := ProcessTimeout(s, value, p);
            r.settings.timeout == (if t < 0 then 0 else t)
            && r.warnings == (if t < 0 then [BadTimeoutSeconds(t)] else [])
  {
    LowerOfLowercase("none");
  }

  /** The `unwind` key: a known algorithm name replaces the algorithm, any
      other value warns and changes nothing. */
  function ProcessUnwind(s: Settings, value: string): (r: Outcome)
    ensures Lower(value) in UnwindNames
            ==> r == Outcome(s.(algorithm := UnwindNames[Lower(value)]), [])
    ensures Lower(value) !in UnwindNames ==> r == Outcome(s, [UnknownAlgorithm(value)])
  {
    LowerLiterals();
    if EqualsInsensitive(value, "auto") then Outcome(s.(algorithm := Auto), [])
    else if EqualsInsensitive(value, "fast") then Outcome(s.(algorithm := Fast), [])
    else if EqualsInsensitive(value, "DWARF") then Outcome(s.(algorithm := DWARF), [])
    else if EqualsInsensitive(value, "SEH") then Outcome(s.(algorithm := SEH), [])
    else Outcome(s, [UnknownAlgorithm(value)])
  }

  /** The `level` key.  `getAsInteger` stores into `level` only on success,
      and as written the "bad level" warning fires on that same success. */
  function ProcessLevel(s: Settings, value: string, p: IntegerParsers): (r: Outcome)
    ensures SameExcept(s, r.settings, Some(LevelField))
    ensures p.getAsInteger(value).failed ==> r == Outcome(s, [])
    ensures !p.getAsInteger(value).failed
            ==> r.settings.level == p.getAsInteger(value).value && r.warnings == [BadLevel(value)]
  {
    var parsed := p.getAsInteger(value);
    if !parsed.failed then Outcome(s.(level := parsed.value), [BadLevel(value)])
    else Outcome(s, [])
  }

  function ProcessSetting(s: Settings, key: string, value: string, p: IntegerParsers): (r: Outcome)
    ensures SameExcept(s, r.settings, KeyField(key))
    ensures KeyField(key) == None ==> r == Outcome(s, [UnknownSetting(key)])
    ensures KeyField(key) == Some(EnabledField) ==> r == Outcome(s.(enabled := ParseOnOffTty(value)), [])
    ensures KeyField(key) == Some(InteractiveField) ==> r == Outcome(s.(interactive := ParseOnOffTty(value)), [])
    ensures KeyField(key) == Some(ColorField) ==> r == Outcome(s.(color := ParseOnOffTty(value)), [])
    ensures KeyField(key) == Some(SymbolicateField) ==> r == Outcome(s.(symbolicate := ParseBoolean(value)), [])
    ensures KeyField(key) == Some(PathField) ==> r == Outcome(s.(swiftBacktracePath := Some(value)), [])
    ensures KeyField(key) == Some(TimeoutField) ==> r == ProcessTimeout(s, value, p)
    ensures KeyField(key) == Some(AlgorithmField) ==> r == ProcessUnwind(s, value)
    ensures KeyField(key) == Some(LevelField) ==> r == ProcessLevel(s, value, p)
  {
    KeyFieldCases(key);
    if EqualsInsensitive(key, "enable") then
      Outcome(s.(enabled := ParseOnOffTty(value)), [])
    else if EqualsInsensitive(key, "symbolicate") then
      Outcome(s.(symbolicate := ParseBoolean(value)), [])
    else if EqualsInsensitive(key, "interactive") then
      Outcome(s.(interactive := ParseOnOffTty(value)), [])
    else if EqualsInsensitive(key, "color") then
      Outcome(s.(color := ParseOnOffTty(value)), [])
    else if EqualsInsensitive(key, "timeout") then
      ProcessTimeout(s, value, p)
    else if EqualsInsensitive(key, "unwind") then
      ProcessUnwind(s, value)
    else if EqualsInsensitive(key, "level") then
      ProcessLevel(s, value, p)
    else if EqualsInsensitive(key, "swift-backtrace") then
      Outcome(s.(swiftBacktracePath := Some(value)), [])
    else
      Outcome(s, [UnknownSetting(key)])
  }

  /** Keys are matched without regard to ASCII case: two spellings of the
      same key have the same effect on the record. */
  lemma KeysCaseInsensitive(s: Settings, k1: string, k2: string, value: string, p: IntegerParsers)
    requires EqualsInsensitive(k1, k2)
    ensures ProcessSetting(s, k1, value, p).settings == ProcessSetting(s, k2, value, p).settings
  {
  }

  // ---------------------------------------------------------------------
  // _swift_parseBacktracingSettings: the splitter
  // ---------------------------------------------------------------------

  type Pair = (string, string)

  /** Reference definition of the split, from position `i` of `t`: the key
      runs to the next '=', the value from there to the next ',' or the end,
      and the split goes on after that ','.  A fragment without '=' yields
      no pair. */
  function SplitFrom(t: string, i: nat): seq<Pair>
    requires i <= |t|
    decreases |t| - i
  {
    var e := Find(t, '=', i);
    if e == |t| then []
    else
      var c := Find(t, ',', e + 1);
      if c == |t| then [(t[i..e], t[e + 1..c])]
      else [(t[i..e], t[e + 1..c])] + SplitFrom(t, c + 1)
  }

  function SplitPairs(t: string): seq<Pair> {
    SplitFrom(t, 0)
  }

  /** The split of the environment variable, which is read as a C string. */
  function SplitSettings(text: string): seq<Pair> {
    SplitPairs(CString(text))
  }

  lemma SplitFromNone(t: string, i: nat)
    requires i <= |t|
    requires forall j :: i <= j < |t| ==> t[j] != '='
    ensures SplitFrom(t, i) == []
  {
    FindAt(t, '=', i, |t|);
  }

  /** One step of the split, given the position `e` of the next '=' and the
      position `c` of the ',' that closes the value. */
  lemma SplitFromComma(t: string, i: nat, e: nat, c: nat, next: nat)
    requires i <= e < c < |t| && t[e] == '=' && t[c] == ','
    requires forall j :: i <= j < e ==> t[j] != '='
    requires forall j :: e < j < c ==> t[j] != ','
    requires next == c + 1
    ensures SplitFrom(t, i) == [(t[i..e], t[e + 1..c])] + SplitFrom(t, next)
  {
    FindAt(t, '=', i, e);
    FindAt(t, ',', e + 1, c);
  }

  /** The last step of the split: the value after the '=' at `e` runs to the
      end. */
  lemma SplitFromLast(t: string, i: nat, e: nat)
    requires i <= e < |t| && t[e] == '='
    requires forall j :: i <= j < e ==> t[j] != '='
    requires forall j :: e < j < |t| ==> t[j] != ','
    ensures SplitFrom(t, i) == [(t[i..e], t[e + 1..|t|])]
  {
    FindAt(t, '=', i, e);
    FindAt(t, ',', e + 1, |t|);
  }

  /** Text in front of the split position does not matter; `q` is the
      position `i` of `t` counted in `p + t`. */
  lemma {:induction false} SplitFromShiftAt(p: string, t: string, i: nat, q: nat)
    requires i <= |t| && q == |p| + i
    ensures SplitFrom(p + t, q) == SplitFrom(t, i)
    decreases |t| - i, 1
  {
    var e := Find(t, '=', i);
    if e == |t| {
      ShiftNone(p, t, i, q);
    } else {
      var c := Find(t, ',', e + 1);
      var pe := |p| + e;
      if c < |t| {
        var pc := |p| + c;
        ShiftComma(p, t, i, e, c, c + 1, q, pe, pc, pc + 1);
      } else {
        ShiftLast(p, t, i, e, q, pe);
      }
    }
  }

  /** The step of `SplitFromShiftAt` when no '=' is left. */
  lemma ShiftNone(p: string, t: string, i: nat, q: nat)
    requires i <= |t| && q == |p| + i
    requires forall j :: i <= j < |t| ==> t[j] != '='
    ensures SplitFrom(p + t, q) == SplitFrom(t, i)
  {
    var pt := p + t;
    SplitFromNone(t, i);
    assert forall j :: q <= j < |pt| ==> pt[j] == t[j - |p|];
    SplitFromNone(pt, q);
  }

  /** The step of `SplitFromShiftAt` for a value closed by a ','. */
  lemma {:induction false} ShiftComma(p: string, t: string, i: nat, e: nat, c: nat, next: nat,
                   q: nat, pe: nat, pc: nat, pnext: nat)
    requires i <= e < c < |t| && t[e] == '=' && t[c] == ','
    requires forall j :: i <= j < e ==> t[j] != '='
    requires forall j :: e < j < c ==> t[j] != ','
    requires next == c + 1 && q == |p| + i && pe == |p| + e && pc == |p| + c && pnext == pc + 1
    ensures SplitFrom(p + t, q) == SplitFrom(t, i)
    decreases |t| - i, 0
  {
    var pt := p + t;
    SplitFromShiftAt(p, t, next, pnext);
    SplitFromComma(t, i, e, c, next);
    SplitFromComma(pt, q, pe, pc, pnext);
    SliceOfAppend(p, t, i, e, q, pe);
    SliceOfAppend(p, t, e + 1, c, pe + 1, pc);
  }

  /** The step of `SplitFromShiftAt` for the last value. */
  lemma ShiftLast(p: string, t: string, i: nat, e: nat, q: nat, pe: nat)
    requires i <= e < |t| && t[e] == '='
    requires forall j :: i <= j < e ==> t[j] != '='
    requires forall j :: e < j < |t| ==> t[j] != ','
    requires q == |p| + i && pe == |p| + e
    ensures SplitFrom(p + t, q) == SplitFrom(t, i)
  {
    var pt := p + t;
    SplitFromLast(t, i, e);
    SplitFromLast(pt, q, pe);
    SliceOfAppend(p, t, i, e, q, pe);
    SliceOfAppend(p, t, e + 1, |t|, pe + 1, |pt|);
  }

  datatype ScanState = ScanningKey | ScanningValue

  /** A character other than `c` extends a stretch free of `c` by one. */
  lemma NoneStep(text: string, c: char, from: nat, at: nat, next: nat)
    requires from <= at < |text| && text[at] != c && next == at + 1
    requires forall j :: from <= j < at ==> text[j] != c
    ensures forall j :: from <= j < next ==> text[j] != c
  {
  }

  /** A ',' closes a value: the pair is split off and the scan goes on
      after the ','. */
  lemma ScanComma(text: string, pairs: seq<Pair>, key: nat, keyEnd: nat, value: nat, valueEnd: nat, next: nat)
    requires key <= keyEnd < valueEnd < |text| && text[keyEnd] == '=' && text[valueEnd] == ','
    requires forall j :: key <= j < keyEnd ==> text[j] != '='
    requires forall j :: keyEnd < j < valueEnd ==> text[j] != ','
    requires value == keyEnd + 1 && next == valueEnd + 1
    requires pairs + SplitFrom(text, key) == SplitPairs(text)
    ensures (pairs + [(text[key..keyEnd], text[value..valueEnd])]) + SplitFrom(text, next) == SplitPairs(text)
  {
    SplitFromComma(text, key, keyEnd, valueEnd, next);
    var pair := (text[key..keyEnd], text[value..valueEnd]);
    assert pairs + ([pair] + SplitFrom(text, next)) == (pairs + [pair]) + SplitFrom(text, next);
  }

  /** The end of the text closes the last value. */
  lemma ScanLast(text: string, pairs: seq<Pair>, key: nat, keyEnd: nat, value: nat)
    requires key <= keyEnd < |text| && text[keyEnd] == '='
    requires forall j :: key <= j < keyEnd ==> text[j] != '='
    requires forall j :: keyEnd < j < |text| ==> text[j] != ','
    requires value == keyEnd + 1
    requires pairs + SplitFrom(text, key) == SplitPairs(text)
    ensures pairs + [(text[key..keyEnd], text[value..|text|])] == SplitPairs(text)
  {
    SplitFromLast(text, key, keyEnd);
  }

  /** The two-state scanner of `_swift_parseBacktracingSettings`, with the
      calls to `_swift_processBacktracingSetting` collected as pairs.  The
      scan runs over the text up to its first NUL, which is where the C loop
      stops. */
  method ScanSettings(settings: string) returns (pairs: seq<Pair>)
    ensures pairs == SplitSettings(settings)
  {
    pairs := ScanText(CString(settings));
  }

  /** The scanner's loop over a text that holds no NUL. */
  method ScanText(text: string) returns (pairs: seq<Pair>)
    ensures pairs == SplitPairs(text)
  {
    var ptr := 0;
    var key := 0;
    var keyEnd := 0;
    var value := 0;
    var state := ScanningKey;
    pairs := [];
    while ptr < |text|
      invariant 0 <= key <= ptr <= |text|
      invariant pairs + SplitFrom(text, key) == SplitPairs(text)
      invariant state == ScanningKey ==> forall j :: key <= j < ptr ==> text[j] != '='
      invariant state == ScanningValue ==>
        && key <= keyEnd && value == keyEnd + 1 <= ptr
        && text[keyEnd] == '='
        && (forall j :: key <= j < keyEnd ==> text[j] != '=')
        && (forall j :: value <= j < ptr ==> text[j] != ',')
    {
      // The C loop reads `*ptr++`; here the read and the increment are
      // the first and last statements of the body.
      var ch := text[ptr];
      var next := ptr + 1;
      match state {
        case ScanningKey =>
          if ch == '=' {
            keyEnd := ptr;
            value := next;
            state := ScanningValue;
          } else {
            NoneStep(text, '=', key, ptr, next);
          }
        case ScanningValue =>
          if ch == ',' {
            ScanComma(text, pairs, key, keyEnd, value, ptr, next);
            pairs := pairs + [(text[key..keyEnd], text[value..ptr])];
            key := next;
            state := ScanningKey;
          } else {
            NoneStep(text, ',', value, ptr, next);
          }
      }
      ptr := next;
    }
    if state == ScanningValue {
      // The C code's `ptr - 1` is the terminator's position, here `ptr`.
      ScanLast(text, pairs, key, keyEnd, value);
      pairs := pairs + [(text[key..keyEnd], text[value..ptr])];
    } else {
      SplitFromNone(text, key);
      assert pairs + [] == pairs;
    }
  }

  /** The inverse of the split: pairs written back as `k=v,k=v`. */
  function Render(ps: seq<Pair>): string {
    if ps == [] then []
    else if |ps| == 1 then ps[0].0 + "=" + ps[0].1
    else ps[0].0 + "=" + ps[0].1 + "," + Render(ps[1..])
  }

  /** Pairs the split can give back: keys free of '=' and values free of ','
      (keys may hold ',' and values '='), and no NUL anywhere. */
  predicate Renderable(ps: seq<Pair>) {
    forall i :: 0 <= i < |ps| ==>
      '=' !in ps[i].0 && NUL !in ps[i].0 && ',' !in ps[i].1 && NUL !in ps[i].1
  }

  /** One rendered pair followed by either nothing or a ',' and more text. */
  lemma SplitOnePair(k: string, v: string, more: string)
    requires '=' !in k && ',' !in v
    requires more == [] || more[0] == ','
    ensures more == [] ==> SplitPairs(k + "=" + v + more) == [(k, v)]
    ensures more != [] ==> SplitPairs(k + "=" + v + more) == [(k, v)] + SplitPairs(more[1..])
  {
    var t := k + "=" + v + more;
    var e := |k|;
    var c := e + 1 + |v|;
    assert t[e] == '=';
    assert forall j :: 0 <= j < e ==> t[j] == k[j];
    assert forall j :: e < j < c ==> t[j] == v[j - e - 1];
    assert t[..e] == k;
    assert t[e + 1..c] == v;
    if more == [] {
      SplitFromLast(t, 0, e);
    } else {
      var head := k + "=" + v + ",";
      var rest := more[1..];
      assert t == head + rest;
      var n := |head|;
      SplitFromComma(t, 0, e, c, n);
      SplitFromShiftAt(head, rest, 0, n);
    }
  }

  lemma {:induction false} SplitRenderTail(ps: seq<Pair>, tail: string)
    requires Renderable(ps) && ps != []
    requires tail == [] || ('=' !in tail && tail[0] == ',')
    ensures SplitPairs(Render(ps) + tail) == ps
  {
    var k := ps[0].0;
    var v := ps[0].1;
    if |ps| == 1 {
      assert Render(ps) + tail == k + "=" + v + tail;
      SplitOnePair(k, v, tail);
      if tail != [] {
        SplitFromNone(tail[1..], 0);
      }
    } else {
      var more := "," + (Render(ps[1..]) + tail);
      assert Render(ps) + tail == k + "=" + v + more;
      SplitOnePair(k, v, more);
      assert more[1..] == Render(ps[1..]) + tail;
      SplitRenderTail(ps[1..], tail);
      assert ps == [(k, v)] + ps[1..];
    }
  }

  lemma {:induction false} RenderHasNoNul(ps: seq<Pair>)
    requires Renderable(ps)
    ensures NUL !in Render(ps)
  {
    if |ps| > 1 {
      RenderHasNoNul(ps[1..]);
    }
  }

  /** Round trip: splitting rendered pairs gives the pairs back. */
  lemma SplitRender(ps: seq<Pair>)
    requires Renderable(ps)
    ensures SplitSettings(Render(ps)) == ps
  {
    RenderHasNoNul(ps);
    SplitSettingsWithoutNul(Render(ps));
    if ps != [] {
      SplitRenderTail(ps, []);
      assert Render(ps) + [] == Render(ps);
    }
  }

  /** A trailing fragment with no '=' after the last value is dropped. */
  lemma SplitDropsTrailingFragment(ps: seq<Pair>, fragment: string)
    requires Renderable(ps) && ps != []
    requires '=' !in fragment && NUL !in fragment
    ensures SplitSettings(Render(ps) + ("," + fragment)) == ps
  {
    var tail := "," + fragment;
    SplitRenderTail(ps, tail);
    RenderHasNoNul(ps);
    SplitSettingsWithoutNul(Render(ps) + tail);
  }

  /** Text without a NUL is read in full. */
  lemma SplitSettingsWithoutNul(t: string)
    requires NUL !in t
    ensures SplitSettings(t) == SplitPairs(t)
  {
    FindAt(t, NUL, 0, |t|);
    assert CString(t) == t;
  }

  // ---------------------------------------------------------------------
  // Folding all pairs
  // ---------------------------------------------------------------------

  /** No pair in `pairs` has a key that selects `f`. */
  predicate Unnamed(pairs: seq<Pair>, f: Field) {
    forall i :: 0 <= i < |pairs| ==> KeyField(pairs[i].0) != Some(f)
  }

  /** Field `f` of `a` and `b` agree. */
  predicate SameField(a: Settings, b: Settings, f: Field) {
    match f
    case AlgorithmField => a.algorithm == b.algorithm
    case EnabledField => a.enabled == b.enabled
    case SymbolicateField => a.symbolicate == b.symbolicate
    case InteractiveField => a.interactive == b.interactive
    case ColorField => a.color == b.color
    case TimeoutField => a.timeout == b.timeout
    case LevelField => a.level == b.level
    case PathField => a.swiftBacktracePath == b.swiftBacktracePath
  }

  /** A record that differs from another at most in `g` agrees with it in
      every other field. */
  lemma SameExceptKeeps(a: Settings, b: Settings, g: Option<Field>, f: Field)
    requires SameExcept(a, b, g) && g != Some(f)
    ensures SameField(a, b, f)
  {
  }

  lemma UnnamedTail(pairs: seq<Pair>, f: Field)
    requires pairs != [] && Unnamed(pairs, f)
    ensures Unnamed(pairs[1..], f)
  {
    forall i | 0 <= i < |pairs| - 1
      ensures KeyField(pairs[1..][i].0) != Some(f)
    {
      assert pairs[1..][i] == pairs[i + 1];
    }
  }

  /** The pairs, processed in order: a field that no key selects keeps its
      value, and each pair adds its own warnings after those before it. */
  function ApplySettings(s: Settings, pairs: seq<Pair>, p: IntegerParsers): (r: Outcome)
    ensures forall f :: Unnamed(pairs, f) ==> SameField(s, r.settings, f)
    ensures pairs != [] ==> ProcessSetting(s, pairs[0].0, pairs[0].1, p).warnings <= r.warnings
    decreases |pairs|
  {
    if pairs == [] then Outcome(s, [])
    else
      var first := ProcessSetting(s, pairs[0].0, pairs[0].1, p);
      var rest := ApplySettings(first.settings, pairs[1..], p);
      assert forall f :: Unnamed(pairs, f) ==> SameField(s, rest.settings, f) by {
        forall f | Unnamed(pairs, f)
          ensures SameField(s, rest.settings, f)
        {
          assert KeyField(pairs[0].0) != Some(f);
          SameExceptKeeps(s, first.settings, KeyField(pairs[0].0), f);
          UnnamedTail(pairs, f);
        }
      }
      Outcome(rest.settings, first.warnings + rest.warnings)
  }

  /** `_swift_parseBacktracingSettings`: split, then process every pair in
      order. */
  function ParseBacktracingSettings(s: Settings, text: string, p: IntegerParsers): (r: Outcome)
    ensures '=' !in CString(text) ==> r == Outcome(s, [])
    ensures forall f :: Unnamed(SplitSettings(text), f) ==> SameField(s, r.settings, f)
  {
    var t := CString(text);
    assert '=' !in t ==> SplitPairs(t) == [] by {
      if '=' !in t {
        SplitFromNone(t, 0);
      }
    }
    ApplySettings(s, SplitSettings(text), p)
  }

  /** Unknown keys change no setting, and each one warns exactly once. */
  lemma {:induction false} UnknownKeysChangeNothing(s: Settings, pairs: seq<Pair>, p: IntegerParsers)
    requires forall i :: 0 <= i < |pairs| ==> KeyField(pairs[i].0) == None
    ensures ApplySettings(s, pairs, p).settings == s
    ensures |ApplySettings(s, pairs, p).warnings| == |pairs|
    decreases |pairs|
  {
    if pairs != [] {
      UnknownKeysChangeNothing(s, pairs[1..], p);
    }
  }

  /** However many settings are processed, a non-negative timeout stays
      non-negative. */
  lemma {:induction false} TimeoutStaysNonNegative(s: Settings, pairs: seq<Pair>, p: IntegerParsers)
    requires s.timeout >= 0
    ensures ApplySettings(s, pairs, p).settings.timeout >= 0
    decreases |pairs|
  {
    if pairs != [] {
      var first := ProcessSetting(s, pairs[0].0, pairs[0].1, p);
      assert first.settings.timeout >= 0;
      TimeoutStaysNonNegative(first.settings, pairs[1..], p);
    }
  }
}
