/** The macOS crash hand-off of `stdlib/public/runtime/CrashHandlerMacOS.cpp`:
    the installer that points the fatal signals at `handle_fatal_signal`, the
    handler itself as a transition over the process state it touches, the
    helper's command line, and the two async-signal-safe formatters that
    fill the command line's numeric slots.

    The operating system is reduced to the answers it gives: whether the
    alternate stack could be mapped, which `sigaction` calls fail, the
    thread identifier (or its absence), the values errno has after the
    thread query and after the helper ran, and the address of the
    `crashInfo` record. */
module CrashHandlerMacOS {
  import opened Wrappers
  import opened Text
  import opened BacktraceSettings

  /** A `uint64_t`. */
  type u64 = x: int | 0 <= x < 0x1_0000_0000_0000_0000

  // ---------------------------------------------------------------------
  // Digits: the reference definitions the formatters are measured against
  // ---------------------------------------------------------------------

  predicate IsLowerHex(c: char) {
    '0' <= c <= '9' || 'a' <= c <= 'f'
  }

  predicate AllLowerHex(s: string) {
    forall i :: 0 <= i < |s| ==> IsLowerHex(s[i])
  }

  function HexDigitValue(c: char): (d: nat)
    requires IsLowerHex(c)
    ensures d < 16
  {
    if c <= '9' then c as int - '0' as int else c as int - 'a' as int + 10
  }

  /** The number a string of lower-case hex digits spells, most significant
      digit first. */
  function HexValue(s: string): nat
    requires AllLowerHex(s)
  {
    if s == [] then 0 else HexValue(s[..|s| - 1]) * 16 + HexDigitValue(s[|s| - 1])
  }

  function Pow16(n: nat): (p: nat)
    ensures p >= 1
  {
    if n == 0 then 1 else 16 * Pow16(n - 1)
  }

  /** The digit character of lines 158-160: '0' plus the nibble, moved up to
      'a' when it passes '9'. */
  function HexChar(d: nat): (c: char)
    requires d < 16
    ensures IsLowerHex(c) && HexDigitValue(c) == d
  {
    var digit := '0' as int + d;
    (if digit > '9' as int then digit + ('a' as int - '0' as int - 10) else digit) as char
  }

  /** The last `n` hex digits of `x`, zero-padded, most significant first. */
  function HexDigits(x: nat, n: nat): (r: string)
    ensures |r| == n && AllLowerHex(r)
  {
    if n == 0 then [] else HexDigits(x / 16, n - 1) + [HexChar(x % 16)]
  }

  predicate IsDigit(c: char) {
    '0' <= c <= '9'
  }

  /** The digit character of line 173: '0' plus the digit. */
  function DigitChar(d: nat): (c: char)
    requires d < 10
    ensures IsDigit(c) && c as int - '0' as int == d
  {
    ('0' as int + d) as char
  }

  predicate AllDigits(s: string) {
    forall i :: 0 <= i < |s| ==> IsDigit(s[i])
  }

  /** The number a string of decimal digits spells. */
  function DecimalValue(s: string): nat
    requires AllDigits(s)
  {
    if s == [] then 0 else DecimalValue(s[..|s| - 1]) * 10 + (s[|s| - 1] as int - '0' as int)
  }

  function Pow10(n: nat): (p: nat)
    ensures p >= 1
  {
    if n == 0 then 1 else 10 * Pow10(n - 1)
  }

  /** The decimal numeral of `u`: at least one digit, and no leading zero
      unless the numeral is "0" itself. */
  function Decimal(u: nat): (r: string)
    ensures |r| >= 1 && AllDigits(r)
    ensures r[0] == '0' ==> u == 0
    decreases u
  {
    (if u < 10 then [] else Decimal(u / 10)) + [DigitChar(u % 10)]
  }

  /** Reading the numeral back gives the number. */
  lemma {:induction false} DecimalRoundTrip(u: nat)
    ensures DecimalValue(Decimal(u)) == u
    decreases u
  {
    var r := Decimal(u);
    var init := if u < 10 then [] else Decimal(u / 10);
    assert r == init + [DigitChar(u % 10)];
    assert r[..|r| - 1] == init;
    if u >= 10 {
      DecimalRoundTrip(u / 10);
    }
    assert DecimalValue(r) == DecimalValue(init) * 10 + u % 10;
  }

  /** A number below 10^k has at most k digits. */
  lemma {:induction false} DecimalFits(u: nat, k: nat)
    requires 1 <= k && u < Pow10(k)
    ensures |Decimal(u)| <= k
    decreases k
  {
    if u >= 10 {
      assert k >= 2;
      DecimalFits(u / 10, k - 1);
    }
  }

  /** An `unsigned` has at most ten decimal digits. */
  lemma UnsignedFits(u: u32)
    ensures |Decimal(u)| <= 10
  {
    assert Pow10(10) == 10_000_000_000 by {
      assert Pow10(5) == 100_000;
    }
    DecimalFits(u, 10);
  }

  /** Reading the padded digits back gives `x` whenever `x` fits in them. */
  lemma {:induction false} HexRoundTrip(x: nat, n: nat)
    requires x < Pow16(n)
    ensures HexValue(HexDigits(x, n)) == x
  {
    if n > 0 {
      var r := HexDigits(x, n);
      var init := HexDigits(x / 16, n - 1);
      assert r == init + [HexChar(x % 16)];
      assert r[..n - 1] == init;
      HexRoundTrip(x / 16, n - 1);
      assert HexValue(r) == HexValue(init) * 16 + x % 16;
    }
  }

  /** A number below 16^n written with n + 1 digits starts with '0'. */
  lemma {:induction false} HexLeadingZero(x: nat, n: nat)
    requires x < Pow16(n)
    ensures HexDigits(x, n + 1)[0] == '0'
  {
    if n > 0 {
      HexLeadingZero(x / 16, n - 1);
    }
  }

  lemma Pow16Of16()
    ensures Pow16(16) == 0x1_0000_0000_0000_0000
  {
    assert Pow16(4) == 0x1_0000;
    assert Pow16(8) == 0x1_0000_0000;
    assert Pow16(12) == 0x1_0000_0000_0000;
  }

  // ---------------------------------------------------------------------
  // The formatters (lines 152-179)
  // ---------------------------------------------------------------------

  /** `format_address`: 17 lower-case hex digits of `addr`, most significant
      first and zero-padded, then a NUL; the whole buffer is written.  The
      C code's `addr & 0xf` and `addr >>= 4` are `% 16` and `/ 16` on an
      unsigned value. */
  method FormatAddress(addr: u64) returns (buffer: seq<char>)
    ensures |buffer| == 18 && buffer[17] == NUL
    ensures buffer[..17] == HexDigits(addr, 17)
    ensures AllLowerHex(buffer[..17]) && HexValue(buffer[..17]) == addr
    ensures buffer[0] == '0'
  {
    var a := new char[18];
    var ptr := 18;
    ptr := ptr - 1;
    a[ptr] := NUL;
    var v: nat := addr;
    while ptr > 0
      invariant 0 <= ptr <= 17 && a[17] == NUL
      invariant HexDigits(addr, 17) == HexDigits(v, ptr) + a[ptr..17]
    {
      var digit := HexChar(v % 16);
      ptr := ptr - 1;
      a[ptr] := digit;
      v := v / 16;
    }
    buffer := a[..];
    assert buffer[..17] == HexDigits(addr, 17);
    Pow16Of16();
    HexRoundTrip(addr, 17);
    HexLeadingZero(addr, 16);
  }

  /** `format_unsigned`: the decimal digits of `u` end just before the NUL
      at index 21, and the bytes in front of them are left as they were.
      `start` is where the digits begin, the final value of the C code's
      `ptr`, which the C code does not hand back. */
  method FormatUnsigned(u: u32, buffer: seq<char>) returns (r: seq<char>, start: nat)
    requires |buffer| == 22
    ensures |r| == 22 && r[21] == NUL
    ensures start + |Decimal(u)| == 21 && r[start..21] == Decimal(u)
    ensures forall i :: 0 <= i < start ==> r[i] == buffer[i]
  {
    UnsignedFits(u);
    var ptr := 22;
    ptr := ptr - 1;
    r := buffer[ptr := NUL];
    var v: nat := u;
    while ptr > 0
      invariant FormatUnsignedLoop(u, buffer, r, ptr, v)
    {
      var digit := DigitChar(v % 10);
      var next := v / 10;
      var p := ptr - 1;
      FormatUnsignedStep(u, buffer, r, ptr, v, digit, next, p);
      ptr := p;
      r := r[ptr := digit];
      v := next;
      if v == 0 {
        break;
      }
    }
    start := ptr;
  }

  /** The state of `format_unsigned`'s loop: the digits written so far
      end the numeral of `u`, what is left to write is the numeral of `v`,
      and nothing in front of `ptr` has been touched. */
  predicate FormatUnsignedLoop(u: u32, buffer: seq<char>, r: seq<char>, ptr: nat, v: nat) {
    && |buffer| == 22 && ptr <= 21 && |r| == 22 && r[21] == NUL
    && |Decimal(u)| <= 10
    && Decimal(u) == Decimal(v) + r[ptr..21]
    && forall i :: 0 <= i < ptr ==> r[i] == buffer[i]
  }

  lemma FormatUnsignedStep(u: u32, buffer: seq<char>, r: seq<char>, ptr: nat, v: nat,
                           digit: char, next: nat, p: nat)
    requires FormatUnsignedLoop(u, buffer, r, ptr, v) && ptr > 0
    requires digit == DigitChar(v % 10) && next == v / 10 && p + 1 == ptr
    ensures next != 0 ==> FormatUnsignedLoop(u, buffer, r[p := digit], p, next)
    ensures next == 0 ==> Decimal(u) == r[p := digit][p..21] && p + |Decimal(u)| == 21
  {
    DecimalStep(v, next);
    var r2 := r[p := digit];
    assert r2[p..21] == [digit] + r[ptr..21];
    if next != 0 {
      ConcatAssociates(Decimal(next), [digit], r[ptr..21]);
      assert forall i :: 0 <= i < p ==> r2[i] == buffer[i];
    }
  }

  /** One turn of `format_unsigned`'s loop peels the last digit off. */
  lemma DecimalStep(v: nat, next: nat)
    requires next == v / 10
    ensures Decimal(v) == (if next == 0 then [] else Decimal(next)) + [DigitChar(v % 10)]
  {
  }

  // ---------------------------------------------------------------------
  // The helper's command line (lines 128-148 and 181-212)
  // ---------------------------------------------------------------------

  /** The helper's name at slot 0 and the flag names at the odd slots
      1, 3, ..., 13. */
  predicate FlagsInPlace(argv: seq<string>) {
    && |argv| == 15 && argv[0] == "swift-backtrace"
    && argv[1] == "--unwind" && argv[3] == "--symbolicate" && argv[5] == "--interactive"
    && argv[7] == "--color" && argv[9] == "--timeout" && argv[11] == "--level"
    && argv[13] == "--crashinfo"
  }

  function BoolArg(b: bool): string {
    if b then "true" else "false"
  }

  /** The conversion of the `int` timeout to `format_unsigned`'s `unsigned`
      parameter: modulo 2^32. */
  function Unsigned(i: int): u32 {
    i % 0x1_0000_0000
  }

  function Zeros(n: nat): (r: seq<char>)
    ensures |r| == n && forall i :: 0 <= i < n ==> r[i] == NUL
  {
    seq(n, _ => NUL)
  }

  /** A numeral followed by a NUL reads back as the numeral. */
  lemma CStringOfNumeral(digits: string, rest: string)
    requires NUL !in digits && rest != [] && rest[0] == NUL
    ensures CString(digits + rest) == digits
  {
    FindAt(digits + rest, NUL, 0, |digits|);
  }

  /** The command line the helper is evidently meant to receive: the
      algorithm ("fast" for Fast, "DWARF" otherwise), the three switches
      from the settings (TTY has been resolved by now, so a switch is on
      exactly when it is not Off), the timeout and level in decimal, and
      the address of the crash record in hex. */
  function BacktracerArgv(s: Settings, crashInfoAddress: u64): (argv: seq<string>)
    ensures FlagsInPlace(argv)
    ensures argv[2] == "fast" <==> s.algorithm == Fast
    ensures argv[2] != "fast" ==> argv[2] == "DWARF"
    ensures argv[4] == BoolArg(s.symbolicate)
    ensures argv[6] == BoolArg(s.interactive != Off) && argv[8] == BoolArg(s.color != Off)
    ensures argv[10] == Decimal(Unsigned(s.timeout)) && argv[12] == Decimal(s.level)
    ensures argv[14] == HexDigits(crashInfoAddress, 17)
  {
    [ "swift-backtrace",
      "--unwind", if s.algorithm == Fast then "fast" else "DWARF",
      "--symbolicate", BoolArg(s.symbolicate),
      "--interactive", BoolArg(s.interactive != Off),
      "--color", BoolArg(s.color != Off),
      "--timeout", Decimal(Unsigned(s.timeout)),
      "--level", Decimal(s.level),
      "--crashinfo", HexDigits(crashInfoAddress, 17) ]
  }

  /** The numeric slots of the intended command line read back as the
      settings' timeout (as an `unsigned`) and level and the record's
      address. */
  lemma ArgvNumbersRoundTrip(s: Settings, crashInfoAddress: u64)
    ensures var argv := BacktracerArgv(s, crashInfoAddress);
            && AllDigits(argv[10]) && DecimalValue(argv[10]) == Unsigned(s.timeout)
            && AllDigits(argv[12]) && DecimalValue(argv[12]) == s.level
            && |argv[14]| == 17 && AllLowerHex(argv[14]) && HexValue(argv[14]) == crashInfoAddress
  {
    DecimalRoundTrip(Unsigned(s.timeout));
    DecimalRoundTrip(s.level);
    Pow16Of16();
    HexRoundTrip(crashInfoAddress, 17);
  }

  /** The command line as `run_backtracer` builds it: the `case Fast` arm
      falls through into `default`, so slot 2 always ends as "DWARF"; and
      slots 10 and 12 point at the start of the zero-initialised static
      buffers while the digits are written at their end, so both read as
      the empty string.  Every other slot is the intended one. */
  method RunBacktracerAsWritten(s: Settings, crashInfoAddress: u64) returns (argv: seq<string>)
    ensures argv == BacktracerArgv(s, crashInfoAddress)[2 := "DWARF"][10 := ""][12 := ""]
  {
    var timeoutBuf, timeoutStart := FormatUnsigned(Unsigned(s.timeout), Zeros(22));
    var levelBuf, levelStart := FormatUnsigned(s.level, Zeros(22));
    var addrBuf := FormatAddress(crashInfoAddress);
    // switch (algorithm): `case Fast` stores "fast" and falls through into
    // `default`, which stores "DWARF".
    var unwind := "DWARF";
    if s.algorithm == Fast {
      unwind := "fast";
    }
    unwind := "DWARF";
    ZeroedRead(Unsigned(s.timeout), timeoutBuf, timeoutStart);
    ZeroedRead(s.level, levelBuf, levelStart);
    AddressRead(crashInfoAddress, addrBuf);
    argv := [ "swift-backtrace",
              "--unwind", unwind,
              "--symbolicate", BoolArg(s.symbolicate),
              "--interactive", BoolArg(s.interactive != Off),
              "--color", BoolArg(s.color != Off),
              "--timeout", CString(timeoutBuf),
              "--level", CString(levelBuf),
              "--crashinfo", CString(addrBuf) ];
  }

  /** A numeric slot that points at the start of a zero-initialised buffer
      `format_unsigned` filled reads as the empty string: at most ten
      digits are written, at the far end. */
  lemma ZeroedRead(u: u32, buffer: seq<char>, start: nat)
    requires |buffer| == 22 && start + |Decimal(u)| == 21
    requires buffer[..start] == Zeros(22)[..start]
    ensures CString(buffer) == ""
  {
    UnsignedFits(u);
    assert buffer[0] == buffer[..start][0];
    FindAt(buffer, NUL, 0, 0);
  }

  /** The address slot reads back the 17 digits `format_address` wrote. */
  lemma AddressRead(addr: u64, buffer: seq<char>)
    requires |buffer| == 18 && buffer[17] == NUL && buffer[..17] == HexDigits(addr, 17)
    ensures CString(buffer) == HexDigits(addr, 17)
  {
    CStringOfNumeral(buffer[..17], buffer[17..]);
    assert buffer[..17] + buffer[17..] == buffer;
  }

  /** A numeric slot that points at the first digit reads back the
      numeral. */
  lemma NumeralRead(u: u32, buffer: seq<char>, start: nat)
    requires |buffer| == 22 && buffer[21] == NUL
    requires start + |Decimal(u)| == 21 && buffer[start..21] == Decimal(u)
    ensures CString(buffer[start..]) == Decimal(u)
  {
    assert buffer[start..] == Decimal(u) + buffer[21..];
    CStringOfNumeral(Decimal(u), buffer[21..]);
  }

  /** The command line the evident fix builds: each numeric slot read from
      where `format_unsigned` put the digits, and the algorithm switch with
      a `break` after `case Fast`. */
  method RunBacktracer(s: Settings, crashInfoAddress: u64) returns (argv: seq<string>)
    ensures argv == BacktracerArgv(s, crashInfoAddress)
  {
    var timeoutBuf, timeoutStart := FormatUnsigned(Unsigned(s.timeout), Zeros(22));
    var levelBuf, levelStart := FormatUnsigned(s.level, Zeros(22));
    var addrBuf := FormatAddress(crashInfoAddress);
    var algorithm := if s.algorithm == Fast then "fast" else "DWARF";
    NumeralRead(Unsigned(s.timeout), timeoutBuf, timeoutStart);
    NumeralRead(s.level, levelBuf, levelStart);
    AddressRead(crashInfoAddress, addrBuf);
    argv := [ "swift-backtrace",
              "--unwind", algorithm,
              "--symbolicate", BoolArg(s.symbolicate),
              "--interactive", BoolArg(s.interactive != Off),
              "--color", BoolArg(s.color != Off),
              "--timeout", CString(timeoutBuf[timeoutStart..]),
              "--level", CString(levelBuf[levelStart..]),
              "--crashinfo", CString(addrBuf) ];
  }

  // ---------------------------------------------------------------------
  // Signal dispositions and the installer (lines 52-84)
  // ---------------------------------------------------------------------

  const SIGQUIT: int := 3
  const SIGILL: int := 4
  const SIGTRAP: int := 5
  const SIGABRT: int := 6
  const SIGFPE: int := 8
  const SIGBUS: int := 10
  const SIGSEGV: int := 11


  /** The signals the crash handler takes over, in installation order. */
  const ToHandle: seq<int> := [SIGQUIT, SIGABRT, SIGBUS, SIGFPE, SIGILL, SIGSEGV, SIGTRAP]

  datatype SaFlag = OnStack | SigInfo | NoDefer

  /** What a signal does when delivered: the default action, whatever
      someone else installed, or `handle_fatal_signal` with the mask it
      runs under and its `sa_flags`. */
  datatype Disposition =
    | SigDefault
    | Other(id: nat)
    | FatalHandler(mask: set<int>, flags: set<SaFlag>)

  type Dispositions = map<int, Disposition>

  /** The signal numbers of macOS, 1 to `NSIG - 1` with `NSIG` = 32. */
  const SignalNumbers: seq<int> := [
    1, 2, 3, 4, 5, 6, 7, 8, 9, 10, 11, 12, 13, 14, 15, 16,
    17, 18, 19, 20, 21, 22, 23, 24, 25, 26, 27, 28, 29, 30, 31]

  /** Every signal of the platform, as `sigfillset` gives them. */
  function AllSignals(): set<int> {
    set s | s in SignalNumbers
  }

  /** The mask the handler runs under: every signal but the handled ones,
      so a fault inside the handler is delivered at once. */
  function HandlerMask(): set<int> {
    set s | s in SignalNumbers && s !in ToHandle
  }

  const HandlerFlags: set<SaFlag> := {OnStack, SigInfo, NoDefer}

  /** `d` with each of `sigs` set to `h` and every other signal as it was. */
  function SetAll(d: Dispositions, sigs: seq<int>, h: Disposition): (r: Dispositions)
    ensures forall s :: s in sigs ==> s in r && r[s] == h
    ensures forall s :: s !in sigs ==> (s in r <==> s in d) && (s in d ==> r[s] == d[s])
  {
    map s | s in d.Keys + (set x | x in sigs) :: if s in sigs then h else d[s]
  }

  lemma SetAllStep(d: Dispositions, sigs: seq<int>, n: nat, next: nat, h: Disposition)
    requires n < |sigs| && next == n + 1
    ensures SetAll(d, sigs[..next], h) == SetAll(d, sigs[..n], h)[sigs[n] := h]
  {
    assert sigs[..next] == sigs[..n] + [sigs[n]];
  }

  /** The index of the first handled signal whose `sigaction` fails at or
      after `from`, or the number of handled signals when none does. */
  function FirstRefused(refused: set<int>, from: nat): (k: nat)
    requires from <= |ToHandle|
    ensures from <= k <= |ToHandle|
    ensures k < |ToHandle| ==> ToHandle[k] in refused
    ensures forall j :: from <= j < k ==> ToHandle[j] !in refused
    decreases |ToHandle| - from
  {
    if from == |ToHandle| || ToHandle[from] in refused then from
    else FirstRefused(refused, from + 1)
  }

  lemma FirstRefusedAt(refused: set<int>, k: nat)
    requires k <= |ToHandle| && (k < |ToHandle| ==> ToHandle[k] in refused)
    requires forall j :: 0 <= j < k ==> ToHandle[j] !in refused
    ensures FirstRefused(refused, 0) == k
  {
  }

  /** `_swift_installCrashHandler`.  When the alternate stack cannot be
      mapped nothing changes and the result is -1.  Otherwise the mask is
      every signal but the handled ones, and the handled signals are taken
      over in order until a `sigaction` call fails: those before it carry
      the handler, it and those after it are untouched, and the result is
      -1; with no failure the result is 0.  (The C function is declared
      `void` but returns -1 and 0; the model returns them.) */
  method InstallCrashHandler(d: Dispositions, stackMapped: bool, refused: set<int>)
    returns (rc: int, after: Dispositions)
    ensures !stackMapped ==> rc == -1 && after == d
    ensures stackMapped ==>
      after == SetAll(d, ToHandle[..FirstRefused(refused, 0)], FatalHandler(HandlerMask(), HandlerFlags))
    ensures rc == 0 <==> stackMapped && forall s :: s in ToHandle ==> s !in refused
    ensures rc == 0 || rc == -1
  {
    after := d;
    if !stackMapped {
      return -1, after;
    }
    var mask := AllSignals();
    var n := 0;
    while n < |ToHandle|
      invariant 0 <= n <= |ToHandle|
      invariant mask == set s | s in SignalNumbers && s !in ToHandle[..n]
    {
      var next := n + 1;
      assert ToHandle[..next] == ToHandle[..n] + [ToHandle[n]];
      mask := mask - {ToHandle[n]};
      n := next;
    }
    assert ToHandle[..n] == ToHandle;
    var h := FatalHandler(mask, {OnStack, SigInfo, NoDefer});
    n := 0;
    while n < |ToHandle|
      invariant 0 <= n <= |ToHandle|
      invariant after == SetAll(d, ToHandle[..n], h)
      invariant forall j :: 0 <= j < n ==> ToHandle[j] !in refused
    {
      if ToHandle[n] in refused {
        FirstRefusedAt(refused, n);
        return -1, after;
      }
      var next := n + 1;
      SetAllStep(d, ToHandle, n, next, h);
      after := after[ToHandle[n] := h];
      n := next;
    }
    FirstRefusedAt(refused, n);
    assert ToHandle[..n] == ToHandle;
    rc := 0;
  }

  // ---------------------------------------------------------------------
  // The handler (lines 92-126)
  // ---------------------------------------------------------------------

  /** `crashInfo` on macOS. */
  datatype CrashInfo = CrashInfo(crashingThread: u64, signal: u64, faultAddress: u64, mctx: u64)

  /** What the handler does that can be observed from outside, in order. */
  datatype Event =
    | ResetToDefault(signal: int)
    | QueriedThread
    | Spawned(argv: seq<string>, info: CrashInfo)

  /** The process state the handler reads and writes. */
  datatype Process = Process(
    dispositions: Dispositions,
    crashInfo: CrashInfo,
    errno: int,
    trace: seq<Event>)

  /** What the kernel delivers with the signal, and what the system calls
      inside the handler answer. */
  datatype Delivery = Delivery(
    signum: int,
    faultAddress: u64,          // si_addr
    mctx: u64,                  // uc_mcontext
    threadId: Option<u64>,      // thread_info(), None when it fails
    errnoAfterQuery: int,       // errno as signal() and thread_info() leave it
    errnoAfterSpawn: int)       // errno as the helper's launch leaves it

  function ResetEvents(): (r: seq<Event>)
    ensures |r| == |ToHandle|
    ensures forall i :: 0 <= i < |r| ==> r[i] == ResetToDefault(ToHandle[i])
  {
    seq(|ToHandle|, i requires 0 <= i < |ToHandle| => ResetToDefault(ToHandle[i]))
  }

  /** `handle_fatal_signal`.  The `int` signal number is stored in a
      `uint64_t` field, hence the reduction modulo 2^64. */
  function HandleFatalSignal(p: Process, sig: Delivery, s: Settings, crashInfoAddress: u64): (r: Process)
    ensures r.dispositions == SetAll(p.dispositions, ToHandle, SigDefault)
    ensures sig.threadId.Some? ==> r.errno == p.errno
    ensures sig.threadId.None? ==> r.errno == sig.errnoAfterQuery
    ensures |r.trace| > |p.trace| + |ToHandle|
    ensures r.trace[..|p.trace| + |ToHandle|] == p.trace + ResetEvents()
    ensures sig.threadId.None? ==>
              r.crashInfo == p.crashInfo && r.trace == p.trace + ResetEvents() + [QueriedThread]
    ensures sig.threadId.Some? ==>
              var info := CrashInfo(sig.threadId.value, sig.signum % 0x1_0000_0000_0000_0000,
                                    sig.faultAddress, sig.mctx);
              && r.crashInfo == info
              && r.trace == p.trace + ResetEvents() + [QueriedThread,
                                                       Spawned(BacktracerArgv(s, crashInfoAddress), info)]
  {
    var oldErr := p.errno;
    var p1 := p.(dispositions := SetAll(p.dispositions, ToHandle, SigDefault),
                 trace := p.trace + ResetEvents());
    var p2 := p1.(trace := p1.trace + [QueriedThread], errno := sig.errnoAfterQuery);
    if sig.threadId.None? then
      p2
    else
      var info := CrashInfo(sig.threadId.value, sig.signum % 0x1_0000_0000_0000_0000,
                            sig.faultAddress, sig.mctx);
      var p3 := p2.(crashInfo := info);
      var p4 := p3.(trace := p3.trace + [Spawned(BacktracerArgv(s, crashInfoAddress), info)],
                    errno := sig.errnoAfterSpawn);
      p4.(errno := oldErr)
  }

  /** The handler undoes the installation: after a successful install, a
      fatal signal leaves every handled signal at its default action (so a
      second fault kills the process) and every other signal as it was
      before the install. */
  lemma HandlerUndoesInstall(d: Dispositions, p: Process, sig: Delivery, s: Settings, crashInfoAddress: u64)
    requires p.dispositions == SetAll(d, ToHandle, FatalHandler(HandlerMask(), HandlerFlags))
    ensures HandleFatalSignal(p, sig, s, crashInfoAddress).dispositions == SetAll(d, ToHandle, SigDefault)
  {
    var r := HandleFatalSignal(p, sig, s, crashInfoAddress).dispositions;
    var e := SetAll(d, ToHandle, SigDefault);
    assert forall x :: x in r <==> x in e;
    assert forall x :: x in r ==> r[x] == e[x];
  }

  /** The helper is launched only with a complete crash record: the record
      the `Spawned` event carries is the one the process holds afterwards,
      and it names the crashing thread. */
  lemma SpawnSeesFilledRecord(p: Process, sig: Delivery, s: Settings, crashInfoAddress: u64)
    requires sig.threadId.Some?
    ensures var r := HandleFatalSignal(p, sig, s, crashInfoAddress);
            var last := r.trace[|r.trace| - 1];
            last.Spawned? && last.info == r.crashInfo && last.info.crashingThread == sig.threadId.value
  {
  }
}
