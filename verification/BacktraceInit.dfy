/** The start-up resolution of `BacktraceInitializer()` in
    `stdlib/public/runtime/Backtrace.cpp`: after the environment variable is
    read, TTY settings are resolved against the terminal, the helper path is
    located and copied into a protected buffer, the unwind algorithm is
    normalised for the platform and the crash handler is installed.  Every
    step that can fail disables backtracing, except the installation, which
    only warns.

    The operating system is reduced to the answers it gives: whether stdout
    and stdin are terminals, the helper path lookup, whether the path could
    be converted and write-protected, and, as a separate answer, whether
    the crash handler installation failed. */
module BacktraceInit {
  import opened Wrappers
  import opened Text
  import opened BacktraceSettings

  /** `SWIFT_BACKTRACE_BUFFER_SIZE`: the path buffer, NUL included. */
  const BufferSize: nat := 8192

  /** The build: which operating system, and whether
      `SWIFT_BACKTRACE_ON_CRASH_SUPPORTED` is set. */
  datatype Platform = Platform(os: OS, onCrashSupported: bool)

  /** The answers of the operating system during start-up. */
  datatype Environment = Environment(
    backtracing: Option<string>,   // SWIFT_BACKTRACING, if set
    stdoutIsTty: bool,             // isStdoutATty()
    stdinIsTty: bool,              // isStdinATty()
    helper: Option<string>,        // swift_getAuxiliaryExecutablePath("swift-backtrace")
    pathConverted: bool,           // MultiByteToWideChar returned non-zero (Windows)
    pathProtected: bool)           // mprotect / VirtualProtect succeeded

  /** The settings after start-up, the warnings printed on the way, what the
      protected `swiftBacktracePath` buffer holds (read as a C string) and
      whether the crash handler installation was attempted. */
  datatype InitResult = InitResult(
    settings: Settings,
    warnings: seq<Warning>,
    pathBuffer: Option<string>,
    installAttempted: bool)

  predicate NoTty(s: Settings) {
    s.enabled != TTY && s.interactive != TTY && s.color != TTY
  }

  /** `TTY` becomes `On` exactly when the terminal test succeeds. */
  function ResolveOne(v: OnOffTty, isTty: bool): (r: OnOffTty)
    ensures r != TTY
    ensures v != TTY ==> r == v
    ensures v == TTY ==> (r == On <==> isTty)
  {
    if v == TTY then (if isTty then On else Off) else v
  }

  /** Lines 186-193: enabled and color follow stdout, interactive follows
      stdin; nothing else changes. */
  function ResolveTty(s: Settings, stdoutIsTty: bool, stdinIsTty: bool): (r: Settings)
    ensures NoTty(r)
    ensures r == s.(enabled := r.enabled, interactive := r.interactive, color := r.color)
    ensures r.enabled == ResolveOne(s.enabled, stdoutIsTty)
    ensures r.interactive == ResolveOne(s.interactive, stdinIsTty)
    ensures r.color == ResolveOne(s.color, stdoutIsTty)
  {
    var s1 := if s.enabled == TTY then s.(enabled := if stdoutIsTty then On else Off) else s;
    var s2 := if s1.interactive == TTY then s1.(interactive := if stdinIsTty then On else Off) else s1;
    if s2.color == TTY then s2.(color := if stdoutIsTty then On else Off) else s2
  }

  /** Resolving twice is resolving once: a resolved record has nothing left
      to resolve. */
  lemma ResolveTtyIdempotent(s: Settings, stdoutIsTty: bool, stdinIsTty: bool)
    ensures var r := ResolveTty(s, stdoutIsTty, stdinIsTty);
            ResolveTty(r, stdoutIsTty, stdinIsTty) == r
  {
  }

  /** The algorithms each platform can run after normalisation. */
  predicate Runnable(os: OS, a: UnwindAlgorithm) {
    if os == Windows then a in {Fast, SEH} else a in {Fast, DWARF}
  }

  /** Lines 216-226 and 249-259.  On Windows DWARF warns and, like Auto,
      becomes SEH; elsewhere SEH warns and, like Auto, becomes DWARF. */
  function NormaliseAlgorithm(os: OS, a: UnwindAlgorithm): (r: (UnwindAlgorithm, seq<Warning>))
    ensures Runnable(os, r.0)
    ensures Runnable(os, a) ==> r == (a, [])
    ensures !Runnable(os, a) ==> r.0 == (if os == Windows then SEH else DWARF)
    ensures a == Auto ==> r.1 == []
    ensures r.1 != [] <==> (a != Auto && !Runnable(os, a))
    ensures r.1 == (if os == Windows && a == DWARF then [DwarfNotSupported]
                    else if os != Windows && a == SEH then [SehNotSupported]
                    else [])
  {
    if os == Windows then
      match a
      case DWARF => (SEH, [DwarfNotSupported])
      case Auto => (SEH, [])
      case _ => (a, [])
    else
      match a
      case SEH => (DWARF, [SehNotSupported])
      case Auto => (DWARF, [])
      case _ => (a, [])
  }

  /** Normalising a normalised algorithm changes nothing and warns of
      nothing. */
  lemma NormaliseIdempotent(os: OS, a: UnwindAlgorithm)
    ensures var r := NormaliseAlgorithm(os, a);
            NormaliseAlgorithm(os, r.0) == (r.0, [])
  {
  }

  /** Lines 195-206: an enabled record without a helper path asks for one,
      and fails closed when none is found. */
  function LocateHelper(s: Settings, helper: Option<string>): (r: Outcome)
    ensures r.settings.enabled != Off ==> r.settings.swiftBacktracePath.Some?
    ensures r.settings == s.(enabled := r.settings.enabled, swiftBacktracePath := r.settings.swiftBacktracePath)
    ensures s.swiftBacktracePath.Some? || s.enabled == Off ==> r == Outcome(s, [])
    ensures s.swiftBacktracePath.None? && s.enabled != Off && helper.Some?
            ==> r == Outcome(s.(swiftBacktracePath := helper), [])
    ensures s.swiftBacktracePath.None? && s.enabled != Off && helper.None?
            ==> r == Outcome(s.(enabled := Off), [HelperNotFound])
  {
    if s.enabled != Off && s.swiftBacktracePath.None? then
      if helper.None? then Outcome(s.(enabled := Off), [HelperNotFound])
      else Outcome(s.(swiftBacktracePath := helper), [])
    else Outcome(s, [])
  }

  /** The helper path reaches the buffer: on Windows `MultiByteToWideChar`
      converted it, elsewhere its `strlen`, a count of UTF-8 bytes, leaves
      room for the NUL. */
  predicate PathFits(os: OS, path: string, env: Environment) {
    if os == Windows then env.pathConverted else Utf8Length(CString(path)) <= BufferSize - 1
  }

  /** The protected copy of the helper path (lines 228-247 on Windows,
      261-282 elsewhere): the record, the warnings and the buffer.  The path
      is read as a C string, as `strlen` and `MultiByteToWideChar` read it. */
  function ProtectPath(os: OS, s: Settings, path: string, env: Environment)
    : (r: (Settings, seq<Warning>, Option<string>))
    ensures r.0 == s.(enabled := r.0.enabled)
    ensures r.0.enabled != Off ==> r.0.enabled == s.enabled && r.1 == [] && r.2 == Some(CString(path))
    ensures r.0.enabled != Off ==> env.pathProtected && PathFits(os, path, env)
    ensures PathFits(os, path, env) && env.pathProtected ==> r == (s, [], Some(CString(path)))
    ensures os == Windows && !env.pathConverted
            ==> r == (s.(enabled := Off), [PathNotConverted], None)
    ensures os != Windows && !PathFits(os, path, env)
            ==> r == (s.(enabled := Off), [PathTooLong], None)
    ensures PathFits(os, path, env) && !env.pathProtected
            ==> r == (s.(enabled := Off), [PathNotProtected], Some(CString(path)))
  {
    var c := CString(path);
    if os == Windows then
      if !env.pathConverted then (s.(enabled := Off), [PathNotConverted], None)
      else if !env.pathProtected then (s.(enabled := Off), [PathNotProtected], Some(c))
      else (s, [], Some(c))
    else
      if Utf8Length(c) > BufferSize - 1 then (s.(enabled := Off), [PathTooLong], None)
      else if !env.pathProtected then (s.(enabled := Off), [PathNotProtected], Some(c))
      else (s, [], Some(c))
  }

  /** `BacktraceInitializer()` from the parsed settings up to, not
      including, the installation of the crash handler. */
  function Prepare(pl: Platform, s: Settings, env: Environment): (r: InitResult)
    ensures !r.installAttempted
  {
    if !pl.onCrashSupported then
      if s.enabled != Off then InitResult(s.(enabled := Off), [NotSupported], None, false)
      else InitResult(s, [], None, false)
    else
      var s1 := ResolveTty(s, env.stdoutIsTty, env.stdinIsTty);
      var located := LocateHelper(s1, env.helper);
      var s2 := located.settings;
      if s2.enabled == Off then InitResult(s2, located.warnings, None, false)
      else
        var (algorithm, w3) := NormaliseAlgorithm(pl.os, s2.algorithm);
        var (s4, w4, buffer) := ProtectPath(pl.os, s2.(algorithm := algorithm), s2.swiftBacktracePath.value, env);
        InitResult(s4, located.warnings + w3 + w4, buffer, false)
  }

  /** Lines 286-293: the handler is installed when backtracing is still on,
      and a failure is reported but changes no setting. */
  function Install(prepared: InitResult, installFailed: bool): (r: InitResult)
    ensures r.settings == prepared.settings && r.pathBuffer == prepared.pathBuffer
    ensures r.installAttempted <==> prepared.settings.enabled != Off
    ensures r.warnings == prepared.warnings + (if r.installAttempted && installFailed then [InstallFailed] else [])
  {
    if prepared.settings.enabled != Off then
      prepared.(warnings := prepared.warnings + (if installFailed then [InstallFailed] else []),
                installAttempted := true)
    else prepared.(installAttempted := false)
  }

  /** `BacktraceInitializer()` from the parsed settings on: the handler is
      installed exactly when backtracing survives, which needs a platform
      that supports it, and no setting is left at TTY there. */
  function Resolve(pl: Platform, s: Settings, env: Environment, installFailed: bool): (r: InitResult)
    ensures r.installAttempted <==> r.settings.enabled != Off
    ensures r.settings.enabled != Off ==> pl.onCrashSupported
    ensures pl.onCrashSupported ==> NoTty(r.settings)
  {
    Install(Prepare(pl, s, env), installFailed)
  }

  /** The whole initialiser: defaults, then the environment variable if set,
      then the resolution.  Without the variable the defaults are resolved,
      and the warnings of the parse come before those of the resolution. */
  function Initialize(pl: Platform, env: Environment, installFailed: bool, parsers: IntegerParsers): (r: InitResult)
    ensures r.installAttempted <==> r.settings.enabled != Off
    ensures env.backtracing.None? ==> r == Resolve(pl, Defaults(pl.os), env, installFailed)
    ensures env.backtracing.Some?
            ==> var parsed := ParseBacktracingSettings(Defaults(pl.os), env.backtracing.value, parsers);
                var resolved := Resolve(pl, parsed.settings, env, installFailed);
                r.settings == resolved.settings && r.warnings == parsed.warnings + resolved.warnings
  {
    var s0 := Defaults(pl.os);
    var parsed :=
      if env.backtracing.Some? then ParseBacktracingSettings(s0, env.backtracing.value, parsers)
      else Outcome(s0, []);
    var resolved := Resolve(pl, parsed.settings, env, installFailed);
    resolved.(warnings := parsed.warnings + resolved.warnings)
  }

  /** Where the crash handler is not supported, backtracing ends up off and
      nothing is installed. */
  lemma UnsupportedIsOff(pl: Platform, env: Environment, installFailed: bool, parsers: IntegerParsers)
    requires !pl.onCrashSupported
    ensures Initialize(pl, env, installFailed, parsers).settings.enabled == Off
    ensures !Initialize(pl, env, installFailed, parsers).installAttempted
  {
  }

  /** On a supported platform no setting is left at TTY. */
  lemma SupportedResolvesTty(pl: Platform, s: Settings, env: Environment, installFailed: bool)
    requires pl.onCrashSupported
    ensures NoTty(Resolve(pl, s, env, installFailed).settings)
  {
  }

  /** Failing closed: when backtracing is still enabled after start-up, a
      helper path was found, its C string fits the buffer, was converted
      and protected, the buffer holds it, and the algorithm is one the
      platform runs.  Only then is the handler installed. */
  lemma EnabledMeansUsable(pl: Platform, s: Settings, env: Environment, installFailed: bool)
    ensures var r := Resolve(pl, s, env, installFailed);
            r.settings.enabled != Off ==>
              && pl.onCrashSupported
              && r.settings.enabled == On
              && r.settings.swiftBacktracePath.Some?
              && r.pathBuffer == Some(CString(r.settings.swiftBacktracePath.value))
              && env.pathProtected
              && PathFits(pl.os, r.settings.swiftBacktracePath.value, env)
              && Runnable(pl.os, r.settings.algorithm)
    ensures var r := Resolve(pl, s, env, installFailed);
            r.installAttempted <==> r.settings.enabled != Off
  {
  }

  /** The converse of `EnabledMeansUsable`: on a supported platform, when
      backtracing is still on after the terminal test and the helper path,
      given or found, fits the buffer and is protected, backtracing stays
      on, the buffer holds the path, the algorithm is the normalised one and
      the handler is installed.  The only warnings are those of the
      normalisation and of a failed installation. */
  lemma UsableMeansEnabled(pl: Platform, s: Settings, env: Environment, installFailed: bool, path: string)
    requires pl.onCrashSupported
    requires ResolveOne(s.enabled, env.stdoutIsTty) != Off
    requires path == (if s.swiftBacktracePath.Some? then s.swiftBacktracePath.value
                      else if env.helper.Some? then env.helper.value else "")
    requires s.swiftBacktracePath.Some? || env.helper.Some?
    requires PathFits(pl.os, path, env) && env.pathProtected
    ensures var r := Resolve(pl, s, env, installFailed);
            var (algorithm, warned) := NormaliseAlgorithm(pl.os, s.algorithm);
            && r.settings.enabled == On
            && r.installAttempted
            && r.settings.swiftBacktracePath == Some(path)
            && r.pathBuffer == Some(CString(path))
            && r.settings.algorithm == algorithm
            && r.warnings == warned + (if installFailed then [InstallFailed] else [])
  {
    var s1 := ResolveTty(s, env.stdoutIsTty, env.stdinIsTty);
    var located := LocateHelper(s1, env.helper);
    assert located == Outcome(s1.(swiftBacktracePath := Some(path)), []);
  }

  /** An installation failure only adds one warning: the settings, buffer
      and earlier warnings are those of a successful installation. */
  lemma InstallFailureOnlyWarns(pl: Platform, s: Settings, env: Environment)
    ensures var ok := Resolve(pl, s, env, false);
            var bad := Resolve(pl, s, env, true);
            && bad.settings == ok.settings
            && bad.pathBuffer == ok.pathBuffer
            && bad.installAttempted == ok.installAttempted
            && bad.warnings == ok.warnings + (if ok.installAttempted then [InstallFailed] else [])
  {
  }

  /** A helper path given in the settings is used as given: the lookup is
      skipped, and the buffer holds the given path when backtracing stays
      on. */
  lemma GivenPathIsKept(pl: Platform, s: Settings, env: Environment, installFailed: bool)
    requires pl.onCrashSupported && s.swiftBacktracePath.Some?
    ensures Resolve(pl, s, env, installFailed).settings.swiftBacktracePath == s.swiftBacktracePath
  {
  }
}
