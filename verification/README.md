# Swift backtracing runtime: settings, crash hand-off, paths and metadata sections

This project models, in Dafny, the sequential core of the Swift runtime's
backtracing support and of the image-inspection support it leans on:

- **Backtracing settings** (`BacktraceSettings`, `BacktraceInit`). The
  `SWIFT_BACKTRACING` variable is handled in three stages:
  - a two-state, character-level scanner cuts `key=value,key=value` into pairs;
  - a case-insensitive interpreter folds each pair into the
    `_swift_backtraceSettings` record;
  - the start-up resolution of `BacktraceInitializer()` then runs. It resolves
    `TTY` against the terminal and locates and protects the `swift-backtrace`
    helper path, and it normalises the unwind algorithm for the platform. It
    fails closed when the helper cannot be used.
- **Crash hand-off on macOS** (`CrashHandlerMacOS`):
  - the installer, which points the fatal signals at `handle_fatal_signal`;
  - the handler, as a transition over the process state it touches;
  - the helper's command line;
  - the two async-signal-safe formatters, `format_address` and `format_unsigned`.
- **Path derivation** (`Paths`):
  - separator-aware joining;
  - the recognisers for `lib/swift/` and `bin/`;
  - the default root computed from the runtime's own path;
  - the `SWIFT_ROOT` override;
  - the ordered search for an auxiliary executable.
- **Metadata sections** (`MetadataSections`, `SwiftRtElf`, `ImageInspection`):
  - the tagged section pointer, whose low bit tells a relative pointer from an
    absolute one;
  - the 13-range `MetadataSections` record under the 32-bit and 64-bit traits;
  - the ELF note that `SwiftRT-ELF.cpp` assembles around that record, which
    holds one relative pointer `target - . + 1` per section boundary;
  - the image constructor;
  - the registry of `ImageInspectionCommon.cpp`: length-filtered registration
    callbacks, an append-only list, early-exit enumeration and bounds-checked
    lookup.

The operating system enters only through the answers it gives, which are
parameters:
- whether stdout and stdin are terminals;
- whether the helper was found, and whether its path was converted and protected;
- which `sigaction` calls fail;
- the thread identifier;
- the file-exists predicate;
- the runtime path, `SWIFT_ROOT` and the platform directory name;
- the linker's symbol table.

LLVM's `consumeInteger` and `getAsInteger` are oracles that, as in LLVM,
return `true` on failure. The branches that use them are modelled as written.

Modules: `Wrappers` (`Option`), `Text` (ASCII case folding, `StringRef::trim`,
C strings, character search), then one module per area above.

In these places the model follows the code as written:
- The `unwind` setting accepts exactly `auto`, `fast`, `DWARF` and `SEH`, in
  any case.
- An unrecognised value leaves the setting as it was and warns.
- The `timeout` unit branch runs when `consumeInteger` reports failure. A count
  that parses is therefore rejected with a warning (`ProcessTimeoutFixed`).
- The "bad level" warning fires when `getAsInteger` succeeds (`ProcessLevel`).
- `_swift_installCrashHandler` is declared `void` but returns -1 and 0. The
  model returns them.
- `to_handle` is not declared in `CrashHandlerMacOS.cpp`. The model takes the
  macOS fatal signals SIGQUIT, SIGABRT, SIGBUS, SIGFPE, SIGILL, SIGSEGV and
  SIGTRAP.
- `backtracer_argv` is declared as a `char[]` but used as an array of strings,
  and is modelled as one.

## Model

| member | source | states |
|---|---|---|
| BacktraceSettings.Defaults | stdlib/public/runtime/Backtrace.cpp:51-84 | the static settings: Auto unwinding, symbolicate on, color TTY, timeout 30, level 1, no helper path; enabled is TTY exactly on macOS and Off exactly on unsupported systems; interactive is Off only there |
| BacktraceSettings.ParseOnOffTty | stdlib/public/runtime/Backtrace.cpp:320-334 | On exactly for on/true/yes/y/t/1 in any ASCII case, TTY exactly for tty/auto, Off for every other string |
| BacktraceSettings.ParseBoolean | stdlib/public/runtime/Backtrace.cpp:336-345 | true exactly for the six words on/true/yes/y/t/1 in any case |
| BacktraceSettings.BooleanAgreesWithOnOffTty | stdlib/public/runtime/Backtrace.cpp:320-345 | parseBoolean accepts exactly the words parseOnOffTty maps to On |
| BacktraceSettings.KeyFieldCases | stdlib/public/runtime/Backtrace.cpp:352-418 | the case-insensitive key comparisons of the dispatch select the same field as the key table, key by key, in both directions |
| BacktraceSettings.ScaleByUnit | stdlib/public/runtime/Backtrace.cpp:367-378 | the count times 1 for ""/s/seconds, 60 for m/minutes, 3600 for h/hours in any case; the old timeout for any other unit |
| BacktraceSettings.ProcessTimeout | stdlib/public/runtime/Backtrace.cpp:360-390 | only the timeout field can change, and a non-negative timeout stays non-negative |
| BacktraceSettings.ProcessTimeoutFixed | stdlib/public/runtime/Backtrace.cpp:364-390 | "none" in any case sets 0 without warning; otherwise a value consumeInteger parses without failure is refused with a warning and changes nothing |
| BacktraceSettings.ProcessTimeoutByUnits | stdlib/public/runtime/Backtrace.cpp:366-385 | on the consumeInteger-failure branch the trimmed unit scales the count (unknown unit keeps the old value), and a negative result warns and is clamped to 0 |
| BacktraceSettings.ProcessUnwind | stdlib/public/runtime/Backtrace.cpp:391-404 | auto/fast/DWARF/SEH in any case select that algorithm; any other value warns and changes nothing |
| BacktraceSettings.ProcessLevel | stdlib/public/runtime/Backtrace.cpp:405-410 | only level can change; a getAsInteger failure changes nothing silently, a success stores the value and warns "bad level" |
| BacktraceSettings.ProcessSetting | stdlib/public/runtime/Backtrace.cpp:347-424 | the key's field is the only one that can change; enable/interactive/color take parseOnOffTty, symbolicate parseBoolean, swift-backtrace an exact copy of the value; an unknown key warns and changes nothing |
| BacktraceSettings.KeysCaseInsensitive | stdlib/public/runtime/Backtrace.cpp:352-418 | two spellings of a key that differ only in ASCII case have the same effect |
| BacktraceSettings.ScanSettings | stdlib/public/runtime/Backtrace.cpp:426-472 | the two-state scanner yields exactly the reference split of the text up to its first NUL |
| BacktraceSettings.ScanText | stdlib/public/runtime/Backtrace.cpp:440-471 | the scanner's loop yields one pair per '=' met in key state: key up to that '=', value up to the next ',' or the end; a ',' in a key and an '=' in a value are kept |
| BacktraceSettings.SplitOnePair | stdlib/public/runtime/Backtrace.cpp:442-462 | a key free of '=' and a value free of ',' split off as one pair, and the split resumes after the comma |
| BacktraceSettings.SplitRender | stdlib/public/runtime/Backtrace.cpp:426-471 | splitting pairs written back as k=v,k=v returns the pairs (keys may hold ',', values may hold '=') |
| BacktraceSettings.SplitDropsTrailingFragment | stdlib/public/runtime/Backtrace.cpp:466-471 | a trailing fragment without '=' after the last value is dropped silently |
| BacktraceSettings.SplitSettingsWithoutNul | stdlib/public/runtime/Backtrace.cpp:440 | a text without NUL is scanned in full |
| BacktraceSettings.ApplySettings | stdlib/public/runtime/Backtrace.cpp:454-470 | the pairs are processed in order: a field that no key selects keeps its value, and the first pair's warnings come first |
| BacktraceSettings.ParseBacktracingSettings | stdlib/public/runtime/Backtrace.cpp:426-472 | a text without '=' before its NUL changes nothing and warns of nothing; a field no key of the text selects keeps its value |
| BacktraceSettings.UnknownKeysChangeNothing | stdlib/public/runtime/Backtrace.cpp:419-423 | unknown keys change no setting and each warns exactly once |
| BacktraceSettings.TimeoutStaysNonNegative | stdlib/public/runtime/Backtrace.cpp:360-385 | a non-negative timeout stays non-negative through any sequence of settings |
| BacktraceInit.ResolveOne | stdlib/public/runtime/Backtrace.cpp:186-193 | TTY becomes On exactly when the terminal test succeeds, and On/Off stay |
| BacktraceInit.ResolveTty | stdlib/public/runtime/Backtrace.cpp:186-193 | enabled and color follow stdout, interactive follows stdin, nothing else changes, and no TTY is left |
| BacktraceInit.ResolveTtyIdempotent | stdlib/public/runtime/Backtrace.cpp:186-193 | resolving an already resolved record changes nothing |
| BacktraceInit.NormaliseAlgorithm | stdlib/public/runtime/Backtrace.cpp:215-259 | the result is runnable on the platform (Fast/SEH on Windows, Fast/DWARF elsewhere); runnable algorithms are kept silently; Auto and the unrunnable one become SEH on Windows and DWARF elsewhere; the only warnings are "DWARF not supported" for DWARF on Windows and "SEH not supported" for SEH elsewhere |
| BacktraceInit.NormaliseIdempotent | stdlib/public/runtime/Backtrace.cpp:215-259 | normalising a normalised algorithm changes nothing and warns of nothing |
| BacktraceInit.LocateHelper | stdlib/public/runtime/Backtrace.cpp:195-206 | an enabled record without a path takes the found helper or is switched Off with a warning; a given path or a disabled record is left alone; afterwards an enabled record has a path |
| BacktraceInit.ProtectPath | stdlib/public/runtime/Backtrace.cpp:228-282 | backtracing stays on exactly when the path was converted (Windows) or its C string fits 8191 UTF-8 bytes (elsewhere) and the buffer was protected, and then the buffer holds the path's C string silently; otherwise it is switched Off with the warning of the first failing step (not converted, too long, not protected) and nothing else changes |
| BacktraceInit.Prepare | stdlib/public/runtime/Backtrace.cpp:179-284 | the stages before installation attempt no installation |
| BacktraceInit.Install | stdlib/public/runtime/Backtrace.cpp:286-293 | installation is attempted exactly when backtracing is on; a failure adds one warning and changes no setting |
| BacktraceInit.UnsupportedIsOff | stdlib/public/runtime/Backtrace.cpp:179-184 | where on-crash backtracing is unsupported it ends Off and nothing is installed |
| BacktraceInit.SupportedResolvesTty | stdlib/public/runtime/Backtrace.cpp:186-193 | on a supported platform no setting is TTY after start-up |
| BacktraceInit.EnabledMeansUsable | stdlib/public/runtime/Backtrace.cpp:195-293 | fail closed: still enabled means On, a helper path that fits, was converted and protected and is in the buffer, and a runnable algorithm; installation is attempted exactly then |
| BacktraceInit.UsableMeansEnabled | stdlib/public/runtime/Backtrace.cpp:186-293 | the converse: on a supported platform, enabled after the terminal test, with a given or found path that fits and is protected, backtracing stays On, the buffer holds the path, the algorithm is the normalised one, the handler is installed, and only the normalisation and a failed install warn |
| BacktraceInit.Resolve | stdlib/public/runtime/Backtrace.cpp:179-293 | the handler is installed exactly when backtracing survives start-up, which needs a supported platform, and there no setting is left at TTY |
| BacktraceInit.Initialize | stdlib/public/runtime/Backtrace.cpp:173-294 | without SWIFT_BACKTRACING the default settings are resolved; with it the parsed settings are, and the parse's warnings precede the resolution's; installation exactly when backtracing survives |
| BacktraceInit.InstallFailureOnlyWarns | stdlib/public/runtime/Backtrace.cpp:286-293 | a failing installation gives the same settings, buffer and attempt as a successful one, plus one warning |
| BacktraceInit.GivenPathIsKept | stdlib/public/runtime/Backtrace.cpp:195-206 | a helper path given in the settings is not replaced by the lookup |
| CrashHandlerMacOS.Decimal | stdlib/public/runtime/CrashHandlerMacOS.cpp:172-178 | the decimal numeral has at least one digit and no leading zero except for 0 itself |
| CrashHandlerMacOS.DecimalRoundTrip | stdlib/public/runtime/CrashHandlerMacOS.cpp:173-175 | reading the numeral back gives the number |
| CrashHandlerMacOS.UnsignedFits | stdlib/public/runtime/CrashHandlerMacOS.cpp:168-172 | an unsigned has at most ten digits, so the 22-byte buffer never fills |
| CrashHandlerMacOS.HexRoundTrip | stdlib/public/runtime/CrashHandlerMacOS.cpp:157-163 | zero-padded hex digits read back as the number whenever it fits |
| CrashHandlerMacOS.HexLeadingZero | stdlib/public/runtime/CrashHandlerMacOS.cpp:155-163 | a 64-bit value written with 17 digits starts with '0' |
| CrashHandlerMacOS.FormatAddress | stdlib/public/runtime/CrashHandlerMacOS.cpp:152-164 | 17 lowercase zero-padded hex digits, most significant first, NUL at index 17, index 0 is '0', and they read back as addr |
| CrashHandlerMacOS.FormatUnsigned | stdlib/public/runtime/CrashHandlerMacOS.cpp:166-179 | NUL at index 21, the decimal numeral of u immediately before it, and every byte before the numeral untouched |
| CrashHandlerMacOS.BacktracerArgv | stdlib/public/runtime/CrashHandlerMacOS.cpp:131-148 | helper name and flag names at slots 0 and 1-13 odd; slot 2 "fast" exactly for Fast and "DWARF" otherwise; slots 4/6/8 true/false from symbolicate/interactive/color; slots 10/12/14 the timeout, level and record address numerals |
| CrashHandlerMacOS.ArgvNumbersRoundTrip | stdlib/public/runtime/CrashHandlerMacOS.cpp:206-208 | the numeric slots read back as the timeout (as unsigned), the level and the crash record's address |
| CrashHandlerMacOS.RunBacktracerAsWritten | stdlib/public/runtime/CrashHandlerMacOS.cpp:181-212 | as written, the command line is the intended one except slot 2 is always "DWARF" and slots 10 and 12 read as "" |
| CrashHandlerMacOS.ZeroedRead | stdlib/public/runtime/CrashHandlerMacOS.cpp:129-130 | a zeroed 22-byte buffer filled by format_unsigned reads as the empty string from its start |
| CrashHandlerMacOS.RunBacktracer | stdlib/public/runtime/CrashHandlerMacOS.cpp:181-212 | with the Fast case ended by a break and the numeric slots read from the first digit, the command line is exactly the intended one |
| CrashHandlerMacOS.FirstRefused | stdlib/public/runtime/CrashHandlerMacOS.cpp:75-81 | the index of the first handled signal whose sigaction fails, every earlier one succeeding |
| CrashHandlerMacOS.InstallCrashHandler | stdlib/public/runtime/CrashHandlerMacOS.cpp:52-84 | no stack: -1 and nothing changes; otherwise the handled signals up to the first refused one get the handler with mask = all but the handled signals and flags ONSTACK/SIGINFO/NODEFER, the rest stay; 0 exactly when nothing failed |
| CrashHandlerMacOS.HandleFatalSignal | stdlib/public/runtime/CrashHandlerMacOS.cpp:92-126 | every handled signal is reset to default first; after a successful thread query errno is restored to its value on entry; a failed thread query leaves errno as the query left it and returns without filling the record or spawning; otherwise the record holds thread, signal, fault address and context before the helper is spawned |
| CrashHandlerMacOS.HandlerUndoesInstall | stdlib/public/runtime/CrashHandlerMacOS.cpp:99-101 | after a successful install, the handler leaves the handled signals at default and every other signal as before the install |
| CrashHandlerMacOS.SpawnSeesFilledRecord | stdlib/public/runtime/CrashHandlerMacOS.cpp:114-122 | the helper is spawned with the filled record naming the crashing thread |
| Paths.StripTrailing | stdlib/public/runtime/Paths.cpp:197-199 | the longest prefix not ending in a separator, all that follows it being separators |
| Paths.TrimmedLength | stdlib/public/runtime/Paths.cpp:208-210 | the trimming loop stops at the length of the stripped string |
| Paths.JoinPaths | stdlib/public/runtime/Paths.cpp:188-240 | the joined path starts with the stripped base (or one separator for an empty base) and ends in a non-separator unless it is the lone separator |
| Paths.JoinPathsAppend | stdlib/public/runtime/Paths.cpp:226-236 | each segment adds exactly one separator and the segment without its trailing separators (leading ones kept), or nothing when it strips to empty |
| Paths.JoinEmptyBase | stdlib/public/runtime/Paths.cpp:201-204 | an empty or all-separator base contributes exactly one separator |
| Paths.JoinPathsCompose | stdlib/public/runtime/Paths.cpp:188-240 | joining onto a joined path equals one join of all the segments |
| Paths.PieceOfTrimmed | stdlib/public/runtime/Paths.cpp:208-213 | one segment counts 1 + len characters when its trimmed length is non-zero, and nothing otherwise |
| Paths.JoinedLength | stdlib/public/runtime/Paths.cpp:193-214 | the first pass's totalLen is the length of the joined path |
| Paths.JoinPathsBuffer | stdlib/public/runtime/Paths.cpp:188-240 | the second pass writes exactly totalLen characters, the joined path, then the NUL at index totalLen |
| Paths.WriteJoined | stdlib/public/runtime/Paths.cpp:216-236 | the characters the second pass writes are the joined path |
| Paths.LookingAtLibSwiftSpelled | stdlib/public/runtime/Paths.cpp:92-105 | lib/swift is recognised exactly when at least 10 characters precede and they spell separator, lib, separator, swift |
| Paths.LookingAtBinSpelled | stdlib/public/runtime/Paths.cpp:107-118 | bin is recognised exactly when strictly more than 4 characters precede and the last four spell separator, bin |
| Paths.LastSepBefore | stdlib/public/runtime/Paths.cpp:126-128 | the backward scan stops at the last separator before the start point, or at 0 |
| Paths.RootEnd | stdlib/public/runtime/Paths.cpp:126-172 | the root's end is a separator position inside the path, or 0 |
| Paths.DefaultRootPathAsWritten | stdlib/public/runtime/Paths.cpp:174-185 | as written the root is "./" or a prefix of the runtime path ending in a separator |
| Paths.DefaultRootAsWrittenIsRelative | stdlib/public/runtime/Paths.cpp:174-177 | for /lib/swift/libswiftCore.so the code as written gives "./" while the intended root is "/" |
| Paths.DefaultRootPath | stdlib/public/runtime/Paths.cpp:174-185 | the root is "." plus separator or a prefix of the runtime path that ends in a separator; an absolute runtime path always yields a prefix |
| Paths.DefaultRootReadingsAgree | stdlib/public/runtime/Paths.cpp:174-185 | the two readings differ only for absolute paths whose root end is position 0 |
| Paths.RootOfBareName | stdlib/public/runtime/Paths.cpp:126-177 | a path without a separator has the root "./" |
| Paths.RootDropsLibSwift | stdlib/public/runtime/Paths.cpp:138-144 | dir/lib/swift/file has the root dir/ |
| Paths.RootDropsPlatform | stdlib/public/runtime/Paths.cpp:145-160 | dir/lib/swift/platform/file has the root dir/ |
| Paths.RootDropsBin | stdlib/public/runtime/Paths.cpp:161-171 | dir/bin/file has the root dir/ for a non-empty dir not ending in lib/swift |
| Paths.InitRootPath | stdlib/public/runtime/Paths.cpp:242-264 | a non-empty SWIFT_ROOT is the root, with one separator appended exactly when it does not end in one; otherwise the default root; the root always ends in a separator |
| Paths.InitRootPathStable | stdlib/public/runtime/Paths.cpp:245-263 | setting SWIFT_ROOT to the root in use changes nothing |
| Paths.ExeName | stdlib/public/runtime/Paths.cpp:432-442 | ".exe" is appended exactly on Windows to a name longer than 4 characters not already ending in ".exe" |
| Paths.ExeNameIdempotent | stdlib/public/runtime/Paths.cpp:432-442 | the suffix is appended at most once, and on Windows a name longer than 4 ends in ".exe" |
| Paths.AuxExePathIn | stdlib/public/runtime/Paths.cpp:429-452 | for a name not ending in a separator, the path is the directory (or one separator for an empty one), one separator, and the name with ".exe" added as ExeName says |
| Paths.AuxPathIsFlatJoin | stdlib/public/runtime/Paths.cpp:444 | the executable path in a joined directory is one flat join |
| Paths.AuxiliaryExecutablePath | stdlib/public/runtime/Paths.cpp:343-425 | a returned path exists |
| Paths.AuxiliarySearchOrder | stdlib/public/runtime/Paths.cpp:351-424 | libexec/swift/platform, libexec/swift, bin (each only if the directory exists), then the root: the first that holds the executable wins, else null |
| MetadataSections.Wrap | include/swift/ABI/MetadataSections.h:30-38 | a sum wraps to the one Offset value that differs from it by a multiple of 2^32 or 2^64 |
| MetadataSections.ToAddress | include/swift/ABI/MetadataSections.h:88-90 | an Offset reinterpreted as a pointer is the address with the same bits |
| MetadataSections.IsRelativeIsBitZero | include/swift/ABI/MetadataSections.h:73-75 | isRelative holds exactly when bit 0 of the stored word is 1 |
| MetadataSections.UnresolvedClearsBitZero | include/swift/ABI/MetadataSections.h:77-79 | getUnresolvedOffset clears bit 0, keeps every other bit, and stays an Offset |
| MetadataSections.ApplyRelativeOffset | include/swift/ABI/MetadataSections.h:62-65 | the pointer's own address, read as an Offset, plus the offset: exactly the sum whenever it fits Offset, and the sum wrapped into Offset otherwise |
| MetadataSections.ResolvedAddress | include/swift/ABI/MetadataSections.h:81-86 | the resolved address is an Offset |
| MetadataSections.ResolvedAddressCases | include/swift/ABI/MetadataSections.h:81-87 | relative: own address plus unresolved offset, wrapped; absolute: the stored word unchanged |
| MetadataSections.Get | include/swift/ABI/MetadataSections.h:88-90 | get() yields an address of the traits' width |
| MetadataSections.Absolute | include/swift/ABI/MetadataSections.h:69-71 | the absolute constructor stores the address's bits verbatim |
| MetadataSections.AbsoluteResolvesToItself | include/swift/ABI/MetadataSections.h:69-71 | an even absolute pointer resolves to its address wherever it is stored; an odd one reads as relative |
| MetadataSections.FieldIndex | include/swift/ABI/MetadataSections.h:132-144 | each section names the field at its index in the declared order |
| MetadataSections.SectionOrderIsLayout | include/swift/ABI/MetadataSections.h:124-145 | exactly 13 distinct ranges in the fixed order, each indexed back to itself |
| MetadataSections.StartWord | include/swift/ABI/MetadataSections.h:130-145 | a range's start word follows the version word and its end word is still inside the 27-word record |
| MetadataSections.ToWords | include/swift/ABI/MetadataSections.h:124-145 | the record in memory is the version word followed by each range's start and end word in order |
| MetadataSections.SectionStart | stdlib/public/runtime/ImageInspectionCommon.cpp:71 | a section's start is an address: a relative start pointer resolves against its own field's address, an absolute one is the stored address |
| MetadataSections.SectionEnd | stdlib/public/runtime/ImageInspectionCommon.cpp:72 | a section's end is an address: a relative end pointer resolves against the end field one word after the start field, an absolute one is the stored address |
| MetadataSections.WordsRoundTrip | include/swift/ABI/MetadataSections.h:124-145 | reading the words of a record gives the record back |
| ImageInspection.BlockOf | stdlib/public/runtime/ImageInspectionCommon.cpp:53-73 | a section's block starts at the section's resolved start and, with the computeSectionLength distance as its length, ends exactly at the section's resolved end |
| ImageInspection.AddNewDSOImage | stdlib/public/runtime/ImageInspectionCommon.cpp:59-104 | the record is appended once after the callbacks; earlier calls are kept and at most five are added |
| ImageInspection.CallbackFiresIffNonEmpty | stdlib/public/runtime/ImageInspectionCommon.cpp:69-91 | a section's callback is made exactly when its length is non-zero; the replace callback depends only on replace's length and passes replac2's block whatever its length |
| ImageInspection.KindsInOrder | stdlib/public/runtime/ImageInspectionCommon.cpp:93-97 | callbacks come in the order protocols, conformances, type metadata, dynamic replacement, accessible functions, each with the given image |
| ImageInspection.OtherSectionsNotRegistered | stdlib/public/runtime/ImageInspectionCommon.cpp:93-97 | records that agree on the six used sections make the same calls: the other sections are recorded but not registered |
| ImageInspection.Visits | stdlib/public/runtime/ImageInspectionCommon.cpp:106-118 | enumeration reaches up to and including the first rejected entry, or all entries |
| ImageInspection.EnumerateAllMetadataSections | stdlib/public/runtime/ImageInspectionCommon.cpp:106-118 | the entries handed to the callback are a prefix of the snapshot in insertion order, ending at the first rejection |
| ImageInspection.EnumerationStopsAtFirstRejection | stdlib/public/runtime/ImageInspectionCommon.cpp:112-117 | rejecting entry k after accepting all before it visits exactly k + 1 entries |
| ImageInspection.RegisterAll | stdlib/public/runtime/ImageInspectionCommon.cpp:99-103 | registering images in turn appends their records in order |
| ImageInspection.RegistryCountsRegistrations | stdlib/public/runtime/ImageInspectionCommon.cpp:137-165 | after registrations, swift_getMetadataSectionCount grows by their number, and swift_getMetadataSection gives an old entry at its old index, the i-th new record at old count + i, and null from the new count on |
| SwiftRtElf.RelativePtr | stdlib/public/runtime/SwiftRT-ELF.cpp:62-65 | the emitted word always fits the traits' Offset, whatever the two addresses |
| SwiftRtElf.RelativePtrRoundTrip | stdlib/public/runtime/SwiftRT-ELF.cpp:62-65 | with an even distance the word reads as relative and resolves back to the target |
| SwiftRtElf.OddDistanceReadsAsAbsolute | stdlib/public/runtime/SwiftRT-ELF.cpp:62-65 | with an odd distance the tag bit is clear and the word reads as absolute |
| SwiftRtElf.FieldIsStartField | stdlib/public/runtime/SwiftRT-ELF.cpp:109-111 | the k-th emitted word sits where the record's field for that section's start and end lies |
| SwiftRtElf.EmitDescriptor | stdlib/public/runtime/SwiftRT-ELF.cpp:109-111 | the version word 3, then per section in field order a relative pointer to its start and end symbols |
| SwiftRtElf.EmittedWellFormed | stdlib/public/runtime/SwiftRT-ELF.cpp:109-111 | the emitted words form a well-formed record of version 3 with 13 ranges |
| SwiftRtElf.EmittedPointerResolves | stdlib/public/runtime/SwiftRT-ELF.cpp:62-70 | an emitted word read at its own address resolves to its symbol |
| SwiftRtElf.EmittedRecordResolves | stdlib/public/runtime/SwiftRT-ELF.cpp:56-71 | each section's start and end in the emitted record resolve to its __start_ and __end_ symbols |
| SwiftRtElf.LittleEndianRoundTrip | stdlib/public/runtime/SwiftRT-ELF.cpp:29-34 | a word's little-endian bytes read back as the word |
| SwiftRtElf.WordsBytes | stdlib/public/runtime/SwiftRT-ELF.cpp:22-51 | words take 8 bytes each under LP64 and 4 otherwise |
| SwiftRtElf.WordsRoundTrip | stdlib/public/runtime/SwiftRT-ELF.cpp:22-51 | the words' bytes read back as the words |
| SwiftRtElf.AlignNote | stdlib/public/runtime/SwiftRT-ELF.cpp:25-27 | the next multiple of the boundary `.align 8` (LP64) or `.align 4` names: 8 or 4 bytes where the assembler counts bytes (x86), 256 or 16 where it counts low-order zero bits (ARM, AArch64) |
| SwiftRtElf.Header | stdlib/public/runtime/SwiftRT-ELF.cpp:97-99 | the note header is three 4-byte fields |
| SwiftRtElf.EncodeNote | stdlib/public/runtime/SwiftRT-ELF.cpp:94-113 | the note's length is the descriptor offset (header and name, padded to the note alignment) plus the descriptor's size |
| SwiftRtElf.NoteRoundTrip | stdlib/public/runtime/SwiftRT-ELF.cpp:94-113 | decoding an encoded note gives the note back |
| SwiftRtElf.SwiftNoteLayout | stdlib/public/runtime/SwiftRT-ELF.cpp:94-113 | n_namesz 6, n_descsz the record's size, type 1, descriptor at byte 24 (LP64) or 20 where `.align` counts bytes and at byte 256 or 32 where it counts low-order zero bits, and the note decodes back to the record |
| SwiftRtElf.ImageConstructor | stdlib/public/runtime/SwiftRT-ELF.cpp:118-122 | the record is registered once and every call it makes carries a null image |

## Left out

- Spawning the helper (`_swift_spawnBacktracer`), the debug `printf` and every
  OS call: isatty, mprotect/VirtualProtect, MultiByteToWideChar, sigaction,
  mmap, thread_info, mach_ports_register, dladdr, stat. They are I/O and
  appear only as the answers they give.
- The `swift::once` initialisation and the concurrency of the registry's
  concurrent array. The registry is a plain sequence, and a snapshot is
  reading it.
- `include/swift/Runtime/Backtrace.h` is not part of this model. Its settings
  declaration has drifted from the record `Backtrace.cpp` uses.
- The unresolved merge markers at `Paths.cpp` lines 130-143. Both sides test
  the same condition, and the `_swift_lookingAtLibSwift` side is modelled.
- `_swift_win32NameFromNTName`, and how the runtime path is obtained: the path
  is a parameter. `_swift_exists` is a file-exists predicate.
- `swift_getMetadataSectionName` and `swift_getMetadataSectionBaseAddress`
  (symbol lookup, a foreign call), and the disabled `#if 0` block.
- The context pointer of `swift_enumerateAllMetadataSections` is folded into
  the callback. Side effects of the callback are not modelled.
- The assembler and linker are reduced to a symbol table and to the address
  of each emitted word. Big-endian ELF targets and Cygwin are not modelled.
- BacktraceSettings.ProcessTimeout: the `count * 60` and `count * 3600`
  products are exact integers, so the overflow of the C `int` is not modelled.
- SwiftRtElf.RelativePtrRoundTrip: the round trip is stated for an even
  distance between target and word. The linker's alignment of the sections
  is outside the model, so that evenness is a hypothesis.
- SwiftRtElf.DecodeNote is a decoder that exists only in the model, as the
  partner of the note encoder. `ReadWords` reads whole words and ignores a
  trailing partial word.
- ImageInspection.SectionLength: the `ptrdiff_t` subtraction is exact, so its
  overflow is not modelled.
- BacktraceInit.Prepare: its own contract only says no installation is
  attempted. Its behaviour is stated by the lemmas about `Resolve`:
  `EnabledMeansUsable` for the fail-closed direction and `UsableMeansEnabled`
  for the enabling one.
- BacktraceInit.ProtectPath: the helper path is a string of Unicode scalar
  values, and `strlen` is read as the length of its UTF-8 encoding. Paths
  whose bytes are not valid UTF-8 cannot be written in the model.
- Paths.InitRootPath: without `SWIFT_ROOT` it uses the corrected
  `DefaultRootPath`. For a runtime path such as `/lib/swift/libswiftCore.so`
  it gives "/" where the code as written gives "./" (third finding below).
- MetadataSections.ApplyRelativeOffset: the header adds two signed `Offset`s,
  which C++ leaves undefined on overflow. The model wraps such a sum around,
  and agrees with the exact sum wherever it fits.
- Paths.AuxiliaryExecutablePath: its own contract only says a returned path
  exists. The search order is stated by `AuxiliarySearchOrder`.
- CrashHandlerMacOS.HandleFatalSignal: it launches the helper with the
  intended command line (`BacktracerArgv`), not the one built as written.
  The finding below gives the difference.

## Findings

| source | as written | input that shows it | evidently intended | confidence | as-written member | corrected member |
|---|---|---|---|---|---|---|
| stdlib/public/runtime/CrashHandlerMacOS.cpp:142-144 | slots 10 and 12 point at the start of the zero-initialised `timeout_buf`/`level_buf`, but `format_unsigned` writes the digits at the end, so the helper reads "" | timeout 30, level 1: `--timeout ""` and `--level ""` | the helper receives "30" and "1" | medium, not executed | CrashHandlerMacOS.RunBacktracerAsWritten | CrashHandlerMacOS.RunBacktracer |
| stdlib/public/runtime/CrashHandlerMacOS.cpp:192-198 | `case Fast` has no `break`, so the "fast" it stores is overwritten by "DWARF" | algorithm Fast: slot 2 is "DWARF" | slot 2 is "fast" for Fast | medium, not executed | CrashHandlerMacOS.RunBacktracerAsWritten | CrashHandlerMacOS.RunBacktracer |
| stdlib/public/runtime/Paths.cpp:174-177 | when the root ends at position 0, the result is "./" even if that position holds the leading separator | runtime path `/lib/swift/libswiftCore.so`: root "./" | root "/" (a separator at position 0 is not an empty result) | medium, not executed | Paths.DefaultRootAsWrittenIsRelative | Paths.DefaultRootPath |
