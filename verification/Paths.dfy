/** Path derivation of `stdlib/public/runtime/Paths.cpp`: joining path
    segments, recognising the `lib/swift/` and `bin/` directories the
    runtime library sits in, the default root derived from the runtime's
    own path, the `SWIFT_ROOT` override, and the search for an auxiliary
    executable such as `swift-backtrace`.

    `windows` stands for the `_WIN32` build: there both slashes separate
    and the separator written is the backslash; elsewhere (Cygwin
    included, which does not define `_WIN32`) only '/' separates and '/'
    is written. The runtime path, the `SWIFT_ROOT` value, the build's
    platform directory name and the file system's "does this exist"
    answer are parameters. Strings are the characters before the NUL. */
module Paths {
  import opened Wrappers
  import opened Text

  /** `_swift_isPathSep`. */
  predicate IsPathSep(windows: bool, c: char) {
    c == '/' || (windows && c == '\\')
  }

  /** `PATHSEP_CHR`, the separator the runtime writes. */
  function PathSep(windows: bool): (c: char)
    ensures IsPathSep(windows, c)
  {
    if windows then '\\' else '/'
  }

  predicate NoSep(windows: bool, s: string) {
    forall i :: 0 <= i < |s| ==> !IsPathSep(windows, s[i])
  }

  // ---------------------------------------------------------------------
  // Joining
  // ---------------------------------------------------------------------

  /** `s` without its trailing separators: the longest prefix that is
      empty or ends in something other than a separator, everything after
      it being separators. */
  function StripTrailing(windows: bool, s: string): (r: string)
    ensures r <= s
    ensures r == [] || !IsPathSep(windows, r[|r| - 1])
    ensures forall i :: |r| <= i < |s| ==> IsPathSep(windows, s[i])
    decreases |s|
  {
    if s != [] && IsPathSep(windows, s[|s| - 1]) then StripTrailing(windows, s[..|s| - 1]) else s
  }

  /** The loop `while (len && _swift_isPathSep(s[len - 1])) --len;` that
      `_swift_joinPaths` runs on the base and on every segment. */
  method TrimmedLength(windows: bool, s: string) returns (len: nat)
    ensures len <= |s| && s[..len] == StripTrailing(windows, s)
  {
    len := |s|;
    assert s[..len] == s;
    while len > 0 && IsPathSep(windows, s[len - 1])
      invariant len <= |s|
      invariant StripTrailing(windows, s[..len]) == StripTrailing(windows, s)
    {
      assert s[..len - 1] == s[..len][..len - 1];
      len := len - 1;
    }
  }

  /** What one segment adds to a joined path: nothing when it strips to
      nothing, otherwise one separator and the stripped segment. */
  function Piece(windows: bool, seg: string): string {
    var t := StripTrailing(windows, seg);
    if t == [] then [] else [PathSep(windows)] + t
  }

  /** The segments' contribution, in argument order. */
  function JoinedSegments(windows: bool, segs: seq<string>): (r: string)
    ensures r == [] || (r[0] == PathSep(windows) && !IsPathSep(windows, r[|r| - 1]))
  {
    if segs == [] then [] else Piece(windows, segs[0]) + JoinedSegments(windows, segs[1..])
  }

  /** The base's contribution: the stripped base, or one separator in its
      place when nothing is left of it. */
  function BaseOf(windows: bool, path: string): string {
    var b := StripTrailing(windows, path);
    if b == [] then [PathSep(windows)] else b
  }

  /** `_swift_joinPaths(path, segs..., nullptr)`, without the NUL. */
  function JoinPaths(windows: bool, path: string, segs: seq<string>): (r: string)
    ensures StripTrailing(windows, path) != [] ==> StripTrailing(windows, path) <= r
    ensures StripTrailing(windows, path) == [] ==> r != [] && r[0] == PathSep(windows)
    ensures r == [PathSep(windows)] || !IsPathSep(windows, r[|r| - 1])
  {
    BaseOf(windows, path) + JoinedSegments(windows, segs)
  }

  lemma {:induction false} JoinedSegmentsAppend(windows: bool, a: seq<string>, b: seq<string>)
    ensures JoinedSegments(windows, a + b) == JoinedSegments(windows, a) + JoinedSegments(windows, b)
  {
    if a == [] {
      assert a + b == b;
    } else {
      assert (a + b)[1..] == a[1..] + b;
      JoinedSegmentsAppend(windows, a[1..], b);
    }
  }

  lemma JoinedSegmentsStep(windows: bool, segs: seq<string>, i: nat, next: nat)
    requires i < |segs| && next == i + 1
    ensures JoinedSegments(windows, segs[..next]) == JoinedSegments(windows, segs[..i]) + Piece(windows, segs[i])
  {
    assert segs[..next] == segs[..i] + [segs[i]];
    JoinedSegmentsAppend(windows, segs[..i], [segs[i]]);
    assert [segs[i]][1..] == [];
  }

  /** Appending a segment appends exactly one separator and the segment
      without its trailing separators, or nothing at all when the segment
      is empty or all separators. The segment's leading separators stay. */
  lemma JoinPathsAppend(windows: bool, path: string, segs: seq<string>, seg: string)
    ensures StripTrailing(windows, seg) == [] ==>
      JoinPaths(windows, path, segs + [seg]) == JoinPaths(windows, path, segs)
    ensures StripTrailing(windows, seg) != [] ==>
      JoinPaths(windows, path, segs + [seg])
      == JoinPaths(windows, path, segs) + ([PathSep(windows)] + StripTrailing(windows, seg))
  {
    JoinedSegmentsAppend(windows, segs, [seg]);
    JoinedSegmentsOne(windows, seg);
    var b, j := BaseOf(windows, path), JoinedSegments(windows, segs);
    assert JoinPaths(windows, path, segs + [seg]) == b + (j + Piece(windows, seg));
    assert b + (j + Piece(windows, seg)) == (b + j) + Piece(windows, seg);
  }

  lemma JoinedSegmentsOne(windows: bool, seg: string)
    ensures JoinedSegments(windows, [seg]) == Piece(windows, seg)
  {
    assert [seg][1..] == [];
  }

  /** An empty or all-separator base contributes exactly one separator. */
  lemma JoinEmptyBase(windows: bool, path: string, segs: seq<string>)
    requires forall i :: 0 <= i < |path| ==> IsPathSep(windows, path[i])
    ensures JoinPaths(windows, path, segs) == [PathSep(windows)] + JoinedSegments(windows, segs)
  {
  }

  /** Joining onto a joined path is one join of all the segments: a joined
      path never ends in a separator unless it is the lone separator. */
  lemma JoinPathsCompose(windows: bool, path: string, s1: seq<string>, s2: seq<string>)
    ensures JoinPaths(windows, JoinPaths(windows, path, s1), s2) == JoinPaths(windows, path, s1 + s2)
  {
    var r1 := JoinPaths(windows, path, s1);
    if r1 == [PathSep(windows)] {
      assert StripTrailing(windows, r1) == StripTrailing(windows, []);
    }
    assert BaseOf(windows, r1) == r1;
    JoinedSegmentsAppend(windows, s1, s2);
    ConcatAssociates(BaseOf(windows, path), JoinedSegments(windows, s1), JoinedSegments(windows, s2));
  }

  /** One turn of either pass of `_swift_joinPaths`, in terms of the
      trimmed length `len` of the segment. */
  lemma PieceOfTrimmed(windows: bool, seg: string, len: nat)
    requires len <= |seg| && seg[..len] == StripTrailing(windows, seg)
    ensures len == 0 ==> Piece(windows, seg) == []
    ensures len > 0 ==> Piece(windows, seg) == [PathSep(windows)] + seg[..len]
    ensures |Piece(windows, seg)| == if len == 0 then 0 else 1 + len
  {
  }

  /** The first pass of `_swift_joinPaths`: the length of the joined path,
      without the NUL. */
  method JoinedLength(windows: bool, path: string, segs: seq<string>) returns (totalLen: nat)
    ensures totalLen == |JoinPaths(windows, path, segs)|
  {
    var baseLen := TrimmedLength(windows, path);
    totalLen := if baseLen == 0 then 1 else baseLen;
    var i := 0;
    while i < |segs|
      invariant i <= |segs|
      invariant totalLen == |BaseOf(windows, path)| + |JoinedSegments(windows, segs[..i])|
    {
      var len := TrimmedLength(windows, segs[i]);
      PieceOfTrimmed(windows, segs[i], len);
      if len > 0 {
        totalLen := totalLen + 1 + len;
      }
      var next := i + 1;
      JoinedSegmentsStep(windows, segs, i, next);
      i := next;
    }
    assert segs[..|segs|] == segs;
  }

  /** `_swift_joinPaths`: the second pass writes into a buffer of
      `totalLen + 1` characters, and the characters written before the NUL
      are exactly the `totalLen` the first pass counted. */
  method JoinPathsBuffer(windows: bool, path: string, segs: seq<string>) returns (buffer: string, totalLen: nat)
    ensures totalLen == |JoinPaths(windows, path, segs)|
    ensures |buffer| == totalLen + 1 && buffer[totalLen] == NUL
    ensures buffer[..totalLen] == JoinPaths(windows, path, segs)
  {
    totalLen := JoinedLength(windows, path, segs);
    var written := WriteJoined(windows, path, segs);
    buffer := written + [NUL];
    assert buffer[..totalLen] == written;
  }

  /** The second pass of `joinPaths`: the trimmed base (or a separator),
      then a separator and the trimmed text of each non-empty segment. */
  method WriteJoined(windows: bool, path: string, segs: seq<string>) returns (written: string)
    ensures written == JoinPaths(windows, path, segs)
  {
    written := WriteBase(windows, path);
    assert written == BaseOf(windows, path) + JoinedSegments(windows, segs[..0]) by {
      assert segs[..0] == [];
    }
    var i := 0;
    while i < |segs|
      invariant i <= |segs|
      invariant written == BaseOf(windows, path) + JoinedSegments(windows, segs[..i])
    {
      ghost var before := written;
      written := AppendPiece(windows, written, segs[i]);
      var next := i + 1;
      WriteStep(windows, path, segs, i, next, before, written);
      i := next;
    }
    assert segs[..|segs|] == segs;
  }

  /** The first pass: the base without its trailing separators, or a lone
      separator when nothing is left of it. */
  method WriteBase(windows: bool, path: string) returns (written: string)
    ensures written == BaseOf(windows, path)
  {
    var baseLen := TrimmedLength(windows, path);
    written := if baseLen == 0 then [PathSep(windows)] else path[..baseLen];
  }

  /** One turn of the second pass: a separator and the segment's trimmed
      text, or nothing when that text is empty. */
  method AppendPiece(windows: bool, written: string, seg: string) returns (after: string)
    ensures after == written + Piece(windows, seg)
  {
    var len := TrimmedLength(windows, seg);
    PieceOfTrimmed(windows, seg, len);
    if len > 0 {
      after := written + ([PathSep(windows)] + seg[..len]);
    } else {
      after := written;
    }
  }

  /** One turn of the second pass keeps the text written so far equal to
      the base followed by the pieces of the segments seen. */
  lemma WriteStep(windows: bool, path: string, segs: seq<string>, i: nat, next: nat,
                  before: string, after: string)
    requires i < |segs| && next == i + 1
    requires before == BaseOf(windows, path) + JoinedSegments(windows, segs[..i])
    requires after == before + Piece(windows, segs[i])
    ensures after == BaseOf(windows, path) + JoinedSegments(windows, segs[..next])
  {
    JoinedSegmentsStep(windows, segs, i, next);
    ConcatAssociates(BaseOf(windows, path), JoinedSegments(windows, segs[..i]), Piece(windows, segs[i]));
  }

  // ---------------------------------------------------------------------
  // Recognisers
  // ---------------------------------------------------------------------

  /** `_swift_lookingAtLibSwift(base + ptr, base)`: the two `strncmp`
      calls compare three and five characters. */
  predicate LookingAtLibSwift(windows: bool, s: string, ptr: nat)
    requires ptr <= |s|
  {
    ptr >= 10
    && IsPathSep(windows, s[ptr - 10])
    && s[ptr - 9] == 'l' && s[ptr - 8] == 'i' && s[ptr - 7] == 'b'
    && IsPathSep(windows, s[ptr - 6])
    && s[ptr - 5] == 's' && s[ptr - 4] == 'w' && s[ptr - 3] == 'i' && s[ptr - 2] == 'f' && s[ptr - 1] == 't'
  }

  /** `_swift_lookingAtBin(base + ptr, base)`. */
  predicate LookingAtBin(windows: bool, s: string, ptr: nat)
    requires ptr <= |s|
  {
    ptr > 4 && IsPathSep(windows, s[ptr - 4]) && s[ptr - 3] == 'b' && s[ptr - 2] == 'i' && s[ptr - 1] == 'n'
  }

  /** Every spelling of `<sep>lib<sep>swift`. */
  function LibSwiftSpellings(windows: bool): set<string> {
    if windows then {"/lib/swift", "/lib\\swift", "\\lib/swift", "\\lib\\swift"} else {"/lib/swift"}
  }

  /** Every spelling of `<sep>bin`. */
  function BinSpellings(windows: bool): set<string> {
    if windows then {"/bin", "\\bin"} else {"/bin"}
  }

  /** `lib/swift` is recognised exactly when at least ten characters
      precede the position and they spell a separator, `lib`, a separator
      and `swift`. */
  lemma LookingAtLibSwiftSpelled(windows: bool, s: string, ptr: nat)
    requires ptr <= |s|
    ensures LookingAtLibSwift(windows, s, ptr) <==> ptr >= 10 && s[ptr - 10..ptr] in LibSwiftSpellings(windows)
  {
    if ptr >= 10 {
      var t := s[ptr - 10..ptr];
      assert t == [t[0], t[1], t[2], t[3], t[4], t[5], t[6], t[7], t[8], t[9]];
      if LookingAtLibSwift(windows, s, ptr) {
        assert t == [t[0]] + "lib" + [t[4]] + "swift";
      }
    }
  }

  /** `bin` is recognised exactly when strictly more than four characters
      precede the position and the last four spell a separator and `bin`:
      a `bin` directory at the very start of the path is not recognised. */
  lemma LookingAtBinSpelled(windows: bool, s: string, ptr: nat)
    requires ptr <= |s|
    ensures LookingAtBin(windows, s, ptr) <==> ptr > 4 && s[ptr - 4..ptr] in BinSpellings(windows)
  {
    if ptr > 4 {
      var t := s[ptr - 4..ptr];
      assert t == [t[0], t[1], t[2], t[3]];
      if LookingAtBin(windows, s, ptr) {
        assert t == [t[0]] + "bin";
      }
    }
  }

  // ---------------------------------------------------------------------
  // The default root
  // ---------------------------------------------------------------------

  /** `while (ptr > base && !_swift_isPathSep(*--ptr));` started at
      `from`: the last separator before `from`, or 0 when there is none. */
  function LastSepBefore(windows: bool, s: string, from: nat): (p: nat)
    requires from <= |s|
    ensures p <= from
    ensures from > 0 ==> p < from
    ensures p > 0 ==> IsPathSep(windows, s[p])
    ensures forall i :: p < i < from ==> !IsPathSep(windows, s[i])
  {
    if from == 0 then 0
    else if IsPathSep(windows, s[from - 1]) then from - 1
    else LastSepBefore(windows, s, from - 1)
  }

  lemma LastSepIs(windows: bool, s: string, k: nat, from: nat)
    requires k < from <= |s| && IsPathSep(windows, s[k])
    requires forall i :: k < i < from ==> !IsPathSep(windows, s[i])
    ensures LastSepBefore(windows, s, from) == k
  {
  }

  /** Where the root ends in the runtime path: the position `ptr` of
      `_swift_getDefaultRootPath` after the file name and then
      `lib/swift/`, `lib/swift/<platform>/` or `bin/` have been dropped.
      Every position but 0 holds a separator. */
  function RootEnd(windows: bool, s: string): (e: nat)
    ensures s != [] ==> e < |s|
    ensures s == [] ==> e == 0
    ensures e > 0 ==> IsPathSep(windows, s[e])
  {
    var ptr := LastSepBefore(windows, s, |s|);
    if LookingAtLibSwift(windows, s, ptr) then ptr - 10
    else
      var platform := LastSepBefore(windows, s, ptr);
      if LookingAtLibSwift(windows, s, platform) then platform - 10
      else if LookingAtBin(windows, s, ptr) then ptr - 4
      else ptr
  }

  /** `_swift_getDefaultRootPath` as written: when the end reached is the
      start of the path, the root is "./" even if the path starts with a
      separator. */
  function DefaultRootPathAsWritten(windows: bool, runtimePath: string): (r: string)
    ensures r == ['.', PathSep(windows)] || (r <= runtimePath && r != [] && IsPathSep(windows, r[|r| - 1]))
  {
    var e := RootEnd(windows, runtimePath);
    if e == 0 then ['.', PathSep(windows)] else runtimePath[..e + 1]
  }

  /** `_swift_getDefaultRootPath` as its comment intends: "./" only when
      nothing is left of the directory; a runtime path that starts with a
      separator keeps that separator as its root. */
  function DefaultRootPath(windows: bool, runtimePath: string): (r: string)
    ensures r == ['.', PathSep(windows)] || (r <= runtimePath && r != [] && IsPathSep(windows, r[|r| - 1]))
    ensures runtimePath != [] && IsPathSep(windows, runtimePath[0]) ==> r <= runtimePath
    ensures r != [] && IsPathSep(windows, r[|r| - 1])
  {
    var e := RootEnd(windows, runtimePath);
    if e == 0 && (runtimePath == [] || !IsPathSep(windows, runtimePath[0])) then ['.', PathSep(windows)]
    else runtimePath[..e + 1]
  }

  /** The two readings differ on a runtime that sits in `/lib/swift/`. */
  lemma DefaultRootAsWrittenIsRelative()
    ensures DefaultRootPathAsWritten(false, "/lib/swift/libswiftCore.so") == "./"
    ensures DefaultRootPath(false, "/lib/swift/libswiftCore.so") == "/"
  {
    var s := "/lib/swift/libswiftCore.so";
    assert s == [] + ['/'] + "lib" + ['/'] + "swift" + ['/'] + "libswiftCore.so";
    RootEndLibSwift(false, [], '/', '/', '/', "libswiftCore.so");
  }

  /** The two readings agree on every other runtime path. */
  lemma DefaultRootReadingsAgree(windows: bool, s: string)
    requires !(s != [] && IsPathSep(windows, s[0]) && RootEnd(windows, s) == 0)
    ensures DefaultRootPath(windows, s) == DefaultRootPathAsWritten(windows, s)
  {
  }

  /** A bare file name has no directory: the root is "./". */
  lemma RootOfBareName(windows: bool, f: string)
    requires NoSep(windows, f)
    ensures DefaultRootPath(windows, f) == ['.', PathSep(windows)]
  {
    var p := LastSepBefore(windows, f, |f|);
    assert p == 0;
    assert LastSepBefore(windows, f, p) == 0;
  }

  lemma RootEndLibSwift(windows: bool, d: string, a: char, b: char, c: char, f: string)
    requires IsPathSep(windows, a) && IsPathSep(windows, b) && IsPathSep(windows, c) && NoSep(windows, f)
    ensures RootEnd(windows, d + [a] + "lib" + [b] + "swift" + [c] + f) == |d|
  {
    var s := d + [a] + "lib" + [b] + "swift" + [c] + f;
    var q := |d| + 10;
    assert s[q] == c;
    LastSepIs(windows, s, q, |s|);
    assert LookingAtLibSwift(windows, s, q);
  }

  /** `<dir>/lib/swift/<file>` has the root `<dir>/`. */
  lemma RootDropsLibSwift(windows: bool, d: string, a: char, b: char, c: char, f: string)
    requires IsPathSep(windows, a) && IsPathSep(windows, b) && IsPathSep(windows, c) && NoSep(windows, f)
    ensures DefaultRootPath(windows, d + [a] + "lib" + [b] + "swift" + [c] + f) == d + [a]
  {
    var s := d + [a] + "lib" + [b] + "swift" + [c] + f;
    RootEndLibSwift(windows, d, a, b, c, f);
    assert s[..|d| + 1] == d + [a];
  }

  lemma RootEndPlatform(windows: bool, d: string, a: char, b: char, c: char, p: string, e: char, f: string)
    requires IsPathSep(windows, a) && IsPathSep(windows, b) && IsPathSep(windows, c) && IsPathSep(windows, e)
    requires NoSep(windows, p) && NoSep(windows, f)
    ensures RootEnd(windows, d + [a] + "lib" + [b] + "swift" + [c] + p + [e] + f) == |d|
  {
    var s := d + [a] + "lib" + [b] + "swift" + [c] + p + [e] + f;
    var q := |d| + 10;
    var ptr := q + 1 + |p|;
    assert s[q] == c && s[ptr] == e && s[q - 3] == 'i' && LookingAtLibSwift(windows, s, q);
    assert forall i :: q < i < ptr ==> !IsPathSep(windows, s[i]) by {
      forall i | q < i < ptr ensures !IsPathSep(windows, s[i]) {
        assert s[i] == p[i - q - 1];
      }
    }
    assert forall i :: ptr < i < |s| ==> !IsPathSep(windows, s[i]) by {
      forall i | ptr < i < |s| ensures !IsPathSep(windows, s[i]) {
        assert s[i] == f[i - ptr - 1];
      }
    }
    LastSepIs(windows, s, ptr, |s|);
    NotLibSwiftAfterPlatform(windows, s, q, ptr);
    LastSepIs(windows, s, q, ptr);
  }

  /** `<dir>/lib/swift/<platform>/<file>` has the root `<dir>/`. */
  lemma RootDropsPlatform(windows: bool, d: string, a: char, b: char, c: char, p: string, e: char, f: string)
    requires IsPathSep(windows, a) && IsPathSep(windows, b) && IsPathSep(windows, c) && IsPathSep(windows, e)
    requires NoSep(windows, p) && NoSep(windows, f)
    ensures DefaultRootPath(windows, d + [a] + "lib" + [b] + "swift" + [c] + p + [e] + f) == d + [a]
  {
    var s := d + [a] + "lib" + [b] + "swift" + [c] + p + [e] + f;
    RootEndPlatform(windows, d, a, b, c, p, e, f);
    assert s[..|d| + 1] == d + [a];
  }

  /** Just after a `swift/<platform>` there is no second `lib/swift`. */
  lemma NotLibSwiftAfterPlatform(windows: bool, s: string, q: nat, ptr: nat)
    requires q < ptr <= |s| && q >= 3
    requires IsPathSep(windows, s[q]) && s[q - 3] == 'i'
    requires forall i :: q < i < ptr ==> !IsPathSep(windows, s[i])
    ensures !LookingAtLibSwift(windows, s, ptr)
  {
  }

  lemma RootEndBin(windows: bool, d: string, a: char, b: char, f: string)
    requires IsPathSep(windows, a) && IsPathSep(windows, b) && NoSep(windows, f)
    requires d != [] && !LookingAtLibSwift(windows, d, |d|)
    ensures RootEnd(windows, d + [a] + "bin" + [b] + f) == |d|
  {
    var s := d + [a] + "bin" + [b] + f;
    var ptr := |d| + 4;
    assert s[ptr] == b;
    LastSepIs(windows, s, ptr, |s|);
    assert s[|d|] == a;
    LastSepIs(windows, s, |d|, ptr);
    assert forall i :: 0 <= i < |d| ==> s[i] == d[i];
    assert LookingAtBin(windows, s, ptr);
  }

  /** `<dir>/bin/<file>` has the root `<dir>/`, unless `<dir>` itself ends
      in `lib/swift` (then `bin` is read as a platform directory) or is
      empty (then `bin` has too few characters before it). */
  lemma RootDropsBin(windows: bool, d: string, a: char, b: char, f: string)
    requires IsPathSep(windows, a) && IsPathSep(windows, b) && NoSep(windows, f)
    requires d != [] && !LookingAtLibSwift(windows, d, |d|)
    ensures DefaultRootPath(windows, d + [a] + "bin" + [b] + f) == d + [a]
  {
    var s := d + [a] + "bin" + [b] + f;
    RootEndBin(windows, d, a, b, f);
    assert s[..|d| + 1] == d + [a];
  }

  // ---------------------------------------------------------------------
  // The root and the auxiliary executables
  // ---------------------------------------------------------------------

  /** `_swift_initRootPath`: a set, non-empty `SWIFT_ROOT` is the root,
      with a separator appended when it does not end in one; otherwise the
      default root. Either way the root ends in a separator. */
  function InitRootPath(windows: bool, swiftRoot: Option<string>, runtimePath: string): (r: string)
    ensures r != [] && IsPathSep(windows, r[|r| - 1])
    ensures swiftRoot.Some? && swiftRoot.value != [] ==>
      swiftRoot.value <= r && |r| <= |swiftRoot.value| + 1
      && (r == swiftRoot.value <==> IsPathSep(windows, swiftRoot.value[|swiftRoot.value| - 1]))
    ensures swiftRoot == None || swiftRoot == Some([]) ==> r == DefaultRootPath(windows, runtimePath)
  {
    if swiftRoot.Some? && swiftRoot.value != [] then
      var root := swiftRoot.value;
      if IsPathSep(windows, root[|root| - 1]) then root else root + [PathSep(windows)]
    else
      DefaultRootPath(windows, runtimePath)
  }

  /** Setting `SWIFT_ROOT` to the root already in use changes nothing. */
  lemma InitRootPathStable(windows: bool, swiftRoot: Option<string>, runtimePath: string, otherPath: string)
    ensures InitRootPath(windows, Some(InitRootPath(windows, swiftRoot, runtimePath)), otherPath)
            == InitRootPath(windows, swiftRoot, runtimePath)
  {
  }

  predicate EndsWithExe(name: string) {
    |name| >= 4 && name[|name| - 4..] == ".exe"
  }

  /** The name `_swift_getAuxExePathIn` looks for: on Windows a name of
      more than four characters gets ".exe" unless it already ends in it
      (compared case-sensitively); elsewhere the name is used as given. */
  function ExeName(windows: bool, name: string): (r: string)
    ensures r == name || r == name + ".exe"
    ensures r != name <==> windows && |name| > 4 && !EndsWithExe(name)
  {
    if windows && |name| > 4 && name[|name| - 4..] != ".exe" then name + ".exe" else name
  }

  /** Appending the suffix once is enough. */
  lemma ExeNameIdempotent(windows: bool, name: string)
    ensures ExeName(windows, ExeName(windows, name)) == ExeName(windows, name)
    ensures windows && |name| > 4 ==> EndsWithExe(ExeName(windows, name))
  {
    var r := ExeName(windows, name);
    if r != name {
      assert r[|r| - 4..] == ".exe";
    }
  }

  /** `_swift_getAuxExePathIn`: the directory, one separator and the
      executable's name, suffixed as `ExeName` says.  A name that ends in a
      separator loses it, as in every join. */
  function AuxExePathIn(windows: bool, path: string, name: string): (r: string)
    ensures name != [] && !IsPathSep(windows, name[|name| - 1])
            ==> r == BaseOf(windows, path) + [PathSep(windows)] + ExeName(windows, name)
  {
    var exe := ExeName(windows, name);
    JoinedSegmentsOne(windows, exe);
    assert name != [] && !IsPathSep(windows, name[|name| - 1])
           ==> StripTrailing(windows, exe) == exe by {
      if exe != name {
        assert exe[|exe| - 1] == 'e';
      }
    }
    JoinPaths(windows, path, [exe])
  }

  /** An auxiliary path in a joined directory is one flat join. */
  lemma AuxPathIsFlatJoin(windows: bool, root: string, segs: seq<string>, name: string)
    ensures AuxExePathIn(windows, JoinPaths(windows, root, segs), name)
            == JoinPaths(windows, root, segs + [ExeName(windows, name)])
  {
    JoinPathsCompose(windows, root, segs, [ExeName(windows, name)]);
  }

  /** `"libexec" PATHSEP_STR "swift"`, one segment with a separator inside. */
  function Libexec(windows: bool): string {
    "libexec" + [PathSep(windows)] + "swift"
  }

  /** The places searched, in order: `<root>/libexec/swift/<platform>`,
      `<root>/libexec/swift`, `<root>/bin`, and the root itself. */
  function SearchDir(windows: bool, root: string, platform: string, k: nat): string
    requires k < 4
  {
    match k {
      case 0 => JoinPaths(windows, root, [Libexec(windows), platform])
      case 1 => JoinPaths(windows, root, [Libexec(windows)])
      case 2 => JoinPaths(windows, root, ["bin"])
      case _ => root
    }
  }

  /** The k-th place yields the executable: the directory exists (the root
      itself is not checked) and so does the executable in it. */
  predicate Yields(windows: bool, root: string, platform: string, name: string, fileExists: string -> bool, k: nat)
    requires k < 4
  {
    (k == 3 || fileExists(SearchDir(windows, root, platform, k)))
    && fileExists(AuxExePathIn(windows, SearchDir(windows, root, platform, k), name))
  }

  /** `swift_getAuxiliaryExecutablePath(name)` with the root path, the
      build's platform directory (`SWIFT_LIB_SUBDIR`) and `_swift_exists`
      as parameters: `None` is the null pointer. */
  function AuxiliaryExecutablePath(windows: bool, root: string, platform: string, name: string, fileExists: string -> bool)
    : (r: Option<string>)
    ensures r.Some? ==> fileExists(r.value)
  {
    var libexecPlatPath := JoinPaths(windows, root, [Libexec(windows), platform]);
    var libexecPath := JoinPaths(windows, root, [Libexec(windows)]);
    var binPath := JoinPaths(windows, root, ["bin"]);
    if fileExists(libexecPlatPath) && fileExists(AuxExePathIn(windows, libexecPlatPath, name)) then
      Some(AuxExePathIn(windows, libexecPlatPath, name))
    else if fileExists(libexecPath) && fileExists(AuxExePathIn(windows, libexecPath, name)) then
      Some(AuxExePathIn(windows, libexecPath, name))
    else if fileExists(binPath) && fileExists(AuxExePathIn(windows, binPath, name)) then
      Some(AuxExePathIn(windows, binPath, name))
    else if fileExists(AuxExePathIn(windows, root, name)) then
      Some(AuxExePathIn(windows, root, name))
    else
      None
  }

  /** The search takes the first place, in the order of `SearchDir`, that
      yields the executable, and gives nothing when none does. */
  lemma AuxiliarySearchOrder(windows: bool, root: string, platform: string, name: string, fileExists: string -> bool)
    ensures var r := AuxiliaryExecutablePath(windows, root, platform, name, fileExists);
      var y0, y1 := Yields(windows, root, platform, name, fileExists, 0), Yields(windows, root, platform, name, fileExists, 1);
      var y2, y3 := Yields(windows, root, platform, name, fileExists, 2), Yields(windows, root, platform, name, fileExists, 3);
      && (y0 ==> r == Some(AuxExePathIn(windows, SearchDir(windows, root, platform, 0), name)))
      && (!y0 && y1 ==> r == Some(AuxExePathIn(windows, SearchDir(windows, root, platform, 1), name)))
      && (!y0 && !y1 && y2 ==> r == Some(AuxExePathIn(windows, SearchDir(windows, root, platform, 2), name)))
      && (!y0 && !y1 && !y2 && y3 ==> r == Some(AuxExePathIn(windows, root, name)))
      && (!y0 && !y1 && !y2 && !y3 ==> r == None)
  {
    assert SearchDir(windows, root, platform, 0) == JoinPaths(windows, root, [Libexec(windows), platform]);
    assert SearchDir(windows, root, platform, 1) == JoinPaths(windows, root, [Libexec(windows)]);
    assert SearchDir(windows, root, platform, 2) == JoinPaths(windows, root, ["bin"]);
    assert SearchDir(windows, root, platform, 3) == root;
  }
}
