/** The metadata-section record of `include/swift/ABI/MetadataSections.h`:
    the tagged section pointer, whose low bit tells a relative pointer from
    an absolute one, and the record of thirteen section ranges that each
    image carries, under the 32-bit and the 64-bit traits.

    Addresses are natural numbers below 2^32 or 2^64. `Offset` words are
    integers in the two's-complement range of their width.  The header adds
    two `Offset`s with plain signed arithmetic, which C++ leaves undefined
    on overflow; the model gives that case two's-complement wrap-around and
    agrees with the exact sum everywhere else. */
module MetadataSections {

  /** `MetadataSectionTraits32` and `MetadataSectionTraits64`; the header
      picks the 64-bit one under `__LP64__ || _WIN64`. */
  datatype Traits = Traits32 | Traits64 {
    /** Bytes in a `Version` or an `Offset`. */
    function WordSize(): (n: nat)
      ensures n == 4 || n == 8
    {
      if Traits32? then 4 else 8
    }

    /** 2^32 or 2^64: one more than the largest address. */
    function Modulus(): (m: int)
      ensures m == 2 * Half()
    {
      if Traits32? then 0x1_0000_0000 else 0x1_0000_0000_0000_0000
    }

    /** 2^31 or 2^63: one more than the largest `Offset`. */
    function Half(): (h: int)
      ensures h > 0
    {
      if Traits32? then 0x8000_0000 else 0x8000_0000_0000_0000
    }
  }

  /** A value of `Traits::Version` (`uint32_t` or `uint64_t`). */
  predicate IsVersion(t: Traits, v: int) {
    0 <= v < t.Modulus()
  }

  /** A value of `Traits::Offset` (`int32_t` or `int64_t`). */
  predicate IsOffset(t: Traits, x: int) {
    -t.Half() <= x < t.Half()
  }

  /** An address: a pointer value of the traits' width. */
  predicate IsAddress(t: Traits, a: int) {
    0 <= a < t.Modulus()
  }

  /** The integers a sum of an `Offset` and an address, or of two
      `Offset`s, can reach. */
  predicate InSumRange(t: Traits, x: int) {
    -t.Modulus() - t.Half() <= x < t.Modulus() + t.Half()
  }

  /** Two's-complement wrap-around of an exact sum into `Offset`: the one
      `Offset` that differs from it by a multiple of the modulus. */
  function Wrap(t: Traits, x: int): (r: int)
    requires InSumRange(t, x)
    ensures IsOffset(t, r)
    ensures r == x || r == x - t.Modulus() || r == x + t.Modulus()
  {
    if x >= t.Half() then x - t.Modulus() else if x < -t.Half() then x + t.Modulus() else x
  }

  /** `reinterpret_cast<const void *>` of an `Offset`: the address with the
      same bits. */
  function ToAddress(t: Traits, x: int): (a: nat)
    requires IsOffset(t, x)
    ensures IsAddress(t, a)
    ensures a == x || a == x + t.Modulus()
  {
    if x < 0 then x + t.Modulus() else x
  }

  /** Reinterpreting an address as an `Offset` and back gives the address. */
  lemma AddressRoundTrip(t: Traits, a: int)
    requires IsAddress(t, a)
    ensures ToAddress(t, Wrap(t, a)) == a
  {
  }

  /** Bit `k` of the two's-complement representation of `x`. */
  function Bit(x: int, k: nat): (b: int)
    ensures b == 0 || b == 1
    decreases k
  {
    if k == 0 then x % 2 else Bit(x / 2, k - 1)
  }

  // ---------------------------------------------------------------------
  // TargetMetadataSectionPointer
  // ---------------------------------------------------------------------

  /** `TargetMetadataSectionPointer`: one `Offset` word, relative when its
      low bit is set and absolute otherwise. */
  datatype SectionPointer = SectionPointer(relativeOrAbsolute: int)

  /** `isRelative()`: `RelativeOrAbsolute & 1`. */
  predicate IsRelative(p: SectionPointer) {
    p.relativeOrAbsolute % 2 == 1
  }

  /** `getUnresolvedOffset()`: `RelativeOrAbsolute & ~Offset(1)`. */
  function UnresolvedOffset(p: SectionPointer): int {
    p.relativeOrAbsolute - p.relativeOrAbsolute % 2
  }

  /** `isRelative` reads exactly bit 0 of the stored word. */
  lemma IsRelativeIsBitZero(p: SectionPointer)
    ensures IsRelative(p) <==> Bit(p.relativeOrAbsolute, 0) == 1
  {
  }

  /** `getUnresolvedOffset` clears bit 0, leaves every other bit as it was,
      and stays in `Offset`. */
  lemma UnresolvedClearsBitZero(t: Traits, p: SectionPointer, k: nat)
    requires IsOffset(t, p.relativeOrAbsolute)
    ensures Bit(UnresolvedOffset(p), 0) == 0
    ensures k > 0 ==> Bit(UnresolvedOffset(p), k) == Bit(p.relativeOrAbsolute, k)
    ensures IsOffset(t, UnresolvedOffset(p))
  {
    var x := p.relativeOrAbsolute;
    if k > 0 {
      assert UnresolvedOffset(p) / 2 == x / 2;
    }
  }

  /** `applyRelativeOffset`: the pointer's own address, reinterpreted as an
      `Offset`, plus the offset.  Where the signed sum fits `Offset` it is
      the result; where it would overflow it wraps around. */
  function ApplyRelativeOffset(t: Traits, self: nat, unresolved: int): (r: int)
    requires IsAddress(t, self) && IsOffset(t, unresolved)
    ensures IsOffset(t, r)
    ensures r == Wrap(t, self + unresolved)
    ensures IsOffset(t, Wrap(t, self) + unresolved) ==> r == Wrap(t, self) + unresolved
  {
    Wrap(t, Wrap(t, self) + unresolved)
  }

  /** `getResolvedAddress()` of the pointer stored at address `self`. */
  function ResolvedAddress(t: Traits, self: nat, p: SectionPointer): (r: int)
    requires IsAddress(t, self) && IsOffset(t, p.relativeOrAbsolute)
    ensures IsOffset(t, r)
  {
    UnresolvedStaysOffset(t, p);
    if IsRelative(p) then ApplyRelativeOffset(t, self, UnresolvedOffset(p)) else p.relativeOrAbsolute
  }

  /** `get()`: the resolved `Offset` as an address. */
  function Get(t: Traits, self: nat, p: SectionPointer): (a: nat)
    requires IsAddress(t, self) && IsOffset(t, p.relativeOrAbsolute)
    ensures IsAddress(t, a)
  {
    ToAddress(t, ResolvedAddress(t, self, p))
  }

  /** Resolution: a relative pointer gives its own address plus the
      unresolved offset, wrapped to `Offset`; an absolute one gives the
      stored word unchanged, wherever it is stored. */
  lemma ResolvedAddressCases(t: Traits, self: nat, p: SectionPointer)
    requires IsAddress(t, self) && IsOffset(t, p.relativeOrAbsolute)
    ensures IsRelative(p) ==> ResolvedAddress(t, self, p) == Wrap(t, self + UnresolvedOffset(p))
    ensures !IsRelative(p) ==> ResolvedAddress(t, self, p) == p.relativeOrAbsolute
  {
    UnresolvedStaysOffset(t, p);
  }

  lemma UnresolvedStaysOffset(t: Traits, p: SectionPointer)
    requires IsOffset(t, p.relativeOrAbsolute)
    ensures IsOffset(t, UnresolvedOffset(p))
  {
  }

  /** The absolute constructor, `TargetMetadataSectionPointer(const void *)`:
      the address's bits, stored as they are. */
  function Absolute(t: Traits, address: nat): (p: SectionPointer)
    requires IsAddress(t, address)
    ensures IsOffset(t, p.relativeOrAbsolute)
    ensures ToAddress(t, p.relativeOrAbsolute) == address
  {
    AddressRoundTrip(t, address);
    SectionPointer(Wrap(t, address))
  }

  /** An even address given to the absolute constructor is read back as
      that address from wherever the pointer is stored; an odd one would
      be taken for a relative pointer. */
  lemma AbsoluteResolvesToItself(t: Traits, address: nat, self: nat)
    requires IsAddress(t, address) && IsAddress(t, self)
    ensures address % 2 == 0 ==> !IsRelative(Absolute(t, address)) && Get(t, self, Absolute(t, address)) == address
    ensures address % 2 == 1 ==> IsRelative(Absolute(t, address))
  {
  }

  // ---------------------------------------------------------------------
  // TargetMetadataSections
  // ---------------------------------------------------------------------

  /** The sections a `TargetMetadataSections` describes, one per field. */
  datatype SectionName =
    | Protocols | ProtocolConformances | TypeMetadata | Typeref | Reflstr | Fieldmd | Assocty
    | Replace | Replac2 | Builtin | Capture | Mpenum | AccessibleFunctions

  /** The field order of `TargetMetadataSections`. */
  const SectionOrder: seq<SectionName> :=
    [Protocols, ProtocolConformances, TypeMetadata, Typeref, Reflstr, Fieldmd, Assocty,
     Replace, Replac2, Builtin, Capture, Mpenum, AccessibleFunctions]

  /** `SWIFT_CURRENT_SECTION_METADATA_VERSION`. */
  const CurrentVersion: nat := 3

  /** The position of a section's range among the thirteen. */
  function FieldIndex(n: SectionName): (i: nat)
    ensures i < |SectionOrder| && SectionOrder[i] == n
  {
    match n {
      case Protocols => 0
      case ProtocolConformances => 1
      case TypeMetadata => 2
      case Typeref => 3
      case Reflstr => 4
      case Fieldmd => 5
      case Assocty => 6
      case Replace => 7
      case Replac2 => 8
      case Builtin => 9
      case Capture => 10
      case Mpenum => 11
      case AccessibleFunctions => 12
    }
  }

  /** Every section has exactly one field: the order lists thirteen
      distinct names and each name's index points back at it. */
  lemma SectionOrderIsLayout()
    ensures |SectionOrder| == 13
    ensures forall i :: 0 <= i < |SectionOrder| ==> FieldIndex(SectionOrder[i]) == i
    ensures forall i, j :: 0 <= i < j < |SectionOrder| ==> SectionOrder[i] != SectionOrder[j]
  {
  }

  /** `TargetMetadataSectionRange`. */
  datatype SectionRange = SectionRange(start: SectionPointer, end: SectionPointer)

  /** `TargetMetadataSections`: the version word and the ranges in field
      order. */
  datatype Sections = Sections(version: int, ranges: seq<SectionRange>)

  /** A record of the traits' width with all thirteen ranges. */
  predicate WellFormed(t: Traits, s: Sections) {
    IsVersion(t, s.version) && |s.ranges| == |SectionOrder|
    && forall i :: 0 <= i < |s.ranges| ==>
         IsOffset(t, s.ranges[i].start.relativeOrAbsolute) && IsOffset(t, s.ranges[i].end.relativeOrAbsolute)
  }

  /** The number of words in the record: the version and two pointers per
      section. */
  const RecordWords: nat := 1 + 2 * 13

  /** The word index of a section's start (`end` is the word after). */
  function StartWord(n: SectionName): (w: nat)
    ensures 1 <= w && w + 1 < RecordWords
  {
    1 + 2 * FieldIndex(n)
  }

  /** The record as the words it occupies in memory. */
  function ToWords(s: Sections): (words: seq<int>)
    ensures |words| == 1 + 2 * |s.ranges|
    ensures words[0] == s.version
    ensures forall i :: 0 <= i < |s.ranges| ==>
              words[1 + 2 * i] == s.ranges[i].start.relativeOrAbsolute
              && words[2 + 2 * i] == s.ranges[i].end.relativeOrAbsolute
  {
    [s.version] + RangeWords(s.ranges)
  }

  function RangeWords(ranges: seq<SectionRange>): (words: seq<int>)
    ensures |words| == 2 * |ranges|
    ensures forall i :: 0 <= i < |ranges| ==>
              words[2 * i] == ranges[i].start.relativeOrAbsolute && words[2 * i + 1] == ranges[i].end.relativeOrAbsolute
  {
    if ranges == [] then []
    else [ranges[0].start.relativeOrAbsolute, ranges[0].end.relativeOrAbsolute] + RangeWords(ranges[1..])
  }

  /** Reading a record back from its words. */
  function FromWords(words: seq<int>): (s: Sections)
    requires |words| % 2 == 1
    ensures |s.ranges| == |words| / 2
  {
    Sections(words[0], seq(|words| / 2, i requires 0 <= i < |words| / 2 =>
                             SectionRange(SectionPointer(words[1 + 2 * i]), SectionPointer(words[2 + 2 * i]))))
  }

  /** Where range `i` of a record read from words comes from. */
  lemma FromWordsRange(words: seq<int>, i: nat)
    requires |words| % 2 == 1 && i < |words| / 2
    ensures FromWords(words).ranges[i] == SectionRange(SectionPointer(words[1 + 2 * i]), SectionPointer(words[2 + 2 * i]))
  {
  }

  /** Reading the words of a record gives the record back. */
  lemma WordsRoundTrip(s: Sections)
    ensures FromWords(ToWords(s)) == s
  {
    var r := FromWords(ToWords(s));
    assert r.ranges == s.ranges;
  }

  /** The address of a section's start pointer in a record at `base`
      (`end` is one word further). */
  function StartField(t: Traits, base: nat, n: SectionName): nat {
    if t.Traits64? then base + 8 * StartWord(n) else base + 4 * StartWord(n)
  }

  /** `sections->swift5_<name>.start.get()` for a record at `base`: a
      relative start pointer is resolved against the address of its own
      field, an absolute one is the stored address. */
  function SectionStart(t: Traits, base: nat, s: Sections, n: SectionName): (a: nat)
    requires WellFormed(t, s) && IsAddress(t, StartField(t, base, n))
    ensures IsAddress(t, a)
    ensures var p := s.ranges[FieldIndex(n)].start;
            && (IsRelative(p) ==> a == ToAddress(t, Wrap(t, StartField(t, base, n) + UnresolvedOffset(p))))
            && (!IsRelative(p) ==> a == ToAddress(t, p.relativeOrAbsolute))
  {
    ResolvedAddressCases(t, StartField(t, base, n), s.ranges[FieldIndex(n)].start);
    Get(t, StartField(t, base, n), s.ranges[FieldIndex(n)].start)
  }

  /** `sections->swift5_<name>.end.get()` for a record at `base`: resolved
      against the end field, one word after the start field. */
  function SectionEnd(t: Traits, base: nat, s: Sections, n: SectionName): (a: nat)
    requires WellFormed(t, s) && IsAddress(t, StartField(t, base, n) + t.WordSize())
    ensures IsAddress(t, a)
    ensures var p := s.ranges[FieldIndex(n)].end;
            var at := StartField(t, base, n) + t.WordSize();
            && (IsRelative(p) ==> a == ToAddress(t, Wrap(t, at + UnresolvedOffset(p))))
            && (!IsRelative(p) ==> a == ToAddress(t, p.relativeOrAbsolute))
  {
    ResolvedAddressCases(t, StartField(t, base, n) + t.WordSize(), s.ranges[FieldIndex(n)].end);
    Get(t, StartField(t, base, n) + t.WordSize(), s.ranges[FieldIndex(n)].end)
  }

  /** `SectionStart` and `SectionEnd` read their pointer at the field's
      address, given here as `at`. */
  lemma BoundsAt(t: Traits, base: nat, s: Sections, n: SectionName, at: nat)
    requires WellFormed(t, s)
    ensures at == StartField(t, base, n) && IsAddress(t, at)
            ==> SectionStart(t, base, s, n) == Get(t, at, s.ranges[FieldIndex(n)].start)
    ensures at == StartField(t, base, n) + t.WordSize() && IsAddress(t, at)
            ==> SectionEnd(t, base, s, n) == Get(t, at, s.ranges[FieldIndex(n)].end)
  {
  }
}
