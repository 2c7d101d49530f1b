/** The per-image ELF glue of `stdlib/public/runtime/SwiftRT-ELF.cpp`: an
    ELF note of type `SWIFT_NT_SWIFT_METADATA` named "Swift" whose
    descriptor is a `MetadataSections` record of relative pointers to the
    linker's `__start_`/`__end_` symbols of the thirteen metadata sections,
    and a constructor that registers that record with the runtime.

    The assembler and linker are reduced to what they compute: `here` is
    the address `.` of the word being emitted and `symbol` is the linker's
    symbol table. */
module SwiftRtElf {
  import opened Wrappers
  import opened MetadataSections
  import opened ImageInspection

  // ---------------------------------------------------------------------
  // Section symbols
  // ---------------------------------------------------------------------

  /** The section names `ForEachSection` visits. */
  function SectionSymbol(n: SectionName): string {
    match n {
      case Protocols => "swift5_protocols"
      case ProtocolConformances => "swift5_protocol_conformances"
      case TypeMetadata => "swift5_type_metadata"
      case Typeref => "swift5_typeref"
      case Reflstr => "swift5_reflstr"
      case Fieldmd => "swift5_fieldmd"
      case Assocty => "swift5_assocty"
      case Replace => "swift5_replace"
      case Replac2 => "swift5_replac2"
      case Builtin => "swift5_builtin"
      case Capture => "swift5_capture"
      case Mpenum => "swift5_mpenum"
      case AccessibleFunctions => "swift5_accessible_functions"
    }
  }

  /** The symbols `DeclareSection` makes global: `__start_<section>` and
      `__end_<section>`. */
  datatype Symbol = Start(section: SectionName) | End(section: SectionName) {
    function Name(): string {
      (if Start? then "__start_" else "__end_") + SectionSymbol(section)
    }
  }

  /** A symbol table in which every section's bounds are addresses. */
  predicate SymbolsAreAddresses(t: Traits, symbol: Symbol -> nat) {
    forall n: SectionName :: IsAddress(t, symbol(Start(n))) && IsAddress(t, symbol(End(n)))
  }

  // ---------------------------------------------------------------------
  // RelativePtr
  // ---------------------------------------------------------------------

  /** `RelativePtr symbol` assembled at `here`: `Offset symbol - . + 1`,
      truncated to the word. The `+ 1` sets the low bit that marks the
      pointer as relative. */
  function RelativePtr(t: Traits, target: nat, here: nat): (p: SectionPointer)
    requires IsAddress(t, target) && IsAddress(t, here)
    ensures IsOffset(t, p.relativeOrAbsolute)
  {
    SectionPointer(Wrap(t, target - here + 1))
  }

  /** A relative pointer to a target an even distance away is read as
      relative, and resolving it at the address it was emitted at gives the
      target back. */
  lemma RelativePtrRoundTrip(t: Traits, target: nat, here: nat)
    requires IsAddress(t, target) && IsAddress(t, here)
    requires (target - here) % 2 == 0
    ensures IsRelative(RelativePtr(t, target, here))
    ensures Get(t, here, RelativePtr(t, target, here)) == target
  {
    var p := RelativePtr(t, target, here);
    assert p.relativeOrAbsolute % 2 == 1;
    assert UnresolvedOffset(p) == Wrap(t, target - here);
    ResolvedAddressCases(t, here, p);
  }

  /** The `+ 1` tag only works for even distances: a target an odd
      distance away gives a word whose low bit is clear, which the runtime
      reads as an absolute address. */
  lemma OddDistanceReadsAsAbsolute(t: Traits, target: nat, here: nat)
    requires IsAddress(t, target) && IsAddress(t, here)
    requires (target - here) % 2 == 1
    ensures !IsRelative(RelativePtr(t, target, here))
    ensures Get(t, here, RelativePtr(t, target, here)) == ToAddress(t, Wrap(t, target - here + 1))
  {
    var p := RelativePtr(t, target, here);
    ResolvedAddressCases(t, here, p);
  }

  // ---------------------------------------------------------------------
  // The descriptor: `__swift5_metadata`
  // ---------------------------------------------------------------------

  /** The bytes `count` words occupy. */
  function WordsSize(t: Traits, count: nat): nat {
    if t.Traits64? then 8 * count else 4 * count
  }

  /** Room for the whole record at `descAddr`. */
  predicate DescriptorFits(t: Traits, descAddr: nat) {
    descAddr + WordsSize(t, RecordWords) <= t.Modulus()
  }

  /** The address of word `k` of the record at `descAddr` (`.` when that
      word is emitted). */
  function FieldAddr(t: Traits, descAddr: nat, k: nat): (a: nat)
    requires DescriptorFits(t, descAddr) && k < RecordWords
    ensures IsAddress(t, a) && a % 2 == descAddr % 2
  {
    if t.Traits64? then descAddr + 8 * k else descAddr + 4 * k
  }

  /** Word `k` is the start pointer of the section whose start word it is,
      and the next word its end pointer. */
  lemma FieldIsStartField(t: Traits, descAddr: nat, n: SectionName, k: nat, next: nat)
    requires DescriptorFits(t, descAddr) && k == StartWord(n) && next == k + 1
    ensures StartField(t, descAddr, n) == FieldAddr(t, descAddr, k)
    ensures StartField(t, descAddr, n) + t.WordSize() == FieldAddr(t, descAddr, next)
  {
  }

  /** The two words `EmitSectionDescriptor` emits for the i-th section. */
  predicate EmittedPair(t: Traits, descAddr: nat, symbol: Symbol -> nat, words: seq<int>, i: nat)
    requires DescriptorFits(t, descAddr) && SymbolsAreAddresses(t, symbol)
    requires i < |SectionOrder| && 2 + 2 * i < |words|
  {
    && words[1 + 2 * i] == RelativePtr(t, symbol(Start(SectionOrder[i])), FieldAddr(t, descAddr, 1 + 2 * i)).relativeOrAbsolute
    && words[2 + 2 * i] == RelativePtr(t, symbol(End(SectionOrder[i])), FieldAddr(t, descAddr, 2 + 2 * i)).relativeOrAbsolute
  }

  /** The words of the descriptor at `descAddr`: the version, then for each
      section in field order a relative pointer to its `__start_` symbol and
      one to its `__end_` symbol, each relative to its own word. */
  predicate Emitted(t: Traits, descAddr: nat, symbol: Symbol -> nat, words: seq<int>)
    requires DescriptorFits(t, descAddr) && SymbolsAreAddresses(t, symbol)
  {
    && |words| == RecordWords
    && words[0] == CurrentVersion
    && forall i :: 0 <= i < |SectionOrder| ==> EmittedPair(t, descAddr, symbol, words, i)
  }

  /** Appending a section's pair keeps the pairs already emitted. */
  lemma EmitStep(t: Traits, descAddr: nat, symbol: Symbol -> nat, words: seq<int>, i: nat, pair: seq<int>)
    requires DescriptorFits(t, descAddr) && SymbolsAreAddresses(t, symbol)
    requires i < |SectionOrder| && |words| == 1 + 2 * i && |pair| == 2
    requires forall j :: 0 <= j < i ==> EmittedPair(t, descAddr, symbol, words, j)
    ensures forall j :: 0 <= j < i ==> EmittedPair(t, descAddr, symbol, words + pair, j)
    ensures (words + pair)[0] == words[0]
  {
    forall j | 0 <= j < i ensures EmittedPair(t, descAddr, symbol, words + pair, j) {
      assert EmittedPair(t, descAddr, symbol, words, j);
      assert (words + pair)[1 + 2 * j] == words[1 + 2 * j];
      assert (words + pair)[2 + 2 * j] == words[2 + 2 * j];
    }
  }

  /** `Version SWIFT_CURRENT_SECTION_METADATA_VERSION` followed by
      `ForEachSection EmitSectionDescriptor`. */
  method EmitDescriptor(t: Traits, descAddr: nat, symbol: Symbol -> nat) returns (words: seq<int>)
    requires DescriptorFits(t, descAddr) && SymbolsAreAddresses(t, symbol)
    ensures Emitted(t, descAddr, symbol, words)
  {
    words := [CurrentVersion];
    var i := 0;
    while i < |SectionOrder|
      invariant i <= |SectionOrder|
      invariant |words| == 1 + 2 * i
      invariant words[0] == CurrentVersion
      invariant forall j :: 0 <= j < i ==> EmittedPair(t, descAddr, symbol, words, j)
    {
      var name := SectionOrder[i];
      var start := RelativePtr(t, symbol(Start(name)), FieldAddr(t, descAddr, |words|));
      var end := RelativePtr(t, symbol(End(name)), FieldAddr(t, descAddr, |words| + 1));
      EmitStep(t, descAddr, symbol, words, i, [start.relativeOrAbsolute, end.relativeOrAbsolute]);
      words := words + [start.relativeOrAbsolute, end.relativeOrAbsolute];
      assert EmittedPair(t, descAddr, symbol, words, i);
      i := i + 1;
    }
  }

  /** Every word of the emitted descriptor is an `Offset`, and read as a
      `MetadataSections` it is a well-formed record of version 3. */
  lemma EmittedWellFormed(t: Traits, descAddr: nat, symbol: Symbol -> nat, words: seq<int>)
    requires DescriptorFits(t, descAddr) && SymbolsAreAddresses(t, symbol)
    requires Emitted(t, descAddr, symbol, words)
    ensures forall k :: 0 <= k < |words| ==> IsOffset(t, words[k])
    ensures WellFormed(t, FromWords(words)) && FromWords(words).version == CurrentVersion
  {
    forall k | 0 <= k < |words| ensures IsOffset(t, words[k]) {
      if k > 0 {
        var i := (k - 1) / 2;
        assert k == 1 + 2 * i || k == 2 + 2 * i;
        assert EmittedPair(t, descAddr, symbol, words, i);
      }
    }
    var s := FromWords(words);
    forall i | 0 <= i < |s.ranges|
      ensures IsOffset(t, s.ranges[i].start.relativeOrAbsolute) && IsOffset(t, s.ranges[i].end.relativeOrAbsolute)
    {
      assert s.ranges[i].start.relativeOrAbsolute == words[1 + 2 * i];
      assert s.ranges[i].end.relativeOrAbsolute == words[2 + 2 * i];
    }
  }

  /** One emitted pointer word, read where it was emitted, resolves to its
      target when the target and the descriptor are even. */
  lemma EmittedPointerResolves(t: Traits, descAddr: nat, words: seq<int>, k: nat, target: nat)
    requires DescriptorFits(t, descAddr) && k < RecordWords && k < |words|
    requires descAddr % 2 == 0 && IsAddress(t, target) && target % 2 == 0
    requires words[k] == RelativePtr(t, target, FieldAddr(t, descAddr, k)).relativeOrAbsolute
    ensures IsOffset(t, words[k])
    ensures Get(t, FieldAddr(t, descAddr, k), SectionPointer(words[k])) == target
  {
    RelativePtrRoundTrip(t, target, FieldAddr(t, descAddr, k));
  }

  /** The start of section `n` in a record read from words whose start
      word is a relative pointer to `first`. */
  lemma StartResolves(t: Traits, descAddr: nat, words: seq<int>, n: SectionName, first: nat)
    requires DescriptorFits(t, descAddr) && |words| == RecordWords && WellFormed(t, FromWords(words))
    requires descAddr % 2 == 0 && IsAddress(t, first) && first % 2 == 0
    requires words[StartWord(n)] == RelativePtr(t, first, FieldAddr(t, descAddr, StartWord(n))).relativeOrAbsolute
    ensures SectionStart(t, descAddr, FromWords(words), n) == first
  {
    var k := StartWord(n);
    FieldIsStartField(t, descAddr, n, k, k + 1);
    FromWordsRange(words, FieldIndex(n));
    assert FromWords(words).ranges[FieldIndex(n)].start == SectionPointer(words[k]);
    EmittedPointerResolves(t, descAddr, words, k, first);
    BoundsAt(t, descAddr, FromWords(words), n, FieldAddr(t, descAddr, k));
  }

  /** The end of section `n`, likewise from its end word. */
  lemma EndResolves(t: Traits, descAddr: nat, words: seq<int>, n: SectionName, last: nat)
    requires DescriptorFits(t, descAddr) && |words| == RecordWords && WellFormed(t, FromWords(words))
    requires descAddr % 2 == 0 && IsAddress(t, last) && last % 2 == 0
    requires words[StartWord(n) + 1] == RelativePtr(t, last, FieldAddr(t, descAddr, StartWord(n) + 1)).relativeOrAbsolute
    ensures SectionEnd(t, descAddr, FromWords(words), n) == last
  {
    var k := StartWord(n);
    FieldIsStartField(t, descAddr, n, k, k + 1);
    FromWordsRange(words, FieldIndex(n));
    var at := FieldAddr(t, descAddr, k + 1);
    var p := SectionPointer(words[k + 1]);
    assert FromWords(words).ranges[FieldIndex(n)].end == p;
    EmittedPointerResolves(t, descAddr, words, k + 1, last);
    BoundsAt(t, descAddr, FromWords(words), n, at);
  }

  /** Reading the emitted descriptor as a `MetadataSections` at its own
      address gives, for every section, exactly the linker's `__start_` and
      `__end_` addresses, provided those addresses and the descriptor are
      even (the sections and the note are aligned). */
  lemma EmittedRecordResolves(t: Traits, descAddr: nat, symbol: Symbol -> nat, words: seq<int>, n: SectionName)
    requires DescriptorFits(t, descAddr) && SymbolsAreAddresses(t, symbol)
    requires descAddr % 2 == 0
    requires symbol(Start(n)) % 2 == 0 && symbol(End(n)) % 2 == 0
    requires Emitted(t, descAddr, symbol, words)
    ensures WellFormed(t, FromWords(words))
    ensures SectionStart(t, descAddr, FromWords(words), n) == symbol(Start(n))
    ensures SectionEnd(t, descAddr, FromWords(words), n) == symbol(End(n))
  {
    EmittedWellFormed(t, descAddr, symbol, words);
    assert EmittedPair(t, descAddr, symbol, words, FieldIndex(n));
    StartResolves(t, descAddr, words, n, symbol(Start(n)));
    EndResolves(t, descAddr, words, n, symbol(End(n)));
  }

  // ---------------------------------------------------------------------
  // The note's bytes
  // ---------------------------------------------------------------------

  type byte = x: int | 0 <= x < 256

  function Pow256(n: nat): (p: nat)
    ensures p > 0
  {
    if n == 0 then 1 else 256 * Pow256(n - 1)
  }

  /** The word of the traits is `WordSize` bytes wide. */
  lemma ModulusIsWordWidth(t: Traits)
    ensures Pow256(t.WordSize()) == t.Modulus()
  {
    assert Pow256(4) == 0x1_0000_0000;
    assert Pow256(8) == 0x1_0000_0000_0000_0000;
  }

  /** `n` little-endian bytes of `x` (the x86-64, AArch64 and 32-bit ARM
      byte order). */
  function LittleEndian(x: nat, n: nat): (bytes: seq<byte>)
    ensures |bytes| == n
  {
    if n == 0 then [] else [x % 256] + LittleEndian(x / 256, n - 1)
  }

  /** The value of little-endian bytes. */
  function Unsigned(bytes: seq<byte>): (x: nat)
    ensures x < Pow256(|bytes|)
  {
    if bytes == [] then 0 else bytes[0] + 256 * Unsigned(bytes[1..])
  }

  /** Reading back `n` little-endian bytes of a value that fits in them
      gives the value. */
  lemma {:induction false} LittleEndianRoundTrip(x: nat, n: nat)
    requires x < Pow256(n)
    ensures Unsigned(LittleEndian(x, n)) == x
  {
    if n > 0 {
      var rest := LittleEndian(x / 256, n - 1);
      assert LittleEndian(x, n)[1..] == rest;
      LittleEndianRoundTrip(x / 256, n - 1);
    }
  }

  /** An `Offset` or `Version` word as stored: the bytes of its two's
      complement. */
  function WordBytes(t: Traits, x: int): (bytes: seq<byte>)
    requires IsOffset(t, x)
    ensures |bytes| == t.WordSize()
  {
    LittleEndian(ToAddress(t, x), t.WordSize())
  }

  function WordsBytes(t: Traits, words: seq<int>): (bytes: seq<byte>)
    requires forall i :: 0 <= i < |words| ==> IsOffset(t, words[i])
    ensures |bytes| == WordsSize(t, |words|)
  {
    if words == [] then [] else WordBytes(t, words[0]) + WordsBytes(t, words[1..])
  }

  /** Reading `Offset` words back from their bytes; bytes short of a word
      at the end are not read. */
  function ReadWords(t: Traits, bytes: seq<byte>): (words: seq<int>)
    ensures forall i :: 0 <= i < |words| ==> IsOffset(t, words[i])
    decreases |bytes|
  {
    if |bytes| < t.WordSize() then []
    else
      ModulusIsWordWidth(t);
      [Wrap(t, Unsigned(bytes[..t.WordSize()]))] + ReadWords(t, bytes[t.WordSize()..])
  }

  lemma {:induction false} WordsRoundTrip(t: Traits, words: seq<int>)
    requires forall i :: 0 <= i < |words| ==> IsOffset(t, words[i])
    ensures ReadWords(t, WordsBytes(t, words)) == words
  {
    if words != [] {
      var bytes := WordsBytes(t, words);
      var w := t.WordSize();
      assert bytes[..w] == WordBytes(t, words[0]);
      assert bytes[w..] == WordsBytes(t, words[1..]);
      ModulusIsWordWidth(t);
      LittleEndianRoundTrip(ToAddress(t, words[0]), w);
      WordsRoundTrip(t, words[1..]);
    }
  }

  /** An ELF note: its type, its name bytes (with the terminating NUL) and
      its descriptor as words. */
  datatype Note = Note(ntype: nat, name: seq<byte>, desc: seq<int>)

  /** `n_namesz`, `n_descsz` and `n_type` are `.long`s: 32 bits. */
  predicate Encodable(t: Traits, n: Note) {
    && n.ntype < Pow256(4)
    && |n.name| < Pow256(4)
    && WordsSize(t, |n.desc|) < Pow256(4)
    && forall i :: 0 <= i < |n.desc| ==> IsOffset(t, n.desc[i])
  }

  /** How the assembler reads the `.align 8` and `.align 4` of the
      `AlignNote` macro: as a number of bytes, as the x86 assemblers do, or
      as a number of low-order zero bits, as the ARM and AArch64 assemblers
      do. */
  datatype AlignReading = ByteCount | PowerOfTwo

  /** The boundary `AlignNote` moves to: `.align 8` under LP64 and
      `.align 4` otherwise, read as `rd` says. */
  function NoteBoundary(t: Traits, rd: AlignReading): (b: nat)
    ensures b > 0
    ensures rd.ByteCount? ==> b == t.WordSize()
    ensures rd.PowerOfTwo? ==> b == (if t.Traits64? then 256 else 16)
  {
    match rd
    case ByteCount => if t.Traits64? then 8 else 4
    case PowerOfTwo => if t.Traits64? then 256 else 16
  }

  /** `x` rounded up to the next `AlignNote` boundary. */
  function AlignNote(t: Traits, rd: AlignReading, x: nat): (r: nat)
    ensures x <= r < x + NoteBoundary(t, rd)
    ensures r % NoteBoundary(t, rd) == 0
  {
    match rd
    case ByteCount => if t.Traits64? then Up8(x) else Up4(x)
    case PowerOfTwo => if t.Traits64? then Up256(x) else Up16(x)
  }

  function Up4(x: nat): (r: nat)
    ensures x <= r < x + 4 && r % 4 == 0
  {
    if x % 4 == 0 then x else x + 4 - x % 4
  }

  function Up8(x: nat): (r: nat)
    ensures x <= r < x + 8 && r % 8 == 0
  {
    if x % 8 == 0 then x else x + 8 - x % 8
  }

  function Up16(x: nat): (r: nat)
    ensures x <= r < x + 16 && r % 16 == 0
  {
    if x % 16 == 0 then x else x + 16 - x % 16
  }

  function Up256(x: nat): (r: nat)
    ensures x <= r < x + 256 && r % 256 == 0
  {
    if x % 256 == 0 then x else x + 256 - x % 256
  }

  function Zeros(n: nat): (z: seq<byte>)
    ensures |z| == n && forall i :: 0 <= i < n ==> z[i] == 0
  {
    if n == 0 then [] else [0] + Zeros(n - 1)
  }

  /** Where the descriptor starts: after the three header words and the
      name, at the next `AlignNote` boundary. */
  function DescOffset(t: Traits, rd: AlignReading, namesz: nat): nat {
    AlignNote(t, rd, 12 + namesz)
  }

  /** `n_namesz`, `n_descsz` and `n_type`. */
  function Header(t: Traits, n: Note): (h: seq<byte>)
    requires Encodable(t, n)
    ensures |h| == 12
  {
    LittleEndian(|n.name|, 4) + LittleEndian(WordsSize(t, |n.desc|), 4) + LittleEndian(n.ntype, 4)
  }

  /** The note section's bytes, from the first `AlignNote` to label `3`. */
  function EncodeNote(t: Traits, rd: AlignReading, n: Note): (bytes: seq<byte>)
    requires Encodable(t, n)
    ensures |bytes| == DescOffset(t, rd, |n.name|) + WordsSize(t, |n.desc|)
  {
    Header(t, n) + n.name + Zeros(DescOffset(t, rd, |n.name|) - 12 - |n.name|) + WordsBytes(t, n.desc)
  }

  /** The parts of a four-part concatenation are found at their offsets. */
  lemma ConcatParts<T>(a: seq<T>, b: seq<T>, c: seq<T>, d: seq<T>)
    ensures var x := a + b + c + d;
      && x[..|a|] == a
      && x[|a|..|a| + |b|] == b
      && x[|a| + |b| + |c|..|x|] == d
  {
  }

  /** A reader of the note: `None` when the sizes in the header do not fit
      the bytes. */
  function DecodeNote(t: Traits, rd: AlignReading, bytes: seq<byte>): (r: Option<Note>)
    ensures r.Some? ==> |bytes| >= 12 && r.value.ntype == Unsigned(bytes[8..12])
  {
    if |bytes| < 12 then None
    else
      var namesz := Unsigned(bytes[0..4]);
      var descsz := Unsigned(bytes[4..8]);
      var at := DescOffset(t, rd, namesz);
      if at + descsz > |bytes| then None
      else Some(Note(Unsigned(bytes[8..12]), bytes[12..12 + namesz], ReadWords(t, bytes[at..at + descsz])))
  }

  /** The header of an encoded note holds the name's length, the
      descriptor's length in bytes and the type. */
  lemma HeaderFields(t: Traits, rd: AlignReading, n: Note)
    requires Encodable(t, n)
    ensures |EncodeNote(t, rd, n)| >= 12
    ensures Unsigned(EncodeNote(t, rd, n)[0..4]) == |n.name|
    ensures Unsigned(EncodeNote(t, rd, n)[4..8]) == WordsSize(t, |n.desc|)
    ensures Unsigned(EncodeNote(t, rd, n)[8..12]) == n.ntype
  {
    var bytes := EncodeNote(t, rd, n);
    var h0 := LittleEndian(|n.name|, 4);
    var h1 := LittleEndian(WordsSize(t, |n.desc|), 4);
    var h2 := LittleEndian(n.ntype, 4);
    var header := Header(t, n);
    ConcatParts(header, n.name, Zeros(DescOffset(t, rd, |n.name|) - 12 - |n.name|), WordsBytes(t, n.desc));
    ConcatParts(h0, h1, h2, []);
    assert bytes[..12] == header;
    assert header == h0 + h1 + h2 + [];
    assert bytes[0..4] == h0 && bytes[4..8] == h1 && bytes[8..12] == h2;
    LittleEndianRoundTrip(|n.name|, 4);
    LittleEndianRoundTrip(WordsSize(t, |n.desc|), 4);
    LittleEndianRoundTrip(n.ntype, 4);
  }

  /** What the reader returns once the header has been read. */
  lemma DecodeFields(t: Traits, rd: AlignReading, bytes: seq<byte>, name: seq<byte>, ntype: nat, desc: seq<int>)
    requires |bytes| >= 12
    requires Unsigned(bytes[0..4]) == |name| && Unsigned(bytes[4..8]) == WordsSize(t, |desc|)
    requires Unsigned(bytes[8..12]) == ntype
    requires |bytes| == DescOffset(t, rd, |name|) + WordsSize(t, |desc|)
    requires bytes[12..12 + |name|] == name
    requires ReadWords(t, bytes[DescOffset(t, rd, |name|)..]) == desc
    ensures DecodeNote(t, rd, bytes) == Some(Note(ntype, name, desc))
  {
    assert bytes[DescOffset(t, rd, |name|)..DescOffset(t, rd, |name|) + WordsSize(t, |desc|)] == bytes[DescOffset(t, rd, |name|)..];
  }

  /** After the header of an encoded note come its name and, at the next
      `AlignNote` boundary, the bytes of its descriptor words. */
  lemma BodyFields(t: Traits, rd: AlignReading, n: Note)
    requires Encodable(t, n)
    ensures EncodeNote(t, rd, n)[12..12 + |n.name|] == n.name
    ensures ReadWords(t, EncodeNote(t, rd, n)[DescOffset(t, rd, |n.name|)..]) == n.desc
  {
    var desc := WordsBytes(t, n.desc);
    ConcatParts(Header(t, n), n.name, Zeros(DescOffset(t, rd, |n.name|) - 12 - |n.name|), desc);
    assert EncodeNote(t, rd, n)[DescOffset(t, rd, |n.name|)..] == desc;
    WordsRoundTrip(t, n.desc);
  }

  /** Decoding an encoded note gives the note back. */
  lemma NoteRoundTrip(t: Traits, rd: AlignReading, n: Note)
    requires Encodable(t, n)
    ensures DecodeNote(t, rd, EncodeNote(t, rd, n)) == Some(n)
  {
    HeaderFields(t, rd, n);
    BodyFields(t, rd, n);
    DecodeFields(t, rd, EncodeNote(t, rd, n), n.name, n.ntype, n.desc);
  }

  /** `SWIFT_NT_SWIFT_NAME` as `.asciz` lays it out. */
  const SwiftName: seq<byte> := [0x53, 0x77, 0x69, 0x66, 0x74, 0]

  /** `SWIFT_NT_SWIFT_METADATA`. */
  const SwiftMetadataNoteType: nat := 1

  /** The note `SwiftRT-ELF.cpp` assembles around the descriptor words. */
  function SwiftNote(words: seq<int>): Note {
    Note(SwiftMetadataNoteType, SwiftName, words)
  }

  /** Where the metadata note's record starts. */
  function SwiftDescOffset(t: Traits, rd: AlignReading): nat {
    match rd
    case ByteCount => if t.Traits64? then 24 else 20
    case PowerOfTwo => if t.Traits64? then 256 else 32
  }

  lemma SwiftDescOffsetValue(t: Traits, rd: AlignReading)
    ensures DescOffset(t, rd, 6) == SwiftDescOffset(t, rd)
  {
  }

  /** The header of the metadata note: `n_namesz` is 6 ("Swift" and its
      NUL), `n_descsz` is the 27 words of the record, `n_type` is 1, and the
      record starts at byte 24 of the note under LP64 and at byte 20
      otherwise where `.align` counts bytes, and at byte 256 or 32 where it
      counts low-order zero bits. */
  lemma SwiftNoteLayout(t: Traits, rd: AlignReading, descAddr: nat, symbol: Symbol -> nat, words: seq<int>)
    requires DescriptorFits(t, descAddr) && SymbolsAreAddresses(t, symbol)
    requires Emitted(t, descAddr, symbol, words)
    ensures Encodable(t, SwiftNote(words))
    ensures var bytes := EncodeNote(t, rd, SwiftNote(words));
      && Unsigned(bytes[0..4]) == 6
      && Unsigned(bytes[4..8]) == WordsSize(t, RecordWords)
      && Unsigned(bytes[8..12]) == 1
      && DescOffset(t, rd, 6) == SwiftDescOffset(t, rd)
      && DecodeNote(t, rd, bytes) == Some(SwiftNote(words))
  {
    SwiftDescOffsetValue(t, rd);
    EmittedWellFormed(t, descAddr, symbol, words);
    assert Pow256(4) == 0x1_0000_0000;
    NoteRoundTrip(t, rd, SwiftNote(words));
    HeaderFields(t, rd, SwiftNote(words));
  }

  // ---------------------------------------------------------------------
  // swift_image_constructor
  // ---------------------------------------------------------------------

  /** `swift_addNewDSOImage(nullptr, &__swift5_metadata)`. */
  function ImageConstructor(t: Traits, reg: Registry, descAddr: nat, words: seq<int>): (after: Registry)
    requires |words| == RecordWords
    requires Placed(t, SectionsRef(descAddr, FromWords(words)))
    ensures after.registered == reg.registered + [SectionsRef(descAddr, FromWords(words))]
    ensures reg.calls <= after.calls
    ensures forall c :: c in after.calls[|reg.calls|..] ==> c.image == None
  {
    KindsInOrder(None, BlocksOf(t, SectionsRef(descAddr, FromWords(words))));
    AddNewDSOImage(t, reg, None, SectionsRef(descAddr, FromWords(words)))
  }
}
