/** The metadata-section registry of
    `stdlib/public/runtime/ImageInspectionCommon.cpp`: each loaded image
    hands its `MetadataSections` record to `swift_addNewDSOImage`, which
    passes the non-empty protocol, conformance, type-metadata, dynamic
    replacement and accessible-function sections to their lookup tables and
    then appends the record to an append-only list that clients enumerate
    or index.

    The lookup tables are reduced to the calls made to them, in order; the
    concurrent array is a plain sequence and a snapshot is reading it. */
module ImageInspection {
  import opened Wrappers
  import opened MetadataSections

  /** A `const MetadataSections *`: where the record is and what it holds. */
  datatype SectionsRef = SectionsRef(address: nat, record: Sections)

  /** A record of the traits' width, placed so that each of its words has
      an address. */
  predicate Placed(t: Traits, r: SectionsRef) {
    WellFormed(t, r.record) && r.address + t.WordSize() * RecordWords <= t.Modulus()
  }

  /** The `addImage<Kind>BlockCallback` functions. */
  datatype BlockKind =
    | ProtocolsBlock | ProtocolConformanceBlock | TypeMetadataRecordBlock
    | DynamicReplacementBlock | AccessibleFunctionsBlock

  /** A section as the callbacks receive it: its start and its length in
      bytes. */
  datatype Block = Block(start: nat, length: int)

  /** One call of a block callback: the image (`None` is a null image), the
      block, and for dynamic replacements the second (`replac2`) block. */
  datatype Registration = Registration(kind: BlockKind, image: Option<nat>, block: Block, second: Option<Block>)

  /** The registry and the calls made so far to the lookup tables. */
  datatype Registry = Registry(registered: seq<SectionsRef>, calls: seq<Registration>)

  const EmptyRegistry := Registry([], [])

  /** `computeSectionLength`: the distance from start to end in bytes. */
  function SectionLength(start: nat, end: nat): (length: int)
    ensures start + length == end
  {
    end - start
  }

  /** Section `n` of a registered record, as `get()` reads its bounds. */
  function BlockOf(t: Traits, r: SectionsRef, n: SectionName): (b: Block)
    requires Placed(t, r)
    ensures b.start == SectionStart(t, r.address, r.record, n)
    ensures b.start + b.length == SectionEnd(t, r.address, r.record, n)
  {
    var start := SectionStart(t, r.address, r.record, n);
    Block(start, SectionLength(start, SectionEnd(t, r.address, r.record, n)))
  }

  /** The six sections `swift_addNewDSOImage` reads. */
  datatype ImageBlocks = ImageBlocks(protocols: Block, conformances: Block, typeMetadata: Block,
                                     replace: Block, replac2: Block, accessibleFunctions: Block)

  function BlocksOf(t: Traits, r: SectionsRef): ImageBlocks
    requires Placed(t, r)
  {
    ImageBlocks(BlockOf(t, r, Protocols), BlockOf(t, r, ProtocolConformances), BlockOf(t, r, TypeMetadata),
                BlockOf(t, r, Replace), BlockOf(t, r, Replac2), BlockOf(t, r, AccessibleFunctions))
  }

  /** `SWIFT_METADATA_CALLBACK(name, Kind)`: one call when the section is
      not empty, none otherwise. */
  function Callback(image: Option<nat>, b: Block, kind: BlockKind): seq<Registration> {
    if b.length != 0 then [Registration(kind, image, b, None)] else []
  }

  /** `SWIFT_METADATA_CALLBACK2(replace, replac2, DynamicReplacement)`:
      decided by the first section's length alone; the second section is
      passed whatever its length. */
  function Callback2(image: Option<nat>, replace: Block, replac2: Block): seq<Registration> {
    if replace.length != 0 then [Registration(DynamicReplacementBlock, image, replace, Some(replac2))] else []
  }

  /** The calls made for one image, in the order they are made. */
  function CallsFor(image: Option<nat>, b: ImageBlocks): seq<Registration> {
    Callback(image, b.protocols, ProtocolsBlock)
    + Callback(image, b.conformances, ProtocolConformanceBlock)
    + Callback(image, b.typeMetadata, TypeMetadataRecordBlock)
    + Callback2(image, b.replace, b.replac2)
    + Callback(image, b.accessibleFunctions, AccessibleFunctionsBlock)
  }

  /** The calls `swift_addNewDSOImage` makes for a record. */
  function ImageCalls(t: Traits, image: Option<nat>, r: SectionsRef): seq<Registration>
    requires Placed(t, r)
  {
    CallsFor(image, BlocksOf(t, r))
  }

  /** `swift_addNewDSOImage(image, sections)`: the block callbacks first,
      then the record is appended to the registry. */
  function AddNewDSOImage(t: Traits, reg: Registry, image: Option<nat>, r: SectionsRef): (after: Registry)
    requires Placed(t, r)
    ensures after.registered == reg.registered + [r]
    ensures reg.calls <= after.calls
    ensures |after.calls| <= |reg.calls| + 5
  {
    Registry(reg.registered + [r], reg.calls + ImageCalls(t, image, r))
  }

  /** The section each kind of call is made for. */
  function BlockFor(b: ImageBlocks, k: BlockKind): Block {
    match k {
      case ProtocolsBlock => b.protocols
      case ProtocolConformanceBlock => b.conformances
      case TypeMetadataRecordBlock => b.typeMetadata
      case DynamicReplacementBlock => b.replace
      case AccessibleFunctionsBlock => b.accessibleFunctions
    }
  }

  /** The call of kind `k`, if one is made. */
  function Expected(image: Option<nat>, b: ImageBlocks, k: BlockKind): Registration {
    Registration(k, image, BlockFor(b, k), if k == DynamicReplacementBlock then Some(b.replac2) else None)
  }

  /** A call of kind `k` is made exactly when the section that kind is for
      is not empty, and it is then the only call of that kind and carries
      that section's block; a dynamic replacement also carries the
      `replac2` block, whatever that block's length. */
  lemma CallbackFiresIffNonEmpty(image: Option<nat>, b: ImageBlocks, k: BlockKind)
    ensures BlockFor(b, k).length != 0 <==> Expected(image, b, k) in CallsFor(image, b)
    ensures forall c :: c in CallsFor(image, b) && c.kind == k ==>
              BlockFor(b, k).length != 0 && c == Expected(image, b, k)
  {
    var c0 := Callback(image, b.protocols, ProtocolsBlock);
    var c1 := Callback(image, b.conformances, ProtocolConformanceBlock);
    var c2 := Callback(image, b.typeMetadata, TypeMetadataRecordBlock);
    var c3 := Callback2(image, b.replace, b.replac2);
    var c4 := Callback(image, b.accessibleFunctions, AccessibleFunctionsBlock);
    assert CallsFor(image, b) == c0 + c1 + c2 + c3 + c4;
  }

  /** The rank of a kind in the order `swift_addNewDSOImage` calls them. */
  function Rank(k: BlockKind): nat {
    match k {
      case ProtocolsBlock => 0
      case ProtocolConformanceBlock => 1
      case TypeMetadataRecordBlock => 2
      case DynamicReplacementBlock => 3
      case AccessibleFunctionsBlock => 4
    }
  }

  /** The calls come in the fixed order protocols, conformances, type
      metadata, dynamic replacements, accessible functions, each at most
      once, and all for the image given. */
  lemma KindsInOrder(image: Option<nat>, b: ImageBlocks)
    ensures forall i, j :: 0 <= i < j < |CallsFor(image, b)| ==>
              Rank(CallsFor(image, b)[i].kind) < Rank(CallsFor(image, b)[j].kind)
    ensures forall c :: c in CallsFor(image, b) ==> c.image == image
  {
    var c0 := Callback(image, b.protocols, ProtocolsBlock);
    var c1 := Callback(image, b.conformances, ProtocolConformanceBlock);
    var c2 := Callback(image, b.typeMetadata, TypeMetadataRecordBlock);
    var c3 := Callback2(image, b.replace, b.replac2);
    var c4 := Callback(image, b.accessibleFunctions, AccessibleFunctionsBlock);
    var calls := CallsFor(image, b);
    assert calls == c0 + c1 + c2 + c3 + c4;
    forall i, j | 0 <= i < j < |calls| ensures Rank(calls[i].kind) < Rank(calls[j].kind) {
      CallRank(c0, c1, c2, c3, c4, i);
      CallRank(c0, c1, c2, c3, c4, j);
    }
  }

  /** Where the i-th call comes from: its rank is the index of its part. */
  lemma CallRank(c0: seq<Registration>, c1: seq<Registration>, c2: seq<Registration>,
                 c3: seq<Registration>, c4: seq<Registration>, i: nat)
    requires |c0| <= 1 && |c1| <= 1 && |c2| <= 1 && |c3| <= 1 && |c4| <= 1
    requires forall c :: c in c0 ==> c.kind == ProtocolsBlock
    requires forall c :: c in c1 ==> c.kind == ProtocolConformanceBlock
    requires forall c :: c in c2 ==> c.kind == TypeMetadataRecordBlock
    requires forall c :: c in c3 ==> c.kind == DynamicReplacementBlock
    requires forall c :: c in c4 ==> c.kind == AccessibleFunctionsBlock
    requires i < |c0 + c1 + c2 + c3 + c4|
    ensures var calls := c0 + c1 + c2 + c3 + c4;
      Rank(calls[i].kind) == (if i < |c0| then 0
                              else if i < |c0| + |c1| then 1
                              else if i < |c0| + |c1| + |c2| then 2
                              else if i < |c0| + |c1| + |c2| + |c3| then 3
                              else 4)
  {
  }

  /** Only the protocol, conformance, type-metadata, `replace`/`replac2`
      and accessible-function sections reach the lookup tables: two records
      that agree on those sections cause the same calls, whatever their
      other sections hold. */
  lemma OtherSectionsNotRegistered(t: Traits, image: Option<nat>, r: SectionsRef, s: SectionsRef)
    requires Placed(t, r) && Placed(t, s)
    requires forall n :: n in {Protocols, ProtocolConformances, TypeMetadata, Replace, Replac2, AccessibleFunctions} ==>
               BlockOf(t, r, n) == BlockOf(t, s, n)
    ensures ImageCalls(t, image, r) == ImageCalls(t, image, s)
  {
    var used := {Protocols, ProtocolConformances, TypeMetadata, Replace, Replac2, AccessibleFunctions};
    assert Protocols in used && ProtocolConformances in used && TypeMetadata in used;
    assert Replace in used && Replac2 in used && AccessibleFunctions in used;
    assert BlocksOf(t, r) == BlocksOf(t, s);
  }

  // ---------------------------------------------------------------------
  // Enumeration and lookup
  // ---------------------------------------------------------------------

  /** How many entries an enumeration visits: up to and including the
      first one the callback rejects, or all of them. */
  function Visits(snapshot: seq<SectionsRef>, body: SectionsRef -> bool): (n: nat)
    ensures n <= |snapshot|
    ensures forall i :: 0 <= i < n - 1 ==> body(snapshot[i])
    ensures n < |snapshot| ==> n > 0 && !body(snapshot[n - 1])
    ensures n == |snapshot| && n > 0 ==> forall i :: 0 <= i < n - 1 ==> body(snapshot[i])
  {
    if snapshot == [] then 0
    else if !body(snapshot[0]) then 1
    else 1 + Visits(snapshot[1..], body)
  }

  /** `swift_enumerateAllMetadataSections(body, context)` over a snapshot:
      the entries handed to `body`, in insertion order. The context is
      folded into `body`. */
  method EnumerateAllMetadataSections(snapshot: seq<SectionsRef>, body: SectionsRef -> bool)
    returns (visited: seq<SectionsRef>)
    ensures visited == snapshot[..Visits(snapshot, body)]
  {
    visited := [];
    var i := 0;
    while i < |snapshot|
      invariant i <= |snapshot|
      invariant visited == snapshot[..i]
      invariant Visits(snapshot, body) == i + Visits(snapshot[i..], body)
    {
      var sections := snapshot[i];
      visited := visited + [sections];
      VisitsStep(snapshot, body, i);
      if !body(sections) {
        return;
      }
      i := i + 1;
    }
  }

  lemma VisitsStep(snapshot: seq<SectionsRef>, body: SectionsRef -> bool, i: nat)
    requires i < |snapshot|
    ensures !body(snapshot[i]) ==> Visits(snapshot[i..], body) == 1
    ensures body(snapshot[i]) ==> Visits(snapshot[i..], body) == 1 + Visits(snapshot[i + 1..], body)
  {
    assert snapshot[i..][1..] == snapshot[i + 1..];
  }

  /** An enumeration that rejects entry k visits entries 0 to k and no
      more (one whose callback never rejects visits every entry, by the
      contract of `Visits`). */
  lemma EnumerationStopsAtFirstRejection(snapshot: seq<SectionsRef>, body: SectionsRef -> bool, k: nat)
    requires k < |snapshot| && !body(snapshot[k])
    requires forall i :: 0 <= i < k ==> body(snapshot[i])
    ensures Visits(snapshot, body) == k + 1
  {
  }

  /** `swift_getMetadataSection(index)`: `None` is the null pointer. */
  function GetMetadataSection(reg: Registry, index: nat): (r: Option<SectionsRef>)
    ensures r.Some? <==> index < |reg.registered|
    ensures r.Some? ==> r.value == reg.registered[index]
  {
    if index < |reg.registered| then Some(reg.registered[index]) else None
  }

  /** `swift_getMetadataSectionCount()`. */
  function GetMetadataSectionCount(reg: Registry): nat {
    |reg.registered|
  }

  /** The records of a sequence of images. */
  function Records(images: seq<(Option<nat>, SectionsRef)>): (r: seq<SectionsRef>)
    ensures |r| == |images|
    ensures forall i :: 0 <= i < |images| ==> r[i] == images[i].1
  {
    if images == [] then [] else [images[0].1] + Records(images[1..])
  }

  /** Every image's record is placed. */
  predicate AllPlaced(t: Traits, images: seq<(Option<nat>, SectionsRef)>)
    decreases |images|
  {
    images == [] || (Placed(t, images[0].1) && AllPlaced(t, images[1..]))
  }

  lemma RecordsAppend(prefix: seq<SectionsRef>, images: seq<(Option<nat>, SectionsRef)>)
    requires images != []
    ensures prefix + Records(images) == (prefix + [images[0].1]) + Records(images[1..])
  {
  }

  /** Registering images one after another. */
  function RegisterAll(t: Traits, reg: Registry, images: seq<(Option<nat>, SectionsRef)>): (after: Registry)
    requires AllPlaced(t, images)
    decreases |images|
    ensures after.registered == reg.registered + Records(images)
  {
    if images == [] then reg
    else
      RecordsAppend(reg.registered, images);
      RegisterAll(t, AddNewDSOImage(t, reg, images[0].0, images[0].1), images[1..])
  }

  /** The count is the number of records registered, the entries already
      present keep their indices, the i-th new image's record is found at
      the old count plus i, and every index from the new count on reads as
      null. */
  lemma RegistryCountsRegistrations(t: Traits, reg: Registry, images: seq<(Option<nat>, SectionsRef)>)
    requires AllPlaced(t, images)
    ensures GetMetadataSectionCount(RegisterAll(t, reg, images)) == GetMetadataSectionCount(reg) + |images|
    ensures forall i :: 0 <= i < |reg.registered| ==>
              GetMetadataSection(RegisterAll(t, reg, images), i) == GetMetadataSection(reg, i)
    ensures forall i :: 0 <= i < |images| ==>
              GetMetadataSection(RegisterAll(t, reg, images), |reg.registered| + i) == Some(images[i].1)
    ensures forall i :: i >= |reg.registered| + |images| ==>
              GetMetadataSection(RegisterAll(t, reg, images), i) == None
  {
    var after := RegisterAll(t, reg, images);
    assert after.registered == reg.registered + Records(images);
  }
}
