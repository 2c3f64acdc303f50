/**
 * Creation of availability records for implicit tiling (the `AvailabilityInfos`
 * class): an `Availability` object of a subtree is either a constant or a
 * bitstream that selects one of the subtree's buffer-view chunks, and the
 * record gets a length that counts the nodes it covers. The node counts
 * follow the Availability section of the Implicit Tiling chapter of
 * OGC 3D Tiles 1.1: level L of a tree with branching factor b has b^L nodes,
 * and a subtree with L levels has b^0 + ... + b^(L-1) nodes.
 */
module AvailabilityInfos {
  import opened Base

  datatype SubdivisionScheme = Quadtree | Octree

  /** The part of a `TileImplicitTiling` that the node counts depend on. */
  datatype TileImplicitTiling = TileImplicitTiling(subdivisionScheme: SubdivisionScheme, subtreeLevels: nat)

  /** An `Availability` object: the optional `bitstream` buffer-view index and the optional `constant`. */
  datatype Availability = Availability(bitstream: Option<nat>, constant: Option<int>)

  /**
   * An `AvailabilityInfo`: a `ConstantAvailabilityInfo` holding one value for
   * all nodes, or a `BufferAvailabilityInfo` over a buffer-view chunk; both
   * with the number of nodes they cover.
   */
  datatype AvailabilityInfo =
    | ConstantAvailabilityInfo(available: bool, length: nat)
    | BufferAvailabilityInfo(bufferViewData: Buffer, length: nat)

  function BranchingFactor(scheme: SubdivisionScheme): (b: nat)
    ensures scheme == Quadtree <==> b == 4
    ensures scheme == Octree <==> b == 8
  {
    match scheme
    case Quadtree => 4
    case Octree => 8
  }

  function Power(b: nat, e: nat): nat
  {
    if e == 0 then 1 else b * Power(b, e - 1)
  }

  /** The sum b^0 + b^1 + ... + b^(levels-1). */
  function SumOfLevels(b: nat, levels: nat): nat
  {
    if levels == 0 then 0 else SumOfLevels(b, levels - 1) + Power(b, levels - 1)
  }

  /** `ImplicitTilings.computeNumberOfNodesInLevel`: the nodes in one level of the tree. */
  function NumberOfNodesInLevel(tiling: TileImplicitTiling, level: nat): nat
  {
    Power(BranchingFactor(tiling.subdivisionScheme), level)
  }

  /** `ImplicitTilings.computeNumberOfNodesPerSubtree`: the nodes in the levels of one subtree. */
  function NumberOfNodesPerSubtree(tiling: TileImplicitTiling): nat
  {
    SumOfLevels(BranchingFactor(tiling.subdivisionScheme), tiling.subtreeLevels)
  }

  /** The geometric series times (b - 1) is b^levels - 1. */
  lemma {:induction false} SumOfLevelsTimesPredecessor(b: nat, levels: nat)
    ensures SumOfLevels(b, levels) * (b - 1) + 1 == Power(b, levels)
  {
    if levels > 0 {
      SumOfLevelsTimesPredecessor(b, levels - 1);
      var s, p, d := SumOfLevels(b, levels - 1), Power(b, levels - 1), b - 1;
      calc {
        SumOfLevels(b, levels) * (b - 1) + 1;
        (s + p) * d + 1;
        { MulDistributes(s, p, d); }
        s * d + p * d + 1;
        p + p * d;
        { MulDistributesLeft(p, 1, d); }
        p * (1 + d);
        b * p;
        Power(b, levels);
      }
    }
  }

  lemma MulDistributes(x: int, y: int, z: int)
    ensures (x + y) * z == x * z + y * z
  {
  }

  lemma MulDistributesLeft(x: int, y: int, z: int)
    ensures x * (y + z) == x * y + x * z
  {
  }

  /**
   * The node count of a subtree is the closed form (b^L - 1) / (b - 1) of the
   * geometric series, where b^L is also the node count of the level just below
   * the subtree, the one that child-subtree availability covers.
   */
  lemma NodesPerSubtreeClosedForm(tiling: TileImplicitTiling)
    ensures NumberOfNodesPerSubtree(tiling)
         == (NumberOfNodesInLevel(tiling, tiling.subtreeLevels) - 1) / (BranchingFactor(tiling.subdivisionScheme) - 1)
  {
    var b := BranchingFactor(tiling.subdivisionScheme);
    var n := NumberOfNodesPerSubtree(tiling);
    SumOfLevelsTimesPredecessor(b, tiling.subtreeLevels);
    assert NumberOfNodesInLevel(tiling, tiling.subtreeLevels) - 1 == n * (b - 1);
    assert (n * (b - 1)) / (b - 1) == n;
  }

  /**
   * The shared constructor (`AvailabilityInfos.create`): a defined constant
   * gives a constant record that is available exactly when the constant is 1;
   * otherwise a defined bitstream selects its buffer-view chunk; otherwise
   * creation fails. The source indexes the chunks without a bounds check, so
   * a bitstream that is used must name an existing chunk.
   */
  function Create(availability: Availability, bufferViewDatas: seq<Buffer>, length: nat): (r: Result<AvailabilityInfo>)
    requires availability.constant.None? && availability.bitstream.Some? ==>
               availability.bitstream.value < |bufferViewDatas|
    ensures r.Ok? <==> availability.constant.Some? || availability.bitstream.Some?
    ensures r.Err? ==> r.error.ImplicitTilingError?
    ensures r.Ok? ==> r.value.length == length
    ensures r.Ok? ==> (r.value.ConstantAvailabilityInfo? <==> availability.constant.Some?)
    ensures r.Ok? && r.value.ConstantAvailabilityInfo? ==> (r.value.available <==> availability.constant.value == 1)
    ensures r.Ok? && r.value.BufferAvailabilityInfo? ==>
              r.value.bufferViewData == bufferViewDatas[availability.bitstream.value]
  {
    match availability.constant
    case Some(constant) => Ok(ConstantAvailabilityInfo(constant == 1, length))
    case None =>
      match availability.bitstream
      case None => Err(ImplicitTilingError("The availability neither defines a constant nor a bitstream"))
      case Some(bitstream) => Ok(BufferAvailabilityInfo(bufferViewDatas[bitstream], length))
  }

  /** `AvailabilityInfos.createTileOrContent`: tile or content availability covers the nodes of one subtree. */
  function CreateTileOrContent(availability: Availability, bufferViewDatas: seq<Buffer>, implicitTiling: TileImplicitTiling)
    : (r: Result<AvailabilityInfo>)
    requires availability.constant.None? && availability.bitstream.Some? ==>
               availability.bitstream.value < |bufferViewDatas|
    ensures r.Ok? <==> availability.constant.Some? || availability.bitstream.Some?
    ensures r.Ok? ==> r.value.length == NumberOfNodesPerSubtree(implicitTiling)
    ensures r == Create(availability, bufferViewDatas, NumberOfNodesPerSubtree(implicitTiling))
  {
    Create(availability, bufferViewDatas, NumberOfNodesPerSubtree(implicitTiling))
  }

  /** `AvailabilityInfos.createChildSubtree`: child subtree availability covers the level below the subtree. */
  function CreateChildSubtree(availability: Availability, bufferViewDatas: seq<Buffer>, implicitTiling: TileImplicitTiling)
    : (r: Result<AvailabilityInfo>)
    requires availability.constant.None? && availability.bitstream.Some? ==>
               availability.bitstream.value < |bufferViewDatas|
    ensures r.Ok? <==> availability.constant.Some? || availability.bitstream.Some?
    ensures r.Ok? ==> r.value.length == NumberOfNodesInLevel(implicitTiling, implicitTiling.subtreeLevels)
    ensures r == Create(availability, bufferViewDatas, NumberOfNodesInLevel(implicitTiling, implicitTiling.subtreeLevels))
  {
    Create(availability, bufferViewDatas, NumberOfNodesInLevel(implicitTiling, implicitTiling.subtreeLevels))
  }

  /** A defined constant wins over any bitstream and any buffer views: only the constant and the length matter. */
  lemma ConstantTakesPrecedence(availability: Availability, bufferViewDatas: seq<Buffer>, length: nat,
                                otherBitstream: Option<nat>, otherBufferViewDatas: seq<Buffer>)
    requires availability.constant.Some?
    ensures Create(availability, bufferViewDatas, length)
         == Create(availability.(bitstream := otherBitstream), otherBufferViewDatas, length)
         == Ok(ConstantAvailabilityInfo(availability.constant.value == 1, length))
  {
  }

  /** Only the constant 1 means "available": 0, 2 or any other defined constant means "not available". */
  lemma OnlyConstantOneIsAvailable(constant: int, bitstream: Option<nat>, bufferViewDatas: seq<Buffer>, length: nat)
    ensures Create(Availability(bitstream, Some(constant)), bufferViewDatas, length).value.available <==> constant == 1
  {
  }

  /** With neither a constant nor a bitstream, creation fails with an `ImplicitTilingError`, whatever the length. */
  lemma NeitherConstantNorBitstreamFails(bufferViewDatas: seq<Buffer>, length: nat)
    ensures Create(Availability(None, None), bufferViewDatas, length).Err?
    ensures Create(Availability(None, None), bufferViewDatas, length).error.ImplicitTilingError?
  {
  }

  /** Without a constant, the bitstream index selects exactly that buffer-view chunk, with the length unchanged. */
  lemma BitstreamSelectsChunk(bitstream: nat, bufferViewDatas: seq<Buffer>, length: nat)
    requires bitstream < |bufferViewDatas|
    ensures Create(Availability(Some(bitstream), None), bufferViewDatas, length)
         == Ok(BufferAvailabilityInfo(bufferViewDatas[bitstream], length))
  {
  }

  /**
   * The two public constructors differ only in the length: for the same
   * availability, the child-subtree record covers b^L nodes where the
   * tile/content record covers (b^L - 1) / (b - 1).
   */
  lemma ChildSubtreeAndTileLengths(availability: Availability, bufferViewDatas: seq<Buffer>, implicitTiling: TileImplicitTiling)
    requires availability.constant.Some? || availability.bitstream.Some?
    requires availability.constant.None? && availability.bitstream.Some? ==>
               availability.bitstream.value < |bufferViewDatas|
    ensures var tile := CreateTileOrContent(availability, bufferViewDatas, implicitTiling).value;
            var child := CreateChildSubtree(availability, bufferViewDatas, implicitTiling).value;
            tile.length * (BranchingFactor(implicitTiling.subdivisionScheme) - 1) + 1 == child.length &&
            tile.(length := child.length) == child
  {
    SumOfLevelsTimesPredecessor(BranchingFactor(implicitTiling.subdivisionScheme), implicitTiling.subtreeLevels);
  }
}
