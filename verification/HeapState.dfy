/** struct malloc_state and what the ghost state says about the words it describes. */
module HeapState {
  import opened Words
  import opened BinIndex
  import opened BinMaps
  import opened Trie
  import opened Rings
  import opened TreeMemory
  import opened Chunks

  const NBINS: nat := 32

  /** Offsets of the bin arrays in the state record. */
  const SMALLBINS_AT: int := 72
  const TREEBINS_AT: int := 600
  const STATE_SIZE: int := 912

  /** smallbin_at: the header of a small bin, placed so that its fd and bk are array entries. */
  function SmallBinAt(gm: int, i: int): int {
    gm + SMALLBINS_AT + 16 * i
  }

  /** treebin_at. */
  function TreeBinAt(gm: int, i: int): int {
    gm + TREEBINS_AT + 8 * i
  }

  /** The state of an allocator at one moment, as a value. */
  datatype Snap = Snap(
    mem: Mem,
    smallmap: nat,
    treemap: nat,
    small: seq<seq<int>>,
    trees: seq<Tree>,
    chunks: ChunkMap,
    segs: seq<Segment>,
    dv: int,
    dvsize: int,
    top: int,
    topsize: int)

  /** The system's side of the state: the segment list, the mapped chunks, and the accounts. */
  datatype Sys = Sys(
    base: int,
    size: int,
    isMapped: bool,
    next: int,
    recs: seq<int>,
    maps: seq<int>,
    footprint: int,
    maxFootprint: int,
    noncontiguous: bool)

  ghost function NoSmall(): seq<seq<int>> {
    seq(NBINS, _ => [])
  }

  ghost function NoTrees(): seq<Tree> {
    seq(NBINS, _ => Nil)
  }

  /** The state record in memory is zero. */
  ghost predicate Zeroed(gm: int, m: Mem) {
    forall w :: gm <= w < gm + STATE_SIZE ==> Rd(m, w) == 0
  }

  /** The state before the first call, with whatever is in memory. */
  ghost function NothingYet(m: Mem): Snap {
    Snap(m, 0, 0, NoSmall(), NoTrees(), map[], [], 0, 0, 0, 0)
  }

  class MallocState {
    /** The address of the record itself; bin headers and tree roots are words inside it. */
    const gm: int
    /** mparams: the unit of requests to the system. */
    const granularity: int
    const pageSize: int
    const mmapThreshold: int
    const trimThreshold: int
    var mem: Mem
    var smallmap: nat
    var treemap: nat
    var dvsize: int
    var topsize: int
    var dv: int
    var top: int
    /** seg: the segment that top is in; next leads to the records of the other segments. */
    var segBase: int
    var segSize: int
    var segMapped: bool
    var segNext: int
    var footprint: int
    var maxFootprint: int
    var noncontiguous: bool
    var trimCheck: int
    var releaseChecks: int

    /** The chunks of each small bin, in fd order from its header, and the tries of the treebins. */
    ghost var small: seq<seq<int>>
    ghost var trees: seq<Tree>
    /** The tiling of the segments by chunks. */
    ghost var chunks: ChunkMap
    ghost var segs: seq<Segment>
    /** The records of all segments but the first, and the directly mapped chunks. */
    ghost var recs: seq<int>
    ghost var maps: seq<int>

    /** The zeroed record, with its parameters. */
    constructor (gm: int, granularity: int, pageSize: int, mmapThreshold: int, trimThreshold: int, memory: Mem)
      ensures this.gm == gm && this.granularity == granularity && this.pageSize == pageSize
      ensures this.mmapThreshold == mmapThreshold && this.trimThreshold == trimThreshold
      ensures Now() == NothingYet(memory) && Accounts() == Sys(0, 0, false, 0, [], [], 0, 0, false)
    {
      this.gm, this.granularity, this.pageSize := gm, granularity, pageSize;
      this.mmapThreshold, this.trimThreshold := mmapThreshold, trimThreshold;
      mem := memory;
      smallmap, treemap, dvsize, topsize, dv, top := 0, 0, 0, 0, 0, 0;
      segBase, segSize, segMapped, segNext := 0, 0, false, 0;
      footprint, maxFootprint, noncontiguous, trimCheck, releaseChecks := 0, 0, false, 0, 0;
      small, trees := NoSmall(), NoTrees();
      chunks, segs, recs, maps := map[], [], [], [];
    }

    ghost function Now(): Snap
      reads this
    {
      Snap(mem, smallmap, treemap, small, trees, chunks, segs, dv, dvsize, top, topsize)
    }

    ghost function Accounts(): Sys
      reads this
    {
      Sys(segBase, segSize, segMapped, segNext, recs, maps, footprint, maxFootprint, noncontiguous)
    }
  }
}
