/** The capture store (src/framework/capture-store.ts): a metadata index, one data file per capture,
    and what a crash between two file operations can leave behind. */
module Captures {
  import opened Plans
  import opened Lists

  /** Metadata of a capture. `capturedAt` orders as the ISO timestamps do. */
  datatype Meta = Meta(id: string, name: string, captureType: string, capturedAt: int, stepId: Option<string>, rollbackCapable: bool)

  /** The capture directory: the index file, absent until it is first written, and the data files. */
  datatype Disk = Disk(index: Option<seq<Meta>>, files: map<string, string>)

  datatype DiskOp = WriteIndex(captures: seq<Meta>) | WriteFile(id: string, data: string) | Unlink(id: string)

  function Apply(disk: Disk, op: DiskOp): Disk {
    match op
    case WriteIndex(captures) => disk.(index := Some(captures))
    case WriteFile(id, data) => disk.(files := disk.files[id := data])
    case Unlink(id) => disk.(files := disk.files - {id})
  }

  function ApplyAll(disk: Disk, ops: seq<DiskOp>): Disk {
    if ops == [] then disk else Apply(ApplyAll(disk, ops[..|ops| - 1]), ops[|ops| - 1])
  }

  function OnDisk(disk: Disk): seq<Meta> {
    if disk.index.Some? then disk.index.value else []
  }

  datatype State = State(disk: Disk, cache: Option<seq<Meta>>)

  /** `readIndex`: the cache if there is one, else what the file holds. */
  function Known(st: State): seq<Meta> {
    if st.cache.Some? then st.cache.value else OnDisk(st.disk)
  }

  function Find(captures: seq<Meta>, id: string): Option<Meta> {
    if captures == [] then None else if captures[0].id == id then Some(captures[0]) else Find(captures[1..], id)
  }

  /** `splice` at the index of the first entry with the id. */
  function Without(captures: seq<Meta>, id: string): seq<Meta> {
    if captures == [] then []
    else if captures[0].id == id then captures[1..]
    else [captures[0]] + Without(captures[1..], id)
  }

  function Expired(captures: seq<Meta>, cutoff: int): seq<Meta> {
    Filter((m: Meta) => m.capturedAt < cutoff, captures)
  }

  function Fresh(captures: seq<Meta>, cutoff: int): seq<Meta> {
    Filter((m: Meta) => m.capturedAt >= cutoff, captures)
  }

  function Unlinks(captures: seq<Meta>): (ops: seq<DiskOp>)
    ensures |ops| == |captures|
  {
    seq(|captures|, i requires 0 <= i < |captures| => Unlink(captures[i].id))
  }

  predicate Newer(a: Meta, b: Meta) {
    a.capturedAt > b.capturedAt
  }

  /** `sort((a, b) => b.capturedAt.localeCompare(a.capturedAt))`: newest first, stable. */
  function NewestFirst(captures: seq<Meta>): seq<Meta> {
    SortBy(Newer, captures)
  }

  predicate NotOlder(a: Meta, b: Meta) {
    a.capturedAt >= b.capturedAt
  }

  /** A listing holds the given captures with the newest first, those of one instant in the order given. */
  lemma ListingIsNewestFirst(captures: seq<Meta>, time: int)
    ensures var listed, atOnce := NewestFirst(captures), (m: Meta) => m.capturedAt == time;
      && Permuted(listed, captures)
      && (forall i, j :: 0 <= i < j < |listed| ==> listed[i].capturedAt >= listed[j].capturedAt)
      && Filter(atOnce, listed) == Filter(atOnce, captures)
  {
    SortByOrders(Newer, NotOlder, captures);
    SortByIsStable(Newer, NotOlder, captures, (m: Meta) => m.capturedAt == time);
    var listed := NewestFirst(captures);
    assert forall i, j :: 0 <= i < j < |listed| ==> NotOlder(listed[i], listed[j]);
  }

  /** `ListCall` is the listing of everything, which sorts the cache in place; `ReadCall` stands for the
      calls that only read the index: `get`, a filtered listing, a `delete` that finds nothing. */
  datatype Call = StoreCall(meta: Meta, data: string) | DeleteCall(id: string) | CleanupCall(cutoff: int) | ListCall | ReadCall

  /** The index `store` goes on to extend: empty when `initialize` has just written it. */
  function Opened(st: State): seq<Meta> {
    if st.disk.index.None? then [] else Known(st)
  }

  /** The file operations of a call, in order. */
  function DiskOps(call: Call, st: State): seq<DiskOp> {
    match call
    case StoreCall(meta, data) =>
      (if st.disk.index.None? then [WriteIndex([])] else []) + [WriteFile(meta.id, data), WriteIndex(Opened(st) + [meta])]
    case DeleteCall(id) =>
      if Find(Known(st), id).None? then [] else [WriteIndex(Without(Known(st), id)), Unlink(id)]
    case CleanupCall(cutoff) => Unlinks(Expired(Known(st), cutoff)) + [WriteIndex(Fresh(Known(st), cutoff))]
    case ListCall => []
    case ReadCall => []
  }

  /** The cache after the call. */
  function CacheAfter(call: Call, st: State): seq<Meta> {
    match call
    case StoreCall(meta, _) => Opened(st) + [meta]
    case DeleteCall(id) => if Find(Known(st), id).None? then Known(st) else Without(Known(st), id)
    case CleanupCall(cutoff) => Fresh(Known(st), cutoff)
    case ListCall => NewestFirst(Known(st))
    case ReadCall => Known(st)
  }

  /** After a listing of everything, what the store knows is in that order. */
  lemma ListingSortsWhatIsKnown(st: State)
    ensures var known := Known(Perform(ListCall, st));
      Permuted(known, Known(st)) && forall i, j :: 0 <= i < j < |known| ==> known[i].capturedAt >= known[j].capturedAt
  {
    ListingIsNewestFirst(Known(st), 0);
  }

  /** What a listing returns; with a filter it sorts a copy. */
  function Listed(filter: Option<Meta -> bool>, st: State): seq<Meta> {
    NewestFirst(if filter.Some? then Filter(filter.value, Known(st)) else Known(st))
  }

  /** With a filter the listing holds the captures that pass it, and without one all of them. */
  lemma ListedIff(filter: Option<Meta -> bool>, st: State, m: Meta)
    ensures m in Listed(filter, st) <==> m in Known(st) && (filter.Some? ==> filter.value(m))
  {
    var captures := if filter.Some? then Filter(filter.value, Known(st)) else Known(st);
    ListingIsNewestFirst(captures, 0);
    PermutedMembers(NewestFirst(captures), captures, m);
    if filter.Some? {
      FilterMembers(filter.value, Known(st), m);
    }
  }

  function Perform(call: Call, st: State): State {
    State(ApplyAll(st.disk, DiskOps(call, st)), Some(CacheAfter(call, st)))
  }

  /** A store into a directory without an index starts a new one, whatever was cached; otherwise the capture
      comes after those already known. */
  lemma StoreExtendsTheIndex(st: State, meta: Meta, data: string)
    ensures var disk := Perform(StoreCall(meta, data), st).disk;
      && disk.index == Some((if st.disk.index.None? then [] else Known(st)) + [meta])
      && disk.files == st.disk.files[meta.id := data]
  {
    var ops := DiskOps(StoreCall(meta, data), st);
    if st.disk.index.None? {
      TrailOfThree(st.disk, ops);
    } else {
      TrailOfTwo(st.disk, ops);
    }
  }

  /** The process dies after `k` file operations of the call; the next one starts without a cache. */
  function Interrupted(call: Call, st: State, k: nat): State
    requires k <= |DiskOps(call, st)|
  {
    State(ApplyAll(st.disk, DiskOps(call, st)[..k]), None)
  }

  /** `get`: the metadata in the index and the content of its file; `None` if either is missing. */
  function Lookup(st: State, id: string): Option<(Meta, string)> {
    var meta := Find(Known(st), id);
    if meta.None? || id !in st.disk.files then None else Some((meta.value, st.disk.files[id]))
  }

  /** The store object. `trail` records the directory after every file operation. */
  class CaptureStore {
    var disk: Disk
    var indexCache: Option<seq<Meta>>
    ghost var trail: seq<Disk>

    constructor (disk: Disk)
      ensures this.disk == disk && indexCache == None && trail == []
    {
      this.disk, indexCache, trail := disk, None, [];
    }

    ghost function Now(): State
      reads this
    {
      State(disk, indexCache)
    }

    method Write(op: DiskOp)
      modifies this`disk, this`trail
      ensures disk == Apply(old(disk), op) && trail == old(trail) + [disk]
    {
      match op {
        case WriteIndex(captures) => disk := disk.(index := Some(captures));
        case WriteFile(id, data) => disk := disk.(files := disk.files[id := data]);
        case Unlink(id) => disk := disk.(files := disk.files - {id});
      }
      trail := trail + [disk];
    }

    method ReadIndex() returns (captures: seq<Meta>)
      modifies this`indexCache
      ensures captures == Known(old(Now())) && indexCache == Some(captures)
    {
      if indexCache.Some? {
        return indexCache.value;
      }
      captures := if disk.index.Some? then disk.index.value else [];
      indexCache := Some(captures);
    }

    method WriteBack(captures: seq<Meta>)
      modifies this
      ensures indexCache == Some(captures)
      ensures disk == Apply(old(disk), WriteIndex(captures)) && trail == old(trail) + [disk]
    {
      indexCache := Some(captures);
      Write(WriteIndex(captures));
    }

    method Store(meta: Meta, data: string)
      modifies this
      ensures Now() == Perform(StoreCall(meta, data), old(Now()))
      ensures trail == old(trail) + Trail(old(disk), DiskOps(StoreCall(meta, data), old(Now())))
    {
      ghost var ops := DiskOps(StoreCall(meta, data), Now());
      ghost var start := disk;
      if disk.index.None? {
        WriteBack([]);
      }
      Write(WriteFile(meta.id, data));
      var captures := ReadIndex();
      WriteBack(captures + [meta]);
      if start.index.None? {
        TrailOfThree(start, ops);
      } else {
        TrailOfTwo(start, ops);
      }
    }

    method Get(id: string) returns (found: Option<(Meta, string)>)
      modifies this`indexCache
      ensures found == Lookup(old(Now()), id)
      ensures Now() == Perform(ReadCall, old(Now()))
    {
      var captures := ReadIndex();
      var meta := Find(captures, id);
      if meta.None? || id !in disk.files {
        return None;
      }
      found := Some((meta.value, disk.files[id]));
    }

    /** `filter` is the conjunction of the fields given, `None` when no filter object is passed. */
    method List(filter: Option<Meta -> bool>) returns (captures: seq<Meta>)
      modifies this`indexCache
      ensures captures == Listed(filter, old(Now()))
      ensures Now() == Perform(if filter.Some? then ReadCall else ListCall, old(Now()))
    {
      captures := ReadIndex();
      if filter.Some? {
        return NewestFirst(Filter(filter.value, captures));
      }
      captures := NewestFirst(captures);
      indexCache := Some(captures);
    }

    method Delete(id: string) returns (found: bool)
      modifies this
      ensures Now() == Perform(DeleteCall(id), old(Now()))
      ensures found == Find(Known(old(Now())), id).Some?
      ensures trail == old(trail) + Trail(old(disk), DiskOps(DeleteCall(id), old(Now())))
    {
      ghost var ops := DiskOps(DeleteCall(id), Now());
      ghost var start := disk;
      var captures := ReadIndex();
      if Find(captures, id).None? {
        return false;
      }
      WriteBack(Without(captures, id));
      Write(Unlink(id));
      TrailOfTwo(start, ops);
      found := true;
    }

    /** `age` is the parsed duration; one that does not parse is zero, and nothing happens then. */
    method Cleanup(age: int, now: int) returns (count: nat)
      modifies this
      ensures age <= 0 ==> count == 0 && Now() == old(Now()) && trail == old(trail)
      ensures age > 0 ==>
        && Now() == Perform(CleanupCall(now - age), old(Now()))
        && count == |Expired(Known(old(Now())), now - age)|
        && trail == old(trail) + Trail(old(disk), DiskOps(CleanupCall(now - age), old(Now())))
    {
      if age <= 0 {
        return 0;
      }
      count := RemoveOlder(now - age);
    }

    method RemoveOlder(cutoff: int) returns (count: nat)
      modifies this
      ensures Now() == Perform(CleanupCall(cutoff), old(Now()))
      ensures count == |Expired(Known(old(Now())), cutoff)|
      ensures trail == old(trail) + Trail(old(disk), DiskOps(CleanupCall(cutoff), old(Now())))
    {
      hide Trail, ApplyAll, Apply, Unlinks, Expired, Fresh;
      var captures := ReadIndex();
      var expired := Expired(captures, cutoff);
      RemoveFiles(expired);
      WriteBack(Fresh(captures, cutoff));
      TrailLast(old(disk), Unlinks(expired), WriteIndex(Fresh(captures, cutoff)));
      count := |expired|;
    }

    /** The loop over the expired captures; a file that is already gone is passed over. */
    method RemoveFiles(expired: seq<Meta>)
      modifies this`disk, this`trail
      ensures disk == ApplyAll(old(disk), Unlinks(expired))
      ensures trail == old(trail) + Trail(old(disk), Unlinks(expired))
    {
      ghost var start, ops := disk, Unlinks(expired);
      for i := 0 to |expired|
        invariant disk == ApplyAll(start, ops[..i])
        invariant trail == old(trail) + Trail(start, ops[..i])
      {
        Write(Unlink(expired[i].id));
        TrailSnoc(start, ops, i);
      }
      assert ops[..|expired|] == ops;
    }
  }

  /** The directory after each operation of a list. */
  function Trail(disk: Disk, ops: seq<DiskOp>): (trail: seq<Disk>)
    ensures |trail| == |ops|
  {
    seq(|ops|, i requires 0 <= i < |ops| => ApplyAll(disk, ops[..i + 1]))
  }

  lemma TrailSnoc(disk: Disk, ops: seq<DiskOp>, i: nat)
    requires i < |ops|
    ensures ApplyAll(disk, ops[..i + 1]) == Apply(ApplyAll(disk, ops[..i]), ops[i])
    ensures Trail(disk, ops[..i + 1]) == Trail(disk, ops[..i]) + [ApplyAll(disk, ops[..i + 1])]
  {
    assert ops[..i + 1][..i] == ops[..i];
    forall k | 0 <= k < i
      ensures Trail(disk, ops[..i + 1])[k] == Trail(disk, ops[..i])[k]
    {
      assert ops[..i + 1][..k + 1] == ops[..i][..k + 1];
    }
    assert ops[..i + 1][..i + 1] == ops[..i + 1];
  }

  lemma TrailLast(disk: Disk, ops: seq<DiskOp>, last: DiskOp)
    ensures ApplyAll(disk, ops + [last]) == Apply(ApplyAll(disk, ops), last)
    ensures Trail(disk, ops + [last]) == Trail(disk, ops) + [ApplyAll(disk, ops + [last])]
  {
    var all := ops + [last];
    TrailSnoc(disk, all, |ops|);
    assert all[..|ops|] == ops && all[..|ops| + 1] == all;
  }

  lemma TrailOfTwo(disk: Disk, ops: seq<DiskOp>)
    requires |ops| == 2
    ensures Trail(disk, ops) == [Apply(disk, ops[0]), Apply(Apply(disk, ops[0]), ops[1])]
    ensures ApplyAll(disk, ops) == Apply(Apply(disk, ops[0]), ops[1])
  {
    TrailSnoc(disk, ops, 0);
    TrailSnoc(disk, ops, 1);
    assert ops[..0] == [] && ops[..2] == ops;
  }

  lemma TrailOfThree(disk: Disk, ops: seq<DiskOp>)
    requires |ops| == 3
    ensures Trail(disk, ops) == [Apply(disk, ops[0]), Apply(Apply(disk, ops[0]), ops[1]), Apply(Apply(Apply(disk, ops[0]), ops[1]), ops[2])]
    ensures ApplyAll(disk, ops) == Apply(Apply(Apply(disk, ops[0]), ops[1]), ops[2])
  {
    TrailSnoc(disk, ops, 0);
    TrailSnoc(disk, ops, 1);
    TrailSnoc(disk, ops, 2);
    assert ops[..0] == [] && ops[..3] == ops;
  }
}
