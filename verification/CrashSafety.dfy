/** What the capture store keeps across calls and crashes. */
module CrashSafety {
  import opened Plans
  import opened Lists
  import opened Captures

  /** Everything ever handed to `store`, by capture id. */
  type Log = map<string, string>

  function LogAfter(call: Call, log: Log): Log {
    if call.StoreCall? then log[call.meta.id := call.data] else log
  }

  /** Ids are drawn at random and never repeat. */
  predicate Enabled(call: Call, log: Log) {
    call.StoreCall? ==> call.meta.id !in log
  }

  function WithId(captures: seq<Meta>, id: string): seq<Meta> {
    Filter((m: Meta) => m.id == id, captures)
  }

  ghost predicate UniqueIds(captures: seq<Meta>) {
    forall id :: |WithId(captures, id)| <= 1
  }

  /** No data file holds anything but what was stored under its id. */
  ghost predicate Faithful(disk: Disk, log: Log) {
    forall id :: id in disk.files ==> id in log && disk.files[id] == log[id]
  }

  ghost predicate Logged(disk: Disk, log: Log) {
    forall m :: m in OnDisk(disk) ==> m.id in log
  }

  /** Every capture the index names has its data file. */
  ghost predicate Backed(disk: Disk) {
    forall m :: m in OnDisk(disk) ==> m.id in disk.files
  }

  ghost predicate Sound(disk: Disk, log: Log) {
    Faithful(disk, log) && Logged(disk, log) && UniqueIds(OnDisk(disk))
  }

  /** The cache is the index file, possibly in another order. */
  ghost predicate Coherent(st: State) {
    st.cache.Some? ==> Permuted(st.cache.value, OnDisk(st.disk))
  }

  lemma UniquePermuted(s: seq<Meta>, t: seq<Meta>)
    requires Permuted(s, t) && UniqueIds(s)
    ensures UniqueIds(t)
  {
    forall id ensures |WithId(t, id)| <= 1 {
      FilterPermuted((m: Meta) => m.id == id, s, t);
      assert |WithId(s, id)| <= 1 && |WithId(s, id)| == |WithId(t, id)|;
    }
  }

  lemma {:induction false} WithIdAppend(s: seq<Meta>, m: Meta, id: string)
    ensures |WithId(s + [m], id)| == |WithId(s, id)| + if m.id == id then 1 else 0
  {
    FilterAppend((x: Meta) => x.id == id, s, [m]);
    assert WithId([m], id) == if m.id == id then [m] else [];
  }

  lemma {:induction false} NoneWithId(s: seq<Meta>, id: string)
    requires forall m :: m in s ==> m.id != id
    ensures WithId(s, id) == []
  {
    if s != [] {
      assert s[0] in s;
      NoneWithId(s[1..], id);
    }
  }

  lemma {:induction false} FindFinds(s: seq<Meta>, id: string)
    ensures Find(s, id).Some? ==> Find(s, id).value in s && Find(s, id).value.id == id
    ensures Find(s, id).None? ==> forall m :: m in s ==> m.id != id
  {
    if s != [] {
      FindFinds(s[1..], id);
      assert s == [s[0]] + s[1..];
    }
  }

  /** With unique ids there is one entry to find. */
  lemma {:induction false} UniqueEntry(s: seq<Meta>, m: Meta)
    requires UniqueIds(s) && m in s
    ensures Find(s, m.id) == Some(m)
  {
    FindFinds(s, m.id);
    var found := Find(s, m.id).value;
    FilterMembers((x: Meta) => x.id == m.id, s, m);
    FilterMembers((x: Meta) => x.id == m.id, s, found);
    var all := WithId(s, m.id);
    assert |all| <= 1 && m in all && found in all;
  }

  lemma {:induction false} WithoutKeeps(s: seq<Meta>, gone: string, id: string)
    ensures forall m :: m in Without(s, gone) ==> m in s
    ensures forall m :: m in s && m.id != gone ==> m in Without(s, gone)
    ensures |WithId(Without(s, gone), id)| == if id == gone && Find(s, gone).Some? then |WithId(s, id)| - 1 else |WithId(s, id)|
  {
    if s != [] {
      assert s == [s[0]] + s[1..];
      if s[0].id != gone {
        WithoutKeeps(s[1..], gone, id);
        assert Without(s, gone)[1..] == Without(s[1..], gone);
      }
    }
  }

  lemma RemovalKeepsUnique(s: seq<Meta>, gone: string)
    requires UniqueIds(s)
    ensures UniqueIds(Without(s, gone))
    ensures forall m :: m in Without(s, gone) ==> m in s && (Find(s, gone).Some? ==> m.id != gone)
  {
    forall id ensures |WithId(Without(s, gone), id)| <= 1 {
      WithoutKeeps(s, gone, id);
    }
    WithoutKeeps(s, gone, gone);
    forall m | m in Without(s, gone) && Find(s, gone).Some?
      ensures m.id != gone
    {
      assert |WithId(s, gone)| <= 1;
      FilterMembers((x: Meta) => x.id == gone, Without(s, gone), m);
    }
  }

  lemma {:induction false} FilterKeepsUnique(keep: Meta -> bool, s: seq<Meta>, id: string)
    ensures |WithId(Filter(keep, s), id)| <= |WithId(s, id)|
  {
    if s != [] {
      FilterKeepsUnique(keep, s[1..], id);
      if keep(s[0]) {
        assert Filter(keep, s)[1..] == Filter(keep, s[1..]);
      }
    }
  }

  lemma KnownIsIndex(st: State)
    requires Coherent(st) && UniqueIds(OnDisk(st.disk))
    ensures Permuted(Known(st), OnDisk(st.disk)) && UniqueIds(Known(st))
    ensures forall m :: m in Known(st) <==> m in OnDisk(st.disk)
  {
    UniquePermuted(OnDisk(st.disk), Known(st));
    forall m ensures m in Known(st) <==> m in OnDisk(st.disk) {
      PermutedMembers(Known(st), OnDisk(st.disk), m);
    }
  }

  // ---- one call, cut anywhere ----

  /** The directory after the first `k` file operations of a call. */
  function DiskAt(call: Call, st: State, k: nat): Disk
    requires k <= |DiskOps(call, st)|
  {
    ApplyAll(st.disk, DiskOps(call, st)[..k])
  }

  lemma StoreCut(st: State, log: Log, meta: Meta, data: string, k: nat)
    requires Sound(st.disk, log) && Coherent(st) && meta.id !in log
    requires k <= |DiskOps(StoreCall(meta, data), st)|
    ensures var d := DiskAt(StoreCall(meta, data), st, k);
      && Sound(d, log[meta.id := data])
      && (Backed(st.disk) ==> Backed(d))
      && (k == |DiskOps(StoreCall(meta, data), st)| ==> OnDisk(d) == Opened(st) + [meta] && meta.id in d.files)
      && (forall id :: id in st.disk.files ==> id in d.files)
      && (forall m :: m in OnDisk(st.disk) ==> m in OnDisk(d))
  {
    var ops := DiskOps(StoreCall(meta, data), st);
    KnownIsIndex(st);
    StoreSteps(st, meta, data, k);
    var d := DiskAt(StoreCall(meta, data), st, k);
    assert forall m :: m in Opened(st) <==> m in OnDisk(st.disk);
    UniqueAfterPush(st, log, meta);
    EmptyIsUnique();
  }

  lemma EmptyIsUnique()
    ensures UniqueIds([])
  {
  }

  lemma UniqueAfterPush(st: State, log: Log, meta: Meta)
    requires Sound(st.disk, log) && Coherent(st) && meta.id !in log
    ensures UniqueIds(Opened(st)) && UniqueIds(Opened(st) + [meta])
  {
    KnownIsIndex(st);
    EmptyIsUnique();
    assert UniqueIds(Opened(st));
    forall id ensures |WithId(Opened(st) + [meta], id)| <= 1 {
      WithIdAppend(Opened(st), meta, id);
      if id == meta.id {
        NoneWithId(Opened(st), id);
      }
    }
  }

  /** What the directory looks like inside `store`: the files as they were until the data file is
      written, the index as it was until the last write. */
  ghost predicate InsideStore(st: State, meta: Meta, data: string, k: nat)
    requires k <= |DiskOps(StoreCall(meta, data), st)|
  {
    var last := |DiskOps(StoreCall(meta, data), st)|;
    var d := DiskAt(StoreCall(meta, data), st, k);
    && OnDisk(d) == (if k == last then Opened(st) + [meta] else OnDisk(st.disk))
    && d.files == (if k >= last - 1 then st.disk.files[meta.id := data] else st.disk.files)
  }

  lemma Prefixes<T>(s: seq<T>)
    ensures s[..0] == [] && s[..|s|] == s
    ensures |s| >= 1 ==> s[..1] == [s[0]]
    ensures |s| >= 2 ==> s[..2] == [s[0], s[1]]
  {
  }

  lemma StoreSteps(st: State, meta: Meta, data: string, k: nat)
    requires k <= |DiskOps(StoreCall(meta, data), st)|
    ensures InsideStore(st, meta, data, k)
  {
    if st.disk.index.None? {
      StoreStepsWithoutIndex(st, meta, data, k);
    } else {
      StoreStepsWithIndex(st, meta, data, k);
    }
  }

  lemma StoreStepsWithIndex(st: State, meta: Meta, data: string, k: nat)
    requires st.disk.index.Some? && k <= |DiskOps(StoreCall(meta, data), st)|
    ensures InsideStore(st, meta, data, k)
  {
    hide Opened;
    var write, index := WriteFile(meta.id, data), WriteIndex(Opened(st) + [meta]);
    var ops := DiskOps(StoreCall(meta, data), st);
    assert ops == [write, index];
    Prefixes(ops);
    TrailLast(st.disk, [], write);
    TrailOfTwo(st.disk, ops);
    assert [] + [write] == [write];
  }

  lemma StoreStepsWithoutIndex(st: State, meta: Meta, data: string, k: nat)
    requires st.disk.index.None? && k <= |DiskOps(StoreCall(meta, data), st)|
    ensures InsideStore(st, meta, data, k)
  {
    hide Opened;
    var create, write, index := WriteIndex([]), WriteFile(meta.id, data), WriteIndex(Opened(st) + [meta]);
    var ops := DiskOps(StoreCall(meta, data), st);
    assert ops == [create, write, index];
    Prefixes(ops);
    TrailLast(st.disk, [], create);
    TrailOfTwo(st.disk, [create, write]);
    TrailOfThree(st.disk, ops);
    assert [] + [create] == [create];
  }

  lemma DeleteCut(st: State, log: Log, id: string, k: nat)
    requires Sound(st.disk, log) && Coherent(st)
    requires k <= |DiskOps(DeleteCall(id), st)|
    ensures var d := DiskAt(DeleteCall(id), st, k);
      && Sound(d, log)
      && (Backed(st.disk) ==> Backed(d))
      && (k == |DiskOps(DeleteCall(id), st)| ==> Permuted(CacheAfter(DeleteCall(id), st), OnDisk(d)))
      && (forall other :: other != id && other in st.disk.files ==> other in d.files)
      && (forall m :: m in OnDisk(st.disk) && m.id != id ==> m in OnDisk(d))
  {
    hide UniqueIds, Find, Without, DiskAt;
    KnownIsIndex(st);
    DeleteSteps(st, id, k);
    RemovalKeepsUnique(Known(st), id);
    WithoutKeeps(Known(st), id, id);
  }

  /** Inside `delete` the index goes first, then the file. */
  lemma DeleteSteps(st: State, id: string, k: nat)
    requires k <= |DiskOps(DeleteCall(id), st)|
    ensures var last := |DiskOps(DeleteCall(id), st)|;
      var d := DiskAt(DeleteCall(id), st, k);
      && last == (if Find(Known(st), id).None? then 0 else 2)
      && OnDisk(d) == (if k == 0 then OnDisk(st.disk) else Without(Known(st), id))
      && d.files == (if k == 2 then st.disk.files - {id} else st.disk.files)
  {
    hide Find, Without;
    var ops := DiskOps(DeleteCall(id), st);
    Prefixes(ops);
    if |ops| == 2 {
      TrailOfTwo(st.disk, ops);
      TrailLast(st.disk, [], ops[0]);
      assert [] + [ops[0]] == [ops[0]];
    }
  }

  lemma {:induction false} UnlinkingOnlyDrops(disk: Disk, captures: seq<Meta>, k: nat)
    requires k <= |captures|
    ensures var d := ApplyAll(disk, Unlinks(captures)[..k]);
      && d.index == disk.index
      && (forall id :: id in d.files ==> id in disk.files && d.files[id] == disk.files[id])
      && (forall id :: id in disk.files && (forall m :: m in captures ==> m.id != id) ==> id in d.files)
      && (forall i :: 0 <= i < k ==> captures[i].id !in d.files)
  {
    var ops := Unlinks(captures);
    if k > 0 {
      UnlinkingOnlyDrops(disk, captures, k - 1);
      TrailSnoc(disk, ops, k - 1);
    } else {
      assert ops[..0] == [];
    }
  }

  /** What the directory looks like inside `cleanup`: files go first, the index is rewritten last. */
  lemma CleanupSteps(st: State, cutoff: int, k: nat)
    requires k <= |DiskOps(CleanupCall(cutoff), st)|
    ensures var expired := Expired(Known(st), cutoff);
      var d := DiskAt(CleanupCall(cutoff), st, k);
      && |DiskOps(CleanupCall(cutoff), st)| == |expired| + 1
      && OnDisk(d) == (if k > |expired| then Fresh(Known(st), cutoff) else OnDisk(st.disk))
      && (forall id :: id in d.files ==> id in st.disk.files && d.files[id] == st.disk.files[id])
      && (forall id :: id in st.disk.files && (forall m :: m in expired ==> m.id != id) ==> id in d.files)
  {
    hide Expired, Fresh;
    var expired := Expired(Known(st), cutoff);
    var unlinks, rewrite := Unlinks(expired), WriteIndex(Fresh(Known(st), cutoff));
    var n := |expired|;
    UnlinkingOnlyDrops(st.disk, expired, if k <= n then k else n);
    if k <= n {
      assert (unlinks + [rewrite])[..k] == unlinks[..k];
    } else {
      assert unlinks[..n] == unlinks && (unlinks + [rewrite])[..k] == unlinks + [rewrite];
      TrailLast(st.disk, unlinks, rewrite);
    }
  }

  lemma FreshIsUnique(s: seq<Meta>, cutoff: int)
    requires UniqueIds(s)
    ensures UniqueIds(Fresh(s, cutoff))
  {
    forall id ensures |WithId(Fresh(s, cutoff), id)| <= 1 {
      FilterKeepsUnique((m: Meta) => m.capturedAt >= cutoff, s, id);
      assert |WithId(s, id)| <= 1;
    }
  }

  lemma CleanupCut(st: State, log: Log, cutoff: int, k: nat)
    requires Sound(st.disk, log) && Coherent(st)
    requires k <= |DiskOps(CleanupCall(cutoff), st)|
    ensures var d := DiskAt(CleanupCall(cutoff), st, k);
      && Sound(d, log)
      && (k == |DiskOps(CleanupCall(cutoff), st)| ==> OnDisk(d) == Fresh(Known(st), cutoff))
      && (forall m :: m in OnDisk(st.disk) && m.capturedAt >= cutoff ==> m in OnDisk(d) && (m.id in st.disk.files ==> m.id in d.files))
  {
    hide UniqueIds, Fresh, Expired;
    KnownIsIndex(st);
    CleanupSteps(st, cutoff, k);
    ExpiredIdsAreExpired(Known(st), cutoff);
    FreshIsUnique(Known(st), cutoff);
  }

  /** An entry that stays shares its id with none that goes. */
  lemma ExpiredIdsAreExpired(s: seq<Meta>, cutoff: int)
    requires UniqueIds(s)
    ensures forall m :: m in Fresh(s, cutoff) <==> m in s && m.capturedAt >= cutoff
    ensures forall m, gone :: m in s && m.capturedAt >= cutoff && gone in Expired(s, cutoff) ==> gone.id != m.id
  {
    forall m ensures m in Fresh(s, cutoff) <==> m in s && m.capturedAt >= cutoff {
      FilterMembers((x: Meta) => x.capturedAt >= cutoff, s, m);
    }
    forall m, gone | m in s && m.capturedAt >= cutoff && gone in Expired(s, cutoff)
      ensures gone.id != m.id
    {
      FilterMembers((x: Meta) => x.capturedAt < cutoff, s, gone);
      UniqueEntry(s, m);
      UniqueEntry(s, gone);
    }
  }

  /** Between a clean-up's first removal and its rewrite of the index a file is already missing; before
      and after, and at every point of every other call, the index is as good as it was. */
  lemma CleanupBackedIffAtAnEnd(st: State, log: Log, cutoff: int, k: nat)
    requires Sound(st.disk, log) && Coherent(st) && Backed(st.disk)
    requires k <= |DiskOps(CleanupCall(cutoff), st)|
    ensures Backed(DiskAt(CleanupCall(cutoff), st, k)) <==> k == 0 || k == |DiskOps(CleanupCall(cutoff), st)|
  {
    var call := CleanupCall(cutoff);
    if k == 0 {
      assert DiskOps(call, st)[..0] == [];
    } else if k == |DiskOps(call, st)| {
      CompletedCleanupIsBacked(st, log, cutoff);
    } else {
      InterruptedCleanupDangles(st, log, cutoff, k);
    }
  }

  lemma CompletedCleanupIsBacked(st: State, log: Log, cutoff: int)
    requires Sound(st.disk, log) && Coherent(st) && Backed(st.disk)
    ensures Backed(DiskAt(CleanupCall(cutoff), st, |DiskOps(CleanupCall(cutoff), st)|))
  {
    hide UniqueIds, Fresh, Expired;
    var k := |DiskOps(CleanupCall(cutoff), st)|;
    KnownIsIndex(st);
    CleanupCut(st, log, cutoff, k);
    ExpiredIdsAreExpired(Known(st), cutoff);
  }

  /** Clean-up removes files before it rewrites the index, so a crash in between always leaves the
      index naming a capture whose file is gone. */
  lemma InterruptedCleanupDangles(st: State, log: Log, cutoff: int, k: nat)
    requires Sound(st.disk, log) && Coherent(st)
    requires 0 < k < |DiskOps(CleanupCall(cutoff), st)|
    ensures !Backed(DiskAt(CleanupCall(cutoff), st, k))
  {
    KnownIsIndex(st);
    CleanupSteps(st, cutoff, k);
    var expired := Expired(Known(st), cutoff);
    var ops := DiskOps(CleanupCall(cutoff), st);
    assert ops[..k] == Unlinks(expired)[..k];
    UnlinkingOnlyDrops(st.disk, expired, k);
    FilterMembers((m: Meta) => m.capturedAt < cutoff, Known(st), expired[0]);
    assert expired[0] in OnDisk(DiskAt(CleanupCall(cutoff), st, k));
  }

  /** The cuts that keep every indexed capture's file: all but those inside a clean-up. */
  predicate KeepsFiles(call: Call, st: State, k: nat)
    requires k <= |DiskOps(call, st)|
  {
    call.CleanupCall? ==> k == 0 || k == |DiskOps(call, st)|
  }

  lemma CutKeepsSound(call: Call, st: State, log: Log, k: nat)
    requires Sound(st.disk, log) && Coherent(st) && Enabled(call, log)
    requires k <= |DiskOps(call, st)|
    ensures Sound(DiskAt(call, st, k), LogAfter(call, log))
    ensures Backed(st.disk) ==> (Backed(DiskAt(call, st, k)) <==> KeepsFiles(call, st, k))
  {
    match call
    case StoreCall(meta, data) => StoreCut(st, log, meta, data, k);
    case DeleteCall(id) => DeleteCut(st, log, id, k);
    case CleanupCall(cutoff) =>
      CleanupCut(st, log, cutoff, k);
      if Backed(st.disk) {
        CleanupBackedIffAtAnEnd(st, log, cutoff, k);
      }
    case ListCall => assert DiskOps(call, st)[..k] == [];
    case ReadCall => assert DiskOps(call, st)[..k] == [];
  }

  lemma PerformKeepsCoherent(call: Call, st: State, log: Log)
    requires Sound(st.disk, log) && Coherent(st) && Enabled(call, log)
    ensures Coherent(Perform(call, st))
  {
    var ops := DiskOps(call, st);
    assert ops[..|ops|] == ops;
    match call
    case StoreCall(meta, data) => StoreCut(st, log, meta, data, |ops|);
    case DeleteCall(id) => DeleteCut(st, log, id, |ops|);
    case CleanupCall(cutoff) => CleanupCut(st, log, cutoff, |ops|);
    case ListCall =>
      SortByPermutes(Newer, Known(st));
      KnownIsIndex(st);
    case ReadCall =>
      KnownIsIndex(st);
  }

  // ---- whole histories ----

  datatype Happening = Completes(call: Call) | Crashes(call: Call, after: nat)

  datatype World = World(state: State, log: Log)

  function Begin(): World {
    World(State(Disk(None, map[]), None), map[])
  }

  predicate CanHappen(x: World, e: Happening) {
    Enabled(e.call, x.log) && (e.Crashes? ==> e.after <= |DiskOps(e.call, x.state)|)
  }

  function Happen(x: World, e: Happening): World
    requires CanHappen(x, e)
  {
    World(if e.Completes? then Perform(e.call, x.state) else Interrupted(e.call, x.state, e.after), LogAfter(e.call, x.log))
  }

  predicate Possible(events: seq<Happening>)
    decreases events, 0
  {
    events == [] || (Possible(events[..|events| - 1]) && CanHappen(Result(events[..|events| - 1]), events[|events| - 1]))
  }

  function Result(events: seq<Happening>): World
    requires Possible(events)
    decreases events, 1
  {
    if events == [] then Begin() else Happen(Result(events[..|events| - 1]), events[|events| - 1])
  }

  function After(e: Happening, x: World): nat
    requires CanHappen(x, e)
  {
    if e.Crashes? then e.after else |DiskOps(e.call, x.state)|
  }

  /** No crash fell between a clean-up's first removal and its rewrite of the index. */
  ghost predicate NoCleanupCut(events: seq<Happening>)
    requires Possible(events)
  {
    events == [] ||
      var init, last := events[..|events| - 1], events[|events| - 1];
      NoCleanupCut(init) && KeepsFiles(last.call, Result(init).state, After(last, Result(init)))
  }

  /** At every crash point of every run: no file holds another capture's data, ids in the index are
      unique and were stored, and, unless a crash cut a clean-up short, every indexed capture has its
      file. */
  lemma {:induction false} CrashSafe(events: seq<Happening>)
    requires Possible(events)
    ensures var x := Result(events);
      Sound(x.state.disk, x.log) && Coherent(x.state) && (NoCleanupCut(events) ==> Backed(x.state.disk))
  {
    if events != [] {
      var init, last := events[..|events| - 1], events[|events| - 1];
      CrashSafe(init);
      var x := Result(init);
      var ops := DiskOps(last.call, x.state);
      assert ops[..|ops|] == ops;
      CutKeepsSound(last.call, x.state, x.log, After(last, x));
      PerformKeepsCoherent(last.call, x.state, x.log);
    } else {
      EmptyIsUnique();
    }
  }

  /** The first crash inside a clean-up is also what breaks the index: after a run whose earlier part
      was spared, every indexed capture has its file exactly when the last event did not cut a clean-up. */
  lemma FirstCleanupCutBreaks(events: seq<Happening>)
    requires events != [] && Possible(events) && NoCleanupCut(events[..|events| - 1])
    ensures Backed(Result(events).state.disk) <==> NoCleanupCut(events)
  {
    var init, last := events[..|events| - 1], events[|events| - 1];
    CrashSafe(init);
    var x := Result(init);
    var ops := DiskOps(last.call, x.state);
    assert ops[..|ops|] == ops;
    CutKeepsSound(last.call, x.state, x.log, After(last, x));
  }

  /** After any run, a new process reads for an id nothing, or exactly what was stored under it; without
      a clean-up cut short it reads something exactly for the ids in the index. */
  lemma GetIsNeverWrong(events: seq<Happening>, id: string)
    requires Possible(events)
    ensures var x := Result(events);
      var found := Lookup(State(x.state.disk, None), id);
      && (found.Some? ==> found.value.0.id == id && id in x.log && found.value.1 == x.log[id])
      && (NoCleanupCut(events) ==> (found.Some? <==> exists m :: m in OnDisk(x.state.disk) && m.id == id))
  {
    CrashSafe(events);
    FindFinds(OnDisk(Result(events).state.disk), id);
  }

  ghost predicate Spares(call: Call, m: Meta) {
    match call
    case DeleteCall(id) => id != m.id
    case CleanupCall(cutoff) => m.capturedAt >= cutoff
    case _ => true
  }

  /** A stored capture stays readable, through crashes too, until it is deleted or expires. */
  lemma StoredStaysReadable(call: Call, st: State, log: Log, k: nat, m: Meta, data: string)
    requires Sound(st.disk, log) && Coherent(st) && Enabled(call, log) && k <= |DiskOps(call, st)|
    requires Lookup(State(st.disk, None), m.id) == Some((m, data)) && Spares(call, m)
    ensures Lookup(State(DiskAt(call, st, k), None), m.id) == Some((m, data))
  {
    var d := DiskAt(call, st, k);
    FindFinds(OnDisk(st.disk), m.id);
    CutKeepsSound(call, st, log, k);
    match call {
      case StoreCall(meta, stored) => StoreCut(st, log, meta, stored, k);
      case DeleteCall(id) => DeleteCut(st, log, id, k);
      case CleanupCall(cutoff) => CleanupCut(st, log, cutoff, k);
      case ListCall => assert DiskOps(call, st)[..k] == [];
      case ReadCall => assert DiskOps(call, st)[..k] == [];
    }
    UniqueEntry(OnDisk(d), m);
    assert data == log[m.id] == LogAfter(call, log)[m.id];
  }

  lemma StoreIsReadable(st: State, log: Log, meta: Meta, data: string)
    requires Sound(st.disk, log) && Coherent(st) && meta.id !in log
    ensures Lookup(State(Perform(StoreCall(meta, data), st).disk, None), meta.id) == Some((meta, data))
  {
    var ops := DiskOps(StoreCall(meta, data), st);
    assert ops[..|ops|] == ops;
    StoreCut(st, log, meta, data, |ops|);
    UniqueEntry(OnDisk(DiskAt(StoreCall(meta, data), st, |ops|)), meta);
  }
}
