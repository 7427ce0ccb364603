/** The manager on its own objects: the pool, the overflow queue, the directory store and the watch
    map. Every branch of the two main loops, changing them in place, takes them from standing for one
    state of the state machine to standing for the next. */
module ManagerObjects {
  import opened CStrings
  import opened LinkedChain
  import opened KeyedBuckets
  import opened ChainTable
  import opened Queue
  import opened HashTable
  import opened StoreModel
  import opened MemStore
  import opened WorkerReport
  import opened ReportParser
  import opened Marker
  import opened WorkerProcess
  import opened TaskCode
  import opened WorkerPool
  import opened ManagerModel
  import opened ManagerReports
  import opened ManagerSafety
  import opened ManagerSchedule
  import opened ManagerPasses
  import opened ManagerBooks

  /** The watch map's bindings are the state's watches. */
  ghost predicate Binds(bindings: map<int, Pair>, watches: map<int, string>) {
    bindings.Keys == watches.Keys && forall wd :: wd in watches ==> bindings[wd] == Pair(wd, watches[wd])
  }

  // ----- what each object stands for, and what it consists of -----

  ghost predicate PoolIs(pool: Pool, r: set<object>, limit: nat, running: seq<Running>)
    reads r
    ensures PoolIs(pool, r, limit, running) ==> pool in r && pool.count == |pool.workers| == |running| && Reading(pool.workers, running)
  {
    && pool in r && pool.Repr <= r
    && pool.Valid() && pool.buffers.Length == limit && Reading(pool.workers, running)
  }

  ghost predicate QueueIs(queue: ActionQueue, r: set<object>, actions: seq<string>)
    reads r
  {
    && queue in r && (forall n :: n in queue.nodes ==> n in r)
    && queue.Valid() && queue.Contents() == actions
  }

  ghost predicate StoreIs(store: SyncInfoMemStore, r: set<object>, m: map<string, DirInfo>)
    reads r
    ensures StoreIs(store, r, m) ==> store in r && store.size == |m|
  {
    && store in r && store.table in r && store.table.Repr <= r
    && store.Valid() && Refines(store.View(), m)
  }

  ghost predicate WatchesAre(watches: WatchMap, r: set<object>, m: map<int, string>)
    reads r
  {
    && watches in r && watches.table in r && watches.table.Repr <= r
    && watches.Valid() && Binds(watches.Bindings, m)
  }

  method NewPool(limit: nat) returns (pool: Pool, ghost r: set<object>)
    ensures fresh(r) && PoolIs(pool, r, limit, [])
  {
    pool := new Pool(limit);
    r := pool.Repr;
  }

  method NewQueue() returns (queue: ActionQueue, ghost r: set<object>)
    ensures fresh(r) && QueueIs(queue, r, [])
  {
    queue := new ActionQueue();
    r := {queue};
  }

  method NewStore() returns (store: SyncInfoMemStore, ghost r: set<object>)
    ensures fresh(r) && StoreIs(store, r, map[])
  {
    hide SyncInfoMemStore.Valid, SyncInfoMemStore.View, Refines;
    store := new SyncInfoMemStore();
    r := store.Repr();
    NewRefines();
  }

  method NewWatches() returns (watches: WatchMap, ghost r: set<object>)
    ensures fresh(r) && WatchesAre(watches, r, map[])
  {
    hide WatchMap.Valid;
    watches := new WatchMap();
    r := watches.Repr();
  }

  method NewParts(limit: nat)
    returns (pool: Pool, queue: ActionQueue, store: SyncInfoMemStore, watches: WatchMap,
             ghost p: set<object>, ghost q: set<object>, ghost s: set<object>, ghost w: set<object>)
    ensures fresh(p) && fresh(q) && fresh(s) && fresh(w)
    ensures p !! q && p !! s && p !! w && q !! s && q !! w && s !! w
    ensures PoolIs(pool, p, limit, []) && QueueIs(queue, q, []) && StoreIs(store, s, map[]) && WatchesAre(watches, w, map[])
  {
    hide PoolIs, QueueIs, StoreIs, WatchesAre;
    pool, p := NewPool(limit);
    queue, q := NewQueue();
    store, s := NewStore();
    watches, w := NewWatches();
  }

  method AddTo(store: SyncInfoMemStore, v: DirInfo, ghost r: set<object>, ghost m: map<string, DirInfo>) returns (ghost r': set<object>)
    requires StoreIs(store, r, m) && v.source !in m && |m| < MAX_ENTRIES
    modifies r
    ensures StoreIs(store, r', m[v.source := v]) && fresh(r' - r)
  {
    hide SyncInfoMemStore.Valid, SyncInfoMemStore.View, Added, Refines;
    AddRefines(store.View(), v, m);
    store.Add(v);
    r' := r + store.Repr();
  }

  /** A bound descriptor keeps its binding. */
  method BindIn(watches: WatchMap, wd: int, source: string, ghost r: set<object>, ghost m: map<int, string>) returns (ghost r': set<object>)
    requires WatchesAre(watches, r, m)
    modifies r
    ensures WatchesAre(watches, r', if wd in m then m else m[wd := source]) && fresh(r' - r)
  {
    hide WatchMap.Valid;
    watches.Insert(wd, source);
    r' := r + watches.Repr();
  }

  class Manager {
    const limit: nat
    const pool: Pool
    const queue: ActionQueue
    const store: SyncInfoMemStore
    const watches: WatchMap
    var words: seq<string>
    var eof: bool
    var log: seq<LogLine>
    var shutdown: bool
    ghost var poolRepr: set<object>
    ghost var queueRepr: set<object>
    ghost var storeRepr: set<object>
    ghost var watchRepr: set<object>

    ghost function Repr(): set<object>
      reads this
    {
      {this} + poolRepr + queueRepr + storeRepr + watchRepr
    }

    /** No object is a part of two of them. */
    ghost predicate Separate()
      reads this
    {
      && this !in poolRepr && this !in queueRepr && this !in storeRepr && this !in watchRepr
      && poolRepr !! queueRepr && poolRepr !! storeRepr && poolRepr !! watchRepr
      && queueRepr !! storeRepr && queueRepr !! watchRepr && storeRepr !! watchRepr
    }

    /** The objects stand for this state of the state machine. */
    ghost predicate Objects(s: State)
      reads this, Repr()
    {
      && Separate() && limit == s.limit
      && PoolIs(pool, poolRepr, limit, s.running) && QueueIs(queue, queueRepr, s.queue)
      && StoreIs(store, storeRepr, s.store) && WatchesAre(watches, watchRepr, s.watches)
      && words == s.words && eof == s.eof && log == s.log && shutdown == s.shutdown
    }

    constructor (limit: nat, words: seq<string>)
      ensures Objects(Initial(Repaired, limit, words)) && fresh(Repr())
    {
      hide PoolIs, QueueIs, StoreIs, WatchesAre;
      this.limit := limit;
      this.words, eof, log, shutdown := words, false, [], false;
      var p, q, st, w, pr, qr, sr, wr := NewParts(limit);
      pool, queue, store, watches := p, q, st, w;
      poolRepr, queueRepr, storeRepr, watchRepr := pr, qr, sr, wr;
    }

    /** The descriptor of a new pipe is none of the open ones. */
    ghost predicate NewFd(fd: int)
      reads this, pool
    {
      forall k :: 0 <= k < |pool.workers| ==> pool.workers[k].fd != fd
    }

    /** A worker is forked and takes the first free slot. */
    method Start(pid: int, fd: int, ghost s: State, ghost r: Running)
      requires Objects(s) && SlotFree(s) && NewFd(fd) && r.received == ""
      modifies poolRepr
      ensures Objects(s.(running := s.running + [r]))
    {
      hide QueueIs, StoreIs, WatchesAre, Pool.Valid;
      pool.Dispatch(pid, fd);
    }

    method PushAction(action: string, ghost s: State)
      requires Objects(s)
      modifies this`queueRepr, queueRepr
      ensures Objects(s.(queue := s.queue + [action])) && fresh(queueRepr - old(queueRepr)) && pool.workers == old(pool.workers)
    {
      hide PoolIs, StoreIs, WatchesAre, ActionQueue.Valid, IsChain, Values;
      queue.Push(action);
      queueRepr := queueRepr + (set n: object | n in queue.nodes);
    }

    method PopAction(ghost s: State) returns (action: string)
      requires Objects(s) && s.queue != []
      modifies queueRepr
      ensures action == s.queue[0] && Objects(s.(queue := s.queue[1..])) && pool.workers == old(pool.workers)
    {
      hide PoolIs, StoreIs, WatchesAre, ActionQueue.Valid, IsChain, Values;
      action := queue.Pop();
    }

    method QueueIsEmpty(ghost s: State) returns (empty: bool)
      requires Objects(s)
      ensures empty <==> s.queue == []
    {
      hide PoolIs, StoreIs, WatchesAre, ActionQueue.Valid;
      empty := queue.IsEmpty();
    }

    /** sync_info_mem_store_find: null exactly when the store has no such entry. */
    method FindEntry(source: string, ghost s: State) returns (node: Node?<DirInfo>)
      requires Objects(s)
      ensures node == null <==> source !in s.store
      ensures node != null ==> node.value == s.store[source] && node.value.source == source
    {
      hide PoolIs, QueueIs, WatchesAre, SyncInfoMemStore.Valid, SyncInfoMemStore.View, Lookup, Refines;
      node := store.Find(source);
      LookupRefines(store.View(), s.store, source);
      if node != null {
        KeyedBySource(store.View(), s.store, source);
      }
    }

    method SetEntry(v: DirInfo, ghost s: State)
      requires Objects(s) && v.source in s.store
      modifies storeRepr
      ensures Objects(s.(store := s.store[v.source := v])) && pool.workers == old(pool.workers)
    {
      hide PoolIs, QueueIs, WatchesAre, SyncInfoMemStore.Valid, SyncInfoMemStore.View, Updated, Refines;
      UpdateRefines(store.View(), s.store, v);
      store.Update(v);
    }

    method AddEntry(v: DirInfo, ghost s: State)
      requires Objects(s) && v.source !in s.store && |s.store| < MAX_ENTRIES
      modifies this`storeRepr, storeRepr
      ensures Objects(s.(store := s.store[v.source := v])) && fresh(storeRepr - old(storeRepr)) && pool.workers == old(pool.workers)
    {
      hide PoolIs, QueueIs, StoreIs, WatchesAre;
      storeRepr := AddTo(store, v, storeRepr, s.store);
    }

    /** hash_table_insert: a bound descriptor keeps its binding. */
    method BindWatch(wd: int, source: string, ghost s: State)
      requires Objects(s)
      modifies this`watchRepr, watchRepr
      ensures Objects(Watch(s, wd, source)) && fresh(watchRepr - old(watchRepr)) && pool.workers == old(pool.workers)
    {
      hide PoolIs, QueueIs, StoreIs, WatchesAre;
      watchRepr := BindIn(watches, wd, source, watchRepr, s.watches);
    }

    /** hash_table_find: null exactly for a descriptor that is not bound. */
    method FindWatch(wd: int, ghost s: State) returns (node: Node?<Pair>)
      requires Objects(s)
      ensures node == null <==> wd !in s.watches
      ensures node != null ==> node.value == Pair(wd, s.watches[wd])
    {
      hide PoolIs, QueueIs, StoreIs, WatchMap.Valid;
      node := watches.Find(wd);
    }

    /** hash_table_find_key. */
    method FindWatchOf(source: string, ghost s: State) returns (wd: int)
      requires Objects(s)
      ensures FindsKey(s.watches, source, wd)
    {
      hide PoolIs, QueueIs, StoreIs, WatchMap.Valid;
      wd := watches.FindKey(source);
    }

    // ----- the branches of the two loops -----

    /** The end of an iteration of the command loop that has a task: a free slot takes it, otherwise it
        is pushed. */
    method Submit(t: Task, pid: int, fd: int, ghost s: State, ghost tally: Tally)
      requires Objects(s) && NewFd(fd)
      modifies this`queueRepr, poolRepr, queueRepr
      ensures Objects(ManagerModel.Submit(s, t, tally)) && fresh(queueRepr - old(queueRepr))
    {
      hide PoolIs, QueueIs, StoreIs, WatchesAre, Encode;
      if pool.count < limit {
        Start(pid, fd, s, Running(t, tally, ""));
      } else {
        PushAction(Encode(t), s);
      }
    }

    /** An inotify record. Neither find result can be null, so the error exit and the assertion behind
        them are not there. */
    method Notified(wd: int, name: string, kind: Kind, pid: int, fd: int, ghost s: State, ghost tally: Tally)
      requires Objects(s) && NewFd(fd) && StoreOk(s) && wd in s.issued
      modifies this`queueRepr, poolRepr, queueRepr
      ensures Objects(OnNotify(s, wd, name, kind, tally)) && fresh(queueRepr - old(queueRepr))
    {
      hide PoolIs, QueueIs, StoreIs, WatchesAre, ManagerModel.Submit, SaneName;
      var pr := FindWatch(wd, s);
      var source := pr.value.value;
      var dr := FindEntry(source, s);
      if kind != OtherKind {
        Submit(Task(source, dr.value.target, name, ActionOf(kind)), pid, fd, s, tally);
      }
    }

    /** An add command: a directory that is new is added to the store, one that is not active is made
        active again; either way it is watched and synchronised. */
    method AddDirectory(source: string, target: string, wd: int, pid: int, fd: int, ghost s: State, ghost tally: Tally)
      requires Objects(s) && |s.store| < MAX_ENTRIES && NewFd(fd)
      modifies Repr()
      ensures Objects(OnAdd(s, source, target, wd, tally)) && fresh(Repr() - old(Repr()))
    {
      hide PoolIs, QueueIs, StoreIs, WatchesAre, ManagerModel.Submit, OnAdd, Monitored;
      AddIs(s, source, target, wd, tally);
      var entry := FindEntry(source, s);
      if entry != null && entry.value.isActive {
        return;
      }
      EnterDirectory(source, target, wd, entry, s);
      Submit(Task(source, target, "all", "FULL"), pid, fd, Monitored(s, source, target, wd), tally);
    }

    /** A new entry, or the old one made active again for the new target; and its watch. */
    method EnterDirectory(source: string, target: string, wd: int, entry: Node?<DirInfo>, ghost s: State)
      requires Objects(s) && |s.store| < MAX_ENTRIES && (entry == null <==> source !in s.store) && (entry != null ==> entry.value == s.store[source])
      requires source in s.store ==> s.store[source].source == source
      modifies this`log, this`storeRepr, this`watchRepr, storeRepr, watchRepr
      ensures Objects(Monitored(s, source, target, wd))
      ensures fresh(storeRepr - old(storeRepr)) && fresh(watchRepr - old(watchRepr)) && pool.workers == old(pool.workers)
    {
      hide PoolIs, QueueIs, StoreIs, WatchesAre;
      if entry == null {
        AddEntry(DirInfo(source, target, "", "", 0, true, false), s);
      } else {
        SetEntry(entry.value.(isActive := true, target := target), s);
      }
      Monitor(source, wd, s.(store := s.store[source := Entered(s, source, target)]));
    }

    /** inotify_add_watch returned wd: it is bound, and the log says so. */
    method Monitor(source: string, wd: int, ghost s: State)
      requires Objects(s)
      modifies this`log, this`watchRepr, watchRepr
      ensures Objects(Watch(s, wd, source).(log := s.log + [MonitoringStarted(source)]))
      ensures fresh(watchRepr - old(watchRepr)) && pool.workers == old(pool.workers)
    {
      hide PoolIs, QueueIs, StoreIs, WatchesAre;
      BindWatch(wd, source, s);
      log := log + [MonitoringStarted(source)];
    }

    /** A sync command: only for an active directory that is not in the workers. */
    method SyncDirectory(source: string, wd: int, pid: int, fd: int, ghost s: State, ghost tally: Tally)
      requires Objects(s) && NewFd(fd)
      modifies Repr()
      ensures Objects(OnSync(s, source, wd, tally)) && fresh(Repr() - old(Repr()))
    {
      hide PoolIs, QueueIs, StoreIs, WatchesAre, ManagerModel.Submit;
      var info := FindEntry(source, s);
      if info == null || info.value.isInWorkers || !info.value.isActive {
        return;
      }
      var target := info.value.target;
      WatchAgain(source, target, wd, s);
      Submit(Task(source, target, "all", "FULL"), pid, fd, Watch(s, wd, source).(log := s.log + [Syncing(source, target)]), tally);
    }

    /** A synchronised directory is watched again, which keeps a binding there is, and logged. */
    method WatchAgain(source: string, target: string, wd: int, ghost s: State)
      requires Objects(s)
      modifies this`log, this`watchRepr, watchRepr
      ensures Objects(Watch(s, wd, source).(log := s.log + [Syncing(source, target)]))
      ensures fresh(watchRepr - old(watchRepr)) && pool.workers == old(pool.workers)
    {
      hide PoolIs, QueueIs, StoreIs, WatchesAre;
      BindWatch(wd, source, s);
      log := log + [Syncing(source, target)];
    }

    /** A cancel command. The entry of a bound source is there, so the pointer is good. */
    method CancelDirectory(source: string, ghost s: State) returns (wd: int)
      requires Objects(s) && StoreOk(s)
      modifies this`log, storeRepr
      ensures FindsKey(s.watches, source, wd) && Objects(OnCancel(s, source, wd))
    {
      hide PoolIs, QueueIs, StoreIs, WatchesAre, SaneName;
      wd := FindWatchOf(source, s);
      if wd != -1 {
        var dr := FindEntry(source, s);
        if dr.value.isActive {
          SetEntry(dr.value.(isActive := false), s);
          log := log + [MonitoringStopped(source)];
        }
      }
    }

    /** The startup loop's dispatch: watch, log, store, start. */
    method DispatchPair(t: Task, wd: int, pid: int, fd: int, ghost s: State, ghost tally: Tally)
      requires Objects(s) && |s.store| < MAX_ENTRIES && NewFd(fd) && SlotFree(s) && t.source !in s.store
      modifies Repr()
      ensures Objects(StartupDispatch(s, t, tally, wd)) && fresh(Repr() - old(Repr()))
    {
      hide PoolIs, QueueIs, StoreIs, WatchesAre;
      var info := DirInfo(t.source, t.target, "", "", 0, true, true);
      Monitor(t.source, wd, s);
      ghost var s1 := Watch(s, wd, t.source).(log := s.log + [MonitoringStarted(t.source)]);
      AddEntry(info, s1);
      Start(pid, fd, s1.(store := s1.store[t.source := info]), Running(t, tally, ""));
    }

    /** The startup loop has a free slot and a queued pair. */
    method PopPair(wd: int, pid: int, fd: int, ghost s: State, ghost tally: Tally)
      requires Objects(s) && |s.store| < MAX_ENTRIES && NewFd(fd) && Orderly(s) && InStartup(s) && CanPop(s)
      requires DecodeAs(true, s.queue[0]).source !in s.store
      modifies Repr()
      ensures Objects(OnStartupPop(s, tally, wd)) && fresh(Repr() - old(Repr()))
    {
      hide PoolIs, QueueIs, StoreIs, WatchesAre, DecodePair, StartupDispatch, Orderly, DecodeAs, NulFree;
      FirstIsCode(s);
      var buffer := PopAction(s);
      var t := SplitPair(buffer);
      DispatchPair(t.value, wd, pid, fd, s.(queue := s.queue[1..]), tally);
    }

    /** Two fscanf calls, and the words joined. */
    method ReadWords(hitEof: bool, ghost s: State) returns (buffer: string)
      requires Objects(s) && |s.words| >= 2
      modifies this`words, this`eof
      ensures buffer == EncodePair(s.words[0], s.words[1])
      ensures Objects(PairRead(s, hitEof)) && pool.workers == old(pool.workers)
    {
      hide PoolIs, QueueIs, StoreIs, WatchesAre, EncodePair;
      buffer := EncodePair(words[0], words[1]);
      words, eof := words[2..], eof || hitEof;
    }

    /** Fewer than two words are left: the calls run into the end of the file. */
    method ReadTailWord(ghost s: State)
      requires Objects(s)
      modifies this`words, this`eof
      ensures Objects(s.(words := [], eof := true))
    {
      hide PoolIs, QueueIs, StoreIs, WatchesAre;
      words, eof := [], true;
    }

    /** It has not: a pair is read from the config file, and dispatched or pushed. */
    method ReadConfigPair(hitEof: bool, wd: int, pid: int, fd: int, ghost s: State, ghost tally: Tally)
      requires Objects(s) && |s.store| < MAX_ENTRIES && NewFd(fd) && Orderly(s) && InStartup(s) && |s.words| >= 2
      requires SlotFree(s) ==> s.words[0] !in s.store
      modifies Repr()
      ensures Objects(OnReadPair(s, hitEof, tally, wd)) && fresh(Repr() - old(Repr()))
    {
      hide PoolIs, QueueIs, StoreIs, WatchesAre, DecodePair, EncodePair, StartupDispatch, Orderly, NulFree, OnReadPair, PairRead;
      FirstPairIsSane(s);
      PairReadKeeps(s, hitEof);
      ReadPairIs(s, hitEof, wd, tally);
      var buffer := ReadWords(hitEof, s);
      if pool.count < limit {
        var t := SplitPair(buffer);
        DispatchPair(t.value, wd, pid, fd, PairRead(s, hitEof), tally);
      } else {
        PushAction(buffer, PairRead(s, hitEof));
      }
    }

    /** The command loop has a free slot and a queued task: it is popped, cut apart and started. */
    method PopTask(pid: int, fd: int, ghost s: State, ghost tally: Tally)
      requires Objects(s) && NewFd(fd) && Orderly(s) && !InStartup(s) && CanPop(s) && s.mode == Repaired
      modifies poolRepr, queueRepr
      ensures Objects(OnPop(s, tally))
    {
      hide PoolIs, QueueIs, StoreIs, WatchesAre, Decode, Orderly, DecodeAs, NulFree;
      FirstIsCode(s);
      var buffer := PopAction(s);
      var t := Split(buffer);
      Start(pid, fd, s.(queue := s.queue[1..]), Running(t.value, tally, ""));
    }

    // ----- the scanning loop -----

    /** One read by the pool alone: which worker is in which slot, and what has been read of each. */
    method ReadPool(i: nat, ready: map<int, string>, now: string, ghost s: State) returns (finished: bool, outcome: Outcome)
      requires Objects(s) && Orderly(s) && (s.phase == Startup || s.phase == Serving)
      requires i < pool.count && Fits(pool.workers[i], ready) && Readable(pool.workers, i, ready, s)
      modifies poolRepr
      ensures pool.workers == AfterSlot(old(pool.workers), i, ready)
      ensures Objects(s.(running := AfterChunk(s, old(pool.workers)[i], i, ready, now).running))
      ensures Readable(pool.workers, i + 1, ready, AfterChunk(s, old(pool.workers)[i], i, ready, now))
      ensures finished <==> Finishes(old(pool.workers)[i], ready)
      ensures finished ==> var w := old(pool.workers)[i]; outcome == Parse(w.received + ready[w.fd], NO_FIELDS)
    {
      hide QueueIs, StoreIs, WatchesAre, Pool.Valid, Orderly, OnChunk, Parse, Fits, Finishes, AfterSlot, Readable, Reading, Enabled;
      ghost var ws := pool.workers;
      if ws[i].fd in ready {
        SlotIsChunk(ws, i, ready, now, s);
      } else {
        Unread(ws, i, ready, s);
      }
      var report;
      finished, report := pool.ReadSlot(i, ready);
      outcome := report.1;
    }

    /** One turn of the loop: when a report is complete, the entry of the directory it names takes the
        status and the errors. The parse has every field and the entry is there, so the null
        dereferences and the error exit are not. */
    method ReadWorker(i: nat, ready: map<int, string>, now: string, startup: bool, ghost s: State)
      requires Objects(s) && Orderly(s) && (s.phase == Startup || s.phase == Serving) && startup == InStartup(s)
      requires i < pool.count && Fits(pool.workers[i], ready) && Readable(pool.workers, i, ready, s)
      modifies this`log, poolRepr, storeRepr
      ensures pool.workers == AfterSlot(old(pool.workers), i, ready)
      ensures Objects(AfterChunk(s, old(pool.workers)[i], i, ready, now))
      ensures Readable(pool.workers, i + 1, ready, AfterChunk(s, old(pool.workers)[i], i, ready, now))
    {
      hide PoolIs, QueueIs, StoreIs, WatchesAre, Pool.Valid, Orderly, OnChunk, Parse, Fits, AfterSlot, Readable, Enabled, Received, Reading, Finishes,
        InfoAfter, ReportedLine;
      InfoOnly(s, AfterChunk(s, pool.workers[i], i, ready, now).running);
      ghost var ws := pool.workers;
      var finished, outcome := ReadPool(i, ready, now, s);
      if finished {
        ReportConsumed(s, ws, i, ready, now);
        var f := outcome.fields;
        Book(f, now, startup, s.(running := AfterChunk(s, ws[i], i, ready, now).running));
      } else {
        NothingConsumed(s, ws, i, ready, now);
      }
    }

    /** The report's line goes to the log, its status and errors to the directory's entry. */
    method Book(f: Fields, now: string, startup: bool, ghost s: State)
      requires Objects(s) && startup == InStartup(s)
      requires f.source.Some? && f.status.Some? && f.operation.Some? && f.source.value in s.store
      modifies this`log, storeRepr
      ensures Objects(s.(log := s.log + [ReportedLine(f)],
                         store := s.store[f.source.value := InfoAfter(s, now, f.source.value, f.operation.value, f.status.value, f.errors)]))
      ensures pool.workers == old(pool.workers)
    {
      hide PoolIs, QueueIs, StoreIs, WatchesAre, ReportedLine;
      var info := FindEntry(f.source.value, s);
      log := log + [ReportedLine(f)];
      SetEntry(info.value.(errors := info.value.errors + f.errors, lastSync := now, status := f.status.value,
                           isInWorkers := if startup || f.operation.value == "FULL" then false else info.value.isInWorkers),
               s.(log := s.log + [ReportedLine(f)]));
    }
  }

  lemma InfoOnly(s: State, running: seq<Running>)
    ensures forall now, source, operation, status, errors :: source in s.store ==>
              InfoAfter(s.(running := running), now, source, operation, status, errors) == InfoAfter(s, now, source, operation, status, errors)
  {
  }

  /** The entry an add command leaves. */
  ghost function Entered(s: State, source: string, target: string): DirInfo {
    if source in s.store then s.store[source].(isActive := true, target := target)
    else DirInfo(source, target, "", "", 0, true, false)
  }

  /** The state with the entry, the watch and the log line of an added directory. */
  ghost function Monitored(s: State, source: string, target: string, wd: int): State {
    Watch(s.(store := s.store[source := Entered(s, source, target)]), wd, source).(log := s.log + [MonitoringStarted(source)])
  }

  /** What an add command comes to. */
  lemma AddIs(s: State, source: string, target: string, wd: int, tally: Tally)
    ensures OnAdd(s, source, target, wd, tally) ==
              if source in s.store && s.store[source].isActive then s
              else ManagerModel.Submit(Monitored(s, source, target, wd), Task(source, target, "all", "FULL"), tally)
  {
    hide ManagerModel.Submit;
  }

  lemma PairReadKeeps(s: State, hitEof: bool)
    requires |s.words| >= 2
    ensures var s' := PairRead(s, hitEof);
            s'.running == s.running && s'.limit == s.limit && s'.queue == s.queue && s'.store == s.store
  {
  }

  /** The state after slot i was looked at: read if its descriptor is ready. */
  ghost function AfterChunk(s: State, w: Worker, i: nat, ready: map<int, string>, now: string): State
    requires i < |s.running|
  {
    if w.fd in ready then OnChunk(s, i, ready[w.fd], now) else s
  }

  lemma ReportConsumed(s: State, ws: seq<Worker>, i: nat, ready: map<int, string>, now: string)
    requires Orderly(s) && Reading(ws, s.running) && Readable(ws, i, ready, s) && i < |ws| && Finishes(ws[i], ready)
    ensures var s' := AfterChunk(s, ws[i], i, ready, now);
            match Parse(ws[i].received + ready[ws[i].fd], NO_FIELDS)
            case NullDereference => false
            case Parsed(f) =>
              && f.source.Some? && f.status.Some? && f.operation.Some? && f.source.value in s.store
              && s' == s.(running := s'.running, finished := s'.finished, log := s.log + [ReportedLine(f)],
                          store := s.store[f.source.value := InfoAfter(s, now, f.source.value, f.operation.value, f.status.value, f.errors)])
  {
    hide Parse, Found, Printed, SaneTask, SaneTally, QueueOk, WordsOk, StoreOk, InfoAfter;
    FinishIsMeant(s, i, ready[ws[i].fd], now);
  }

  lemma NothingConsumed(s: State, ws: seq<Worker>, i: nat, ready: map<int, string>, now: string)
    requires Reading(ws, s.running) && i < |ws| && !Finishes(ws[i], ready)
    ensures var s' := AfterChunk(s, ws[i], i, ready, now); s' == s.(running := s'.running)
  {
    hide Found;
  }

  lemma KeyedBySource(t: Store, m: map<string, DirInfo>, source: string)
    requires Refines(t, m) && source in m
    ensures m[source].source == source
  {
    hide GoodCapacity, Overloaded;
    var h := BySource(|t.buckets|);
    var i := h.pos(source);
    var a :| 0 <= a < |t.buckets[i]| && h.key(t.buckets[i][a]) == source;
    assert EntryOf(h, t.buckets, i, a, m);
  }

  /** The first action of the queue is text that cuts apart into the task it was made from. */
  lemma FirstIsCode(s: State)
    requires Orderly(s) && s.queue != []
    ensures NulFree(s.queue[0])
    ensures (if InStartup(s) then DecodePair(s.queue[0]) else Decode(s.queue[0])) == Some(DecodeAs(InStartup(s), s.queue[0]))
  {
    hide Decode, DecodePair, StoreOk, RunningOk, WordsOk, DecodeAs, SaneTask;
    var t := DecodeAs(InStartup(s), s.queue[0]);
    assert Coded(InStartup(s), s.queue[0]);
    CodeDecodes(InStartup(s), s.queue[0], t);
    PlainTask(t);
  }

  lemma PlainTask(t: Task)
    requires SaneTask(t)
    ensures NulFree(Encode(t)) && NulFree(EncodePair(t.source, t.target))
  {
    hide IsToken, Occurs;
    assert NulFree(t.action) by { assert t.action in OPERATIONS; }
  }

  lemma FirstPairIsSane(s: State)
    requires Orderly(s) && |s.words| >= 2
    ensures var q := EncodePair(s.words[0], s.words[1]);
            NulFree(q) && DecodePair(q) == Some(Task(s.words[0], s.words[1], "ALL", "FULL"))
  {
    hide DecodePair, EncodePair, StoreOk, RunningOk, QueueOk, SaneName, SaneTask, DecodeAs;
    var t := Task(s.words[0], s.words[1], "ALL", "FULL");
    assert SaneName(s.words[0]) && SaneName(s.words[1]);
    PairIsSane(t);
    CodeDecodes(true, EncodePair(t.source, t.target), t);
    PlainTask(t);
  }
}
