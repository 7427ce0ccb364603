/** The two main loops of the manager, iteration by iteration, on its objects: every iteration appends
    its events to a run of the state machine from its initial state, so at any time the objects stand
    for a state that run reaches, and what holds of every run holds of them. */
module ManagerLoop {
  import opened CStrings
  import opened KeyedBuckets
  import opened HashTable
  import opened StoreModel
  import opened WorkerReport
  import opened Marker
  import opened WorkerProcess
  import opened TaskCode
  import opened WorkerPool
  import opened ManagerModel
  import opened ManagerReports
  import opened ManagerSafety
  import opened ManagerSchedule
  import opened ManagerPasses
  import opened ManagerBooks
  import opened ManagerRuns
  import opened ManagerConsole
  import opened ManagerObjects

  // ----- the scanning pass -----

  /** Every live slot is read once if it is ready; the events are those of the pass. */
  method ReadPass(m: Manager, ready: map<int, string>, now: string, startup: bool, ghost p0: Progress) returns (ghost p: Progress)
    requires m.Objects(p0.state) && Reached(p0) && (p0.state.phase == Startup || p0.state.phase == Serving)
    requires startup == InStartup(p0.state)
    requires |m.pool.workers| == |p0.state.running| && Readable(m.pool.workers, 0, ready, p0.state)
    requires forall k :: 0 <= k < |m.pool.workers| ==> Fits(m.pool.workers[k], ready)
    modifies m`log, m.poolRepr, m.storeRepr
    ensures m.Objects(p.state) && Reached(p) && p.state.phase == p0.state.phase
    ensures p.limit == p0.limit && p.config == p0.config
    ensures p.events == p0.events + PassEvents(old(m.pool.workers), 0, ready, now)
  {
    hide PoolIs, QueueIs, StoreIs, WatchesAre, Reached, Orderly, Next, Enabled, Readable, Fits, AfterSlot, PassEvents, AfterChunk;
    p := p0;
    ghost var all := p0.events + PassEvents(m.pool.workers, 0, ready, now);
    var i := 0;
    while i < m.pool.count
      invariant m.Objects(p.state) && Reached(p) && p.state.phase == p0.state.phase
      invariant p.limit == p0.limit && p.config == p0.config
      invariant p.events + PassEvents(m.pool.workers, i, ready, now) == all
      invariant |m.pool.workers| == |p.state.running| && Readable(m.pool.workers, i, ready, p.state)
      invariant forall k :: i <= k < |m.pool.workers| ==> Fits(m.pool.workers[k], ready)
      decreases m.pool.count - i
    {
      p := ReadOne(m, i, ready, now, startup, p);
      i := i + 1;
    }
    PassOver(m.pool.workers, i, ready, now);
  }

  /** One turn of the loop. */
  method ReadOne(m: Manager, i: nat, ready: map<int, string>, now: string, startup: bool, ghost p: Progress) returns (ghost q: Progress)
    requires m.Objects(p.state) && Reached(p) && (p.state.phase == Startup || p.state.phase == Serving)
    requires startup == InStartup(p.state) && i < m.pool.count
    requires |m.pool.workers| == |p.state.running| && Readable(m.pool.workers, i, ready, p.state)
    requires forall k :: i <= k < |m.pool.workers| ==> Fits(m.pool.workers[k], ready)
    modifies m`log, m.poolRepr, m.storeRepr
    ensures m.Objects(q.state) && Reached(q) && q.state.phase == p.state.phase && q.limit == p.limit && q.config == p.config
    ensures q.events + PassEvents(m.pool.workers, i + 1, ready, now) == p.events + PassEvents(old(m.pool.workers), i, ready, now)
    ensures |m.pool.workers| == |q.state.running| && Readable(m.pool.workers, i + 1, ready, q.state)
    ensures forall k :: i + 1 <= k < |m.pool.workers| ==> Fits(m.pool.workers[k], ready)
    ensures m.pool.count <= old(m.pool.count)
  {
    hide PoolIs, QueueIs, StoreIs, WatchesAre, Reached, Orderly, Next, Enabled, Readable, Fits, AfterSlot, PassEvents, AfterChunk;
    ghost var ws := m.pool.workers;
    assert Fits(ws[i], ready);
    ReachedIsSound(p);
    m.ReadWorker(i, ready, now, startup, p.state);
    PassStep(ws, i, ready);
    NoLonger(ws, i, ready);
    q := SlotRead(p, ws, i, ready, now);
  }

  lemma NoLonger(ws: seq<Worker>, i: nat, ready: map<int, string>)
    requires i < |ws|
    ensures |AfterSlot(ws, i, ready)| <= |ws|
  {
  }

  lemma PassOver(ws: seq<Worker>, i: nat, ready: map<int, string>, now: string)
    requires i >= |ws|
    ensures PassEvents(ws, i, ready, now) == []
  {
  }

  lemma PassEventsStep(ws: seq<Worker>, i: nat, ready: map<int, string>, now: string)
    requires i < |ws|
    ensures PassEvents(ws, i, ready, now) ==
              (if ws[i].fd in ready then [Chunk(i, ready[ws[i].fd], now)] else []) + PassEvents(AfterSlot(ws, i, ready), i + 1, ready, now)
  {
  }

  lemma ReadIsNext(s: State, e: Event)
    requires e.Chunk? && Enabled(s, e)
    ensures SaneEvent(e) && Genuine(s, e) && e.slot < |s.running| && Next(s, e) == OnChunk(s, e.slot, e.chunk, e.now)
  {
  }

  /** One slot of a pass, as a step of the run. */
  lemma SlotRead(p: Progress, ws: seq<Worker>, i: nat, ready: map<int, string>, now: string) returns (q: Progress)
    requires Reached(p) && Orderly(p.state) && (p.state.phase == Startup || p.state.phase == Serving)
    requires i < |ws| && Reading(ws, p.state.running) && Readable(ws, i, ready, p.state)
    ensures Reached(q) && q.limit == p.limit && q.config == p.config && q.state.phase == p.state.phase
    ensures q.state == AfterChunk(p.state, ws[i], i, ready, now)
    ensures q.events + PassEvents(AfterSlot(ws, i, ready), i + 1, ready, now) == p.events + PassEvents(ws, i, ready, now)
  {
    hide Reached, Orderly, OnChunk, Next, Readable, AfterSlot, Enabled, PassEvents, SaneEvent, Genuine;
    PassEventsStep(ws, i, ready, now);
    if ws[i].fd in ready {
      var e := Chunk(i, ready[ws[i].fd], now);
      SlotIsChunk(ws, i, ready, now, p.state);
      ReadIsNext(p.state, e);
      ReachedNext(p, e);
      q := Then(p, e);
    } else {
      Unread(ws, i, ready, p.state);
      q := p;
    }
  }

  // ----- the rest of a startup iteration -----

  /** What an iteration of the startup loop does after the pass. */
  function StartupEvent(s: State, hitEof: bool, tally: Tally, wd: int): Event {
    if CanPop(s) then StartupPop(tally, wd) else if |s.words| < 2 then ReadTail else ReadPair(hitEof, tally, wd)
  }

  /** The startup loop goes on. */
  method StartupContinues(m: Manager, ghost p: Progress) returns (yes: bool)
    requires m.Objects(p.state) && InStartup(p.state)
    ensures yes <==> !Enabled(p.state, LeaveStartup)
  {
    hide PoolIs, QueueIs, StoreIs, WatchesAre;
    var empty := m.QueueIsEmpty(p.state);
    yes := !m.eof || m.pool.count > 0 || !empty;
  }

  /** A queued pair goes first if a worker can take it, otherwise the config file is read. */
  method StartupTurn(m: Manager, hitEof: bool, wd: int, pid: int, fd: int, ghost tally: Tally, ghost p0: Progress) returns (ghost p: Progress)
    requires |p0.state.store| < MAX_ENTRIES
    requires m.Objects(p0.state) && Reached(p0) && InStartup(p0.state)
    requires m.NewFd(fd) && SaneTally(tally) && (hitEof ==> |m.words| == 2)
    modifies m.Repr()
    ensures m.Objects(p.state) && Reached(p) && fresh(m.Repr() - old(m.Repr()))
    ensures var e := StartupEvent(p0.state, hitEof, tally, wd); Enabled(p0.state, e) && p == Then(p0, e)
  {
    hide PoolIs, QueueIs, StoreIs, WatchesAre, Reached, Orderly, StoreOk, Books, Scheduled, OnReadPair, OnStartupPop, DecodeAs, SaneTally,
      Next, Enabled, StartupEvent;
    ghost var s := p0.state;
    ReachedIsSound(p0);
    StartupIsNext(s, hitEof, tally, wd);
    ReachedNext(p0, StartupEvent(s, hitEof, tally, wd));
    p := Then(p0, StartupEvent(s, hitEof, tally, wd));
    var empty := m.QueueIsEmpty(s);
    if m.pool.count < m.limit && !empty {
      NewSources(p0);
      m.PopPair(wd, pid, fd, s, tally);
    } else if |m.words| < 2 {
      m.ReadTailWord(s);
    } else {
      NewSources(p0);
      m.ReadConfigPair(hitEof, wd, pid, fd, s, tally);
    }
  }

  lemma StartupIsNext(s: State, hitEof: bool, tally: Tally, wd: int)
    requires InStartup(s) && SaneTally(tally) && (hitEof ==> |s.words| == 2)
    ensures var e := StartupEvent(s, hitEof, tally, wd);
            && Enabled(s, e) && SaneEvent(e) && Genuine(s, e)
            && Next(s, e) == if CanPop(s) then OnStartupPop(s, tally, wd)
                             else if |s.words| < 2 then s.(words := [], eof := true)
                             else OnReadPair(s, hitEof, tally, wd)
  {
    hide SaneTally, OnReadPair, OnStartupPop;
  }

  lemma NewSources(p: Progress)
    requires Reached(p) && InStartup(p.state)
    ensures CanPop(p.state) ==> DecodeAs(true, p.state.queue[0]).source !in p.state.store
    ensures !CanPop(p.state) && SlotFree(p.state) && |p.state.words| >= 2 ==> p.state.words[0] !in p.state.store
  {
    hide Reached, Orderly, Scheduled, ConfigOk, DecodeAs;
    ReachedIsSound(p);
    if CanPop(p.state) {
      PoppedIsNew(p.state, ConfigSources(p.config));
    } else if SlotFree(p.state) && |p.state.words| >= 2 {
      PairIsNew(p.state, ConfigSources(p.config));
    }
  }

  /** After the startup loop the counter of workers is set to zero; it is zero already. */
  method EndStartup(m: Manager, ghost p0: Progress) returns (ghost p: Progress)
    requires m.Objects(p0.state) && Reached(p0) && Enabled(p0.state, LeaveStartup)
    modifies m.pool`count
    ensures m.pool.count == old(m.pool.count)
    ensures m.Objects(p.state) && Reached(p) && p == Then(p0, LeaveStartup)
  {
    hide PoolIs, QueueIs, StoreIs, WatchesAre, Reached;
    ReachedNext(p0, LeaveStartup);
    p := Then(p0, LeaveStartup);
    m.pool.count := 0;
    assert PoolIs(m.pool, m.poolRepr, m.limit, p.state.running);
  }

  // ----- the rest of an iteration of the command loop -----

  datatype Input =
    | Nothing
    | Record(wd: int, name: string, kind: Kind)
    | AddLine(source: string, target: string)
    | SyncLine(source: string)
    | CancelLine(source: string)
    | ShutdownLine
    | OtherLine

  /** A record carries a descriptor inotify has handed out, and names are names. */
  ghost predicate SaneInput(s: State, input: Input) {
    match input
    case Record(wd, name, _) => wd in s.issued && IsWord(name) && NulFree(name)
    case AddLine(source, target) => SaneName(source) && SaneName(target)
    case _ => true
  }

  /** What an iteration of the command loop does after the pass; bound is the descriptor found for a
      cancelled directory. */
  function ServeEvents(s: State, input: Input, wd: int, bound: int, tally: Tally): seq<Event> {
    if CanPop(s) then [Pop(tally)]
    else
      match input
      case Nothing => []
      case Record(from, name, kind) => [Notify(from, name, kind, tally)]
      case AddLine(source, target) => [AddCommand(source, target, wd, tally)]
      case SyncLine(source) => [SyncCommand(source, wd, tally)]
      case CancelLine(source) => [CancelCommand(source, bound)]
      case ShutdownLine => [ShutdownCommand]
      case OtherLine => [OtherCommand]
  }

  /** A queued task goes first if a worker can take it, otherwise one input is served. */
  method ServeTurn(m: Manager, input: Input, wd: int, pid: int, fd: int, ghost tally: Tally, ghost p0: Progress)
    returns (bound: int, ghost p: Progress)
    requires |p0.state.store| < MAX_ENTRIES
    requires m.Objects(p0.state) && Reached(p0) && p0.state.phase == Serving
    requires m.NewFd(fd) && SaneTally(tally) && SaneInput(p0.state, input)
    modifies m.Repr()
    ensures m.Objects(p.state) && Reached(p) && fresh(m.Repr() - old(m.Repr()))
    ensures var es := ServeEvents(p0.state, input, wd, bound, tally);
            if es == [] then p == p0 else Enabled(p0.state, es[0]) && p == Then(p0, es[0])
  {
    hide PoolIs, QueueIs, StoreIs, WatchesAre, Reached, Orderly, StoreOk, Books, Scheduled, SaneTally, SaneInput, FindsKey, Served,
      Next, Enabled, OnPop, ServeEvents;
    ghost var s := p0.state;
    ReachedIsSound(p0);
    bound := -1;
    var empty := m.QueueIsEmpty(s);
    if m.pool.count < m.limit && !empty {
      m.PopTask(pid, fd, s, tally);
    } else {
      bound := ServeInput(m, input, wd, pid, fd, s, tally);
    }
    p := ServedStep(p0, input, wd, bound, tally);
  }

  /** The turn as a step of the run. */
  lemma ServedStep(p0: Progress, input: Input, wd: int, bound: int, tally: Tally) returns (p: Progress)
    requires Reached(p0) && p0.state.phase == Serving && SaneInput(p0.state, input) && SaneTally(tally)
    requires !CanPop(p0.state) && input.CancelLine? ==> FindsKey(p0.state.watches, input.source, bound)
    ensures Reached(p) && p.state == if CanPop(p0.state) then OnPop(p0.state, tally) else Served(p0.state, input, wd, bound, tally)
    ensures var es := ServeEvents(p0.state, input, wd, bound, tally);
            if es == [] then p == p0 else Enabled(p0.state, es[0]) && p == Then(p0, es[0])
  {
    hide Reached, SaneTally, SaneInput, FindsKey, Served, Next, Enabled, OnPop;
    if CanPop(p0.state) {
      PopIsNext(p0.state, tally);
    } else {
      ServedIsNext(p0.state, input, wd, bound, tally);
    }
    var es := ServeEvents(p0.state, input, wd, bound, tally);
    p := p0;
    if es != [] {
      ReachedNext(p0, es[0]);
      p := Then(p0, es[0]);
    }
  }

  lemma PopIsNext(s: State, tally: Tally)
    requires s.phase == Serving && CanPop(s) && SaneTally(tally)
    ensures var e := Pop(tally); Enabled(s, e) && SaneEvent(e) && Genuine(s, e) && Next(s, e) == OnPop(s, tally)
  {
  }

  method ServeInput(m: Manager, input: Input, wd: int, pid: int, fd: int, ghost s: State, ghost tally: Tally) returns (bound: int)
    requires |s.store| < MAX_ENTRIES
    requires m.Objects(s) && StoreOk(s) && m.NewFd(fd) && SaneInput(s, input)
    modifies m.Repr()
    ensures fresh(m.Repr() - old(m.Repr()))
    ensures m.Objects(Served(s, input, wd, bound, tally)) && (input.CancelLine? ==> FindsKey(s.watches, input.source, bound))
  {
    hide PoolIs, QueueIs, StoreIs, WatchesAre, StoreOk, SaneName, FindsKey, OnNotify, OnAdd, OnSync, OnCancel;
    bound := -1;
    match input
    case Nothing =>
    case Record(from, name, kind) => m.Notified(from, name, kind, pid, fd, s, tally);
    case AddLine(source, target) => m.AddDirectory(source, target, wd, pid, fd, s, tally);
    case SyncLine(source) => m.SyncDirectory(source, wd, pid, fd, s, tally);
    case CancelLine(source) => bound := m.CancelDirectory(source, s);
    case ShutdownLine => m.shutdown := true;
    case OtherLine =>
  }

  /** The state after an input was served. */
  ghost function Served(s: State, input: Input, wd: int, bound: int, tally: Tally): State {
    match input
    case Nothing => s
    case Record(from, name, kind) => OnNotify(s, from, name, kind, tally)
    case AddLine(source, target) => OnAdd(s, source, target, wd, tally)
    case SyncLine(source) => OnSync(s, source, wd, tally)
    case CancelLine(source) => OnCancel(s, source, bound)
    case ShutdownLine => s.(shutdown := true)
    case OtherLine => s
  }

  lemma ServedIsNext(s: State, input: Input, wd: int, bound: int, tally: Tally)
    requires s.phase == Serving && !CanPop(s) && SaneInput(s, input) && SaneTally(tally)
    requires input.CancelLine? ==> FindsKey(s.watches, input.source, bound)
    ensures var es := ServeEvents(s, input, wd, bound, tally);
            if es == [] then Served(s, input, wd, bound, tally) == s
            else && Enabled(s, es[0]) && SaneEvent(es[0]) && Genuine(s, es[0])
                 && Next(s, es[0]) == Served(s, input, wd, bound, tally)
  {
    hide FindsKey, SaneTally, SaneName, OnNotify, OnAdd, OnSync, OnCancel;
  }

  /** The command loop goes on until a shutdown was asked for and everything has drained. */
  method ServingContinues(m: Manager, ghost p: Progress) returns (yes: bool)
    requires m.Objects(p.state) && p.state.phase == Serving
    ensures yes <==> !Enabled(p.state, Exit)
  {
    hide PoolIs, QueueIs, StoreIs, WatchesAre;
    var empty := m.QueueIsEmpty(p.state);
    yes := !m.shutdown || !empty || m.pool.count > 0;
  }

  // ----- what holds of the objects at any time -----

  lemma DistinctBooks(s: State, sources: seq<string>, d: string)
    requires Books(s, sources) && AllApart(sources)
    ensures LogOkFor(s, d) && (d in s.store ==> s.store[d].errors == ErrorSum(s.finished, d))
  {
    hide LinesOf, ErrorSum;
    assert Hidden([], d) == 0;
  }

  /** Every inotify_add_watch so far has returned a good descriptor. */
  ghost predicate WatchesWorked(p: Progress) {
    Allowed(Initial(Repaired, p.limit, p.config), p.events) && GoodWatches(Initial(Repaired, p.limit, p.config), p.events)
  }

  lemma WatchedSomewhere(p: Progress, d: string)
    requires Reached(p) && WatchesWorked(p) && d in p.state.store
    ensures exists wd :: Bound(p.state, wd, d)
  {
    hide SaneRun, AllApart, Bound, FindsKey, Initial;
    EveryDirectoryIsWatched(Repaired, p.limit, p.config, p.events, d);
  }

  /** Between any two iterations: the started tasks and the queue's are the accepted ones in order; the
      pool has at most limit workers; the store finds a directory exactly if it was entered, with the
      failed operations of its finished workers as its error count; every descriptor handed out is bound
      to a directory the store finds, and if the watch calls worked each of those has one; and the log's
      lines alternate. */
  lemma AtAnyTime(m: Manager, p: Progress, d: string)
    requires m.Objects(p.state) && Reached(p)
    ensures p.state.started + Tasks(InStartup(p.state), m.queue.Contents()) == p.state.accepted
    ensures m.pool.count <= m.limit
    ensures var entry := Lookup(m.store.View(), d);
            && (entry.Some? <==> d in p.state.store)
            && (entry.Some? ==> entry.value.errors == ErrorSum(p.state.finished, d))
            && Alternates(LinesOf(m.log, d))
            && (|LinesOf(m.log, d)| % 2 == 1 <==> entry.Some? && entry.value.isActive)
    ensures forall wd :: wd in p.state.issued ==>
              wd in m.watches.Bindings && Lookup(m.store.View(), m.watches.Bindings[wd].value).Some?
    ensures WatchesWorked(p) && Lookup(m.store.View(), d).Some? ==>
              exists wd :: wd in p.state.issued && wd in m.watches.Bindings && m.watches.Bindings[wd].value == d
  {
    hide Reached, Refines, Lookup, DecodeAs, SaneName, LinesOf, ErrorSum, WatchMap.Valid, SaneRunning, CodeOf, Books, AllApart;
    ReachedIsSound(p);
    LookupRefines(m.store.View(), p.state.store, d);
    DistinctBooks(p.state, ConfigSources(p.config), d);
    if WatchesWorked(p) && d in p.state.store {
      WatchedSomewhere(p, d);
      var wd :| Bound(p.state, wd, d);
      assert m.watches.Bindings[wd].value == d;
    }
    forall wd | wd in p.state.issued
      ensures wd in m.watches.Bindings && Lookup(m.store.View(), m.watches.Bindings[wd].value).Some?
    {
      LookupRefines(m.store.View(), p.state.store, p.state.watches[wd]);
    }
  }
}
