/** What every run of the manager keeps: it never fails on a lookup, a parse or an assertion, and no
    task is lost, doubled or overtaken. */
module ManagerSafety {
  import opened CStrings
  import opened WorkerReport
  import opened ReportParser
  import opened RoundTrip
  import opened Marker
  import opened WorkerProcess
  import opened StoreModel
  import opened TaskCode
  import opened WorkerPool
  import opened ManagerModel
  import opened ManagerReports

  // ----- the queue holds tasks -----

  predicate InStartup(s: State) { s.phase == Startup }

  /** The queue entry is a sane task's code: a pair's in the startup loop, a whole task's after it. */
  ghost predicate CodeOf(startup: bool, q: string, t: Task) {
    SaneTask(t) && if startup then t.filename == "ALL" && t.action == "FULL" && q == EncodePair(t.source, t.target)
                              else q == Encode(t)
  }

  /** What a queue entry will be decoded to. */
  function DecodeAs(startup: bool, q: string): Task {
    var t := if startup then DecodePair(q) else Decode(q);
    if t.None? then Task("", "", "", "") else t.value
  }

  function Tasks(startup: bool, queue: seq<string>): (ts: seq<Task>)
    ensures |ts| == |queue| && forall k :: 0 <= k < |ts| ==> ts[k] == DecodeAs(startup, queue[k])
  {
    seq(|queue|, k requires 0 <= k < |queue| => DecodeAs(startup, queue[k]))
  }

  ghost predicate Coded(startup: bool, q: string) {
    CodeOf(startup, q, DecodeAs(startup, q))
  }

  lemma CodeDecodes(startup: bool, q: string, t: Task)
    requires CodeOf(startup, q, t)
    ensures DecodeAs(startup, q) == t
    ensures (if startup then DecodePair(q) else Decode(q)) == Some(t)
  {
    hide Decode, DecodePair, Encode, EncodePair;
    SaneNameIsWord(t.source);
    SaneNameIsWord(t.target);
    if startup {
      DecodeEncodePairExactly(t.source, t.target);
    } else {
      assert IsWord(t.action) by { OperationIsWord(t.action); }
      DecodeEncodeExactly(t);
    }
  }

  lemma OperationIsWord(action: string)
    requires action in OPERATIONS
    ensures IsWord(action)
  {
  }

  lemma TasksAppend(startup: bool, queue: seq<string>, q: string)
    ensures Tasks(startup, queue + [q]) == Tasks(startup, queue) + [DecodeAs(startup, q)]
  {
    hide DecodeAs;
  }

  lemma TasksFirst(startup: bool, queue: seq<string>)
    requires queue != []
    ensures Tasks(startup, queue) == [DecodeAs(startup, queue[0])] + Tasks(startup, queue[1..])
  {
    hide DecodeAs;
  }

  // ----- nothing fails -----

  ghost predicate SaneEntry(info: DirInfo, d: string) {
    SaneName(d) && SaneName(info.target) && info.source == d
  }

  ghost predicate StoreOk(s: State) {
    && (forall d :: d in s.store ==> SaneEntry(s.store[d], d))
    && (forall k :: 0 <= k < |s.shadowed| ==> s.shadowed[k].source in s.store && SaneEntry(s.shadowed[k], s.shadowed[k].source))
    && (forall wd :: wd in s.watches ==> s.watches[wd] in s.store)
    && s.issued <= s.watches.Keys
  }

  ghost predicate RunningOk(s: State) {
    && |s.running| <= s.limit
    && forall k :: 0 <= k < |s.running| ==> SaneRunning(s.running[k]) && s.running[k].task.source in s.store
  }

  ghost predicate QueueOk(s: State) {
    && (forall k :: 0 <= k < |s.queue| ==> Coded(InStartup(s), s.queue[k]))
    && (!InStartup(s) ==> forall k :: 0 <= k < |s.queue| ==> DecodeAs(false, s.queue[k]).source in s.store)
  }

  ghost predicate WordsOk(s: State) {
    forall k :: 0 <= k < |s.words| ==> SaneName(s.words[k])
  }

  /** Every live descriptor is bound, every bound and every running source has a store entry, and
      everything queued or running is sane. */
  ghost predicate Orderly(s: State) {
    s.phase != Crashed && StoreOk(s) && RunningOk(s) && QueueOk(s) && WordsOk(s)
  }

  /** An inotify record carries a descriptor inotify has handed out. */
  ghost predicate Genuine(s: State, e: Event) {
    e.Notify? ==> e.wd in s.issued
  }

  lemma LaunchOrderly(s: State, t: Task, tally: Tally)
    requires StoreOk(s) && RunningOk(s) && SlotFree(s)
    requires SaneTask(t) && SaneTally(tally) && t.source in s.store
    ensures StoreOk(Launch(s, t, tally)) && RunningOk(Launch(s, t, tally))
  {
    hide SaneTask, SaneTally, SaneName, Printed;
    NothingReceived(Running(t, tally, ""));
  }

  lemma NothingReceived(r: Running)
    requires SaneTask(r.task) && SaneTally(r.tally) && r.received == ""
    ensures SaneRunning(r)
  {
    hide Printed;
  }

  lemma SubmitOrderly(s: State, t: Task, tally: Tally)
    requires Orderly(s) && s.phase == Serving && SaneTask(t) && SaneTally(tally) && t.source in s.store
    ensures Orderly(Submit(s, t, tally))
  {
    hide SaneTask, SaneTally, Encode, CodeOf, StoreOk, RunningOk, QueueOk, WordsOk, Launch;
    var s' := s.(accepted := s.accepted + [t]);
    SameStore(s, s');
    SameQueue(s, s');
    if SlotFree(s) {
      LaunchOrderly(s', t, tally);
      LaunchKeeps(s', t, tally);
      SameQueue(s, Submit(s, t, tally));
    } else {
      var pushed := s.(queue := s.queue + [Encode(t)]);
      EncodedIsCode(t);
      PushOk(s, Encode(t), t);
      SameStore(s, Submit(s, t, tally));
      SameQueue(s, pushed);
      SameQueue(pushed, Submit(s, t, tally));
    }
  }

  lemma PushOk(s: State, q: string, t: Task)
    requires QueueOk(s) && !InStartup(s) && CodeOf(false, q, t) && t.source in s.store
    ensures QueueOk(s.(queue := s.queue + [q]))
  {
    hide CodeOf, DecodeAs;
    CodeDecodes(false, q, t);
  }

  lemma SameQueue(s: State, s': State)
    ensures QueueOk(s) && s'.queue == s.queue && s'.phase == s.phase && s'.store == s.store ==> QueueOk(s')
    ensures WordsOk(s) && s'.words == s.words ==> WordsOk(s')
  {
    hide CodeOf, DecodeAs, SaneName;
  }

  lemma EncodedIsCode(t: Task)
    requires SaneTask(t)
    ensures CodeOf(false, Encode(t), t)
  {
  }

  lemma StartupDispatchOrderly(s: State, t: Task, tally: Tally, wd: int)
    requires Orderly(s) && InStartup(s) && SlotFree(s) && SaneTask(t) && SaneTally(tally)
    ensures Orderly(StartupDispatch(s, t, tally, wd))
  {
    hide SaneTally, DecodeAs, SaneRunning, CodeOf;
    var w := Enter(Watch(s, wd, t.source).(log := s.log + [MonitoringStarted(t.source)]),
                   DirInfo(t.source, t.target, "", "", 0, true, true));
    assert StoreOk(w) by { hide SaneName; assert SaneName(t.source) && SaneName(t.target); }
    LaunchOrderly(w, t, tally);
  }

  lemma ChunkOrderly(s: State, i: nat, chunk: string, now: string)
    requires Orderly(s) && Enabled(s, Chunk(i, chunk, now))
    ensures Orderly(OnChunk(s, i, chunk, now)) && OnChunk(s, i, chunk, now).phase == s.phase
  {
    hide Found, Printed, SaneTask, SaneTally, SaneName, OnChunk, InfoOf, LineOf, CodeOf, DecodeAs;
    ChunkCases(s, i, chunk, now);
    assert SaneEntry(s.store[s.running[i].task.source], s.running[i].task.source);
    InfoTarget(s, Received(s, i, chunk), now);
    assert SaneEntry(InfoOf(s, Received(s, i, chunk), now), s.running[i].task.source);
  }

  lemma InfoTarget(s: State, r: Running, now: string)
    requires r.task.source in s.store
    ensures InfoOf(s, r, now).source == s.store[r.task.source].source
    ensures InfoOf(s, r, now).target == s.store[r.task.source].target && InfoOf(s, r, now).isActive == s.store[r.task.source].isActive
    ensures InStartup(s) ==> !InfoOf(s, r, now).isInWorkers
  {
  }

  lemma ReadPairOrderly(s: State, hitEof: bool, tally: Tally, wd: int)
    requires Orderly(s) && Enabled(s, ReadPair(hitEof, tally, wd)) && SaneTally(tally)
    ensures Orderly(OnReadPair(s, hitEof, tally, wd)) && OnReadPair(s, hitEof, tally, wd).phase == Startup
  {
    hide SaneTally, SaneRunning, DecodePair, EncodePair, StoreOk, RunningOk, StartupDispatch;
    var t, q := Task(s.words[0], s.words[1], "ALL", "FULL"), EncodePair(s.words[0], s.words[1]);
    PairIsSane(t);
    CodeDecodes(true, q, t);
    var s' := s.(words := s.words[2..], eof := s.eof || hitEof, accepted := s.accepted + [t]);
    SameStore(s, s');
    assert Orderly(s');
    if SlotFree(s) {
      StartupDispatchOrderly(s', t, tally, wd);
      StartupDispatchPhase(s', t, tally, wd);
    } else {
      SameStore(s, s'.(queue := s.queue + [q]));
    }
  }

  lemma StartupDispatchPhase(s: State, t: Task, tally: Tally, wd: int)
    ensures StartupDispatch(s, t, tally, wd).phase == s.phase
  {
  }

  lemma PairIsSane(t: Task)
    requires SaneName(t.source) && SaneName(t.target) && t.filename == "ALL" && t.action == "FULL"
    ensures SaneTask(t) && CodeOf(true, EncodePair(t.source, t.target), t)
  {
  }

  lemma SameStore(s: State, s': State)
    requires s'.store == s.store && s'.shadowed == s.shadowed && s'.watches == s.watches && s'.issued == s.issued && s'.running == s.running && s'.limit == s.limit
    ensures StoreOk(s) ==> StoreOk(s')
    ensures RunningOk(s) ==> RunningOk(s')
  {
  }

  lemma StartupPopOrderly(s: State, tally: Tally, wd: int)
    requires Orderly(s) && Enabled(s, StartupPop(tally, wd)) && SaneTally(tally)
    ensures Orderly(OnStartupPop(s, tally, wd)) && OnStartupPop(s, tally, wd).phase == Startup
  {
    hide SaneTally, SaneRunning, DecodePair, EncodePair, StoreOk, RunningOk, StartupDispatch, DecodeAs;
    var t := DecodeAs(true, s.queue[0]);
    assert Coded(true, s.queue[0]);
    CodeDecodes(true, s.queue[0], t);
    var s' := s.(queue := s.queue[1..]);
    SameStore(s, s');
    StartupDispatchOrderly(s', t, tally, wd);
    StartupDispatchPhase(s', t, tally, wd);
  }

  lemma PopOrderly(s: State, tally: Tally)
    requires Orderly(s) && Enabled(s, Pop(tally)) && SaneTally(tally)
    ensures Orderly(OnPop(s, tally))
  {
    hide SaneTally, SaneRunning, Decode, DecodeAs, StoreOk, RunningOk, Launch;
    var t := DecodeAs(false, s.queue[0]);
    assert Coded(false, s.queue[0]);
    CodeDecodes(false, s.queue[0], t);
    var s' := s.(queue := s.queue[1..]);
    SameStore(s, s');
    SameStore(s, s'.(lost := s.lost + [t]));
    if s.mode == Repaired {
      LaunchOrderly(s', t, tally);
      LaunchKeeps(s', t, tally);
    }
  }

  lemma LaunchKeeps(s: State, t: Task, tally: Tally)
    ensures Launch(s, t, tally) == s.(running := Launch(s, t, tally).running, started := s.started + [t])
  {
  }

  lemma NotifyOrderly(s: State, wd: int, name: string, kind: Kind, tally: Tally)
    requires Orderly(s) && s.phase == Serving && wd in s.issued && SaneTally(tally) && IsWord(name) && NulFree(name)
    ensures Orderly(OnNotify(s, wd, name, kind, tally))
  {
    hide SaneTally, SaneRunning, SaneName, RunningOk, QueueOk, WordsOk, Submit, IsWord;
    var source := s.watches[wd];
    if kind != OtherKind {
      SubmitOrderly(s, Task(source, s.store[source].target, name, ActionOf(kind)), tally);
    }
  }

  lemma AddOrderly(s: State, source: string, target: string, wd: int, tally: Tally)
    requires Orderly(s) && s.phase == Serving && SaneTally(tally) && SaneName(source) && SaneName(target)
    ensures Orderly(OnAdd(s, source, target, wd, tally))
  {
    hide SaneTally, SaneRunning, SaneName, Submit, CodeOf, DecodeAs;
    if !(source in s.store && s.store[source].isActive) {
      var info := if source in s.store then s.store[source].(isActive := true, target := target)
                  else DirInfo(source, target, "", "", 0, true, false);
      var s' := Watch(s, wd, source).(store := s.store[source := info], log := s.log + [MonitoringStarted(source)]);
      assert Orderly(s');
      FullIsSane(Task(source, target, "all", "FULL"));
      SubmitOrderly(s', Task(source, target, "all", "FULL"), tally);
    }
  }

  lemma FullIsSane(t: Task)
    requires SaneName(t.source) && SaneName(t.target) && t.filename == "all" && t.action == "FULL"
    ensures SaneTask(t)
  {
  }

  lemma SyncOrderly(s: State, source: string, wd: int, tally: Tally)
    requires Orderly(s) && s.phase == Serving && SaneTally(tally)
    ensures Orderly(OnSync(s, source, wd, tally))
  {
    hide SaneTally, SaneRunning, SaneName, Submit, CodeOf, DecodeAs;
    if source in s.store && !s.store[source].isInWorkers && s.store[source].isActive {
      var s' := Watch(s, wd, source).(log := s.log + [Syncing(source, s.store[source].target)]);
      assert Orderly(s');
      var t := Task(source, s.store[source].target, "all", "FULL");
      assert SaneEntry(s.store[source], source);
      FullIsSane(t);
      SubmitOrderly(s', t, tally);
    }
  }

  lemma CancelOrderly(s: State, source: string, wd: int)
    requires Orderly(s) && FindsKey(s.watches, source, wd)
    ensures Orderly(OnCancel(s, source, wd))
  {
    hide SaneRunning, SaneName, CodeOf, DecodeAs;
  }

  lemma ReshuffleOrderly(s: State, k: nat)
    requires Orderly(s) && k < |s.shadowed| && s.shadowed[k].source in s.store
    ensures Orderly(OnReshuffle(s, k))
  {
    hide SaneRunning, SaneName, CodeOf, DecodeAs;
    assert SaneEntry(s.shadowed[k], s.shadowed[k].source);
  }

  /** One event. In particular the state after it is not Crashed: the error exits for an unknown
      descriptor or directory, the assertion on the store entry and the dereferences of find results
      are never reached. */
  lemma StepOrderly(s: State, e: Event)
    requires Orderly(s) && Enabled(s, e) && SaneEvent(e) && Genuine(s, e)
    ensures Orderly(Next(s, e))
  {
    hide OnChunk, OnReadPair, OnStartupPop, OnPop, OnNotify, OnAdd, OnSync, OnCancel, SaneTally, SaneName, SaneRunning, CodeOf, DecodeAs;
    match e
    case Chunk(i, chunk, now) => ChunkOrderly(s, i, chunk, now);
    case ReadPair(hitEof, tally, wd) => ReadPairOrderly(s, hitEof, tally, wd);
    case StartupPop(tally, wd) => StartupPopOrderly(s, tally, wd);
    case Pop(tally) => PopOrderly(s, tally);
    case Notify(wd, name, kind, tally) => NotifyOrderly(s, wd, name, kind, tally);
    case AddCommand(source, target, wd, tally) => AddOrderly(s, source, target, wd, tally);
    case SyncCommand(source, wd, tally) => SyncOrderly(s, source, wd, tally);
    case CancelCommand(source, wd) => CancelOrderly(s, source, wd);
    case Reshuffle(k) => ReshuffleOrderly(s, k);
    case _ =>
  }

  // ----- runs -----

  ghost predicate GenuineRun(s: State, es: seq<Event>)
    requires Allowed(s, es)
    decreases |es|
  {
    es == [] || (Genuine(s, es[0]) && GenuineRun(Next(s, es[0]), es[1..]))
  }

  lemma {:induction false} RunOrderly(s: State, es: seq<Event>)
    requires Orderly(s) && Allowed(s, es) && SaneEvents(es) && GenuineRun(s, es)
    ensures Orderly(Run(s, es))
    decreases |es|
  {
    hide Orderly, Next, Enabled, SaneEvent;
    if es != [] {
      assert SaneEvent(es[0]);
      StepOrderly(s, es[0]);
      RunOrderly(Next(s, es[0]), es[1..]);
    }
  }

  lemma InitialOrderly(mode: Mode, limit: nat, words: seq<string>)
    requires forall k :: 0 <= k < |words| ==> SaneName(words[k])
    ensures Orderly(Initial(mode, limit, words))
  {
  }

  /** No reachable state has crashed, in either mode: in all of them every descriptor handed out is
      bound, every bound source has a store entry, and at most `limit` workers are live. */
  lemma NeverFails(mode: Mode, limit: nat, words: seq<string>, es: seq<Event>)
    requires forall k :: 0 <= k < |words| ==> SaneName(words[k])
    requires Allowed(Initial(mode, limit, words), es) && SaneEvents(es) && GenuineRun(Initial(mode, limit, words), es)
    ensures var s := Run(Initial(mode, limit, words), es);
            && s.phase != Crashed && |s.running| <= limit
            && (forall wd :: wd in s.issued ==> wd in s.watches && s.watches[wd] in s.store)
  {
    hide SaneName, SaneRunning, CodeOf, DecodeAs, Next, Enabled;
    InitialOrderly(mode, limit, words);
    RunOrderly(Initial(mode, limit, words), es);
  }
}
