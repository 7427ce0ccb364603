/** What the manager is to whoever uses it: which directories are watched, which are monitored with which
    target, and which tasks that brings. A small machine that knows nothing of pools, queues, entries or
    tables, and the manager does what it says. */
module ManagerConsole {
  import opened CStrings
  import opened WorkerReport
  import opened Marker
  import opened WorkerProcess
  import opened StoreModel
  import opened TaskCode
  import opened WorkerPool
  import opened ManagerModel
  import opened ManagerReports
  import opened ManagerSafety
  import opened ManagerSchedule
  import opened ManagerBooks
  import opened ManagerStartup
  import opened ManagerLog
  import opened ManagerLaws

  // ----- watches -----

  datatype Watching = NotWatched | Watched(wd: int, source: string)

  /** The inotify_add_watch call of an event, and what it returned. */
  function WatchMade(s: State, e: Event): Watching {
    match e
    case ReadPair(_, _, wd) => if SlotFree(s) && |s.words| >= 2 then Watched(wd, s.words[0]) else NotWatched
    case StartupPop(_, wd) => if s.queue != [] then Watched(wd, DecodeAs(true, s.queue[0]).source) else NotWatched
    case AddCommand(d, _, wd, _) => if Active(s, d) then NotWatched else Watched(wd, d)
    case SyncCommand(d, wd, _) => if Active(s, d) && !s.store[d].isInWorkers then Watched(wd, d) else NotWatched
    case _ => NotWatched
  }

  /** The call worked: a descriptor of this directory, or one that is not bound. */
  predicate GoodWatch(s: State, e: Event) {
    var w := WatchMade(s, e);
    w.Watched? ==> w.wd >= 0 && (w.wd in s.watches ==> s.watches[w.wd] == w.source)
  }

  predicate GoodWatches(s: State, es: seq<Event>)
    requires Allowed(s, es)
    decreases |es|
  {
    es == [] || (GoodWatch(s, es[0]) && GoodWatches(Next(s, es[0]), es[1..]))
  }

  /** A descriptor inotify has handed out is bound to the directory. */
  predicate Bound(s: State, wd: int, d: string) {
    wd in s.issued && wd in s.watches && s.watches[wd] == d
  }

  ghost predicate AllWatched(s: State) {
    && (forall d :: d in s.store ==> exists wd :: Bound(s, wd, d))
    && forall wd :: wd in s.watches ==> wd >= 0
  }

  /** The watch map and the directories known, after an event that watches, or does not. */
  ghost predicate WatchedBy(s: State, s': State, w: Watching) {
    match w
    case NotWatched => s'.watches == s.watches && s'.issued == s.issued && s'.store.Keys == s.store.Keys
    case Watched(wd, d) =>
      && s'.watches == (if wd in s.watches then s.watches else s.watches[wd := d])
      && s'.issued == (if wd >= 0 then s.issued + {wd} else s.issued)
      && s'.store.Keys == s.store.Keys + {d}
  }

  lemma ReadPairWatches(s: State, e: Event)
    requires Orderly(s) && Enabled(s, e) && e.ReadPair?
    ensures WatchedBy(s, Next(s, e), WatchMade(s, e))
  {
    hide DecodePair, EncodePair, StoreOk, RunningOk, QueueOk, CodeOf, DecodeAs, SaneName, OnReadPair, StartupDispatch;
    var t := Task(s.words[0], s.words[1], "ALL", "FULL");
    PairIsSane(t);
    CodeDecodes(true, EncodePair(t.source, t.target), t);
    ReadPairIs(s, e.hitEof, e.wd, e.tally);
    if SlotFree(s) {
      DispatchWatches(PairRead(s, e.hitEof), t, e.tally, e.wd);
    }
  }

  lemma DispatchWatches(w: State, t: Task, tally: Tally, wd: int)
    ensures WatchedBy(w, StartupDispatch(w, t, tally, wd), Watched(wd, t.source))
  {
  }

  lemma StartupPopWatches(s: State, e: Event)
    requires Orderly(s) && Enabled(s, e) && e.StartupPop?
    ensures WatchedBy(s, Next(s, e), WatchMade(s, e))
  {
    hide DecodePair, StoreOk, RunningOk, WordsOk, DecodeAs, SaneTask, EncodePair;
    assert Coded(true, s.queue[0]);
    CodeDecodes(true, s.queue[0], DecodeAs(true, s.queue[0]));
  }

  lemma CommandWatches(s: State, e: Event)
    requires Enabled(s, e) && (e.AddCommand? || e.SyncCommand?)
    ensures WatchedBy(s, Next(s, e), WatchMade(s, e))
  {
    hide Submit;
    forall w, t, tally ensures var s' := Submit(w, t, tally); s'.watches == w.watches && s'.issued == w.issued && s'.store == w.store {
      SubmitFields(w, t, tally);
    }
  }

  lemma ChunkWatches(s: State, e: Event)
    requires Orderly(s) && Enabled(s, e) && e.Chunk?
    ensures WatchedBy(s, Next(s, e), NotWatched)
  {
    hide Found, Printed, OnChunk, InfoOf, LineOf, SaneTask, SaneTally, StoreOk, QueueOk, WordsOk;
    ChunkCases(s, e.slot, e.chunk, e.now);
  }

  lemma OtherWatches(s: State, e: Event)
    requires Enabled(s, e) && !e.Chunk? && !e.ReadPair? && !e.StartupPop? && !e.AddCommand? && !e.SyncCommand?
    ensures WatchedBy(s, Next(s, e), NotWatched)
  {
    hide Submit, Decode;
    forall w, t, tally ensures var s' := Submit(w, t, tally); s'.watches == w.watches && s'.issued == w.issued && s'.store == w.store {
      SubmitFields(w, t, tally);
    }
  }

  /** Exactly the dispatches of the startup loop, the add commands for a directory that is not active and
      the sync commands that are obeyed watch their directory. */
  lemma EventWatches(s: State, e: Event)
    requires Orderly(s) && Enabled(s, e)
    ensures WatchedBy(s, Next(s, e), WatchMade(s, e))
  {
    hide Orderly, Next, Enabled, WatchedBy;
    match e
    case Chunk(_, _, _) => ChunkWatches(s, e);
    case ReadPair(_, _, _) => ReadPairWatches(s, e);
    case StartupPop(_, _) => StartupPopWatches(s, e);
    case AddCommand(_, _, _, _) => CommandWatches(s, e);
    case SyncCommand(_, _, _) => CommandWatches(s, e);
    case _ => OtherWatches(s, e);
  }

  lemma StepWatched(s: State, e: Event)
    requires Orderly(s) && Enabled(s, e) && AllWatched(s) && GoodWatch(s, e)
    ensures AllWatched(Next(s, e))
  {
    hide Orderly, Next, Enabled, WatchMade;
    var s' := Next(s, e);
    EventWatches(s, e);
    forall d | d in s'.store ensures exists wd :: Bound(s', wd, d) {
      if d in s.store {
        var wd :| Bound(s, wd, d);
        assert Bound(s', wd, d);
      } else {
        assert Bound(s', WatchMade(s, e).wd, d);
      }
    }
  }

  lemma {:induction false} RunWatched(s: State, es: seq<Event>)
    requires Orderly(s) && AllWatched(s) && Allowed(s, es) && SaneEvents(es) && GenuineRun(s, es) && GoodWatches(s, es)
    ensures AllWatched(Run(s, es))
    decreases |es|
  {
    hide Orderly, Next, Enabled, SaneEvent, AllWatched, GoodWatch;
    if es != [] {
      assert SaneEvent(es[0]);
      StepOrderly(s, es[0]);
      StepWatched(s, es[0]);
      RunWatched(Next(s, es[0]), es[1..]);
    }
  }

  /** If the watch calls have worked, every directory in the store has a descriptor of its own that
      inotify handed out, and hash_table_find_key finds one. */
  lemma EveryDirectoryIsWatched(mode: Mode, limit: nat, words: seq<string>, es: seq<Event>, d: string)
    requires SaneRun(mode, limit, words, es) && GoodWatches(Initial(mode, limit, words), es)
    requires d in Run(Initial(mode, limit, words), es).store
    ensures var s := Run(Initial(mode, limit, words), es);
            && (exists wd :: Bound(s, wd, d))
            && forall k :: FindsKey(s.watches, d, k) ==> k != -1 && k in s.watches && s.watches[k] == d
  {
    hide Orderly, Next, Enabled, SaneEvent, Genuine, GoodWatch, SaneName;
    InitialOrderly(mode, limit, words);
    RunWatched(Initial(mode, limit, words), es);
    FoundWatch(Run(Initial(mode, limit, words), es), d);
  }

  lemma FoundWatch(s: State, d: string)
    requires AllWatched(s) && d in s.store
    ensures forall k :: FindsKey(s.watches, d, k) ==> k != -1 && k in s.watches && s.watches[k] == d
  {
    var wd :| Bound(s, wd, d);
  }

  // ----- the machine -----

  /** The target last given for each directory, which of them are monitored, whose each descriptor is,
      and the tasks so far. */
  datatype Console = Console(targets: map<string, string>, monitored: set<string>, owners: map<int, string>, tasks: seq<Task>)

  function Answered(c: Console, e: Event): Console {
    match e
    case AddCommand(d, t, wd, _) =>
      if d in c.monitored then c
      else Console(c.targets[d := t], c.monitored + {d}, c.owners[wd := d], c.tasks + [Task(d, t, "all", "FULL")])
    case SyncCommand(d, wd, _) =>
      if d !in c.monitored || d !in c.targets then c
      else c.(owners := c.owners[wd := d], tasks := c.tasks + [Task(d, c.targets[d], "all", "FULL")])
    case CancelCommand(d, _) => c.(monitored := c.monitored - {d})
    case Notify(wd, name, kind, _) => Recorded(c, wd, name, kind)
    case _ => c
  }

  /** A change is for the target last given for the descriptor's directory. */
  function Recorded(c: Console, wd: int, name: string, kind: Kind): Console {
    if wd !in c.owners || c.owners[wd] !in c.targets then c
    else
      var d := c.owners[wd];
      match kind
      case Create => c.(tasks := c.tasks + [Task(d, c.targets[d], name, "ADDED")])
      case Modify => c.(tasks := c.tasks + [Task(d, c.targets[d], name, "MODIFIED")])
      case Delete => c.(tasks := c.tasks + [Task(d, c.targets[d], name, "DELETED")])
      case OtherKind => c
  }

  /** The machine for a manager's state. */
  function See(s: State): Console {
    Console((map d | d in s.store :: s.store[d].target), (set d | d in s.store && s.store[d].isActive), s.watches, s.accepted)
  }

  /** What the command loop keeps that the machine rests on. */
  ghost predicate Steady(s: State) {
    !InStartup(s) && Orderly(s) && AllWatched(s) && FreeOk(s) && s.shadowed == []
  }

  lemma SeeSubmit(w: State, t: Task, tally: Tally)
    ensures See(Submit(w, t, tally)) == See(w).(tasks := w.accepted + [t])
  {
    hide Submit;
    SubmitFields(w, t, tally);
  }

  /** One entry changes, and stays or becomes active. */
  lemma SeeEntry(s: State, w: State, d: string, info: DirInfo)
    requires w.store == s.store[d := info] && info.isActive && w.accepted == s.accepted
    ensures See(w) == Console(See(s).targets[d := info.target], See(s).monitored + {d}, w.watches, s.accepted)
  {
  }

  lemma AddAnswered(s: State, e: Event)
    requires Steady(s) && Enabled(s, e) && e.AddCommand? && GoodWatch(s, e)
    ensures See(Next(s, e)) == Answered(See(s), e)
  {
    hide Submit, Orderly, AllWatched, FreeOk, See;
    assert e.source in See(s).monitored <==> Active(s, e.source) by { Monitored(s, e.source); }
    if !Active(s, e.source) {
      var info := if e.source in s.store then s.store[e.source].(isActive := true, target := e.target)
                  else DirInfo(e.source, e.target, "", "", 0, true, false);
      var w := Watch(s, e.wd, e.source).(store := s.store[e.source := info], log := s.log + [MonitoringStarted(e.source)]);
      SeeEntry(s, w, e.source, info);
      SeeSubmit(w, Task(e.source, e.target, "all", "FULL"), e.tally);
      assert w.watches == s.watches[e.wd := e.source];
      Monitored(s, e.source);
    }
  }

  lemma Monitored(s: State, d: string)
    ensures d in See(s).monitored <==> Active(s, d)
    ensures See(s).owners == s.watches && See(s).tasks == s.accepted
  {
  }

  lemma SyncAnswered(s: State, e: Event)
    requires Steady(s) && Enabled(s, e) && e.SyncCommand? && GoodWatch(s, e)
    ensures See(Next(s, e)) == Answered(See(s), e)
  {
    hide Submit, Orderly, AllWatched;
    if Active(s, e.source) {
      var target := s.store[e.source].target;
      var w := Watch(s, e.wd, e.source).(log := s.log + [Syncing(e.source, target)]);
      SubmitFields(w, Task(e.source, target, "all", "FULL"), e.tally);
      assert w.watches == s.watches[e.wd := e.source];
    }
  }

  /** A cancel command takes effect on every monitored directory: its descriptor is found. */
  lemma CancelAnswered(s: State, e: Event)
    requires Steady(s) && Enabled(s, e) && e.CancelCommand?
    ensures See(Next(s, e)) == Answered(See(s), e)
  {
    hide AllWatched, FreeOk, RunningOk, QueueOk, WordsOk, SaneEntry;
    if Active(s, e.source) {
      FoundWatch(s, e.source);
    }
  }

  lemma NotifyAnswered(s: State, e: Event)
    requires Steady(s) && Enabled(s, e) && e.Notify? && Genuine(s, e)
    ensures See(Next(s, e)) == Answered(See(s), e)
  {
    hide Submit, AllWatched, FreeOk, RunningOk, QueueOk, WordsOk, SaneEntry;
    var d := s.watches[e.wd];
    if e.kind != OtherKind {
      SubmitFields(s, Task(d, s.store[d].target, e.name, ActionOf(e.kind)), e.tally);
    }
  }

  lemma ChunkAnswered(s: State, e: Event)
    requires Steady(s) && Enabled(s, e) && e.Chunk?
    ensures See(Next(s, e)) == See(s)
  {
    hide Found, Printed, OnChunk, InfoOf, LineOf, SaneTask, SaneTally, StoreOk, QueueOk, WordsOk, AllWatched, FreeOk;
    ChunkCases(s, e.slot, e.chunk, e.now);
    InfoTarget(s, Received(s, e.slot, e.chunk), e.now);
  }

  lemma OtherAnswered(s: State, e: Event)
    requires Steady(s) && Enabled(s, e)
    requires e.Pop? || e.OtherCommand? || e.ShutdownCommand? || e.Exit?
    ensures See(Next(s, e)) == See(s)
  {
    hide Steady, OnPop, See;
    if e.Pop? {
      PopSees(s, e.tally);
    } else {
      SeesTheSame(s, Next(s, e));
    }
  }

  lemma SeesTheSame(s: State, s': State)
    requires s'.store == s.store && s'.watches == s.watches && s'.accepted == s.accepted
    ensures See(s') == See(s)
  {
  }

  lemma PopSees(s: State, tally: Tally)
    requires s.queue != []
    ensures See(OnPop(s, tally)) == See(s)
  {
    hide Decode, See;
    SeesTheSame(s, OnPop(s, tally));
  }

  /** Every event of the command loop: the manager's answer is the machine's. */
  lemma StepAnswered(s: State, e: Event)
    requires Steady(s) && Enabled(s, e) && GoodWatch(s, e) && Genuine(s, e)
    ensures See(Next(s, e)) == Answered(See(s), e)
  {
    hide Steady, GoodWatch, See, OnChunk, OnPop, OnNotify, OnAdd, OnSync, OnCancel;
    NoneToShuffle(s);
    match e
    case Chunk(_, _, _) => ChunkAnswered(s, e);
    case Notify(_, _, _, _) => NotifyAnswered(s, e);
    case AddCommand(_, _, _, _) => AddAnswered(s, e);
    case SyncCommand(_, _, _) => SyncAnswered(s, e);
    case CancelCommand(_, _) => CancelAnswered(s, e);
    case Pop(_) => OtherAnswered(s, e);
    case OtherCommand => OtherAnswered(s, e);
    case ShutdownCommand => OtherAnswered(s, e);
    case Exit => OtherAnswered(s, e);
    case _ =>
  }

  lemma NoneToShuffle(s: State)
    requires Steady(s)
    ensures s.shadowed == [] && !InStartup(s)
  {
  }

  // ----- where the command loop begins -----

  /** The target of each task's directory. */
  function TargetsOf(ts: seq<Task>): map<string, string> {
    if ts == [] then map[] else TargetsOf(ts[..|ts| - 1])[ts[|ts| - 1].source := ts[|ts| - 1].target]
  }

  /** Every pair of the config file is monitored with its target, and its FULL is a task. */
  function FromConfig(words: seq<string>, owners: map<int, string>): Console {
    Console(TargetsOf(ConfigTasks(words)), TargetsOf(ConfigTasks(words)).Keys, owners, ConfigTasks(words))
  }

  lemma {:induction false} TargetsOfAll(ts: seq<Task>)
    requires AllApart(Sources(ts))
    ensures forall d :: d in TargetsOf(ts) <==> d in Sources(ts)
    ensures forall k :: 0 <= k < |ts| ==> ts[k].source in TargetsOf(ts) && TargetsOf(ts)[ts[k].source] == ts[k].target
  {
    if ts != [] {
      var rest := ts[..|ts| - 1];
      assert Sources(ts) == Sources(rest) + [ts[|ts| - 1].source];
      assert forall k :: 0 <= k < |rest| ==> Sources(ts)[k] == rest[k].source;
      TargetsOfAll(rest);
      forall k | 0 <= k < |ts| ensures ts[k].source in TargetsOf(ts) && TargetsOf(ts)[ts[k].source] == ts[k].target {
        if k < |rest| {
          assert Sources(ts)[k] != Sources(ts)[|ts| - 1];
          assert rest[k] == ts[k];
        }
      }
    }
  }

  lemma {:induction false} ConfigTaskSources(words: seq<string>)
    ensures Sources(ConfigTasks(words)) == ConfigSources(words)
    decreases |words|
  {
    if |words| >= 2 {
      ConfigTaskSources(words[2..]);
      assert Sources(ConfigTasks(words)) == [words[0]] + Sources(ConfigTasks(words[2..]));
    }
  }

  /** The startup loop hands over what the config file says. */
  lemma HandedOver(s: State, words: seq<string>)
    requires Scheduled(s) && Books(s, ConfigSources(words)) && AllApart(ConfigSources(words)) && Laws(s, ConfigTasks(words))
    requires EntryLaws(s) && StartupEntries(s) && EofOk(s) && Enabled(s, LeaveStartup)
    ensures s.started == s.accepted == ConfigTasks(words) && See(s) == FromConfig(words, s.watches)
  {
    hide Sources, Scheduled, AskedOk, ReportsOk, SyncLinesOk, StatusOk, ErrorsOk, Distinctly, TargetsOf, AllApart;
    var ts := ConfigTasks(words);
    StartedAll(s);
    assert s.accepted + [] == s.accepted;
    ConfigTaskSources(words);
    TargetsOfAll(ts);
    forall d | d in s.store ensures d in TargetsOf(ts) && s.store[d].target == TargetsOf(ts)[d] {
      var k := SourceAt(ts, d);
      assert ts[k].source == d;
    }
    assert See(s).targets == TargetsOf(ts);
    assert See(s).monitored == TargetsOf(ts).Keys;
  }

  lemma StartedAll(s: State)
    requires Scheduled(s) && Enabled(s, LeaveStartup)
    ensures s.started == s.accepted
  {
    hide DecodeAs;
    assert Waiting(s) == [];
    assert s.started + [] == s.started;
  }

  lemma SourceAt(ts: seq<Task>, d: string) returns (k: nat)
    requires d in Sources(ts)
    ensures k < |ts| && ts[k].source == d
  {
    k :| 0 <= k < |ts| && Sources(ts)[k] == d;
  }

  // ----- whole runs -----

  /** The machine over a run: it begins when the startup loop ends. */
  function ConsoleRun(s: State, es: seq<Event>, c: Console, words: seq<string>): Console
    requires Allowed(s, es)
    decreases |es|
  {
    if es == [] then c
    else
      var c' := if es[0].LeaveStartup? then FromConfig(words, s.watches) else if InStartup(s) then c else Answered(c, es[0]);
      ConsoleRun(Next(s, es[0]), es[1..], c', words)
  }

  /** Everything a run from a config file with distinct sources keeps. */
  ghost predicate Kept(s: State, words: seq<string>) {
    && Orderly(s) && Scheduled(s) && Books(s, ConfigSources(words)) && Laws(s, ConfigTasks(words))
    && EntryLaws(s) && StartupEntries(s) && EofOk(s) && AllWatched(s)
  }

  lemma StepKept(s: State, e: Event, words: seq<string>)
    requires Kept(s, words) && AllApart(ConfigSources(words)) && Enabled(s, e) && SaneEvent(e) && Genuine(s, e) && GoodWatch(s, e)
    ensures Kept(Next(s, e), words)
  {
    hide Orderly, Scheduled, Books, Laws, EntryLaws, StartupEntries, EofOk, AllWatched, AllApart, Next, Enabled, SaneEvent, Genuine, GoodWatch;
    StepOrderly(s, e);
    StepScheduled(s, e);
    StepBooks(s, e, ConfigSources(words));
    StepLaws(s, e, ConfigSources(words), ConfigTasks(words));
    StepEntries(s, e, ConfigSources(words));
    StepEof(s, e);
    StepWatched(s, e);
  }

  lemma KeptSteady(s: State, words: seq<string>)
    requires Kept(s, words) && AllApart(ConfigSources(words))
    ensures !InStartup(s) ==> Steady(s)
  {
    hide Orderly, Scheduled, Laws, SyncLinesOk, StatusOk, TargetsOk, FreeOk, StartupEntries, AllWatched, AllApart, ErrorsOk, ConfigOk;
    NoneShadowed(s, ConfigSources(words));
  }

  lemma {:induction false} RunAnswered(s: State, es: seq<Event>, c: Console, words: seq<string>)
    requires Kept(s, words) && AllApart(ConfigSources(words)) && (!InStartup(s) ==> See(s) == c)
    requires Allowed(s, es) && SaneEvents(es) && GenuineRun(s, es) && GoodWatches(s, es)
    ensures !InStartup(Run(s, es)) ==> See(Run(s, es)) == ConsoleRun(s, es, c, words)
    decreases |es|
  {
    hide Kept, AllApart, Next, Enabled, SaneEvent, Genuine, GoodWatch, See, FromConfig, Answered, Steady;
    if es != [] {
      var e, s' := es[0], Next(s, es[0]);
      assert SaneEvent(e);
      StepKept(s, e, words);
      var c' := if e.LeaveStartup? then FromConfig(words, s.watches) else if InStartup(s) then c else Answered(c, e);
      assert !InStartup(s') ==> See(s') == c' by { OneAnswered(s, e, c, words); }
      RunAnswered(s', es[1..], c', words);
    }
  }

  lemma OneAnswered(s: State, e: Event, c: Console, words: seq<string>)
    requires Kept(s, words) && AllApart(ConfigSources(words)) && (!InStartup(s) ==> See(s) == c)
    requires Enabled(s, e) && SaneEvent(e) && Genuine(s, e) && GoodWatch(s, e)
    ensures !InStartup(Next(s, e)) ==>
              See(Next(s, e)) == if e.LeaveStartup? then FromConfig(words, s.watches) else if InStartup(s) then c else Answered(c, e)
  {
    hide Orderly, Scheduled, Books, Laws, EntryLaws, StartupEntries, EofOk, AllWatched, AllApart, SaneEvent, Genuine, GoodWatch, See,
      FromConfig, Answered, Steady, Enabled, Next;
    if e.LeaveStartup? {
      HandedOver(s, words);
      LeavingSees(s, e);
    } else if InStartup(s) {
      var more := EventAppends(s, e);
    } else {
      KeptSteady(s, words);
      StepAnswered(s, e);
    }
  }

  lemma LeavingSees(s: State, e: Event)
    requires e.LeaveStartup? && Enabled(s, e)
    ensures See(Next(s, e)) == See(s)
  {
  }

  lemma NothingWatched(mode: Mode, limit: nat, words: seq<string>)
    ensures EofOk(Initial(mode, limit, words)) && AllWatched(Initial(mode, limit, words))
  {
  }

  lemma InitialKept(mode: Mode, limit: nat, words: seq<string>)
    requires forall k :: 0 <= k < |words| ==> SaneName(words[k])
    requires AllApart(ConfigSources(words))
    ensures Kept(Initial(mode, limit, words), words)
  {
    hide Orderly, Scheduled, Books, Laws, EntryLaws, StartupEntries, AllApart, SaneName, Initial, EofOk, AllWatched, ConfigSources, ConfigTasks;
    NothingWatched(mode, limit, words);
    InitialOrderly(mode, limit, words);
    InitialScheduled(mode, limit, words);
    InitialBooks(mode, limit, words);
    InitialLaws(mode, limit, words);
    InitialEntries(mode, limit, words);
  }

  /** For every run from a config file with distinct sources in which the watch calls work: once the
      startup loop is over, what is monitored with which target, whose the descriptors are and which tasks
      there have been is what the machine says, whatever the workers and the console do. */
  lemma ConsoleRefines(mode: Mode, limit: nat, words: seq<string>, es: seq<Event>)
    requires SaneRun(mode, limit, words, es) && AllApart(ConfigSources(words)) && GoodWatches(Initial(mode, limit, words), es)
    requires !InStartup(Run(Initial(mode, limit, words), es))
    ensures See(Run(Initial(mode, limit, words), es))
         == ConsoleRun(Initial(mode, limit, words), es, FromConfig(words, map[]), words)
  {
    hide Kept, AllApart, See, FromConfig, Next, Enabled, SaneEvent, Genuine, GoodWatch, SaneName;
    InitialKept(mode, limit, words);
    RunAnswered(Initial(mode, limit, words), es, FromConfig(words, map[]), words);
  }

  /** In particular, when the startup loop ends: each pair's task has been started, in file order, its entry
      has its target, and its source has a descriptor that a cancel command will find. */
  lemma StartupHandsOver(mode: Mode, limit: nat, words: seq<string>, es: seq<Event>)
    requires SaneRun(mode, limit, words, es) && AllApart(ConfigSources(words)) && GoodWatches(Initial(mode, limit, words), es)
    requires Enabled(Run(Initial(mode, limit, words), es), LeaveStartup)
    ensures var s := Run(Initial(mode, limit, words), es);
            && s.started == ConfigTasks(words) && See(s) == FromConfig(words, s.watches)
            && forall k :: 0 <= k < |ConfigTasks(words)| ==>
                 var t := ConfigTasks(words)[k];
                 && t.source in s.store && s.store[t.source].target == t.target && (exists wd :: Bound(s, wd, t.source))
                 && forall key :: FindsKey(s.watches, t.source, key) ==> key != -1
  {
    hide Kept, AllApart, See, FromConfig, Next, Enabled, SaneEvent, Genuine, GoodWatch, SaneName, Bound, FindsKey, ConfigTasks, AllWatched,
      Initial, SaneRun;
    SaneRunIs(mode, limit, words, es);
    InitialKept(mode, limit, words);
    RunKept(Initial(mode, limit, words), es, words);
    var s := Run(Initial(mode, limit, words), es);
    EndKept(s, words);
    forall k | 0 <= k < |ConfigTasks(words)|
      ensures var t := ConfigTasks(words)[k];
              (exists wd :: Bound(s, wd, t.source)) && forall key :: FindsKey(s.watches, t.source, key) ==> key != -1
    {
      EveryDirectoryIsWatched(mode, limit, words, es, ConfigTasks(words)[k].source);
    }
  }

  lemma {:induction false} RunKept(s: State, es: seq<Event>, words: seq<string>)
    requires Kept(s, words) && AllApart(ConfigSources(words))
    requires Allowed(s, es) && SaneEvents(es) && GenuineRun(s, es) && GoodWatches(s, es)
    ensures Kept(Run(s, es), words)
    decreases |es|
  {
    hide Kept, AllApart, Next, Enabled, SaneEvent, Genuine, GoodWatch;
    if es != [] {
      assert SaneEvent(es[0]);
      StepKept(s, es[0], words);
      RunKept(Next(s, es[0]), es[1..], words);
    }
  }

  lemma EndKept(s: State, words: seq<string>)
    requires Kept(s, words) && AllApart(ConfigSources(words)) && Enabled(s, LeaveStartup)
    ensures s.started == ConfigTasks(words) && See(s) == FromConfig(words, s.watches)
    ensures forall k :: 0 <= k < |ConfigTasks(words)| ==>
              var t := ConfigTasks(words)[k]; t.source in s.store && s.store[t.source].target == t.target
  {
    hide Orderly, Scheduled, Books, Laws, StartupEntries, EofOk, AllWatched, AllApart, See, FromConfig, SyncLinesOk, FreeOk, StatusOk;
    HandedOver(s, words);
  }
}
