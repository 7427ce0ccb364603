/** What every run keeps of its tasks, its log and its entries. */
module ManagerLaws {
  import opened CStrings
  import opened WorkerReport
  import opened ReportParser
  import opened RoundTrip
  import opened Marker
  import opened WorkerProcess
  import opened StoreModel
  import opened TaskCode
  import opened WorkerPool
  import opened ManagerModel
  import opened ManagerReports
  import opened ManagerSafety
  import opened ManagerSchedule
  import opened ManagerBooks
  import opened ManagerStartup
  import opened ManagerLog

  // ----- the laws -----

  /** The directories of the FULL tasks, in order. */
  function Fulls(ts: seq<Task>): seq<string> {
    if ts == [] then []
    else Fulls(ts[..|ts| - 1]) + (if ts[|ts| - 1].action == "FULL" then [ts[|ts| - 1].source] else [])
  }

  /** The directories of the lines that say a FULL was asked for, in order. */
  function Asked(log: seq<LogLine>): seq<string> {
    if log == [] then []
    else
      var l := log[|log| - 1];
      Asked(log[..|log| - 1]) + (if l.MonitoringStarted? || l.Syncing? then [l.source] else [])
  }

  /** There is a FULL for each Monitoring started line and each Syncing line, in their order, and no
      other. */
  ghost predicate AskedOk(s: State) {
    Asked(s.log) == Fulls(if InStartup(s) then s.started else s.accepted)
  }

  /** The report lines. */
  function ReportLines(log: seq<LogLine>): seq<LogLine> {
    if log == [] then []
    else ReportLines(log[..|log| - 1]) + (if log[|log| - 1].Reported? then [log[|log| - 1]] else [])
  }

  /** What the log says of a finished worker: its arguments, and what it meant. */
  function LineFor(r: Running): LogLine {
    Reported(r.task.source, r.task.target, r.task.action, r.Report().Status(),
             " " + Details(r.tally.copied, r.tally.deleted, r.tally.skipped))
  }

  function LinesFor(rs: seq<Running>): (ls: seq<LogLine>)
    ensures |ls| == |rs| && forall k :: 0 <= k < |rs| ==> ls[k] == LineFor(rs[k])
  {
    seq(|rs|, k requires 0 <= k < |rs| => LineFor(rs[k]))
  }

  /** Every finished worker has its line, in the order they finished. */
  ghost predicate ReportsOk(s: State) {
    ReportLines(s.log) == LinesFor(s.finished)
  }

  /** The tasks of the complete pairs. */
  function ConfigTasks(words: seq<string>): seq<Task> {
    if |words| < 2 then [] else [Task(words[0], words[1], "ALL", "FULL")] + ConfigTasks(words[2..])
  }

  ghost predicate ConfigTasksOk(s: State, tasks: seq<Task>) {
    InStartup(s) ==> s.accepted + ConfigTasks(s.words) == tasks
  }

  /** A directory is only synchronised while it is monitored: an odd number of its Monitoring lines is
      before each of its Syncing lines. */
  ghost predicate SyncLinesOk(log: seq<LogLine>) {
    forall k :: 0 <= k < |log| && log[k].Syncing? ==> |LinesOf(log[..k], log[k].source)| % 2 == 1
  }

  /** In the command loop no entry is marked as being in the workers. */
  ghost predicate FreeOk(s: State) {
    !InStartup(s) ==> forall d :: d in s.store ==> !s.store[d].isInWorkers
  }

  /** The status of the last finished worker of the directory. */
  function LastStatus(rs: seq<Running>, d: string): string {
    if rs == [] then ""
    else if rs[|rs| - 1].task.source == d then rs[|rs| - 1].Report().Status()
    else LastStatus(rs[..|rs| - 1], d)
  }

  ghost predicate StatusOk(s: State) {
    forall d :: d in s.store ==> s.store[d].status == LastStatus(s.finished, d)
  }

  /** In the startup loop each entry has the target of its pair. */
  ghost predicate TargetsOk(s: State) {
    InStartup(s) ==> forall k :: 0 <= k < |s.started| ==>
      s.started[k].source in s.store && s.store[s.started[k].source].target == s.started[k].target
  }

  ghost predicate Laws(s: State, tasks: seq<Task>) {
    AskedOk(s) && ReportsOk(s) && ConfigTasksOk(s, tasks)
  }

  /** Those for distinct config sources. */
  ghost predicate EntryLaws(s: State) {
    SyncLinesOk(s.log) && FreeOk(s) && StatusOk(s) && TargetsOk(s)
  }

  // ----- one more of each -----

  lemma FullsMore(ts: seq<Task>, t: Task)
    ensures Fulls(ts + [t]) == Fulls(ts) + (if t.action == "FULL" then [t.source] else [])
  {
    assert (ts + [t])[..|ts|] == ts;
  }

  lemma LogMore(log: seq<LogLine>, l: LogLine)
    ensures Asked(log + [l]) == Asked(log) + (if l.MonitoringStarted? || l.Syncing? then [l.source] else [])
    ensures ReportLines(log + [l]) == ReportLines(log) + (if l.Reported? then [l] else [])
  {
    assert (log + [l])[..|log|] == log;
  }

  lemma SyncLinesMore(log: seq<LogLine>, l: LogLine)
    requires SyncLinesOk(log) && (l.Syncing? ==> |LinesOf(log, l.source)| % 2 == 1)
    ensures SyncLinesOk(log + [l])
  {
    hide LinesOf;
    var more := log + [l];
    forall k | 0 <= k < |more| && more[k].Syncing? ensures |LinesOf(more[..k], more[k].source)| % 2 == 1 {
      if k < |log| {
        assert more[..k] == log[..k] && more[k] == log[k];
      } else {
        assert more[..k] == log;
      }
    }
  }

  lemma LastStatusMore(rs: seq<Running>, r: Running, d: string)
    ensures LastStatus(rs + [r], d) == if r.task.source == d then r.Report().Status() else LastStatus(rs, d)
  {
    assert (rs + [r])[..|rs|] == rs;
  }

  lemma {:induction false} NoStatus(rs: seq<Running>, d: string)
    requires forall k :: 0 <= k < |rs| ==> rs[k].task.source != d
    ensures LastStatus(rs, d) == ""
  {
    if rs != [] {
      NoStatus(rs[..|rs| - 1], d);
    }
  }

  // ----- every event keeps them -----

  /** The line of a finished worker: every field in its place. */
  lemma LineFields(r: Running)
    ensures LineOf(r) == LineFor(r)
  {
    hide Details, RenderAll;
  }

  /** The entry of a finished worker's directory: the errors are added, the time and the status are the
      worker's, and it is no longer in the workers if the startup loop or a FULL had put it there. */
  lemma FinishedEntry(s: State, i: nat, chunk: string, now: string)
    requires Orderly(s) && Enabled(s, Chunk(i, chunk, now)) && Found(Received(s, i, chunk).received, MARKER)
    ensures var r, s' := Received(s, i, chunk), OnChunk(s, i, chunk, now);
            var d := r.task.source;
            && d in s.store && s'.finished == s.finished + [r] && s'.log == s.log + [LineFor(r)]
            && s'.store == s.store[d := s'.store[d]]
            && s'.store[d] == DirInfo(s.store[d].source, s.store[d].target, r.Report().Status(), now,
                                      s.store[d].errors + FailedOperations(r.tally), s.store[d].isActive,
                                      if InStartup(s) || r.task.action == "FULL" then false else s.store[d].isInWorkers)
  {
    hide Found, Printed, OnChunk, SaneTask, SaneTally, StoreOk, QueueOk, WordsOk, LineOf, FailedOperations;
    ChunkCases(s, i, chunk, now);
    LineFields(Received(s, i, chunk));
  }

  lemma ChunkLaws(s: State, i: nat, chunk: string, now: string, tasks: seq<Task>)
    requires Orderly(s) && Enabled(s, Chunk(i, chunk, now)) && Laws(s, tasks)
    ensures Laws(OnChunk(s, i, chunk, now), tasks)
    ensures EntryLaws(s) ==> EntryLaws(OnChunk(s, i, chunk, now))
  {
    hide Found, Printed, OnChunk, InfoOf, SaneTask, SaneTally, StoreOk, QueueOk, WordsOk, LineOf, LineFor, LastStatus, LinesOf,
      Asked, Fulls, ReportLines, FailedOperations;
    var r, s' := Received(s, i, chunk), OnChunk(s, i, chunk, now);
    ChunkCases(s, i, chunk, now);
    if Found(r.received, MARKER) {
      FinishedEntry(s, i, chunk, now);
      LogMore(s.log, LineFor(r));
      assert LineFor(r).Reported? by { ReportedFor(r); }
      assert LinesFor(s.finished + [r]) == LinesFor(s.finished) + [LineFor(r)];
      if EntryLaws(s) {
        SyncLinesMore(s.log, LineFor(r));
        forall d | d in s'.store ensures s'.store[d].status == LastStatus(s'.finished, d) {
          LastStatusMore(s.finished, r, d);
        }
      }
    }
  }

  lemma ReportedFor(r: Running)
    ensures LineFor(r).Reported?
  {
    hide Details;
  }

  /** A dispatch of the startup loop. */
  lemma DispatchLaws(s: State, w: State, t: Task, tally: Tally, wd: int, tasks: seq<Task>)
    requires InStartup(s) && InStartup(w) && Laws(s, tasks) && ConfigTasksOk(w, tasks) && t.action == "FULL" && ErrorsOk(s)
    requires w.store == s.store && w.log == s.log && w.finished == s.finished && w.started == s.started
    ensures var s' := StartupDispatch(w, t, tally, wd);
            && Laws(s', tasks)
            && (EntryLaws(s) && t.source !in s.store ==> EntryLaws(s'))
  {
    hide Asked, Fulls, ReportLines, LinesOf, LastStatus, LinesFor, ErrorSum, Hidden, ConfigTasks;
    var s' := StartupDispatch(w, t, tally, wd);
    LogMore(s.log, MonitoringStarted(t.source));
    FullsMore(s.started, t);
    if EntryLaws(s) && t.source !in s.store {
      SyncLinesMore(s.log, MonitoringStarted(t.source));
      NoStatus(s.finished, t.source);
    }
  }

  lemma ReadPairLaws(s: State, sources: seq<string>, hitEof: bool, tally: Tally, wd: int, tasks: seq<Task>)
    requires Orderly(s) && Scheduled(s) && Books(s, sources) && Enabled(s, ReadPair(hitEof, tally, wd)) && Laws(s, tasks)
    ensures Laws(OnReadPair(s, hitEof, tally, wd), tasks)
    ensures EntryLaws(s) && AllApart(sources) ==> EntryLaws(OnReadPair(s, hitEof, tally, wd))
  {
    hide DecodePair, EncodePair, StartupDispatch, Distinctly, ErrorsOk, Scheduled, CodeOf, DecodeAs, AllApart, StoreOk, RunningOk, QueueOk,
      AskedOk, ReportsOk, SyncLinesOk, StatusOk, Sources;
    var t := Task(s.words[0], s.words[1], "ALL", "FULL");
    PairIsSane(t);
    CodeDecodes(true, EncodePair(t.source, t.target), t);
    var w := s.(words := s.words[2..], eof := s.eof || hitEof, accepted := s.accepted + [t]);
    assert s.accepted + ConfigTasks(s.words) == w.accepted + ConfigTasks(w.words);
    if SlotFree(s) {
      if AllApart(sources) { PairIsNew(s, sources); }
      DispatchLaws(s, w, t, tally, wd, tasks);
    } else {
      SameLaws(s, w.(queue := s.queue + [EncodePair(t.source, t.target)]));
    }
  }

  /** What the laws do not look at. */
  lemma SameLaws(s: State, s': State)
    requires s'.log == s.log && s'.store == s.store && s'.finished == s.finished && s'.started == s.started
    requires s'.phase == s.phase && (InStartup(s) || s'.accepted == s.accepted)
    ensures AskedOk(s) ==> AskedOk(s')
    ensures ReportsOk(s) ==> ReportsOk(s')
    ensures EntryLaws(s) ==> EntryLaws(s')
  {
    hide LinesOf, LastStatus, Asked, Fulls, ReportLines, LinesFor;
  }

  lemma StartupPopLaws(s: State, sources: seq<string>, tally: Tally, wd: int, tasks: seq<Task>)
    requires Orderly(s) && Scheduled(s) && Books(s, sources) && Enabled(s, StartupPop(tally, wd)) && Laws(s, tasks)
    ensures Laws(OnStartupPop(s, tally, wd), tasks)
    ensures EntryLaws(s) && AllApart(sources) ==> EntryLaws(OnStartupPop(s, tally, wd))
  {
    hide DecodePair, StartupDispatch, Distinctly, ErrorsOk, Scheduled, CodeOf, DecodeAs, AllApart, StoreOk, RunningOk, WordsOk,
      AskedOk, ReportsOk, SyncLinesOk, StatusOk, TargetsOk, Sources, ConfigTasks;
    var t := DecodeAs(true, s.queue[0]);
    assert Coded(true, s.queue[0]);
    CodeDecodes(true, s.queue[0], t);
    assert t.action == "FULL" by { CodeIsFull(s.queue[0], t); }
    if AllApart(sources) { PoppedIsNew(s, sources); }
    DispatchLaws(s, s.(queue := s.queue[1..]), t, tally, wd, tasks);
  }

  lemma CodeIsFull(q: string, t: Task)
    requires CodeOf(true, q, t)
    ensures t.action == "FULL"
  {
    hide SaneTask, EncodePair;
  }

  // ----- the command loop -----

  lemma SubmitFields(w: State, t: Task, tally: Tally)
    ensures var s' := Submit(w, t, tally);
            && s'.log == w.log && s'.store == w.store && s'.finished == w.finished && s'.phase == w.phase
            && s'.accepted == w.accepted + [t] && s'.shutdown == w.shutdown && s'.watches == w.watches && s'.issued == w.issued && s'.shadowed == w.shadowed
  {
    hide Encode;
  }

  lemma NotifyLaws(s: State, e: Event, tasks: seq<Task>)
    requires !InStartup(s) && e.Notify? && Enabled(s, e) && Laws(s, tasks)
    ensures Laws(Next(s, e), tasks) && (EntryLaws(s) ==> EntryLaws(Next(s, e)))
  {
    hide Submit, Asked, Fulls, ReportLines, LinesOf, LastStatus, LinesFor;
    if e.wd in s.watches && s.watches[e.wd] in s.store && e.kind != OtherKind {
      var t := Task(s.watches[e.wd], s.store[s.watches[e.wd]].target, e.name, ActionOf(e.kind));
      SubmitFields(s, t, e.tally);
      FullsMore(s.accepted, t);
    }
  }

  lemma AddLaws(s: State, source: string, target: string, wd: int, tally: Tally, tasks: seq<Task>)
    requires s.phase == Serving && Laws(s, tasks) && ErrorsOk(s)
    ensures var s' := OnAdd(s, source, target, wd, tally); Laws(s', tasks) && (EntryLaws(s) ==> EntryLaws(s'))
  {
    hide Submit, Asked, Fulls, ReportLines, LinesOf, LastStatus, LinesFor, ErrorSum, Hidden;
    if !(source in s.store && s.store[source].isActive) {
      var info := if source in s.store then s.store[source].(isActive := true, target := target)
                  else DirInfo(source, target, "", "", 0, true, false);
      var w := Watch(s, wd, source).(store := s.store[source := info], log := s.log + [MonitoringStarted(source)]);
      var t := Task(source, target, "all", "FULL");
      SubmitFields(w, t, tally);
      FullsMore(s.accepted, t);
      LogMore(s.log, MonitoringStarted(source));
      if EntryLaws(s) {
        SyncLinesMore(s.log, MonitoringStarted(source));
        if source !in s.store { NoStatus(s.finished, source); }
      }
    }
  }

  lemma SyncLaws(s: State, source: string, wd: int, tally: Tally, tasks: seq<Task>)
    requires s.phase == Serving && Laws(s, tasks)
    ensures var s' := OnSync(s, source, wd, tally); Laws(s', tasks) && (EntryLaws(s) && LogOk(s) ==> EntryLaws(s'))
  {
    hide Submit, Asked, Fulls, ReportLines, LinesOf, LastStatus, LinesFor;
    if source in s.store && !s.store[source].isInWorkers && s.store[source].isActive {
      var target := s.store[source].target;
      var t := Task(source, target, "all", "FULL");
      SubmitFields(Watch(s, wd, source).(log := s.log + [Syncing(source, target)]), t, tally);
      FullsMore(s.accepted, t);
      LogMore(s.log, Syncing(source, target));
      if EntryLaws(s) && LogOk(s) {
        assert LogOkFor(s, source);
        SyncLinesMore(s.log, Syncing(source, target));
      }
    }
  }

  lemma CancelLaws(s: State, source: string, wd: int, tasks: seq<Task>)
    requires s.phase == Serving && Laws(s, tasks)
    ensures var s' := OnCancel(s, source, wd); Laws(s', tasks) && (EntryLaws(s) ==> EntryLaws(s'))
  {
    hide Asked, Fulls, ReportLines, LinesOf, LastStatus, LinesFor;
    LogMore(s.log, MonitoringStopped(source));
    if EntryLaws(s) { SyncLinesMore(s.log, MonitoringStopped(source)); }
  }

  lemma PopLaws(s: State, tally: Tally, tasks: seq<Task>)
    requires Enabled(s, Pop(tally)) && Laws(s, tasks)
    ensures var s' := OnPop(s, tally); Laws(s', tasks) && (EntryLaws(s) ==> EntryLaws(s'))
  {
    hide Decode, Asked, Fulls, ReportLines, LinesOf, LastStatus, LinesFor;
  }

  /** The startup loop ends with nothing queued or running. */
  lemma LeaveLaws(s: State, e: Event, tasks: seq<Task>)
    requires e.LeaveStartup? && Enabled(s, e) && Laws(s, tasks) && Scheduled(s)
    ensures Laws(Next(s, e), tasks)
    ensures EntryLaws(s) && StartupEntries(s) ==> EntryLaws(Next(s, e))
  {
    hide DecodeAs, Asked, Fulls, ReportLines, LinesOf, LastStatus, LinesFor, AllApart;
    assert Waiting(s) == [];
    assert s.started + [] == s.started == s.accepted;
    assert Sources(Jobs(s.running)) == [];
  }

  lemma OtherLaws(s: State, e: Event, tasks: seq<Task>)
    requires Enabled(s, e) && Laws(s, tasks)
    requires e.ReadTail? || e.OtherCommand? || e.ShutdownCommand? || e.Exit? || e.Reshuffle?
    ensures Laws(Next(s, e), tasks)
    ensures EntryLaws(s) && !e.Reshuffle? ==> EntryLaws(Next(s, e))
  {
    hide Asked, Fulls, ReportLines, LinesOf, LastStatus, LinesFor;
  }

  lemma StepLaws(s: State, e: Event, sources: seq<string>, tasks: seq<Task>)
    requires Orderly(s) && Scheduled(s) && Books(s, sources) && Enabled(s, e) && Laws(s, tasks)
    ensures Laws(Next(s, e), tasks)
    ensures AllApart(sources) && EntryLaws(s) && StartupEntries(s) ==> EntryLaws(Next(s, e))
  {
    hide Orderly, Scheduled, ErrorsOk, ConfigOk, AllApart, LogOk, Laws, EntryLaws, StartupEntries,
      OnReshuffle, OnChunk, OnReadPair, OnStartupPop, OnPop, OnNotify, OnAdd, OnSync, OnCancel, FindsKey, Printed;
    match e
    case Chunk(i, chunk, now) => ChunkLaws(s, i, chunk, now, tasks);
    case ReadPair(hitEof, tally, wd) => ReadPairLaws(s, sources, hitEof, tally, wd, tasks);
    case StartupPop(tally, wd) => StartupPopLaws(s, sources, tally, wd, tasks);
    case Pop(tally) => PopLaws(s, tally, tasks);
    case Notify(_, _, _, _) => NotifyLaws(s, e, tasks);
    case AddCommand(source, target, wd, tally) => AddLaws(s, source, target, wd, tally, tasks);
    case SyncCommand(source, wd, tally) => SyncLaws(s, source, wd, tally, tasks);
    case CancelCommand(source, wd) => CancelLaws(s, source, wd, tasks);
    case LeaveStartup => LeaveLaws(s, e, tasks);
    case _ => OtherLaws(s, e, tasks);
  }

  lemma {:induction false} RunLaws(s: State, es: seq<Event>, sources: seq<string>, tasks: seq<Task>)
    requires Orderly(s) && Scheduled(s) && Books(s, sources) && Laws(s, tasks)
    requires AllApart(sources) ==> EntryLaws(s) && StartupEntries(s)
    requires Allowed(s, es) && SaneEvents(es) && GenuineRun(s, es)
    ensures var r := Run(s, es); Laws(r, tasks) && (AllApart(sources) ==> EntryLaws(r))
    decreases |es|
  {
    hide Orderly, Scheduled, Books, AllApart, Next, Enabled, SaneEvent, Laws, EntryLaws, StartupEntries;
    if es != [] {
      assert SaneEvent(es[0]);
      StepOrderly(s, es[0]);
      StepScheduled(s, es[0]);
      StepBooks(s, es[0], sources);
      StepLaws(s, es[0], sources, tasks);
      if AllApart(sources) {
        StepEntries(s, es[0], sources);
      }
      RunLaws(Next(s, es[0]), es[1..], sources, tasks);
    }
  }

  lemma InitialLaws(mode: Mode, limit: nat, words: seq<string>)
    ensures Laws(Initial(mode, limit, words), ConfigTasks(words)) && EntryLaws(Initial(mode, limit, words))
  {
    assert [] + ConfigTasks(words) == ConfigTasks(words);
    assert LinesFor([]) == [];
  }

  lemma RunLawful(mode: Mode, limit: nat, words: seq<string>, es: seq<Event>)
    requires SaneRun(mode, limit, words, es)
    ensures var s := Run(Initial(mode, limit, words), es);
            Laws(s, ConfigTasks(words)) && (AllApart(ConfigSources(words)) ==> EntryLaws(s))
  {
    hide Orderly, Scheduled, Books, AllApart, Laws, EntryLaws, StartupEntries, Next, Enabled, SaneEvent;
    InitialOrderly(mode, limit, words);
    InitialScheduled(mode, limit, words);
    InitialBooks(mode, limit, words);
    InitialEntries(mode, limit, words);
    InitialLaws(mode, limit, words);
    RunLaws(Initial(mode, limit, words), es, ConfigSources(words), ConfigTasks(words));
  }

  /** A directory that is unknown, in the workers or not active is not synchronised. */
  lemma SyncRefused(s: State, d: string, wd: int, tally: Tally)
    requires d in s.store ==> s.store[d].isInWorkers || !s.store[d].isActive
    ensures OnSync(s, d, wd, tally) == s
  {
  }

  // ----- stopping -----

  ghost predicate Told(es: seq<Event>) {
    exists k :: 0 <= k < |es| && es[k].ShutdownCommand?
  }

  lemma {:induction false} RunStops(s: State, es: seq<Event>)
    requires Orderly(s) && Allowed(s, es) && SaneEvents(es) && GenuineRun(s, es) && s.phase != Stopped
    ensures var r := Run(s, es);
            && (r.shutdown <==> s.shutdown || Told(es))
            && (r.phase == Stopped ==> r.shutdown && r.queue == [] && r.running == [])
    decreases |es|
  {
    hide Orderly, Next, Enabled, SaneEvent, Genuine;
    if es != [] {
      assert SaneEvent(es[0]);
      StepOrderly(s, es[0]);
      StepStops(s, es[0]);
      ToldFirst(es);
      if Next(s, es[0]).phase == Stopped {
        NothingAfter(Next(s, es[0]), es[1..]);
        assert !Told([]);
      } else {
        RunStops(Next(s, es[0]), es[1..]);
      }
    }
  }

  lemma StepStops(s: State, e: Event)
    requires Orderly(s) && Enabled(s, e) && s.phase != Stopped
    ensures Next(s, e).shutdown <==> s.shutdown || e.ShutdownCommand?
    ensures Next(s, e).phase == Stopped ==> e.Exit? && s.shutdown && Next(s, e).queue == [] && Next(s, e).running == []
  {
    hide Orderly, OnChunk, OnReadPair, OnStartupPop, OnPop, OnNotify, OnAdd, OnSync, OnCancel, FindsKey, Printed;
    match e
    case Chunk(_, _, _) => ChunkStops(s, e);
    case ReadPair(_, _, _) => StartupStops(s, e);
    case StartupPop(_, _) => StartupStops(s, e);
    case Pop(_) => ServingStops(s, e);
    case Notify(_, _, _, _) => ServingStops(s, e);
    case AddCommand(_, _, _, _) => ServingStops(s, e);
    case SyncCommand(_, _, _) => ServingStops(s, e);
    case CancelCommand(_, _) => ServingStops(s, e);
    case _ =>
  }

  lemma ChunkStops(s: State, e: Event)
    requires Orderly(s) && e.Chunk? && Enabled(s, e)
    ensures var s' := OnChunk(s, e.slot, e.chunk, e.now); s'.shutdown == s.shutdown && s'.phase == s.phase
  {
    hide Found, Printed, OnChunk, InfoOf, LineOf, SaneTask, SaneTally, StoreOk, QueueOk, WordsOk;
    ChunkCases(s, e.slot, e.chunk, e.now);
  }

  lemma StartupStops(s: State, e: Event)
    requires Enabled(s, e) && (e.ReadPair? || e.StartupPop?)
    ensures Next(s, e).shutdown == s.shutdown && Next(s, e).phase in {s.phase, Crashed}
  {
    hide DecodePair, EncodePair, StartupDispatch;
    forall w, t, tally, wd ensures StartupDispatch(w, t, tally, wd).shutdown == w.shutdown { DispatchStops(w, t, tally, wd); }
  }

  lemma DispatchStops(w: State, t: Task, tally: Tally, wd: int)
    ensures StartupDispatch(w, t, tally, wd).shutdown == w.shutdown
  {
  }

  lemma ServingStops(s: State, e: Event)
    requires Enabled(s, e) && (e.Pop? || e.Notify? || e.AddCommand? || e.SyncCommand? || e.CancelCommand?)
    ensures Next(s, e).shutdown == s.shutdown && Next(s, e).phase in {s.phase, Crashed}
  {
    hide Submit, Decode, FindsKey;
    forall w, t, tally ensures Submit(w, t, tally).shutdown == w.shutdown && Submit(w, t, tally).phase == w.phase {
      SubmitFields(w, t, tally);
    }
  }

  lemma ToldFirst(es: seq<Event>)
    requires es != []
    ensures Told(es) <==> es[0].ShutdownCommand? || Told(es[1..])
  {
    if Told(es[1..]) {
      var k :| 0 <= k < |es[1..]| && es[1..][k].ShutdownCommand?;
      assert es[k + 1].ShutdownCommand?;
    }
  }

  lemma NothingAfter(s: State, es: seq<Event>)
    requires s.phase == Stopped && Allowed(s, es)
    ensures es == []
  {
    hide Enabled, Next;
    if es != [] {
      StoppedForGood(s, es[0]);
      assert false;
    }
  }

  lemma StoppedForGood(s: State, e: Event)
    requires s.phase == Stopped
    ensures !Enabled(s, e)
  {
    hide Printed, Received, FindsKey;
  }

  // ----- the theorems -----

  /** In every run of the command loop the FULL tasks accepted are, in order, for the directories of the
      Monitoring started and the Syncing lines; and each finished worker has its line in the log. */
  lemma FullsAreAsked(mode: Mode, limit: nat, words: seq<string>, es: seq<Event>)
    requires SaneRun(mode, limit, words, es) && !InStartup(Run(Initial(mode, limit, words), es))
    ensures var s := Run(Initial(mode, limit, words), es); Fulls(s.accepted) == Asked(s.log)
  {
    hide EntryLaws, AllApart, SaneRun, Asked, Fulls, ReportsOk;
    SaneRunIs(mode, limit, words, es);
    RunLawful(mode, limit, words, es);
  }

  lemma ReportsAreLogged(mode: Mode, limit: nat, words: seq<string>, es: seq<Event>)
    requires SaneRun(mode, limit, words, es)
    ensures var s := Run(Initial(mode, limit, words), es); ReportLines(s.log) == LinesFor(s.finished)
  {
    hide EntryLaws, AllApart, SaneRun, ReportLines, LinesFor, AskedOk;
    SaneRunIs(mode, limit, words, es);
    RunLawful(mode, limit, words, es);
  }

  /** The manager stops only after a shutdown command, with nothing queued and nothing running. */
  lemma StopsWhenTold(mode: Mode, limit: nat, words: seq<string>, es: seq<Event>)
    requires SaneRun(mode, limit, words, es)
    ensures var s := Run(Initial(mode, limit, words), es);
            && (s.shutdown <==> Told(es))
            && (s.phase == Stopped ==> Told(es) && s.queue == [] && s.running == [])
  {
    hide Orderly, Told, Next, Enabled, SaneEvent, SaneName;
    InitialOrderly(mode, limit, words);
    RunStops(Initial(mode, limit, words), es);
  }

  /** For distinct config sources: a Syncing line of a directory stands between a started and a stopped
      line of it, so that together with the first theorem no command brings a FULL of a directory between
      its stopped line and the next started one. */
  lemma SyncedWhileMonitored(mode: Mode, limit: nat, words: seq<string>, es: seq<Event>, k: nat)
    requires SaneRun(mode, limit, words, es) && AllApart(ConfigSources(words))
    requires k < |Run(Initial(mode, limit, words), es).log| && Run(Initial(mode, limit, words), es).log[k].Syncing?
    ensures var log := Run(Initial(mode, limit, words), es).log; |LinesOf(log[..k], log[k].source)| % 2 == 1
  {
    hide Laws, AllApart, SaneRun, LinesOf, FreeOk, StatusOk, TargetsOk;
    SaneRunIs(mode, limit, words, es);
    RunLawful(mode, limit, words, es);
  }

  /** A sync command is obeyed if and only if an odd number of the directory's Monitoring lines is in the
      log; the mark that a directory is in the workers never refuses one. */
  lemma SyncObeyedExactly(mode: Mode, limit: nat, words: seq<string>, es: seq<Event>, d: string, wd: int, tally: Tally)
    requires SaneRun(mode, limit, words, es) && AllApart(ConfigSources(words))
    requires Enabled(Run(Initial(mode, limit, words), es), SyncCommand(d, wd, tally))
    ensures var s := Run(Initial(mode, limit, words), es);
            var s' := Next(s, SyncCommand(d, wd, tally));
            if |LinesOf(s.log, d)| % 2 == 1 then
              d in s.store && s'.accepted == s.accepted + [Task(d, s.store[d].target, "all", "FULL")]
              && s'.log == s.log + [Syncing(d, s.store[d].target)]
            else s' == s
  {
    hide Laws, AllApart, SaneRun, LinesOf, StatusOk, TargetsOk, SyncLinesOk, Submit;
    SaneRunIs(mode, limit, words, es);
    RunLawful(mode, limit, words, es);
    LogAlternates(mode, limit, words, es, d);
    var s := Run(Initial(mode, limit, words), es);
    if Active(s, d) {
      var target := s.store[d].target;
      SubmitFields(Watch(s, wd, d).(log := s.log + [Syncing(d, target)]), Task(d, target, "all", "FULL"), tally);
    }
  }

  /** The status found for a directory is what its last finished worker reported. */
  lemma StatusIsLast(mode: Mode, limit: nat, words: seq<string>, es: seq<Event>, d: string)
    requires SaneRun(mode, limit, words, es) && AllApart(ConfigSources(words)) && d in Run(Initial(mode, limit, words), es).store
    ensures var s := Run(Initial(mode, limit, words), es); s.store[d].status == LastStatus(s.finished, d)
  {
    hide Laws, AllApart, SaneRun, FreeOk, LastStatus, TargetsOk, SyncLinesOk;
    SaneRunIs(mode, limit, words, es);
    RunLawful(mode, limit, words, es);
  }
}
