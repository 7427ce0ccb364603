/** Tasks through the manager: first in, first out, none lost and none doubled; and what the command
    loop loses as it is written. */
module ManagerSchedule {
  import opened CStrings
  import opened WorkerReport
  import opened ReportParser
  import opened Marker
  import opened WorkerProcess
  import opened StoreModel
  import opened TaskCode
  import opened WorkerPool
  import opened ManagerModel
  import opened ManagerReports
  import opened ManagerSafety

  function Jobs(rs: seq<Running>): (ts: seq<Task>)
    ensures |ts| == |rs| && forall k :: 0 <= k < |ts| ==> ts[k] == rs[k].task
  {
    seq(|rs|, k requires 0 <= k < |rs| => rs[k].task)
  }

  /** The queue, decoded. */
  function Waiting(s: State): seq<Task> {
    Tasks(InStartup(s), s.queue)
  }

  /** In the startup loop, and in the repaired command loop, what was started followed by what is
      queued is what was accepted, in order. */
  ghost predicate InOrder(s: State) {
    InStartup(s) || s.mode == Repaired ==> s.lost == [] && s.started + Waiting(s) == s.accepted
  }

  /** In the command loop as it is written, what was lost followed by what is queued is what was
      pushed, in order. */
  ghost predicate LosesQueued(s: State) {
    if InStartup(s) then s.queued == [] else s.mode == AsWritten ==> s.lost + Waiting(s) == s.queued
  }

  /** Every accepted task is started, queued or lost, once; every started one is running or finished,
      once. */
  ghost predicate Conserved(s: State) {
    AcceptedOnce(s) && StartedOnce(s)
  }

  ghost predicate Scheduled(s: State) {
    InOrder(s) && LosesQueued(s) && Conserved(s)
  }

  /** A step of the scheduler, seen through its history. */
  datatype Move = Stay | Start | Enqueue | Dequeue | Drop | Consume(slot: nat)

  /** What each move does to the queue and the histories; t is the task it is about. */
  ghost predicate Moved(s: State, s': State, m: Move, t: Task) {
    && s'.mode == s.mode
    && match m
       case Stay =>
         && Waiting(s') == Waiting(s) && s'.accepted == s.accepted && s'.started == s.started && s'.lost == s.lost
         && s'.queued == s.queued && Jobs(s'.running) == Jobs(s.running) && s'.finished == s.finished
       case Start =>
         && Waiting(s) == [] == Waiting(s') && s'.accepted == s.accepted + [t] && s'.started == s.started + [t]
         && s'.lost == s.lost && s'.queued == s.queued && Jobs(s'.running) == Jobs(s.running) + [t] && s'.finished == s.finished
       case Enqueue =>
         && Waiting(s') == Waiting(s) + [t] && s'.accepted == s.accepted + [t] && s'.started == s.started && s'.lost == s.lost
         && s'.queued == (if InStartup(s) then s.queued else s.queued + [t])
         && Jobs(s'.running) == Jobs(s.running) && s'.finished == s.finished && |s.running| >= s.limit
       case Dequeue =>
         && Waiting(s) == [t] + Waiting(s') && s'.accepted == s.accepted && s'.started == s.started + [t] && s'.lost == s.lost
         && s'.queued == s.queued && Jobs(s'.running) == Jobs(s.running) + [t] && s'.finished == s.finished
       case Drop =>
         && Waiting(s) == [t] + Waiting(s') && s'.accepted == s.accepted && s'.started == s.started && s'.lost == s.lost + [t]
         && s'.queued == s.queued && Jobs(s'.running) == Jobs(s.running) && s'.finished == s.finished
       case Consume(i) =>
         && Waiting(s') == Waiting(s) && s'.accepted == s.accepted && s'.started == s.started && s'.lost == s.lost
         && s'.queued == s.queued && i < |s.running| && Jobs(s'.running) == SwapRemove(Jobs(s.running), i)
         && Jobs(s'.finished) == Jobs(s.finished) + [Jobs(s.running)[i]]
  }

  /** Which moves keep the phase apart from the others: only the popping of the command loop as it is
      written drops, and it never starts what it pops. */
  ghost predicate MoveFits(s: State, s': State, m: Move) {
    && (InStartup(s') <==> InStartup(s))
    && (m == Drop ==> s.mode == AsWritten && !InStartup(s))
    && (m == Dequeue ==> s.mode == Repaired || InStartup(s))
  }

  lemma MoveInOrder(s: State, s': State, m: Move, t: Task)
    requires InOrder(s) && Moved(s, s', m, t) && MoveFits(s, s', m)
    ensures InOrder(s')
  {
    hide Waiting, Jobs;
    if InStartup(s) || s.mode == Repaired {
      match m
      case Start =>
        assert s.started + Waiting(s) == s.started && s'.started + Waiting(s') == s'.started;
      case Enqueue =>
        assert s'.started + Waiting(s') == s.started + Waiting(s) + [t];
      case Dequeue =>
        assert s'.started + Waiting(s') == s.started + ([t] + Waiting(s'));
      case _ =>
    }
  }

  lemma MoveLosesQueued(s: State, s': State, m: Move, t: Task)
    requires LosesQueued(s) && Moved(s, s', m, t) && MoveFits(s, s', m)
    ensures LosesQueued(s')
  {
    hide Waiting, Jobs;
    match m
    case Enqueue =>
      assert s'.lost + Waiting(s') == s.lost + Waiting(s) + [t];
    case Drop =>
      assert s'.lost + Waiting(s') == s.lost + ([t] + Waiting(s'));
    case _ =>
  }

  ghost predicate AcceptedOnce(s: State) {
    multiset(s.accepted) == multiset(s.started) + multiset(Waiting(s)) + multiset(s.lost)
  }

  ghost predicate StartedOnce(s: State) {
    multiset(s.started) == multiset(Jobs(s.running)) + multiset(Jobs(s.finished))
  }

  lemma MoveAcceptedOnce(s: State, s': State, m: Move, t: Task)
    requires AcceptedOnce(s) && Moved(s, s', m, t)
    ensures AcceptedOnce(s')
  {
    hide Waiting, Jobs;
    if m == Dequeue || m == Drop {
      assert multiset(Waiting(s)) == multiset{t} + multiset(Waiting(s'));
    }
  }

  lemma MoveStartedOnce(s: State, s': State, m: Move, t: Task)
    requires StartedOnce(s) && Moved(s, s', m, t)
    ensures StartedOnce(s')
  {
    hide Waiting, Jobs;
    if m.Consume? {
      SwapRemoveItems(Jobs(s.running), m.slot);
    }
  }

  lemma MoveConserves(s: State, s': State, m: Move, t: Task)
    requires Conserved(s) && Moved(s, s', m, t)
    ensures Conserved(s')
  {
    hide Waiting, Jobs, Moved;
    MoveAcceptedOnce(s, s', m, t);
    MoveStartedOnce(s, s', m, t);
  }

  /** Whatever the move, the three laws are kept. */
  lemma MoveKeeps(s: State, s': State, m: Move, t: Task)
    requires Scheduled(s) && Moved(s, s', m, t) && MoveFits(s, s', m)
    ensures Scheduled(s')
  {
    hide InOrder, LosesQueued, Conserved, Moved, MoveFits;
    MoveInOrder(s, s', m, t);
    MoveLosesQueued(s, s', m, t);
    MoveConserves(s, s', m, t);
  }

  lemma SwapRemoveItems<T>(s: seq<T>, i: nat)
    requires i < |s|
    ensures multiset(s) == multiset(SwapRemove(s, i)) + multiset{s[i]}
  {
    var last := |s| - 1;
    assert s == s[..last] + [s[last]];
    if i < last {
      assert s[..last] == s[..i] + [s[i]] + s[i + 1..last];
      assert SwapRemove(s, i) == s[..i] + [s[last]] + s[i + 1..last];
    } else {
      assert SwapRemove(s, i) == s[..last];
    }
  }

  // ----- every event is a move -----

  /** The two states agree on everything the scheduler looks at. */
  ghost predicate SameSchedule(s: State, w: State) {
    && w.phase == s.phase && w.mode == s.mode && w.limit == s.limit && w.queue == s.queue && w.running == s.running
    && w.accepted == s.accepted && w.started == s.started && w.queued == s.queued && w.lost == s.lost
    && w.finished == s.finished
  }

  lemma JobsMore(rs: seq<Running>, r: Running)
    ensures Jobs(rs + [r]) == Jobs(rs) + [r.task]
  {
  }

  lemma SubmitMoves(s: State, w: State, t: Task, tally: Tally) returns (m: Move)
    requires SameSchedule(s, w) && s.phase == Serving && !CanPop(s) && SaneTask(t)
    ensures Moved(s, Submit(w, t, tally), m, t) && MoveFits(s, Submit(w, t, tally), m)
  {
    hide Moved, MoveFits, SaneTask, Submit;
    if SlotFree(s) {
      m := Start;
      LaunchMoves(s, w, t, tally);
    } else {
      m := Enqueue;
      PushMoves(s, w, t, tally);
    }
  }

  lemma LaunchMoves(s: State, w: State, t: Task, tally: Tally)
    requires SameSchedule(s, w) && s.phase == Serving && SlotFree(s) && s.queue == []
    ensures Moved(s, Submit(w, t, tally), Start, t) && MoveFits(s, Submit(w, t, tally), Start)
  {
    hide Encode, DecodeAs, Jobs, Tasks;
    JobsMore(s.running, Running(t, tally, ""));
    assert Tasks(false, s.queue) == [];
  }

  lemma PushMoves(s: State, w: State, t: Task, tally: Tally)
    requires SameSchedule(s, w) && s.phase == Serving && !SlotFree(s) && SaneTask(t)
    ensures Moved(s, Submit(w, t, tally), Enqueue, t) && MoveFits(s, Submit(w, t, tally), Enqueue)
  {
    hide Jobs, Tasks, Submit, Encode, SaneTask;
    PushWaiting(s.queue, t);
    PushFields(w, t, tally);
  }

  lemma PushWaiting(queue: seq<string>, t: Task)
    requires SaneTask(t)
    ensures Tasks(false, queue + [Encode(t)]) == Tasks(false, queue) + [t]
  {
    hide Encode, DecodeAs, SaneTask, CodeOf;
    EncodedIsCode(t);
    CodeDecodes(false, Encode(t), t);
    TasksAppend(false, queue, Encode(t));
  }

  lemma PushFields(w: State, t: Task, tally: Tally)
    requires !SlotFree(w)
    ensures Submit(w, t, tally) == w.(accepted := w.accepted + [t], queue := w.queue + [Encode(t)], queued := w.queued + [t])
  {
    hide Encode;
  }

  lemma StartupDispatchMoves(s: State, w: State, t: Task, tally: Tally, wd: int)
    requires w.phase == s.phase == Startup && w.mode == s.mode && w.running == s.running && w.finished == s.finished
    ensures var s' := StartupDispatch(w, t, tally, wd);
            && s'.queue == w.queue && s'.accepted == w.accepted && s'.started == w.started + [t] && s'.lost == w.lost
            && s'.queued == w.queued && s'.finished == s.finished && Jobs(s'.running) == Jobs(s.running) + [t]
            && s'.phase == s.phase && s'.mode == s.mode
  {
    JobsMore(s.running, Running(t, tally, ""));
  }

  lemma ReadPairMoves(s: State, hitEof: bool, tally: Tally, wd: int) returns (m: Move, t: Task)
    requires Orderly(s) && Enabled(s, ReadPair(hitEof, tally, wd))
    ensures var s' := OnReadPair(s, hitEof, tally, wd); Moved(s, s', m, t) && MoveFits(s, s', m)
    ensures t == Task(s.words[0], s.words[1], "ALL", "FULL")
  {
    hide DecodePair, EncodePair, DecodeAs, Jobs, Tasks, StartupDispatch, CodeOf, SaneRunning, Coded;
    var q := EncodePair(s.words[0], s.words[1]);
    t := Task(s.words[0], s.words[1], "ALL", "FULL");
    PairIsSane(t);
    CodeDecodes(true, q, t);
    var w := s.(words := s.words[2..], eof := s.eof || hitEof, accepted := s.accepted + [t]);
    if SlotFree(s) {
      m := Start;
      assert s.queue == [] && Tasks(true, s.queue) == [];
      StartupDispatchMoves(s, w, t, tally, wd);
    } else {
      m := Enqueue;
      TasksAppend(true, s.queue, q);
    }
  }

  lemma StartupPopMoves(s: State, tally: Tally, wd: int) returns (t: Task)
    requires Orderly(s) && Enabled(s, StartupPop(tally, wd))
    ensures var s' := OnStartupPop(s, tally, wd); Moved(s, s', Dequeue, t) && MoveFits(s, s', Dequeue)
    ensures t == DecodeAs(true, s.queue[0])
  {
    hide DecodePair, DecodeAs, Jobs, Tasks, StartupDispatch, CodeOf, SaneRunning;
    t := DecodeAs(true, s.queue[0]);
    assert Coded(true, s.queue[0]);
    CodeDecodes(true, s.queue[0], t);
    TasksFirst(true, s.queue);
    StartupDispatchMoves(s, s.(queue := s.queue[1..]), t, tally, wd);
  }

  lemma PopMoves(s: State, tally: Tally) returns (m: Move, t: Task)
    requires Orderly(s) && Enabled(s, Pop(tally))
    ensures var s' := OnPop(s, tally); Moved(s, s', m, t) && MoveFits(s, s', m)
    ensures m == if s.mode == Repaired then Dequeue else Drop
  {
    hide Decode, DecodeAs, Jobs, Tasks, CodeOf, SaneRunning;
    t := DecodeAs(false, s.queue[0]);
    assert Coded(false, s.queue[0]);
    CodeDecodes(false, s.queue[0], t);
    TasksFirst(false, s.queue);
    JobsMore(s.running, Running(t, tally, ""));
    m := if s.mode == Repaired then Dequeue else Drop;
  }

  lemma ChunkMoves(s: State, i: nat, chunk: string, now: string) returns (m: Move)
    requires Orderly(s) && Enabled(s, Chunk(i, chunk, now))
    ensures var s' := OnChunk(s, i, chunk, now);
            Moved(s, s', m, s.running[i].task) && MoveFits(s, s', m)
    ensures m == if Found(Received(s, i, chunk).received, MARKER) then Consume(i) else Stay
  {
    hide Found, Printed, OnChunk, InfoOf, LineOf, SaneTask, SaneTally, Tasks, StoreOk, QueueOk, WordsOk;
    var r := Received(s, i, chunk);
    ChunkCases(s, i, chunk, now);
    if Found(r.received, MARKER) {
      m := Consume(i);
      assert Jobs(SwapRemove(s.running, i)) == SwapRemove(Jobs(s.running), i);
      JobsMore(s.finished, r);
    } else {
      m := Stay;
      assert Jobs(s.running[i := r]) == Jobs(s.running);
    }
  }

  lemma NotifyMoves(s: State, e: Event) returns (m: Move, t: Task)
    requires Orderly(s) && Enabled(s, e) && SaneEvent(e) && Genuine(s, e) && e.Notify?
    ensures Moved(s, Next(s, e), m, t) && MoveFits(s, Next(s, e), m)
  {
    hide Jobs, Tasks, SaneRunning, SaneTally, Submit, QueueOk, WordsOk, RunningOk, Moved, MoveFits;
    var source := s.watches[e.wd];
    t := Task(source, s.store[source].target, e.name, ActionOf(e.kind));
    if e.kind != OtherKind {
      m := SubmitMoves(s, s, t, e.tally);
    } else {
      m := Stay;
      StayMoves(s, s, t);
    }
  }

  lemma StayMoves(s: State, w: State, t: Task)
    requires SameSchedule(s, w)
    ensures Moved(s, w, Stay, t) && MoveFits(s, w, Stay)
  {
  }

  lemma AddMoves(s: State, e: Event) returns (m: Move, t: Task)
    requires Enabled(s, e) && SaneEvent(e) && e.AddCommand?
    ensures Moved(s, Next(s, e), m, t) && MoveFits(s, Next(s, e), m)
  {
    hide Jobs, Tasks, SaneTally, SaneName, Submit, Moved, MoveFits;
    t := Task(e.source, e.target, "all", "FULL");
    m := Stay;
    if e.source in s.store && s.store[e.source].isActive {
      StayMoves(s, s, t);
    } else {
      var info := if e.source in s.store then s.store[e.source].(isActive := true, target := e.target)
                  else DirInfo(e.source, e.target, "", "", 0, true, false);
      var w := Watch(s, e.wd, e.source).(store := s.store[e.source := info], log := s.log + [MonitoringStarted(e.source)]);
      FullIsSane(t);
      m := SubmitMoves(s, w, t, e.tally);
    }
  }

  lemma SyncMoves(s: State, e: Event) returns (m: Move, t: Task)
    requires Orderly(s) && Enabled(s, e) && SaneEvent(e) && e.SyncCommand?
    ensures Moved(s, Next(s, e), m, t) && MoveFits(s, Next(s, e), m)
  {
    hide Jobs, Tasks, SaneTally, SaneName, Submit, QueueOk, WordsOk, RunningOk, Moved, MoveFits;
    t := Task(e.source, "", "all", "FULL");
    m := Stay;
    if e.source in s.store && !s.store[e.source].isInWorkers && s.store[e.source].isActive {
      t := Task(e.source, s.store[e.source].target, "all", "FULL");
      assert SaneEntry(s.store[e.source], e.source);
      FullIsSane(t);
      m := SubmitMoves(s, Watch(s, e.wd, e.source).(log := s.log + [Syncing(e.source, s.store[e.source].target)]), t, e.tally);
    } else {
      StayMoves(s, s, t);
    }
  }

  lemma OtherMoves(s: State, e: Event)
    requires Orderly(s) && Enabled(s, e)
    requires e.ReadTail? || e.CancelCommand? || e.OtherCommand? || e.ShutdownCommand? || e.Exit? || e.Reshuffle?
    ensures Moved(s, Next(s, e), Stay, Task("", "", "", "")) && MoveFits(s, Next(s, e), Stay)
  {
    hide Jobs, Tasks, SaneRunning;
  }

  lemma EventMoves(s: State, e: Event) returns (m: Move, t: Task)
    requires Orderly(s) && Enabled(s, e) && SaneEvent(e) && Genuine(s, e) && !e.LeaveStartup?
    ensures Moved(s, Next(s, e), m, t) && MoveFits(s, Next(s, e), m)
  {
    hide Orderly, Moved, MoveFits, Enabled, SaneEvent, OnChunk, OnReadPair, OnStartupPop, OnPop, OnNotify, OnAdd, OnSync, OnCancel;
    t := Task("", "", "", "");
    match e
    case Chunk(i, chunk, now) => {
      assert i < |s.running| by { ChunkSlot(s, e); }
      t := s.running[i].task;
      m := ChunkMoves(s, i, chunk, now);
    }
    case ReadPair(hitEof, tally, wd) => m, t := ReadPairMoves(s, hitEof, tally, wd);
    case StartupPop(tally, wd) => m := Dequeue; t := StartupPopMoves(s, tally, wd);
    case Pop(tally) => m, t := PopMoves(s, tally);
    case Notify(_, _, _, _) => m, t := NotifyMoves(s, e);
    case AddCommand(_, _, _, _) => m, t := AddMoves(s, e);
    case SyncCommand(_, _, _) => m, t := SyncMoves(s, e);
    case _ => m := Stay; OtherMoves(s, e);
  }

  lemma ChunkSlot(s: State, e: Event)
    requires Enabled(s, e) && e.Chunk?
    ensures e.slot < |s.running|
  {
  }

  lemma LeaveKeeps(s: State)
    requires Scheduled(s) && s.phase == Startup && !StartupGoesOn(s)
    ensures Scheduled(s.(phase := Serving, running := [])) && s.running == [] && Waiting(s) == []
  {
    hide DecodeAs;
    assert Tasks(true, []) == [] == Tasks(false, []);
  }

  lemma StepScheduled(s: State, e: Event)
    requires Orderly(s) && Scheduled(s) && Enabled(s, e) && SaneEvent(e) && Genuine(s, e)
    ensures Scheduled(Next(s, e))
  {
    hide Orderly, Moved, MoveFits, Scheduled, SaneEvent, OnChunk, OnReadPair, OnStartupPop, OnPop, OnNotify, OnAdd, OnSync, OnCancel;
    if e.LeaveStartup? {
      LeaveKeeps(s);
    } else {
      var m, t := EventMoves(s, e);
      MoveKeeps(s, Next(s, e), m, t);
    }
  }

  lemma {:induction false} RunScheduled(s: State, es: seq<Event>)
    requires Orderly(s) && Scheduled(s) && Allowed(s, es) && SaneEvents(es) && GenuineRun(s, es)
    ensures Orderly(Run(s, es)) && Scheduled(Run(s, es))
    decreases |es|
  {
    hide Orderly, Scheduled, Next, Enabled, SaneEvent;
    if es != [] {
      assert SaneEvent(es[0]);
      StepOrderly(s, es[0]);
      StepScheduled(s, es[0]);
      RunScheduled(Next(s, es[0]), es[1..]);
    }
  }

  // ----- the theorems -----

  /** A run of the whole manager from a config file with these words. */
  ghost predicate SaneRun(mode: Mode, limit: nat, words: seq<string>, es: seq<Event>) {
    && (forall k :: 0 <= k < |words| ==> SaneName(words[k]))
    && Allowed(Initial(mode, limit, words), es) && SaneEvents(es) && GenuineRun(Initial(mode, limit, words), es)
  }

  lemma RunFromStart(mode: Mode, limit: nat, words: seq<string>, es: seq<Event>)
    requires SaneRun(mode, limit, words, es)
    ensures var s := Run(Initial(mode, limit, words), es); Orderly(s) && Scheduled(s) && s.mode == mode && s.limit == limit
  {
    hide DecodeAs, Orderly;
    InitialOrderly(mode, limit, words);
    RunScheduled(Initial(mode, limit, words), es);
  }

  /** In every reachable state of the repaired manager, and of either one in the startup loop, the
      started tasks followed by the queue are the accepted tasks in order, and the workers are at
      most the limit. */
  lemma FirstInFirstOut(mode: Mode, limit: nat, words: seq<string>, es: seq<Event>)
    requires SaneRun(mode, limit, words, es)
    ensures var s := Run(Initial(mode, limit, words), es);
            && |s.running| <= limit
            && (mode == Repaired || s.phase == Startup ==> s.lost == [] && s.started + Waiting(s) == s.accepted)
  {
    RunFromStart(mode, limit, words, es);
  }

  /** A task is queued only when every slot is busy. */
  lemma QueuedOnlyWhenBusy(s: State, e: Event)
    requires Orderly(s) && Enabled(s, e) && SaneEvent(e) && Genuine(s, e)
    ensures |Next(s, e).queue| > |s.queue| ==> |s.running| == s.limit
  {
    hide Moved, MoveFits, SaneEvent, OnChunk, OnReadPair, OnStartupPop, OnPop, OnNotify, OnAdd, OnSync, OnCancel;
    if !e.LeaveStartup? {
      var m, t := EventMoves(s, e);
      MoveQueues(s, Next(s, e), m, t);
    }
  }

  lemma MoveQueues(s: State, s': State, m: Move, t: Task)
    requires Moved(s, s', m, t) && MoveFits(s, s', m)
    ensures |s'.queue| > |s.queue| ==> |s.running| >= s.limit
  {
    hide DecodeAs, Jobs;
    assert |Waiting(s)| == |s.queue| && |Waiting(s')| == |s'.queue|;
  }

  /** The repaired manager stops with every accepted task finished, each once. */
  lemma DrainedExit(limit: nat, words: seq<string>, es: seq<Event>)
    requires SaneRun(Repaired, limit, words, es)
    requires var s := Run(Initial(Repaired, limit, words), es); s.queue == [] && s.running == []
    ensures var s := Run(Initial(Repaired, limit, words), es);
            s.started == s.accepted && multiset(Jobs(s.finished)) == multiset(s.accepted)
  {
    var s := Run(Initial(Repaired, limit, words), es);
    RunFromStart(Repaired, limit, words, es);
    hide DecodeAs;
    assert Waiting(s) == [] && Jobs(s.running) == [];
    assert s.started + [] == s.started;
  }

  /** As it is written, the command loop has lost, when its queue has drained, exactly the tasks it
      ever queued: none is lost if and only if none was ever accepted while all slots were busy. */
  lemma LostExactly(limit: nat, words: seq<string>, es: seq<Event>)
    requires SaneRun(AsWritten, limit, words, es)
    requires var s := Run(Initial(AsWritten, limit, words), es); s.phase != Startup && s.queue == []
    ensures var s := Run(Initial(AsWritten, limit, words), es);
            && s.lost == s.queued
            && (multiset(s.started) == multiset(s.accepted) <==> s.queued == [])
  {
    var s := Run(Initial(AsWritten, limit, words), es);
    RunFromStart(AsWritten, limit, words, es);
    hide DecodeAs;
    assert Waiting(s) == [];
    assert s.lost + [] == s.lost;
    assert |multiset(s.accepted)| == |multiset(s.started)| + |multiset(s.lost)|;
  }
}
