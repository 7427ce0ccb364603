/** The manager and the directories it mirrors, together: the command loop's scheduling of one watched
    pair is a run of Mirror, so when the manager has nothing left to do the directories are equal. */
module ManagerMirror {
  import opened CStrings
  import opened WorkerReport
  import opened Marker
  import opened WorkerProcess
  import opened StoreModel
  import opened TaskCode
  import opened WorkerPool
  import opened ManagerModel
  import opened ManagerReports
  import opened ManagerSafety
  import opened ManagerSchedule
  import M = Mirror

  /** The manager's state, the directories with their pending tasks in the order they were announced,
      and for each slot of the pool which of the running tasks its worker has. */
  datatype World = World(m: State, slots: seq<nat>, pair: M.State)

  function ChangeOf(t: Task): M.Change {
    if t.action == "ADDED" then M.Added(t.filename)
    else if t.action == "MODIFIED" then M.Modified(t.filename)
    else if t.action == "DELETED" then M.Deleted(t.filename)
    else M.All
  }

  /** What inotify announces. */
  function Announced(name: string, kind: Kind): M.Change {
    match kind
    case Create => M.Added(name)
    case Modify => M.Modified(name)
    case Delete => M.Deleted(name)
    case OtherKind => M.All
  }

  predicate For(t: Task, source: string, target: string) {
    t.source == source && t.target == target
  }

  /** Every slot's worker has a running task of its own. */
  ghost predicate SlotsMatch(slots: seq<nat>, rs: seq<Running>, cs: seq<M.Copying>, source: string, target: string) {
    && |slots| == |rs| == |cs| && AllApart(slots)
    && forall i :: 0 <= i < |slots| ==>
         slots[i] < |cs| && cs[slots[i]].change == ChangeOf(rs[i].task) && For(rs[i].task, source, target)
  }

  /** The manager's queue is the beginning of what waits; behind it are the changes inotify still has. */
  ghost predicate QueueMatches(queue: seq<string>, waiting: seq<M.Change>, source: string, target: string) {
    && |queue| <= |waiting|
    && forall k :: 0 <= k < |queue| ==>
         var t := DecodeAs(false, queue[k]); waiting[k] == ChangeOf(t) && For(t, source, target)
  }

  ghost predicate Watching(m: State, source: string, target: string) {
    && m.phase == Serving && m.mode == Repaired && Orderly(m) && m.shadowed == []
    && source in m.store && m.store[source].isActive && m.store[source].target == target
  }

  ghost predicate Together(w: World, source: string, target: string) {
    && Watching(w.m, source, target) && SlotsMatch(w.slots, w.m.running, w.pair.running, source, target)
    && QueueMatches(w.m.queue, w.pair.waiting, source, target)
  }

  datatype Step =
    | Changed(change: M.Event)
    | Managed(event: Event)
    | Finished(read: Event, outcome: M.Outcome)

  /** The manager's event is about this pair: a record is the oldest change that is not handed over, a
      command is for the source, which stays watched; a read that completes a report is Finished. */
  ghost predicate Concerns(w: World, e: Event, source: string) {
    match e
    case Chunk(i, chunk, _) => i < |w.m.running| && !Found(Received(w.m, i, chunk).received, MARKER)
    case Notify(wd, name, kind, _) =>
      && wd in w.m.watches && w.m.watches[wd] == source && kind != OtherKind
      && |w.m.queue| < |w.pair.waiting| && w.pair.waiting[|w.m.queue|] == Announced(name, kind)
    case AddCommand(d, _, _, _) => d == source
    case SyncCommand(d, _, _) => d == source
    case Pop(_) => true
    case OtherCommand => true
    case ShutdownCommand => true
    case _ => false
  }

  ghost predicate CanStep(w: World, step: Step, source: string) {
    match step
    case Changed(c) => (c.Create? || c.Write? || c.Remove?) && M.Enabled(w.pair, c)
    case Managed(e) => Enabled(w.m, e) && SaneEvent(e) && Genuine(w.m, e) && Concerns(w, e, source)
    case Finished(e, o) =>
      && e.Chunk? && Enabled(w.m, e) && SaneEvent(e) && Found(Received(w.m, e.slot, e.chunk).received, MARKER)
      && e.slot < |w.slots| && M.Enabled(w.pair, M.Finish(w.slots[e.slot], o))
  }

  /** What the manager's event is to the pair. */
  function PairEvents(m: State, e: Event): seq<M.Event> {
    match e
    case Notify(_, _, _, _) => if SlotFree(m) then [M.Start] else []
    case Pop(_) => [M.Start]
    case SyncCommand(d, _, _) =>
      if d !in m.store || m.store[d].isInWorkers || !m.store[d].isActive then []
      else if SlotFree(m) then [M.Sync(|m.queue|), M.Start] else [M.Sync(|m.queue|)]
    case _ => []
  }

  function Without(slots: seq<nat>, p: nat): (r: seq<nat>)
    ensures |r| == |slots| && forall k :: 0 <= k < |r| ==> r[k] == if slots[k] > p then slots[k] - 1 else slots[k]
  {
    seq(|slots|, k requires 0 <= k < |slots| => if slots[k] > p then slots[k] - 1 else slots[k])
  }

  ghost function PairRun(x: M.State, es: seq<M.Event>): M.State {
    if M.Allowed(x, es) then M.Run(x, es) else x
  }

  /** One step of everything; the pair only ever changes by events of Mirror. */
  ghost function After(w: World, step: Step, source: string): World
    requires CanStep(w, step, source)
  {
    match step
    case Changed(c) => w.(pair := M.Next(w.pair, c))
    case Managed(e) =>
      var es := PairEvents(w.m, e);
      World(Next(w.m, e), if M.Start in es then w.slots + [|w.pair.running|] else w.slots, PairRun(w.pair, es))
    case Finished(e, o) =>
      var p := w.slots[e.slot];
      World(Next(w.m, e), Without(SwapRemove(w.slots, e.slot), p), M.Next(w.pair, M.Finish(p, o)))
  }

  // ----- the pair under one manager event -----

  lemma SlotsStart(slots: seq<nat>, rs: seq<Running>, cs: seq<M.Copying>, source: string, target: string, r: Running, c: M.Copying)
    requires SlotsMatch(slots, rs, cs, source, target) && c.change == ChangeOf(r.task) && For(r.task, source, target)
    ensures SlotsMatch(slots + [|cs|], rs + [r], cs + [c], source, target)
  {
    hide ChangeOf;
  }

  lemma SlotsFinish(slots: seq<nat>, rs: seq<Running>, cs: seq<M.Copying>, source: string, target: string, i: nat)
    requires SlotsMatch(slots, rs, cs, source, target) && i < |slots|
    ensures var p := slots[i];
            SlotsMatch(Without(SwapRemove(slots, i), p), SwapRemove(rs, i), cs[..p] + cs[p + 1..], source, target)
  {
    hide ChangeOf;
    var p, rest := slots[i], SwapRemove(slots, i);
    var now, left := Without(rest, p), cs[..p] + cs[p + 1..];
    forall k | 0 <= k < |now|
      ensures now[k] < |left| && left[now[k]].change == ChangeOf(SwapRemove(rs, i)[k].task) && For(SwapRemove(rs, i)[k].task, source, target)
    {
      var j := if k == i then |slots| - 1 else k;
      assert rest[k] == slots[j] && SwapRemove(rs, i)[k] == rs[j] && slots[j] != p;
    }
    assert AllApart(rest) by { SwapRemoveApart(slots, i); }
    assert forall k :: 0 <= k < |rest| ==> rest[k] != p;
  }

  lemma SwapRemoveApart(slots: seq<nat>, i: nat)
    requires AllApart(slots) && i < |slots|
    ensures AllApart(SwapRemove(slots, i)) && forall k :: 0 <= k < |slots| - 1 ==> SwapRemove(slots, i)[k] != slots[i]
  {
  }

  /** The read text of a slot does not matter. */
  lemma SlotsReceived(slots: seq<nat>, rs: seq<Running>, cs: seq<M.Copying>, source: string, target: string, i: nat, r: Running)
    requires SlotsMatch(slots, rs, cs, source, target) && i < |rs| && r.task == rs[i].task
    ensures SlotsMatch(slots, rs[i := r], cs, source, target)
  {
    hide ChangeOf;
  }

  lemma DirectoryChanged(w: World, c: M.Event, source: string, target: string)
    requires Together(w, source, target) && CanStep(w, Changed(c), source)
    ensures Together(After(w, Changed(c), source), source, target)
  {
    hide ChangeOf, Watching, DecodeAs;
    var now := M.Next(w.pair, c);
    assert forall k :: 0 <= k < |w.pair.running| ==> now.running[k].change == w.pair.running[k].change;
    assert forall k :: 0 <= k < |w.m.queue| ==> now.waiting[k] == w.pair.waiting[k];
  }

  lemma WorkerFinished(w: World, e: Event, o: M.Outcome, source: string, target: string)
    requires Together(w, source, target) && CanStep(w, Finished(e, o), source)
    ensures Together(After(w, Finished(e, o), source), source, target)
  {
    hide ChangeOf, DecodeAs, SlotsMatch, OnChunk, Found, Printed, SaneTally, SaneTask, InfoOf, LineOf, StoreOk, QueueOk, WordsOk, M.Enabled;
    ChunkOrderly(w.m, e.slot, e.chunk, e.now);
    ChunkCases(w.m, e.slot, e.chunk, e.now);
    InfoTarget(w.m, Received(w.m, e.slot, e.chunk), e.now);
    SlotsFinish(w.slots, w.m.running, w.pair.running, source, target, e.slot);
  }

  lemma ReadMore(w: World, e: Event, source: string, target: string)
    requires Together(w, source, target) && CanStep(w, Managed(e), source) && e.Chunk?
    ensures Together(After(w, Managed(e), source), source, target)
  {
    hide ChangeOf, DecodeAs, SlotsMatch, OnChunk, Found, Printed, SaneTally, SaneTask, InfoOf, LineOf, StoreOk, QueueOk, WordsOk;
    ChunkOrderly(w.m, e.slot, e.chunk, e.now);
    ChunkCases(w.m, e.slot, e.chunk, e.now);
    SlotsReceived(w.slots, w.m.running, w.pair.running, source, target, e.slot, Received(w.m, e.slot, e.chunk));
  }

  lemma PairRunNone(x: M.State)
    ensures PairRun(x, []) == x
  {
  }

  lemma PairRunOne(x: M.State, e: M.Event)
    requires M.Enabled(x, e)
    ensures PairRun(x, [e]) == M.Next(x, e)
  {
    M.NoEvents(M.Next(x, e));
    M.OneFirst(x, e, []);
    assert [e] + [] == [e];
  }

  lemma PairRunTwo(x: M.State, d: M.Event, e: M.Event)
    requires M.Enabled(x, d) && M.Enabled(M.Next(x, d), e)
    ensures PairRun(x, [d, e]) == M.Next(M.Next(x, d), e)
  {
    hide M.Next;
    M.NoEvents(M.Next(M.Next(x, d), e));
    M.OneFirst(M.Next(x, d), e, []);
    M.OneFirst(x, d, [e]);
    assert [e] + [] == [e] && [d] + [e] == [d, e];
  }

  /** A task starts in the slot behind the last: the pair's oldest waiting one. */
  lemma StartsTogether(slots: seq<nat>, rs: seq<Running>, x: M.State, t: Task, tally: Tally, source: string, target: string)
    requires SlotsMatch(slots, rs, x.running, source, target) && For(t, source, target)
    requires x.waiting != [] && x.waiting[0] == ChangeOf(t)
    ensures PairRun(x, [M.Start]) == M.Next(x, M.Start)
    ensures SlotsMatch(slots + [|x.running|], rs + [Running(t, tally, "")], M.Next(x, M.Start).running, source, target)
  {
    hide ChangeOf, SlotsMatch;
    PairRunOne(x, M.Start);
    SlotsStart(slots, rs, x.running, source, target, Running(t, tally, ""), M.Copying(x.waiting[0], {}));
  }

  lemma QueueMore(queue: seq<string>, waiting: seq<M.Change>, t: Task, source: string, target: string)
    requires QueueMatches(queue, waiting, source, target) && SaneTask(t) && For(t, source, target)
    requires |queue| < |waiting| && waiting[|queue|] == ChangeOf(t)
    ensures QueueMatches(queue + [Encode(t)], waiting, source, target)
  {
    hide ChangeOf, DecodeAs, Encode, SaneTask;
    EncodedIsCode(t);
    CodeDecodes(false, Encode(t), t);
  }

  /** The end of an iteration with a task that is the pair's next waiting one after the queue's. */
  lemma SubmitsTogether(w: World, m1: State, x: M.State, t: Task, tally: Tally, source: string, target: string)
    requires SlotsMatch(w.slots, w.m.running, x.running, source, target) && QueueMatches(w.m.queue, x.waiting, source, target)
    requires SameSchedule(w.m, m1) && !CanPop(w.m) && SaneTask(t) && For(t, source, target)
    requires |w.m.queue| < |x.waiting| && x.waiting[|w.m.queue|] == ChangeOf(t)
    ensures var m2 := Submit(m1, t, tally);
            if SlotFree(w.m) then
              && SlotsMatch(w.slots + [|x.running|], m2.running, M.Next(x, M.Start).running, source, target)
              && QueueMatches(m2.queue, M.Next(x, M.Start).waiting, source, target) && PairRun(x, [M.Start]) == M.Next(x, M.Start)
            else
              && SlotsMatch(w.slots, m2.running, x.running, source, target) && QueueMatches(m2.queue, x.waiting, source, target)
  {
    hide ChangeOf, SlotsMatch, SaneTask, Encode, DecodeAs;
    if SlotFree(w.m) {
      StartsTogether(w.slots, w.m.running, x, t, tally, source, target);
    } else {
      QueueMore(w.m.queue, x.waiting, t, source, target);
    }
  }

  /** What a submit leaves alone. */
  lemma SubmitWatching(m: State, m1: State, t: Task, tally: Tally, source: string, target: string)
    requires Watching(m, source, target) && m1.store == m.store && m1.shadowed == m.shadowed && SameSchedule(m, m1)
    ensures Orderly(Submit(m1, t, tally)) ==> Watching(Submit(m1, t, tally), source, target)
  {
    hide Orderly, Encode;
  }

  lemma RecordTogether(w: World, e: Event, source: string, target: string)
    requires Together(w, source, target) && CanStep(w, Managed(e), source) && e.Notify?
    ensures Together(After(w, Managed(e), source), source, target)
  {
    hide SlotsMatch, QueueMatches, Orderly, SaneTally, SaneName, SaneTask, Submit;
    StepOrderly(w.m, e);
    var t := Task(source, target, e.name, ActionOf(e.kind));
    RecordTask(w.m, e, source, target);
    SubmitsTogether(w, w.m, w.pair, t, e.tally, source, target);
    SubmitWatching(w.m, w.m, t, e.tally, source, target);
    PairRunNone(w.pair);
  }

  lemma RecordTask(m: State, e: Event, source: string, target: string)
    requires Watching(m, source, target) && e.Notify? && SaneEvent(e) && e.kind != OtherKind
    requires e.wd in m.watches && m.watches[e.wd] == source
    ensures var t := Task(source, target, e.name, ActionOf(e.kind));
            SaneTask(t) && ChangeOf(t) == Announced(e.name, e.kind) && OnNotify(m, e.wd, e.name, e.kind, e.tally) == Submit(m, t, e.tally)
  {
    hide SaneTally, SaneName, IsWord, NulFree, RunningOk, QueueOk, WordsOk, Submit;
    assert SaneEntry(m.store[source], source);
  }

  /** A sync command for the pair: a FULL, behind the manager's queue. */
  lemma SyncTogether(w: World, e: Event, source: string, target: string)
    requires Together(w, source, target) && CanStep(w, Managed(e), source) && e.SyncCommand?
    ensures Together(After(w, Managed(e), source), source, target)
  {
    hide SlotsMatch, QueueMatches, Orderly, SaneTally, SaneName, SaneTask, Submit;
    StepOrderly(w.m, e);
    if w.m.store[source].isInWorkers {
      PairRunNone(w.pair);
    } else {
      var t := Task(source, target, "all", "FULL");
      var m1 := Watch(w.m, e.wd, source).(log := w.m.log + [Syncing(source, target)]);
      assert SaneTask(t) by { FullTask(w.m, source, target); }
      var n := |w.m.queue|;
      assert n <= |w.pair.waiting| by { QueueShort(w.m.queue, w.pair.waiting, source, target); }
      var x := M.Next(w.pair, M.Sync(n));
      SyncQueue(w.m.queue, w.pair.waiting, source, target);
      SubmitsTogether(w, m1, x, t, e.tally, source, target);
      SubmitWatching(w.m, m1, t, e.tally, source, target);
      PairRunOne(w.pair, M.Sync(n));
      if SlotFree(w.m) { PairRunTwo(w.pair, M.Sync(n), M.Start); }
    }
  }

  lemma FullTask(m: State, source: string, target: string)
    requires Watching(m, source, target)
    ensures SaneTask(Task(source, target, "all", "FULL"))
  {
    hide SaneName, RunningOk, QueueOk, WordsOk;
    assert SaneEntry(m.store[source], source);
    FullIsSane(Task(source, target, "all", "FULL"));
  }

  lemma QueueShort(queue: seq<string>, waiting: seq<M.Change>, source: string, target: string)
    requires QueueMatches(queue, waiting, source, target)
    ensures |queue| <= |waiting|
  {
  }

  lemma SyncQueue(queue: seq<string>, waiting: seq<M.Change>, source: string, target: string)
    requires QueueMatches(queue, waiting, source, target)
    ensures var n := |queue|;
            QueueMatches(queue, waiting[..n] + [M.All] + waiting[n..], source, target)
            && (waiting[..n] + [M.All] + waiting[n..])[n] == M.All
  {
    hide ChangeOf, DecodeAs;
  }

  lemma PopTogether(w: World, e: Event, source: string, target: string)
    requires Together(w, source, target) && CanStep(w, Managed(e), source) && e.Pop?
    ensures Together(After(w, Managed(e), source), source, target)
  {
    hide SlotsMatch, QueueMatches, Watching, OnPop, SaneTask, SaneTally, M.Next, Launch, DecodeAs;
    var t, m' := DecodeAs(false, w.m.queue[0]), OnPop(w.m, e.tally);
    PopWatching(w.m, e.tally, source, target);
    QueueFirst(w.m.queue, w.pair.waiting, source, target);
    StartsTogether(w.slots, w.m.running, w.pair, t, e.tally, source, target);
    NextStart(w.pair);
  }

  lemma NextStart(x: M.State)
    requires x.waiting != []
    ensures M.Next(x, M.Start).waiting == x.waiting[1..]
  {
  }

  lemma PopWatching(m: State, tally: Tally, source: string, target: string)
    requires Watching(m, source, target) && Enabled(m, Pop(tally)) && SaneTally(tally)
    ensures var m' := OnPop(m, tally);
            && Watching(m', source, target) && m'.queue == m.queue[1..]
            && m'.running == m.running + [Running(DecodeAs(false, m.queue[0]), tally, "")]
  {
    hide Orderly, SaneTally, SaneTask, DecodeAs, OnPop, Decode;
    assert CanPop(m);
    PopOrderly(m, tally);
    PoppedTask(m, tally);
    LaunchKeeps(m.(queue := m.queue[1..]), DecodeAs(false, m.queue[0]), tally);
  }

  lemma PoppedTask(m: State, tally: Tally)
    requires Orderly(m) && m.phase == Serving && m.mode == Repaired && m.queue != []
    ensures OnPop(m, tally) == Launch(m.(queue := m.queue[1..]), DecodeAs(false, m.queue[0]), tally)
  {
    hide Decode, DecodeAs, SaneTask, StoreOk, RunningOk, WordsOk;
    assert Coded(false, m.queue[0]);
    CodeDecodes(false, m.queue[0], DecodeAs(false, m.queue[0]));
  }

  lemma QueueFirst(queue: seq<string>, waiting: seq<M.Change>, source: string, target: string)
    requires QueueMatches(queue, waiting, source, target) && queue != []
    ensures waiting != [] && waiting[0] == ChangeOf(DecodeAs(false, queue[0])) && For(DecodeAs(false, queue[0]), source, target)
    ensures QueueMatches(queue[1..], waiting[1..], source, target)
  {
    hide ChangeOf, DecodeAs;
  }

  /** Every step keeps the manager and the pair together. */
  lemma StepTogether(w: World, step: Step, source: string, target: string)
    requires Together(w, source, target) && CanStep(w, step, source)
    ensures Together(After(w, step, source), source, target)
  {
    match step
    case Changed(c) => DirectoryChanged(w, c, source, target);
    case Finished(e, o) => WorkerFinished(w, e, o, source, target);
    case Managed(e) =>
      match e
      case Chunk(_, _, _) => ReadMore(w, e, source, target);
      case Notify(_, _, _, _) => RecordTogether(w, e, source, target);
      case SyncCommand(_, _, _) => SyncTogether(w, e, source, target);
      case Pop(_) => PopTogether(w, e, source, target);
      case _ => OtherTogether(w, e, source, target);
  }

  /** An add command for a directory that is watched, and commands that start nothing. */
  lemma OtherTogether(w: World, e: Event, source: string, target: string)
    requires Together(w, source, target) && CanStep(w, Managed(e), source)
    requires e.AddCommand? || e.OtherCommand? || e.ShutdownCommand?
    ensures Together(After(w, Managed(e), source), source, target)
  {
    hide SlotsMatch, QueueMatches, Orderly, SaneTally, SaneName;
    StepOrderly(w.m, e);
    PairRunNone(w.pair);
  }

  lemma {:induction false} PairRunKeeps(x: M.State, es: seq<M.Event>)
    requires M.Converging(x)
    ensures M.Converging(PairRun(x, es))
  {
    hide M.Converging;
    if M.Allowed(x, es) {
      M.RunKeeps(x, es);
    }
  }

  lemma StepConverging(w: World, step: Step, source: string)
    requires M.Converging(w.pair) && CanStep(w, step, source)
    ensures M.Converging(After(w, step, source).pair)
  {
    hide M.Converging, PairRun, M.Enabled, Enabled, Concerns;
    match step
    case Changed(c) => M.StepKeeps(w.pair, c);
    case Managed(e) => PairRunKeeps(w.pair, PairEvents(w.m, e));
    case Finished(e, o) => M.StepKeeps(w.pair, M.Finish(w.slots[e.slot], o));
  }

  // ----- whole runs -----

  ghost predicate CanRun(w: World, steps: seq<Step>, source: string)
    decreases |steps|
  {
    steps == [] || (CanStep(w, steps[0], source) && CanRun(After(w, steps[0], source), steps[1..], source))
  }

  ghost function RunAll(w: World, steps: seq<Step>, source: string): World
    requires CanRun(w, steps, source)
    decreases |steps|
  {
    if steps == [] then w else RunAll(After(w, steps[0], source), steps[1..], source)
  }

  /** The directory is watched, nothing is queued or running, and the directories are equal; or a FULL
      is running, and they are any two. */
  ghost predicate Begun(w: World, source: string, target: string) {
    && Watching(w.m, source, target) && w.m.queue == [] && w.pair.waiting == []
    && if w.m.running == [] then
         w.slots == [] && w.pair.running == [] && w.pair.target == w.pair.source
       else
         && |w.m.running| == 1 && For(w.m.running[0].task, source, target) && ChangeOf(w.m.running[0].task) == M.All
         && w.slots == [0] && w.pair.running == [M.Copying(M.All, {})]
  }

  lemma BegunTogether(w: World, source: string, target: string)
    requires Begun(w, source, target)
    ensures Together(w, source, target) && M.Converging(w.pair)
  {
    hide Watching, M.Converging, ChangeOf;
    if w.m.running == [] {
      M.BeginsConverging(w.pair);
    } else {
      var x := M.State(w.pair.source, w.pair.target, [], [M.All]);
      M.BeginsConverging(x);
      M.StartKeeps(x);
      assert M.Next(x, M.Start) == w.pair;
    }
  }

  lemma {:induction false} RunTogether(w: World, steps: seq<Step>, source: string, target: string)
    requires Together(w, source, target) && M.Converging(w.pair) && CanRun(w, steps, source)
    ensures var r := RunAll(w, steps, source); Together(r, source, target) && M.Converging(r.pair)
    decreases |steps|
  {
    hide Together, M.Converging, CanStep, After;
    if steps != [] {
      StepTogether(w, steps[0], source, target);
      StepConverging(w, steps[0], source);
      RunTogether(After(w, steps[0], source), steps[1..], source, target);
    }
  }

  /** From equal directories, or from any two and a FULL, and whatever changes in the source, is handed
      over by inotify, is asked for on the console and done by the workers: whenever the manager has no
      task queued or running, and inotify nothing to hand over, the directories are equal. */
  lemma ManagerMirrors(w: World, steps: seq<Step>, source: string, target: string)
    requires Begun(w, source, target) && CanRun(w, steps, source)
    ensures var r := RunAll(w, steps, source);
            r.m.queue == [] && r.m.running == [] && r.pair.waiting == [] ==> r.pair.target == r.pair.source
  {
    hide Watching, M.Converging, CanStep, After, CanRun, RunAll;
    BegunTogether(w, source, target);
    RunTogether(w, steps, source, target);
    var r := RunAll(w, steps, source);
    if r.m.running == [] && r.pair.waiting == [] {
      M.QuiescentIsEqual(r.pair);
    }
  }
}
