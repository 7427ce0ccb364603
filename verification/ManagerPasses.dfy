/** A scanning pass of the pool is a run of the manager's Chunk events; and a run in which the
    command loop, as it is written, loses a task. */
module ManagerPasses {
  import opened CStrings
  import opened Strtok
  import opened WorkerReport
  import opened ReportParser
  import opened RoundTrip
  import opened Marker
  import opened WorkerProcess
  import opened StoreModel
  import opened TaskCode
  import opened WorkerPool
  import opened ManagerModel
  import opened ManagerReports
  import opened ManagerSafety
  import opened ManagerSchedule

  /** Slot by slot, the pool has read from its workers what the manager's state says. */
  ghost predicate Mirrors(ws: seq<Worker>, s: State) {
    Reading(ws, s.running)
  }

  ghost predicate Reading(ws: seq<Worker>, rs: seq<Running>) {
    |ws| == |rs| && forall k :: 0 <= k < |ws| ==> ws[k].received == rs[k].received
  }

  /** From slot i on, what poll found readable is the next part of each worker's report. */
  ghost predicate Readable(ws: seq<Worker>, i: nat, ready: map<int, string>, s: State)
    requires |ws| == |s.running|
  {
    forall k :: i <= k < |ws| && ws[k].fd in ready ==>
      ready[ws[k].fd] != "" && ws[k].received + ready[ws[k].fd] <= Printed(s.running[k].Report())
  }

  /** The reads of a pass, as events. */
  function PassEvents(ws: seq<Worker>, i: nat, ready: map<int, string>, now: string): seq<Event>
    decreases |ws| - i
  {
    if i >= |ws| then []
    else (if ws[i].fd in ready then [Chunk(i, ready[ws[i].fd], now)] else [])
         + PassEvents(AfterSlot(ws, i, ready), i + 1, ready, now)
  }

  lemma SlotIsChunk(ws: seq<Worker>, i: nat, ready: map<int, string>, now: string, s: State)
    requires Orderly(s) && (s.phase == Startup || s.phase == Serving) && i < |ws| && ws[i].fd in ready
    requires Mirrors(ws, s) && Readable(ws, i, ready, s)
    ensures var e := Chunk(i, ready[ws[i].fd], now);
            && Enabled(s, e) && Orderly(Next(s, e)) && Next(s, e).phase == s.phase
            && Mirrors(AfterSlot(ws, i, ready), Next(s, e)) && Readable(AfterSlot(ws, i, ready), i + 1, ready, Next(s, e))
            && Next(s, e).finished == s.finished + (if Finishes(ws[i], ready) then [Received(s, i, ready[ws[i].fd])] else [])
  {
    hide Found, Printed, OnChunk, InfoOf, LineOf, SaneTask, SaneTally, QueueOk, WordsOk, StoreOk;
    var chunk := ready[ws[i].fd];
    ChunkOrderly(s, i, chunk, now);
    ChunkCases(s, i, chunk, now);
  }

  function TextsOf(rs: seq<Running>): seq<string> {
    seq(|rs|, k requires 0 <= k < |rs| => rs[k].received)
  }

  function WorkerTexts(ws: seq<Worker>): seq<string> {
    seq(|ws|, k requires 0 <= k < |ws| => ws[k].received)
  }

  lemma TextsMore(rs: seq<Running>, r: Running, ws: seq<Worker>, w: Worker, vs: seq<Worker>)
    requires r.received == w.received
    ensures TextsOf(rs + [r]) == TextsOf(rs) + [r.received] && TextsOf(rs + []) == TextsOf(rs)
    ensures TextsOf(rs) + [r.received] + WorkerTexts(vs) == TextsOf(rs) + WorkerTexts([w] + vs)
  {
    assert WorkerTexts([w] + vs) == [w.received] + WorkerTexts(vs);
    assert rs + [] == rs;
  }

  /** What is read, and who finishes with which report, in a pass over the pool is what happens in
      that run of events. */
  lemma {:induction false} PassIsChunks(ws: seq<Worker>, i: nat, ready: map<int, string>, now: string, s: State)
    requires Orderly(s) && (s.phase == Startup || s.phase == Serving)
    requires Mirrors(ws, s) && Readable(ws, i, ready, s)
    ensures var es := PassEvents(ws, i, ready, now);
            && Allowed(s, es) && Orderly(Run(s, es)) && Run(s, es).phase == s.phase
            && Mirrors(Pass(ws, i, ready).0, Run(s, es))
            && TextsOf(Run(s, es).finished) == TextsOf(s.finished) + WorkerTexts(Pass(ws, i, ready).1)
    decreases |ws| - i
  {
    hide Orderly, Next, Enabled, Pass, AfterSlot, Readable, Mirrors, Finishes, TextsOf, WorkerTexts, Received;
    var es := PassEvents(ws, i, ready, now);
    if i < |ws| {
      var next := AfterSlot(ws, i, ready);
      PassStep(ws, i, ready);
      if ws[i].fd in ready {
        var e := Chunk(i, ready[ws[i].fd], now);
        SlotIsChunk(ws, i, ready, now, s);
        PassIsChunks(next, i + 1, ready, now, Next(s, e));
        assert es == [e] + PassEvents(next, i + 1, ready, now);
        assert es[0] == e && es[1..] == PassEvents(next, i + 1, ready, now);
        FinishedReceived(ws, i, ready, s);
        TextsMore(s.finished, Received(s, i, ready[ws[i].fd]), ws, AfterRead(ws[i], ready), Pass(next, i + 1, ready).1);
        assert [] + Pass(next, i + 1, ready).1 == Pass(next, i + 1, ready).1;
      } else {
        Unread(ws, i, ready, s);
        PassIsChunks(next, i + 1, ready, now, s);
        assert es == PassEvents(next, i + 1, ready, now);
        assert [] + Pass(next, i + 1, ready).1 == Pass(next, i + 1, ready).1;
      }
    } else {
      PassEnd(ws, i, ready);
      assert TextsOf(s.finished) + WorkerTexts([]) == TextsOf(s.finished) by { NoTexts(); }
    }
  }

  lemma NoTexts()
    ensures WorkerTexts([]) == []
  {
  }

  lemma Unread(ws: seq<Worker>, i: nat, ready: map<int, string>, s: State)
    requires i < |ws| && ws[i].fd !in ready && Mirrors(ws, s) && Readable(ws, i, ready, s)
    ensures AfterSlot(ws, i, ready) == ws && Readable(ws, i + 1, ready, s) && !Finishes(ws[i], ready)
  {
  }

  lemma FinishedReceived(ws: seq<Worker>, i: nat, ready: map<int, string>, s: State)
    requires i < |ws| && ws[i].fd in ready && Mirrors(ws, s)
    ensures |s.running| == |ws| && Received(s, i, ready[ws[i].fd]).received == ws[i].received + ready[ws[i].fd]
  {
  }

  // ----- a lost task -----

  const CLEAN: Tally := Tally(0, 0, 0, [])

  /** The task an add command gives rise to. */
  ghost predicate IsAddTask(t: Task) {
    SaneName(t.source) && SaneName(t.target) && t.filename == "all" && t.action == "FULL"
  }

  lemma {:induction false} OneMore(s: State, es: seq<Event>, e: Event)
    requires Allowed(s, es) && Enabled(Run(s, es), e)
    ensures Allowed(s, es + [e]) && Run(s, es + [e]) == Next(Run(s, es), e)
    decreases |es|
  {
    hide Next, Enabled;
    if es == [] {
      assert es + [e] == [e] && [e][1..] == [];
    } else {
      assert (es + [e])[1..] == es[1..] + [e];
      OneMore(Next(s, es[0]), es[1..], e);
    }
  }

  /** No config file: the startup loop is over at once. */
  lemma NothingConfigured() returns (es: seq<Event>)
    ensures Allowed(Initial(AsWritten, 1, []), es)
    ensures Run(Initial(AsWritten, 1, []), es) == Initial(AsWritten, 1, []).(phase := Serving, eof := true)
  {
    var s := Initial(AsWritten, 1, []);
    OneMore(s, [], ReadTail);
    OneMore(s, [] + [ReadTail], LeaveStartup);
    es := [] + [ReadTail] + [LeaveStartup];
  }

  /** Two directories are added while one worker is allowed: the second task is queued. */
  lemma TwoAdded(t: Task, u: Task) returns (es: seq<Event>, s: State)
    requires IsAddTask(t) && IsAddTask(u) && t.source != u.source
    ensures Allowed(Initial(AsWritten, 1, []), es) && Run(Initial(AsWritten, 1, []), es) == s
    ensures s.phase == Serving && s.mode == AsWritten && s.limit == 1 && s.running == [Running(t, CLEAN, "")]
    ensures s.queue == [Encode(u)] && s.started == [t] && s.lost == [] && !s.shutdown && t.source in s.store
  {
    hide Encode, SaneName, Allowed, Run;
    var s0 := Initial(AsWritten, 1, []);
    es := NothingConfigured();
    var s2 := s0.(phase := Serving, eof := true);
    var e := AddCommand(t.source, t.target, 1, CLEAN);
    OneMore(s0, es, e);
    var s3 := Next(s2, e);
    assert s3.running == [Running(t, CLEAN, "")] && s3.queue == [];
    es := es + [e];
    e := AddCommand(u.source, u.target, 2, CLEAN);
    OneMore(s0, es, e);
    s, es := Next(s3, e), es + [e];
  }

  /** The running worker's whole report arrives in one read, and its slot is free. */
  lemma AllConsumed(s: State) returns (e: Event)
    requires s.phase == Serving && |s.running| == 1 && SaneRunning(s.running[0]) && s.running[0].received == ""
    requires s.running[0].task.source in s.store
    ensures Enabled(s, e) && Next(s, e).phase == Serving && Next(s, e).running == []
    ensures Next(s, e) == s.(store := Next(s, e).store, running := [], finished := Next(s, e).finished, log := Next(s, e).log)
  {
    hide Printed, SaneTask, SaneTally, Found, Finish;
    e := Chunk(0, Printed(s.running[0].Report()), "");
    Unfinished(s.running[0]);
    assert "" + e.chunk == e.chunk;
    FinishIsMeant(s, 0, e.chunk, "");
  }

  lemma Unfinished(r: Running)
    requires SaneRunning(r)
    ensures Printed(r.Report()) != "" && Found(Printed(r.Report()), MARKER)
  {
    hide Printed, SaneTask, SaneTally, Found, Clean, GoodFields, GoodErrors;
    ReportIsSane(r.task, r.tally);
    FiresExactly(r.Report(), Printed(r.Report()));
    FiresExactly(r.Report(), r.received);
  }

  /** Whichever two directories are added, the manager as it is written can stop in the regular way
      with the second task popped and never started. */
  lemma LosesATask(t: Task, u: Task) returns (es: seq<Event>)
    requires IsAddTask(t) && IsAddTask(u) && t.source != u.source
    ensures Allowed(Initial(AsWritten, 1, []), es)
    ensures var s := Run(Initial(AsWritten, 1, []), es); s.phase == Stopped && s.started == [t] && s.lost == [u]
  {
    hide Encode, Decode, SaneName, SaneRunning, OnChunk;
    var s0, s4 := Initial(AsWritten, 1, []), Initial(AsWritten, 1, []);
    es, s4 := TwoAdded(t, u);
    CleanIsSane(t);
    NothingReceived(s4.running[0]);
    var e := AllConsumed(s4);
    OneMore(s0, es, e);
    es := es + [e];
    var s5 := Next(s4, e);
    Decodes(u);
    es := Drains(s0, es, s5, u);
  }

  lemma CleanIsSane(t: Task)
    requires IsAddTask(t)
    ensures SaneTask(t) && SaneTally(CLEAN)
  {
    FullIsSane(t);
  }

  lemma Decodes(u: Task)
    requires IsAddTask(u)
    ensures Decode(Encode(u)) == Some(u)
  {
    hide Encode, Decode, SaneName;
    CleanIsSane(u);
    EncodedIsCode(u);
    CodeDecodes(false, Encode(u), u);
  }

  /** Pop, shutdown, exit. */
  lemma Drains(s0: State, es: seq<Event>, s: State, u: Task) returns (more: seq<Event>)
    requires Allowed(s0, es) && Run(s0, es) == s
    requires s.phase == Serving && s.mode == AsWritten && s.limit == 1 && s.running == [] && s.lost == []
    requires s.queue == [Encode(u)] && Decode(Encode(u)) == Some(u)
    ensures Allowed(s0, more)
    ensures Run(s0, more).phase == Stopped && Run(s0, more).started == s.started && Run(s0, more).lost == [u]
  {
    hide Next, Enabled, Encode, Decode;
    DrainSteps(s, u);
    more := es;
    OneMore(s0, more, Pop(CLEAN));
    more := more + [Pop(CLEAN)];
    OneMore(s0, more, ShutdownCommand);
    more := more + [ShutdownCommand];
    OneMore(s0, more, Exit);
    more := more + [Exit];
  }

  lemma DrainSteps(s: State, u: Task)
    requires s.phase == Serving && s.mode == AsWritten && s.limit == 1 && s.running == [] && s.lost == []
    requires s.queue == [Encode(u)] && Decode(Encode(u)) == Some(u)
    ensures Enabled(s, Pop(CLEAN)) && Enabled(Next(s, Pop(CLEAN)), ShutdownCommand)
    ensures var s' := Next(Next(s, Pop(CLEAN)), ShutdownCommand);
            Enabled(s', Exit) && Next(s', Exit) == s.(queue := [], lost := [u], shutdown := true, phase := Stopped)
  {
    hide Encode, Decode;
  }
}
