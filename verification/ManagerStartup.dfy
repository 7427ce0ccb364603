/** The startup loop: it comes to an end, and what it leaves behind. */
module ManagerStartup {
  import opened CStrings
  import opened WorkerReport
  import opened ReportParser
  import opened RoundTrip
  import opened Marker
  import opened WorkerProcess
  import opened StoreModel
  import opened TaskCode
  import opened WorkerPool
  import opened ManagerModel
  import opened ManagerReports
  import opened ManagerSafety
  import opened ManagerSchedule
  import opened ManagerBooks

  // ----- it ends -----

  /** Three for an unread pair, two for a queued task, one for a running worker, one for the end of
      the file. */
  function Measure(s: State): nat {
    3 * (|s.words| / 2) + 2 * |s.queue| + |s.running| + (if s.eof then 0 else 1)
  }

  /** What a worker has still to write. */
  function Left(r: Running): int {
    |Printed(r.Report())| - |r.received|
  }

  function BytesLeft(rs: seq<Running>): int {
    if rs == [] then 0 else BytesLeft(rs[..|rs| - 1]) + Left(rs[|rs| - 1])
  }

  lemma {:induction false} BytesLeftReplaced(rs: seq<Running>, i: nat, r: Running)
    requires i < |rs|
    ensures BytesLeft(rs[i := r]) == BytesLeft(rs) - Left(rs[i]) + Left(r)
    decreases |rs|
  {
    hide Left;
    var last := |rs| - 1;
    if i < last {
      assert rs[i := r][..last] == rs[..last][i := r];
      BytesLeftReplaced(rs[..last], i, r);
    } else {
      assert rs[i := r][..last] == rs[..last];
    }
  }

  lemma BytesLeftRemoved(rs: seq<Running>, i: nat)
    requires i < |rs|
    ensures BytesLeft(SwapRemove(rs, i)) == BytesLeft(rs) - Left(rs[i])
  {
    hide Left;
    var last := |rs| - 1;
    BytesLeftReplaced(rs, i, rs[last]);
    var now := rs[i := rs[last]];
    assert BytesLeft(now) == BytesLeft(now[..last]) + Left(now[last]);
  }

  lemma BytesLeftMore(rs: seq<Running>, r: Running)
    ensures BytesLeft(rs + [r]) == BytesLeft(rs) + Left(r)
  {
    assert (rs + [r])[..|rs|] == rs;
  }

  lemma {:induction false} BytesLeftNatural(rs: seq<Running>)
    requires forall k :: 0 <= k < |rs| ==> rs[k].received <= Printed(rs[k].Report())
    ensures BytesLeft(rs) >= 0
  {
    hide Printed;
    if rs != [] {
      BytesLeftNatural(rs[..|rs| - 1]);
    }
  }

  /** An iteration that finds nothing to do: the file has ended and there is nothing to read. */
  predicate Idle(s: State, e: Event) {
    e.ReadTail? && s.eof && |s.words| < 2
  }

  /** An event that is a read or the rest of an iteration with something to do. */
  predicate Busy(s: State, e: Event) {
    !Idle(s, e) && !e.LeaveStartup? && !e.Reshuffle?
  }

  /** Every iteration of the startup loop that is not idle makes the measure smaller, or keeps it and
      leaves fewer bytes to read. */
  lemma StartupDecreases(s: State, e: Event)
    requires Orderly(s) && InStartup(s) && Enabled(s, e) && Busy(s, e)
    ensures BytesLeft(s.running) >= 0
    ensures || Measure(Next(s, e)) < Measure(s)
            || (Measure(Next(s, e)) == Measure(s) && BytesLeft(Next(s, e).running) < BytesLeft(s.running))
  {
    hide Found, Printed, SaneTask, SaneTally, SaneName, Finish, CodeOf, DecodeAs, DecodePair, EncodePair, OnReadPair, OnStartupPop, BytesLeft;
    BytesLeftNatural(s.running);
    match e
    case Chunk(i, chunk, now) =>
      var r := Received(s, i, chunk);
      if Found(r.received, MARKER) {
        FinishIsMeant(s, i, chunk, now);
      } else {
        BytesLeftReplaced(s.running, i, r);
      }
    case ReadPair(hitEof, tally, wd) => ReadPairMeasure(s, hitEof, tally, wd);
    case StartupPop(tally, wd) => StartupPopMeasure(s, tally, wd);
    case _ =>
  }

  /** No report is longer than n. */
  predicate ShortReports(rs: seq<Running>, n: nat) {
    forall k :: 0 <= k < |rs| ==> |Printed(rs[k].Report())| <= n
  }

  predicate ShortRun(s: State, es: seq<Event>, n: nat)
    requires Allowed(s, es)
    decreases |es|
  {
    es == [] || (ShortReports(Next(s, es[0]).running, n) && ShortRun(Next(s, es[0]), es[1..], n))
  }

  /** How many events of the run are in the startup loop and not idle. */
  function BusySteps(s: State, es: seq<Event>): nat
    requires Allowed(s, es)
    decreases |es|
  {
    if es == [] then 0
    else (if InStartup(s) && Busy(s, es[0]) then 1 else 0) + BusySteps(Next(s, es[0]), es[1..])
  }

  function Weight(s: State, n: nat): int {
    (n + 1) * Measure(s) + BytesLeft(s.running)
  }

  /** One event: a worker that is started brings at most n bytes, and costs the measure at least one. */
  lemma WeightDecreases(s: State, e: Event, n: nat)
    requires Orderly(s) && InStartup(s) && Enabled(s, e) && !e.LeaveStartup? && ShortReports(Next(s, e).running, n)
    ensures BytesLeft(s.running) >= 0
    ensures Weight(Next(s, e), n) <= Weight(s, n)
    ensures Busy(s, e) ==> Weight(Next(s, e), n) < Weight(s, n)
  {
    hide Orderly, Next, BytesLeft, Measure, Enabled, ShortReports;
    assert BytesLeft(s.running) >= 0 by { RunningBytes(s); }
    if Busy(s, e) {
      StartupDecreases(s, e);
      BytesGrow(s, e, n);
      var m, m' := Measure(s), Measure(Next(s, e));
      if m' < m {
        Product(n + 1, m', m);
      }
    } else {
      IdleSame(s, e);
    }
  }

  lemma Product(n: nat, a: nat, b: nat)
    requires a < b
    ensures n * a + n <= n * b
  {
    assert n * (b - a - 1) >= 0;
  }

  lemma RunningBytes(s: State)
    requires Orderly(s)
    ensures BytesLeft(s.running) >= 0
  {
    hide BytesLeft, Printed, SaneTask, SaneTally, Found, StoreOk, QueueOk, WordsOk;
    BytesLeftNatural(s.running);
  }

  /** The idle iteration, and another order in the store, change nothing the measure looks at. */
  lemma IdleSame(s: State, e: Event)
    requires InStartup(s) && Enabled(s, e) && !Busy(s, e) && !e.LeaveStartup?
    ensures Measure(Next(s, e)) == Measure(s) && Next(s, e).running == s.running
  {
  }

  lemma BytesGrow(s: State, e: Event, n: nat)
    requires Orderly(s) && InStartup(s) && Enabled(s, e) && Busy(s, e) && ShortReports(Next(s, e).running, n)
    ensures BytesLeft(Next(s, e).running) <= BytesLeft(s.running) + n
  {
    hide Found, Printed, SaneTask, SaneTally, SaneName, CodeOf, DecodeAs, DecodePair, EncodePair, OnReadPair, OnStartupPop, OnChunk, BytesLeft;
    match e
    case Chunk(i, chunk, now) => ChunkBytes(s, i, chunk, now);
    case ReadPair(hitEof, tally, wd) => ReadPairStarts(s, hitEof, tally, wd); StartedBytes(s, Next(s, e), n);
    case StartupPop(tally, wd) => StartupPopStarts(s, tally, wd); StartedBytes(s, Next(s, e), n);
    case _ =>
  }

  lemma ChunkBytes(s: State, i: nat, chunk: string, now: string)
    requires Orderly(s) && Enabled(s, Chunk(i, chunk, now))
    ensures BytesLeft(OnChunk(s, i, chunk, now).running) <= BytesLeft(s.running)
  {
    hide Found, Printed, SaneTask, SaneTally, SaneName, OnChunk, BytesLeft, StoreOk, QueueOk, WordsOk;
    ChunkCases(s, i, chunk, now);
    BytesLeftRemoved(s.running, i);
    BytesLeftReplaced(s.running, i, Received(s, i, chunk));
  }

  /** The same workers, or one more that has written nothing yet. */
  predicate Starts(s: State, s': State) {
    s'.running == s.running || (s'.running != [] && s'.running[..|s'.running| - 1] == s.running && s'.running[|s'.running| - 1].received == "")
  }

  lemma StartedBytes(s: State, s': State, n: nat)
    requires Starts(s, s') && ShortReports(s'.running, n)
    ensures BytesLeft(s'.running) <= BytesLeft(s.running) + n
  {
    hide Printed;
    if s'.running != s.running {
      var r := s'.running[|s'.running| - 1];
      BytesLeftMore(s.running, r);
      assert s'.running == s.running + [r];
    }
  }

  lemma ReadPairStarts(s: State, hitEof: bool, tally: Tally, wd: int)
    requires |s.words| >= 2
    ensures Starts(s, OnReadPair(s, hitEof, tally, wd))
  {
    hide DecodePair, EncodePair;
  }

  lemma StartupPopStarts(s: State, tally: Tally, wd: int)
    requires s.queue != []
    ensures Starts(s, OnStartupPop(s, tally, wd))
  {
    hide DecodePair;
  }

  /** So if no report is longer than n, no run has more than so many steps of the startup loop that are
      not idle. */
  lemma {:induction false} StartupBounded(s: State, es: seq<Event>, n: nat)
    requires Orderly(s) && Allowed(s, es) && SaneEvents(es) && GenuineRun(s, es) && ShortRun(s, es, n)
    ensures BusySteps(s, es) <= if InStartup(s) then Weight(s, n) else 0
    decreases |es|
  {
    hide Orderly, Next, Enabled, SaneEvent, ShortReports, Weight, Busy;
    if es != [] {
      assert SaneEvent(es[0]);
      StepOrderly(s, es[0]);
      StartupBounded(Next(s, es[0]), es[1..], n);
      if InStartup(s) {
        StartupStep(s, es[0], n);
      }
    } else {
      assert InStartup(s) ==> Weight(s, n) >= 0 by { WeightNatural(s, n); }
    }
  }

  lemma WeightNatural(s: State, n: nat)
    requires Orderly(s)
    ensures Weight(s, n) >= 0
  {
    hide Orderly, BytesLeft, Measure;
    RunningBytes(s);
    Natural(n + 1, Measure(s));
  }

  lemma Natural(a: nat, b: nat)
    ensures a * b >= 0
  {
  }

  lemma StartupStep(s: State, e: Event, n: nat)
    requires Orderly(s) && Enabled(s, e) && Orderly(Next(s, e)) && InStartup(s) && ShortReports(Next(s, e).running, n)
    ensures (if Busy(s, e) then 1 else 0) + (if InStartup(Next(s, e)) then Weight(Next(s, e), n) else 0) <= Weight(s, n)
  {
    hide Orderly, Next, Enabled, ShortReports, Weight;
    WeightNatural(s, n);
    if e.LeaveStartup? {
      LeavingIs(s, e);
    } else {
      WeightDecreases(s, e, n);
      WeightNatural(Next(s, e), n);
    }
  }

  lemma NothingLeftOf()
    ensures BytesLeft([]) == 0
  {
  }

  lemma LeavingIs(s: State, e: Event)
    requires e.LeaveStartup? && Enabled(s, e)
    ensures !InStartup(Next(s, e)) && !Busy(s, e)
  {
  }

  /** From a config file: n + 1 steps for each of three per pair, and one for its end. */
  lemma StartupFinite(mode: Mode, limit: nat, words: seq<string>, es: seq<Event>, n: nat)
    requires SaneRun(mode, limit, words, es) && ShortRun(Initial(mode, limit, words), es, n)
    ensures BusySteps(Initial(mode, limit, words), es) <= (n + 1) * (3 * (|words| / 2) + 1)
  {
    hide Orderly, SaneName, BytesLeft, Next, Enabled, SaneEvent, Genuine, ShortReports, BusySteps;
    var s0 := Initial(mode, limit, words);
    InitialOrderly(mode, limit, words);
    StartupBounded(s0, es, n);
    assert Measure(s0) == 3 * (|words| / 2) + 1 && s0.running == [];
    assert BytesLeft([]) == 0 by { NothingLeftOf(); }
  }

  lemma ReadPairMeasure(s: State, hitEof: bool, tally: Tally, wd: int)
    requires Orderly(s) && Enabled(s, ReadPair(hitEof, tally, wd))
    ensures Measure(OnReadPair(s, hitEof, tally, wd)) < Measure(s)
  {
    hide DecodePair, EncodePair, CodeOf, DecodeAs, SaneRunning;
    var t := Task(s.words[0], s.words[1], "ALL", "FULL");
    PairIsSane(t);
    CodeDecodes(true, EncodePair(t.source, t.target), t);
    assert |s.words[2..]| / 2 == |s.words| / 2 - 1;
  }

  lemma StartupPopMeasure(s: State, tally: Tally, wd: int)
    requires Orderly(s) && Enabled(s, StartupPop(tally, wd))
    ensures Measure(OnStartupPop(s, tally, wd)) < Measure(s)
  {
    hide DecodePair, CodeOf, DecodeAs, SaneRunning;
    assert Coded(true, s.queue[0]);
    CodeDecodes(true, s.queue[0], DecodeAs(true, s.queue[0]));
  }

  /** And while the loop goes on there is something to do, if at least one worker is allowed: a
      running worker has still something to write. */
  lemma StartupProgresses(s: State, tally: Tally) returns (e: Event)
    requires Orderly(s) && InStartup(s) && StartupGoesOn(s) && s.limit > 0
    ensures Enabled(s, e) && Busy(s, e)
  {
    hide Found, SaneTask, SaneTally, SaneName, CodeOf, DecodeAs, Printed;
    if s.running != [] {
      var r := s.running[0];
      var p := Printed(r.Report());
      assert SaneRunning(r);
      Incomplete(r);
      e := Chunk(0, p[|r.received|..|r.received| + 1], "");
      assert r.received + p[|r.received|..|r.received| + 1] == p[..|r.received| + 1];
    } else if CanPop(s) {
      e := StartupPop(tally, 0);
    } else if |s.words| >= 2 {
      e := ReadPair(false, tally, 0);
    } else {
      e := ReadTail;
    }
  }

  lemma Incomplete(r: Running)
    requires SaneRunning(r)
    ensures |r.received| < |Printed(r.Report())|
  {
    hide Printed, Found, SaneTask, SaneTally, GoodFields, GoodErrors, Clean;
    ReportIsSane(r.task, r.tally);
    FiresExactly(r.Report(), r.received);
  }

  // ----- what it leaves behind -----

  /** In the startup loop every directory in the store is active, and it is marked as being in the
      workers exactly while one of them is for it; no two are for the same one. */
  ghost predicate StartupEntries(s: State) {
    InStartup(s) ==>
      && AllApart(Sources(Jobs(s.running)))
      && forall d :: d in s.store ==> s.store[d].isActive && (s.store[d].isInWorkers <==> d in Sources(Jobs(s.running)))
  }

  lemma DispatchEntries(s: State, w: State, t: Task, tally: Tally, wd: int)
    requires InStartup(s) && StartupEntries(s) && RunningOk(s) && t.source !in s.store
    requires InStartup(w) && w.running == s.running && w.store == s.store
    ensures StartupEntries(StartupDispatch(w, t, tally, wd))
  {
    hide SaneRunning;
    var rs := s.running + [Running(t, tally, "")];
    assert Sources(Jobs(rs)) == Sources(Jobs(s.running)) + [t.source];
    forall k | 0 <= k < |s.running| ensures Sources(Jobs(s.running))[k] != t.source {
      assert s.running[k].task.source in s.store;
    }
  }

  lemma ChunkEntries(s: State, i: nat, chunk: string, now: string)
    requires Orderly(s) && InStartup(s) && StartupEntries(s) && Enabled(s, Chunk(i, chunk, now))
    ensures StartupEntries(OnChunk(s, i, chunk, now))
  {
    hide Found, Printed, OnChunk, InfoOf, SaneRunning, QueueOk, WordsOk, StoreOk, AllApart, Sources, Jobs, LineOf, SwapRemove;
    var r := Received(s, i, chunk);
    ChunkCases(s, i, chunk, now);
    InfoTarget(s, r, now);
    if Found(r.received, MARKER) {
      SourcesWithout(s.running, i);
      WithoutSource(Sources(Jobs(s.running)), i);
    } else {
      assert Jobs(s.running[i := r]) == Jobs(s.running);
    }
  }

  lemma SourcesWithout(rs: seq<Running>, i: nat)
    requires i < |rs|
    ensures Sources(Jobs(SwapRemove(rs, i))) == SwapRemove(Sources(Jobs(rs)), i)
  {
  }

  lemma WithoutSource(ds: seq<string>, i: nat)
    requires AllApart(ds) && i < |ds|
    ensures AllApart(SwapRemove(ds, i))
    ensures forall d :: d in SwapRemove(ds, i) <==> d in ds && d != ds[i]
  {
    var r := SwapRemove(ds, i);
    forall d | d in ds && d != ds[i] ensures d in r {
      var k :| 0 <= k < |ds| && ds[k] == d;
      assert k < |r| ==> r[k] == d;
      assert k == |ds| - 1 ==> r[i] == d;
    }
  }

  lemma ReadPairEntries(s: State, sources: seq<string>, hitEof: bool, tally: Tally, wd: int)
    requires Orderly(s) && Scheduled(s) && Books(s, sources) && AllApart(sources) && StartupEntries(s) && Enabled(s, ReadPair(hitEof, tally, wd))
    ensures StartupEntries(OnReadPair(s, hitEof, tally, wd))
  {
    hide DecodePair, EncodePair, StartupDispatch, Distinctly, ErrorsOk, Conserved, LosesQueued, SaneRunning, CodeOf, DecodeAs, AllApart;
    var t := Task(s.words[0], s.words[1], "ALL", "FULL");
    PairIsSane(t);
    CodeDecodes(true, EncodePair(t.source, t.target), t);
    var w := s.(words := s.words[2..], eof := s.eof || hitEof, accepted := s.accepted + [t]);
    if SlotFree(s) {
      PairIsNew(s, sources);
      DispatchEntries(s, w, t, tally, wd);
    }
  }

  lemma StartupPopEntries(s: State, sources: seq<string>, tally: Tally, wd: int)
    requires Orderly(s) && Scheduled(s) && Books(s, sources) && AllApart(sources) && StartupEntries(s) && Enabled(s, StartupPop(tally, wd))
    ensures StartupEntries(OnStartupPop(s, tally, wd))
  {
    hide DecodePair, StartupDispatch, Distinctly, ErrorsOk, Conserved, LosesQueued, SaneRunning, CodeOf, DecodeAs, AllApart;
    var t := DecodeAs(true, s.queue[0]);
    assert Coded(true, s.queue[0]);
    CodeDecodes(true, s.queue[0], t);
    var n := |s.started|;
    assert s.accepted == s.started + Waiting(s) && Waiting(s)[0] == t;
    assert sources[n] == Sources(s.accepted)[n] == t.source;
    NextSourceIsNew(s, sources, n, t.source);
    DispatchEntries(s, s.(queue := s.queue[1..]), t, tally, wd);
  }

  lemma StepEntries(s: State, e: Event, sources: seq<string>)
    requires Orderly(s) && Scheduled(s) && Books(s, sources) && AllApart(sources) && StartupEntries(s) && Enabled(s, e)
    ensures StartupEntries(Next(s, e))
  {
    hide Scheduled, Books, OnChunk, OnReadPair, OnStartupPop, SaneRunning, StoreOk, QueueOk, WordsOk, RunningOk, Printed, AllApart, Sources, Jobs;
    if InStartup(s) {
      match e
      case Chunk(i, chunk, now) => ChunkEntries(s, i, chunk, now);
      case ReadPair(hitEof, tally, wd) => ReadPairEntries(s, sources, hitEof, tally, wd);
      case StartupPop(tally, wd) => StartupPopEntries(s, sources, tally, wd);
      case Reshuffle(k) => NoneShadowed(s, sources);
      case _ =>
    }
  }

  lemma {:induction false} RunEntries(s: State, es: seq<Event>, sources: seq<string>)
    requires Orderly(s) && Scheduled(s) && Books(s, sources) && AllApart(sources) && StartupEntries(s)
    requires Allowed(s, es) && SaneEvents(es) && GenuineRun(s, es)
    ensures var r := Run(s, es); Orderly(r) && Scheduled(r) && Books(r, sources) && StartupEntries(r)
    decreases |es|
  {
    hide Orderly, Scheduled, Books, Next, Enabled, SaneEvent, StartupEntries;
    if es != [] {
      assert SaneEvent(es[0]);
      StepOrderly(s, es[0]);
      StepScheduled(s, es[0]);
      StepBooks(s, es[0], sources);
      StepEntries(s, es[0], sources);
      RunEntries(Next(s, es[0]), es[1..], sources);
    }
  }

  /** When the startup loop ends, for distinct config sources: no worker is running, so the counter
      reset that follows changes nothing; every pair's task was started once, in file order, and has
      finished; and the store has exactly one entry for each pair, active and not in the workers. */
  lemma StartupLeaves(mode: Mode, limit: nat, words: seq<string>, es: seq<Event>)
    requires SaneRun(mode, limit, words, es) && AllApart(ConfigSources(words))
    requires Enabled(Run(Initial(mode, limit, words), es), LeaveStartup)
    ensures var s := Run(Initial(mode, limit, words), es);
            && Next(s, LeaveStartup) == s.(phase := Serving) && s.running == []
            && Sources(s.started) == ConfigSources(words)
            && multiset(Jobs(s.finished)) == multiset(s.started)
            && s.store.Keys == (set d | d in ConfigSources(words))
            && forall d :: d in s.store ==> s.store[d].isActive && !s.store[d].isInWorkers
  {
    hide Orderly, SaneRun, LogOk, ErrorsOk, Run, Allowed, Enabled, Next, Scheduled, StartupEntries, ConfigOk, AllApart, SaneEvents, GenuineRun;
    SaneRunIs(mode, limit, words, es);
    var s0, s := Initial(mode, limit, words), Run(Initial(mode, limit, words), es);
    InitialOrderly(mode, limit, words);
    InitialScheduled(mode, limit, words);
    InitialBooks(mode, limit, words);
    InitialEntries(mode, limit, words);
    RunEntries(s0, es, ConfigSources(words));
    EofMeansRead(s0, es);
    LeaveIs(s);
    EndOfStartup(s, ConfigSources(words));
  }

  lemma LeaveIs(s: State)
    requires Enabled(s, LeaveStartup)
    ensures InStartup(s) && !StartupGoesOn(s) && s.running == [] && s.eof
    ensures Next(s, LeaveStartup) == s.(phase := Serving)
  {
  }

  lemma SaneRunIs(mode: Mode, limit: nat, words: seq<string>, es: seq<Event>)
    requires SaneRun(mode, limit, words, es)
    ensures var s := Initial(mode, limit, words); Allowed(s, es) && SaneEvents(es) && GenuineRun(s, es)
    ensures forall k :: 0 <= k < |words| ==> SaneName(words[k])
  {
  }

  lemma InitialEntries(mode: Mode, limit: nat, words: seq<string>)
    ensures StartupEntries(Initial(mode, limit, words))
  {
  }

  lemma AllStarted(s: State, sources: seq<string>)
    requires Scheduled(s) && ConfigOk(s, sources) && InStartup(s) && !StartupGoesOn(s) && |s.words| < 2
    ensures Sources(s.started) == sources && multiset(Jobs(s.finished)) == multiset(s.started)
  {
    hide DecodeAs, AllApart;
    assert Waiting(s) == [] && s.started + [] == s.started;
    assert Sources(s.accepted) + [] == Sources(s.accepted);
    assert Jobs(s.running) == [];
  }

  lemma EndOfStartup(s: State, sources: seq<string>)
    requires Scheduled(s) && ConfigOk(s, sources) && StartupEntries(s) && InStartup(s) && !StartupGoesOn(s) && |s.words| < 2
    ensures Sources(s.started) == sources && multiset(Jobs(s.finished)) == multiset(s.started)
    ensures s.store.Keys == (set d | d in sources)
    ensures forall d :: d in s.store ==> s.store[d].isActive && !s.store[d].isInWorkers
  {
    hide Scheduled, AllApart;
    AllStarted(s, sources);
    assert Jobs(s.running) == [];
  }

  /** The end of the file is only seen once fewer than two words are left. */
  ghost predicate EofOk(s: State) {
    InStartup(s) && s.eof ==> |s.words| < 2
  }

  lemma StepEof(s: State, e: Event)
    requires EofOk(s) && Enabled(s, e)
    ensures EofOk(Next(s, e))
  {
    hide Found, Finish, Printed, DecodePair, EncodePair, FindsKey, Received, OnNotify, OnAdd, OnSync, OnCancel, OnPop;
    if InStartup(s) && e.Chunk? {
      ChunkEof(s, e.slot, e.chunk, e.now);
    }
  }

  lemma ChunkEof(s: State, i: nat, chunk: string, now: string)
    requires i < |s.running|
    ensures OnChunk(s, i, chunk, now).words == s.words && OnChunk(s, i, chunk, now).eof == s.eof
  {
    hide Found, Parse, Received, InfoAfter;
  }

  lemma {:induction false} EofMeansRead(s: State, es: seq<Event>)
    requires EofOk(s) && Allowed(s, es)
    ensures EofOk(Run(s, es))
    decreases |es|
  {
    hide Next, Enabled, EofOk;
    if es != [] {
      StepEof(s, es[0]);
      EofMeansRead(Next(s, es[0]), es[1..]);
    }
  }
}
