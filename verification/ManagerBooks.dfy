/** The manager's books over whole runs: the error count of every directory and the Monitoring lines
    of the log. */
module ManagerBooks {
  import opened CStrings
  import opened WorkerReport
  import opened ReportParser
  import opened Marker
  import opened WorkerProcess
  import opened StoreModel
  import opened TaskCode
  import opened WorkerPool
  import opened ManagerModel
  import opened ManagerReports
  import opened ManagerSafety
  import opened ManagerSchedule

  // ----- the config sources -----

  /** The source words of the complete pairs. */
  function ConfigSources(words: seq<string>): seq<string> {
    if |words| < 2 then [] else [words[0]] + ConfigSources(words[2..])
  }

  function Sources(ts: seq<Task>): (r: seq<string>)
    ensures |r| == |ts| && forall k :: 0 <= k < |r| ==> r[k] == ts[k].source
  {
    seq(|ts|, k requires 0 <= k < |ts| => ts[k].source)
  }

  /** In the startup loop: the tasks accepted so far and the pairs still unread are the pairs of the
      config file, and the store has an entry for each started one. */
  ghost predicate ConfigOk(s: State, sources: seq<string>) {
    InStartup(s) ==>
      && Sources(s.accepted) + ConfigSources(s.words) == sources
      && forall d :: d in s.store <==> d in Sources(s.started)
  }

  // ----- errors -----

  /** The failed operations of the finished workers of one directory. */
  ghost function ErrorSum(rs: seq<Running>, d: string): nat {
    if rs == [] then 0
    else ErrorSum(rs[..|rs| - 1], d) + (if rs[|rs| - 1].task.source == d then FailedOperations(rs[|rs| - 1].tally) else 0)
  }

  /** The errors counted in the shadowed entries of one directory. */
  function Hidden(infos: seq<DirInfo>, d: string): int {
    if infos == [] then 0
    else Hidden(infos[..|infos| - 1], d) + (if infos[|infos| - 1].source == d then infos[|infos| - 1].errors else 0)
  }

  /** The entries of a directory together have the failed operations of its finished workers. */
  ghost predicate ErrorsOk(s: State) {
    && (forall d :: d in s.store ==> s.store[d].errors + Hidden(s.shadowed, d) == ErrorSum(s.finished, d))
    && (forall k :: 0 <= k < |s.finished| ==> s.finished[k].task.source in s.store)
    && (forall k :: 0 <= k < |s.shadowed| ==> s.shadowed[k].source in s.store)
  }

  lemma HiddenMore(infos: seq<DirInfo>, info: DirInfo, d: string)
    ensures Hidden(infos + [info], d) == Hidden(infos, d) + (if info.source == d then info.errors else 0)
  {
    assert (infos + [info])[..|infos|] == infos;
  }

  lemma {:induction false} HiddenReplaced(infos: seq<DirInfo>, k: nat, info: DirInfo, d: string)
    requires k < |infos| && infos[k].source == info.source
    ensures Hidden(infos[k := info], d) + (if info.source == d then infos[k].errors else 0)
         == Hidden(infos, d) + (if info.source == d then info.errors else 0)
  {
    var last := |infos| - 1;
    if k < last {
      assert infos[k := info][..last] == infos[..last][k := info];
      HiddenReplaced(infos[..last], k, info, d);
    } else {
      assert infos[k := info][..last] == infos[..last];
    }
  }

  lemma {:induction false} NothingHidden(infos: seq<DirInfo>, d: string)
    requires forall k :: 0 <= k < |infos| ==> infos[k].source != d
    ensures Hidden(infos, d) == 0
  {
    if infos != [] {
      NothingHidden(infos[..|infos| - 1], d);
    }
  }

  lemma ErrorSumMore(rs: seq<Running>, r: Running, d: string)
    ensures ErrorSum(rs + [r], d) == ErrorSum(rs, d) + (if r.task.source == d then FailedOperations(r.tally) else 0)
  {
    assert (rs + [r])[..|rs|] == rs;
  }

  lemma {:induction false} NoErrors(rs: seq<Running>, d: string)
    requires forall k :: 0 <= k < |rs| ==> rs[k].task.source != d
    ensures ErrorSum(rs, d) == 0
  {
    if rs != [] {
      NoErrors(rs[..|rs| - 1], d);
    }
  }

  // ----- log lines -----

  predicate Monitors(l: LogLine) {
    l.MonitoringStarted? || l.MonitoringStopped?
  }

  /** The Monitoring lines of one directory: true for started, false for stopped. */
  function LinesOf(log: seq<LogLine>, d: string): seq<bool> {
    if log == [] then []
    else
      var last := log[|log| - 1];
      LinesOf(log[..|log| - 1], d) + (if Monitors(last) && last.source == d then [last.MonitoringStarted?] else [])
  }

  /** Started, stopped, started, and so on. */
  predicate Alternates(lines: seq<bool>) {
    forall k :: 0 <= k < |lines| ==> lines[k] == (k % 2 == 0)
  }

  predicate Active(s: State, d: string) {
    d in s.store && s.store[d].isActive
  }

  ghost predicate LogOkFor(s: State, d: string) {
    Alternates(LinesOf(s.log, d)) && (|LinesOf(s.log, d)| % 2 == 1 <==> Active(s, d))
  }

  /** For every directory the lines alternate, and the last one says started exactly when the
      directory is active. */
  ghost predicate LogOk(s: State) {
    forall d :: LogOkFor(s, d)
  }

  lemma LinesMore(log: seq<LogLine>, l: LogLine, d: string)
    ensures LinesOf(log + [l], d) == LinesOf(log, d) + (if Monitors(l) && l.source == d then [l.MonitoringStarted?] else [])
  {
    assert (log + [l])[..|log|] == log;
  }

  /** A line that says what the directory was not. */
  lemma LineToggles(s: State, s': State, l: LogLine)
    requires LogOk(s) && s'.log == s.log + [l] && Monitors(l)
    requires l.MonitoringStarted? <==> !Active(s, l.source)
    requires l.MonitoringStarted? <==> Active(s', l.source)
    requires forall d :: d != l.source ==> (Active(s', d) <==> Active(s, d))
    ensures LogOk(s')
  {
    hide LinesOf, Active;
    forall d ensures LogOkFor(s', d) {
      assert LogOkFor(s, d);
      LinesMore(s.log, l, d);
    }
  }

  lemma SameLog(s: State, s': State)
    requires LogOk(s) && s'.log == s.log && forall d :: Active(s', d) <==> Active(s, d)
    ensures LogOk(s')
  {
    hide LinesOf, Active;
    forall d ensures LogOkFor(s', d) {
      assert LogOkFor(s, d);
    }
  }

  lemma OtherLine(s: State, s': State, l: LogLine)
    requires LogOk(s) && s'.log == s.log + [l] && !Monitors(l) && forall d :: Active(s', d) <==> Active(s, d)
    ensures LogOk(s')
  {
    hide LinesOf, Active;
    forall d ensures LogOkFor(s', d) {
      assert LogOkFor(s, d);
      LinesMore(s.log, l, d);
    }
  }

  /** Where the sources of the config file are distinct, no entry is shadowed. */
  ghost predicate Distinctly(s: State) {
    LogOk(s) && s.shadowed == []
  }

  ghost predicate Books(s: State, sources: seq<string>) {
    ConfigOk(s, sources) && ErrorsOk(s) && (AllApart(sources) ==> Distinctly(s))
  }

  // ----- every event keeps the books -----

  lemma EnterErrors(s: State, info: DirInfo)
    requires ErrorsOk(s) && info.errors == 0 && forall d :: d in s.store ==> s.store[d].source == d
    ensures ErrorsOk(Enter(s, info))
  {
    hide ErrorSum, Hidden;
    var s' := Enter(s, info);
    if info.source in s.store {
      forall d | d in s'.store ensures s'.store[d].errors + Hidden(s'.shadowed, d) == ErrorSum(s'.finished, d) {
        HiddenMore(s.shadowed, s.store[info.source], d);
      }
    } else {
      NoErrors(s.finished, info.source);
      NothingHidden(s.shadowed, info.source);
    }
  }

  lemma StartupDispatchBooks(s: State, w: State, t: Task, tally: Tally, wd: int)
    requires InStartup(s) && InStartup(w) && ErrorsOk(s) && forall d :: d in s.store ==> s.store[d].source == d
    requires w.store == s.store && w.shadowed == s.shadowed && w.log == s.log && w.finished == s.finished && w.started == s.started
    requires forall d :: d in s.store <==> d in Sources(s.started)
    ensures var s' := StartupDispatch(w, t, tally, wd);
            && ErrorsOk(s') && s'.accepted == w.accepted && s'.words == w.words
            && (forall d :: d in s'.store <==> d in Sources(s'.started))
            && (Distinctly(s) && t.source !in s.store ==> Distinctly(s'))
  {
    hide LogOk, LinesOf, ErrorsOk;
    var s' := StartupDispatch(w, t, tally, wd);
    var v := Watch(w, wd, t.source).(log := w.log + [MonitoringStarted(t.source)]);
    var info := DirInfo(t.source, t.target, "", "", 0, true, true);
    SameErrors(s, v);
    EnterErrors(v, info);
    SameErrors(Enter(v, info), s');
    if Distinctly(s) && t.source !in s.store {
      LineToggles(s, s', MonitoringStarted(t.source));
    }
    assert Sources(s.started + [t]) == Sources(s.started) + [t.source];
  }

  lemma SameErrors(s: State, s': State)
    requires ErrorsOk(s) && s'.store == s.store && s'.finished == s.finished && s'.shadowed == s.shadowed
    ensures ErrorsOk(s')
  {
    hide ErrorSum, Hidden;
  }

  /** The next task of the startup loop is about a directory the store does not know yet. */
  lemma NextSourceIsNew(s: State, sources: seq<string>, n: nat, source: string)
    requires ConfigOk(s, sources) && AllApart(sources) && InStartup(s) && n == |s.started| < |sources| && s.started <= s.accepted
    requires sources[n] == source
    ensures source !in s.store
  {
    forall k | 0 <= k < n ensures Sources(s.started)[k] != source {
      assert sources[k] == Sources(s.accepted)[k] == s.started[k].source;
    }
  }

  /** So is the source of the pair that is read next, when a worker can take it at once. */
  lemma PairIsNew(s: State, sources: seq<string>)
    requires Scheduled(s) && ConfigOk(s, sources) && AllApart(sources) && InStartup(s) && !CanPop(s) && SlotFree(s) && |s.words| >= 2
    ensures s.words[0] !in s.store
  {
    hide DecodeAs, Conserved, LosesQueued, AllApart;
    assert Waiting(s) == [];
    assert s.started + [] == s.accepted;
    assert ConfigSources(s.words) == [s.words[0]] + ConfigSources(s.words[2..]);
    assert sources[|s.accepted|] == s.words[0];
    NextSourceIsNew(s, sources, |s.started|, s.words[0]);
  }

  /** And of the pair that is popped next. */
  lemma PoppedIsNew(s: State, sources: seq<string>)
    requires Scheduled(s) && ConfigOk(s, sources) && AllApart(sources) && InStartup(s) && CanPop(s)
    ensures DecodeAs(true, s.queue[0]).source !in s.store
  {
    hide DecodeAs, Conserved, LosesQueued, AllApart;
    var t, n := DecodeAs(true, s.queue[0]), |s.started|;
    assert s.accepted == s.started + Waiting(s) && Waiting(s)[0] == t;
    assert s.accepted[n] == t && s.started == s.accepted[..n];
    assert sources[n] == Sources(s.accepted)[n] == t.source;
    NextSourceIsNew(s, sources, n, t.source);
  }

  /** In a sane state an entry is under its own source. */
  lemma OwnSource(s: State)
    requires Orderly(s)
    ensures forall d :: d in s.store ==> s.store[d].source == d
  {
    hide SaneName, RunningOk, QueueOk, WordsOk;
    forall d | d in s.store ensures s.store[d].source == d {
      assert SaneEntry(s.store[d], d);
    }
  }

  lemma ReadPairBooks(s: State, sources: seq<string>, hitEof: bool, tally: Tally, wd: int)
    requires Orderly(s) && Scheduled(s) && Books(s, sources) && Enabled(s, ReadPair(hitEof, tally, wd))
    ensures Books(OnReadPair(s, hitEof, tally, wd), sources)
  {
    hide DecodePair, EncodePair, StartupDispatch, Distinctly, ErrorsOk, Conserved, LosesQueued, CodeOf, DecodeAs, AllApart,
      StoreOk, RunningOk, QueueOk;
    OwnSource(s);
    var t := Task(s.words[0], s.words[1], "ALL", "FULL");
    PairIsSane(t);
    CodeDecodes(true, EncodePair(t.source, t.target), t);
    var w := s.(words := s.words[2..], eof := s.eof || hitEof, accepted := s.accepted + [t]);
    assert Sources(w.accepted) == Sources(s.accepted) + [t.source];
    assert ConfigSources(s.words) == [t.source] + ConfigSources(w.words);
    assert Sources(w.accepted) + ConfigSources(w.words) == sources;
    if SlotFree(s) {
      if AllApart(sources) { PairIsNew(s, sources); }
      StartupDispatchBooks(s, w, t, tally, wd);
    } else {
      BooksSame(s, w.(queue := s.queue + [EncodePair(t.source, t.target)]));
    }
  }

  lemma BooksSame(s: State, s': State)
    requires s'.log == s.log && s'.store == s.store && s'.finished == s.finished && s'.shadowed == s.shadowed
    ensures ErrorsOk(s) ==> ErrorsOk(s')
    ensures Distinctly(s) ==> Distinctly(s')
  {
    hide LinesOf, ErrorSum, Hidden;
    assert forall d :: Active(s', d) <==> Active(s, d);
    if Distinctly(s) {
      SameLog(s, s');
    }
  }

  lemma StartupPopBooks(s: State, sources: seq<string>, tally: Tally, wd: int)
    requires Orderly(s) && Scheduled(s) && Books(s, sources) && Enabled(s, StartupPop(tally, wd))
    ensures Books(OnStartupPop(s, tally, wd), sources)
  {
    hide DecodePair, StartupDispatch, Distinctly, ErrorsOk, Conserved, LosesQueued, CodeOf, DecodeAs, AllApart, StoreOk, RunningOk, WordsOk;
    OwnSource(s);
    var t := DecodeAs(true, s.queue[0]);
    assert Coded(true, s.queue[0]);
    CodeDecodes(true, s.queue[0], t);
    if AllApart(sources) { PoppedIsNew(s, sources); }
    StartupDispatchBooks(s, s.(queue := s.queue[1..]), t, tally, wd);
  }

  lemma ChunkBooks(s: State, sources: seq<string>, i: nat, chunk: string, now: string)
    requires Orderly(s) && Books(s, sources) && Enabled(s, Chunk(i, chunk, now))
    ensures Books(OnChunk(s, i, chunk, now), sources)
  {
    hide Found, Printed, OnChunk, InfoOf, SaneTask, SaneTally, LogOk, ErrorsOk, AllApart, Sources, QueueOk, WordsOk, StoreOk;
    var r, s' := Received(s, i, chunk), OnChunk(s, i, chunk, now);
    ChunkCases(s, i, chunk, now);
    if Found(r.received, MARKER) {
      InfoTarget(s, r, now);
      FinishedErrors(s, s', r, InfoOf(s, r, now));
      assert forall d :: Active(s', d) <==> Active(s, d);
      if AllApart(sources) { OtherLine(s, s', LineOf(r)); }
    } else {
      BooksSame(s, s');
    }
  }

  lemma FinishedErrors(s: State, s': State, r: Running, info: DirInfo)
    requires ErrorsOk(s) && r.task.source in s.store && s'.store == s.store[r.task.source := info]
    requires s'.shadowed == s.shadowed && s'.finished == s.finished + [r]
    requires info.errors == s.store[r.task.source].errors + FailedOperations(r.tally)
    ensures ErrorsOk(s')
  {
    hide ErrorSum, Hidden, FailedOperations;
    forall d | d in s'.store ensures s'.store[d].errors + Hidden(s'.shadowed, d) == ErrorSum(s'.finished, d) {
      ErrorSumMore(s.finished, r, d);
    }
  }

  /** What the command loop keeps of the books. */
  ghost predicate Kept(s: State, s': State) {
    && (ErrorsOk(s) ==> ErrorsOk(s')) && (Distinctly(s) ==> Distinctly(s')) && !InStartup(s')
  }

  lemma SubmitBooks(s: State, t: Task, tally: Tally)
    requires s.phase == Serving
    ensures Kept(s, Submit(s, t, tally))
  {
    hide ErrorsOk, Distinctly, Encode;
    BooksSame(s, Submit(s, t, tally));
  }

  lemma AddBooks(s: State, source: string, target: string, wd: int, tally: Tally)
    requires s.phase == Serving
    ensures Kept(s, OnAdd(s, source, target, wd, tally))
  {
    hide Submit, LogOk, ErrorSum, Hidden;
    if !(source in s.store && s.store[source].isActive) {
      var info := if source in s.store then s.store[source].(isActive := true, target := target)
                  else DirInfo(source, target, "", "", 0, true, false);
      var w := Watch(s, wd, source).(store := s.store[source := info], log := s.log + [MonitoringStarted(source)]);
      if ErrorsOk(s) && source !in s.store {
        NoErrors(s.finished, source);
        NothingHidden(s.shadowed, source);
      }
      if Distinctly(s) { LineToggles(s, w, MonitoringStarted(source)); }
      SubmitBooks(w, Task(source, target, "all", "FULL"), tally);
    }
  }

  lemma SyncBooks(s: State, source: string, wd: int, tally: Tally)
    requires s.phase == Serving
    ensures Kept(s, OnSync(s, source, wd, tally))
  {
    hide Submit, LogOk, ErrorsOk;
    if source in s.store && !s.store[source].isInWorkers && s.store[source].isActive {
      var target := s.store[source].target;
      var w := Watch(s, wd, source).(log := s.log + [Syncing(source, target)]);
      if ErrorsOk(s) { SameErrors(s, w); }
      if Distinctly(s) { OtherLine(s, w, Syncing(source, target)); }
      SubmitBooks(w, Task(source, target, "all", "FULL"), tally);
    }
  }

  lemma CancelBooks(s: State, source: string, wd: int)
    requires s.phase == Serving
    ensures Kept(s, OnCancel(s, source, wd))
  {
    hide LogOk, ErrorsOk;
    var s' := OnCancel(s, source, wd);
    if wd != -1 && source in s.store && s.store[source].isActive {
      if ErrorsOk(s) { SameCounts(s, s'); }
      if Distinctly(s) { LineToggles(s, s', MonitoringStopped(source)); }
    } else {
      BooksSame(s, s');
    }
  }

  lemma SameCounts(s: State, s': State)
    requires ErrorsOk(s) && s'.finished == s.finished && s'.shadowed == s.shadowed
    requires s'.store.Keys == s.store.Keys && forall d :: d in s.store ==> s'.store[d].errors == s.store[d].errors
    ensures ErrorsOk(s')
  {
    hide ErrorSum, Hidden;
  }

  lemma PopBooks(s: State, tally: Tally)
    requires Enabled(s, Pop(tally))
    ensures Kept(s, OnPop(s, tally))
  {
    hide ErrorsOk, Distinctly, Decode;
    BooksSame(s, OnPop(s, tally));
  }

  lemma NotifyBooks(s: State, wd: int, name: string, kind: Kind, tally: Tally)
    requires s.phase == Serving
    ensures Kept(s, OnNotify(s, wd, name, kind, tally))
  {
    hide ErrorsOk, Distinctly, Encode;
    BooksSame(s, OnNotify(s, wd, name, kind, tally));
  }

  /** A find that returns another entry of the same key moves counted errors, and loses none. */
  lemma ReshuffleBooks(s: State, k: nat, sources: seq<string>)
    requires Orderly(s) && Books(s, sources) && k < |s.shadowed| && s.shadowed[k].source in s.store
    ensures Books(OnReshuffle(s, k), sources)
  {
    hide Sources, LogOk, ErrorSum, Hidden, RunningOk, QueueOk, WordsOk, StoreOk, AllApart;
    OwnSource(s);
    var s', info := OnReshuffle(s, k), s.shadowed[k];
    forall d | d in s'.store ensures s'.store[d].errors + Hidden(s'.shadowed, d) == ErrorSum(s'.finished, d) {
      HiddenReplaced(s.shadowed, k, s.store[info.source], d);
    }
  }

  lemma OtherBooks(s: State, e: Event, sources: seq<string>)
    requires Books(s, sources) && Enabled(s, e)
    requires e.ReadTail? || e.LeaveStartup? || e.OtherCommand? || e.ShutdownCommand? || e.Exit?
    ensures Books(Next(s, e), sources)
  {
    hide ErrorsOk, Distinctly, Sources, AllApart;
    BooksSame(s, Next(s, e));
  }

  lemma StepBooks(s: State, e: Event, sources: seq<string>)
    requires Orderly(s) && Scheduled(s) && Books(s, sources) && Enabled(s, e)
    ensures Books(Next(s, e), sources)
  {
    hide Orderly, Scheduled, Sources, ErrorsOk, Distinctly, AllApart, OnReshuffle, OnChunk, OnReadPair, OnStartupPop, OnPop, OnNotify, OnAdd, OnSync, OnCancel, FindsKey, Printed;
    match e
    case Chunk(i, chunk, now) => ChunkBooks(s, sources, i, chunk, now);
    case ReadPair(hitEof, tally, wd) => ReadPairBooks(s, sources, hitEof, tally, wd);
    case StartupPop(tally, wd) => StartupPopBooks(s, sources, tally, wd);
    case Pop(tally) => PopBooks(s, tally);
    case Notify(wd, name, kind, tally) => NotifyBooks(s, wd, name, kind, tally);
    case AddCommand(source, target, wd, tally) => AddBooks(s, source, target, wd, tally);
    case SyncCommand(source, wd, tally) => SyncBooks(s, source, wd, tally);
    case CancelCommand(source, wd) => CancelBooks(s, source, wd);
    case Reshuffle(k) => ReshuffleBooks(s, k, sources);
    case _ => OtherBooks(s, e, sources);
  }

  lemma {:induction false} RunBooks(s: State, es: seq<Event>, sources: seq<string>)
    requires Orderly(s) && Scheduled(s) && Books(s, sources)
    requires Allowed(s, es) && SaneEvents(es) && GenuineRun(s, es)
    ensures Orderly(Run(s, es)) && Scheduled(Run(s, es)) && Books(Run(s, es), sources)
    decreases |es|
  {
    hide Orderly, Scheduled, Books, Next, Enabled, SaneEvent;
    if es != [] {
      assert SaneEvent(es[0]);
      StepOrderly(s, es[0]);
      StepScheduled(s, es[0]);
      StepBooks(s, es[0], sources);
      RunBooks(Next(s, es[0]), es[1..], sources);
    }
  }

  lemma InitialBooks(mode: Mode, limit: nat, words: seq<string>)
    ensures Books(Initial(mode, limit, words), ConfigSources(words))
  {
    assert Sources([]) + ConfigSources(words) == ConfigSources(words);
    forall d ensures LogOkFor(Initial(mode, limit, words), d) {
      assert LinesOf([], d) == [];
    }
  }

  lemma NoneShadowed(s: State, sources: seq<string>)
    requires Books(s, sources) && AllApart(sources)
    ensures s.shadowed == []
  {
  }

  lemma RunFromConfig(mode: Mode, limit: nat, words: seq<string>, es: seq<Event>)
    requires SaneRun(mode, limit, words, es)
    ensures var s := Run(Initial(mode, limit, words), es); Orderly(s) && Scheduled(s) && Books(s, ConfigSources(words))
  {
    hide Orderly, Scheduled, Books;
    InitialOrderly(mode, limit, words);
    InitialScheduled(mode, limit, words);
    InitialBooks(mode, limit, words);
    RunBooks(Initial(mode, limit, words), es, ConfigSources(words));
  }

  /** For every run, the entries of a directory together count the failed operations of its finished
      workers: through their counters, the lines they printed, the parser and the store. Where no source
      is in the config file twice there is only the entry a find returns, and its count is that number. */
  lemma ErrorAccounting(mode: Mode, limit: nat, words: seq<string>, es: seq<Event>, d: string)
    requires SaneRun(mode, limit, words, es) && d in Run(Initial(mode, limit, words), es).store
    ensures var s := Run(Initial(mode, limit, words), es);
            && s.store[d].errors + Hidden(s.shadowed, d) == ErrorSum(s.finished, d)
            && (AllApart(ConfigSources(words)) ==> s.store[d].errors == ErrorSum(s.finished, d))
  {
    hide Orderly, Scheduled;
    RunFromConfig(mode, limit, words, es);
  }

  /** The tally of the worker an event may start. */
  function TallyOf(e: Event): Option<Tally> {
    match e
    case ReadPair(_, tally, _) => Some(tally)
    case StartupPop(tally, _) => Some(tally)
    case Pop(tally) => Some(tally)
    case Notify(_, _, _, tally) => Some(tally)
    case AddCommand(_, _, _, tally) => Some(tally)
    case SyncCommand(_, _, tally) => Some(tally)
    case _ => None
  }

  ghost predicate SaneNames(e: Event) {
    match e
    case Notify(_, name, _, _) => IsWord(name) && NulFree(name)
    case AddCommand(source, target, _, _) => SaneName(source) && SaneName(target)
    case _ => true
  }

  /** The names are sane and the workers do what their contracts say. */
  ghost predicate WorkedEvents(es: seq<Event>) {
    forall k :: 0 <= k < |es| ==> SaneNames(es[k]) && (TallyOf(es[k]).Some? ==> Worked(TallyOf(es[k]).value))
  }

  lemma WorkedEventsAreSane(es: seq<Event>)
    requires WorkedEvents(es)
    ensures SaneEvents(es)
  {
    hide Worked, SaneTally, SaneName, IsWord;
    forall k | 0 <= k < |es| ensures SaneEvent(es[k]) {
      if TallyOf(es[k]).Some? {
        WorkedIsSane(TallyOf(es[k]).value);
      }
    }
  }

  /** From the workers' contracts to the counts in the store: whatever failed in whichever directory. */
  lemma WorkersErrors(mode: Mode, limit: nat, words: seq<string>, es: seq<Event>, d: string)
    requires (forall k :: 0 <= k < |words| ==> SaneName(words[k])) && WorkedEvents(es)
    requires Allowed(Initial(mode, limit, words), es) && GenuineRun(Initial(mode, limit, words), es)
    requires d in Run(Initial(mode, limit, words), es).store
    ensures var s := Run(Initial(mode, limit, words), es);
            && s.store[d].errors + Hidden(s.shadowed, d) == ErrorSum(s.finished, d)
            && (AllApart(ConfigSources(words)) ==> s.store[d].errors == ErrorSum(s.finished, d))
  {
    hide Run, Allowed, GenuineRun, SaneName, Hidden, ErrorSum;
    WorkedEventsAreSane(es);
    assert SaneRun(mode, limit, words, es);
    ErrorAccounting(mode, limit, words, es, d);
  }

  lemma InitialScheduled(mode: Mode, limit: nat, words: seq<string>)
    ensures Scheduled(Initial(mode, limit, words))
  {
    hide DecodeAs;
    assert Tasks(true, []) == [];
    assert Jobs([]) == [];
  }
}
