/** The log over whole runs: what each event appends, and when the Monitoring lines alternate. */
module ManagerLog {
  import opened CStrings
  import opened WorkerReport
  import opened ReportParser
  import opened RoundTrip
  import opened Marker
  import opened WorkerProcess
  import opened StoreModel
  import opened TaskCode
  import opened WorkerPool
  import opened ManagerModel
  import opened ManagerReports
  import opened ManagerSafety
  import opened ManagerSchedule
  import opened ManagerBooks
  import opened ManagerStartup

  // ----- what an event appends -----

  /** A report's line has one of the words a worker prints in each place. */
  ghost predicate KnownReport(l: LogLine) {
    l.Reported? ==>
      && l.operation in OPERATIONS && l.status in {"SUCCESS", "ERROR", "PARTIAL"}
      && exists copied: nat, deleted: nat, skipped: nat :: l.details == " " + Details(copied, deleted, skipped)
  }

  /** At most one line; in the startup loop a Monitoring line exactly when a task is started, and then it
      is about the task's source. */
  ghost predicate Appends(s: State, s': State, more: seq<LogLine>) {
    && s'.log == s.log + more && |more| <= 1 && (more != [] ==> KnownReport(more[0]))
    && (InStartup(s) && InStartup(s') ==>
          || (s'.started == s.started && (more != [] ==> !Monitors(more[0])))
          || (s'.started != [] && s'.started == s.started + [s'.started[|s'.started| - 1]]
              && more == [MonitoringStarted(s'.started[|s'.started| - 1].source)]))
  }

  lemma NothingAppended(s: State, s': State)
    requires s'.log == s.log && s'.started == s.started
    ensures Appends(s, s', [])
  {
    assert s.log + [] == s.log;
  }

  lemma ChunkAppends(s: State, i: nat, chunk: string, now: string) returns (more: seq<LogLine>)
    requires Orderly(s) && Enabled(s, Chunk(i, chunk, now))
    ensures Appends(s, OnChunk(s, i, chunk, now), more)
  {
    hide Found, Printed, OnChunk, InfoOf, SaneTally, StoreOk, QueueOk, WordsOk, KnownReport, SaneName;
    var r := Received(s, i, chunk);
    ChunkCases(s, i, chunk, now);
    if Found(r.received, MARKER) {
      more := [LineOf(r)];
      assert KnownReport(LineOf(r)) by { LineKnown(r); }
    } else {
      more := [];
      NothingAppended(s, OnChunk(s, i, chunk, now));
    }
  }

  lemma LineKnown(r: Running)
    requires r.task.action in OPERATIONS
    ensures KnownReport(LineOf(r))
  {
    hide Details, RenderAll;
    assert LineOf(r).details == " " + Details(r.Report().copied, r.Report().deleted, r.Report().skipped);
  }

  lemma ReadPairAppends(s: State, hitEof: bool, tally: Tally, wd: int) returns (more: seq<LogLine>)
    requires InStartup(s) && |s.words| >= 2
    ensures InStartup(OnReadPair(s, hitEof, tally, wd)) ==> Appends(s, OnReadPair(s, hitEof, tally, wd), more)
  {
    hide DecodePair, EncodePair;
    more := [];
    var s' := OnReadPair(s, hitEof, tally, wd);
    var t := DecodePair(EncodePair(s.words[0], s.words[1]));
    if t.Some? && SlotFree(s) {
      more := [MonitoringStarted(t.value.source)];
    } else {
      NothingAppended(s, s');
    }
  }

  lemma StartupPopAppends(s: State, tally: Tally, wd: int) returns (more: seq<LogLine>)
    requires InStartup(s) && s.queue != []
    ensures InStartup(OnStartupPop(s, tally, wd)) ==> Appends(s, OnStartupPop(s, tally, wd), more)
  {
    hide DecodePair;
    more := [];
    var t := DecodePair(s.queue[0]);
    if t.Some? {
      more := [MonitoringStarted(t.value.source)];
    }
  }

  lemma SubmitLogs(s: State, t: Task, tally: Tally)
    ensures Submit(s, t, tally).log == s.log && Submit(s, t, tally).phase == s.phase
  {
    hide Encode;
  }

  /** After the startup loop. */
  lemma ServingAppends(s: State, e: Event) returns (more: seq<LogLine>)
    requires Orderly(s) && !InStartup(s) && Enabled(s, e) && !e.Chunk?
    ensures Appends(s, Next(s, e), more) && !InStartup(Next(s, e))
  {
    hide Orderly, Decode, Submit, FindsKey;
    forall w, t, tally ensures Submit(w, t, tally).log == w.log && Submit(w, t, tally).phase == w.phase { SubmitLogs(w, t, tally); }
    var log, log' := s.log, Next(s, e).log;
    more := if |log'| > |log| then [log'[|log|]] else [];
    assert log + [] == log;
  }

  lemma OtherAppends(s: State, e: Event)
    requires InStartup(s) && Enabled(s, e) && (e.ReadTail? || e.LeaveStartup? || e.Reshuffle?)
    ensures Appends(s, Next(s, e), [])
  {
    NothingAppended(s, Next(s, e));
  }

  lemma EventAppends(s: State, e: Event) returns (more: seq<LogLine>)
    requires Orderly(s) && Enabled(s, e) && SaneEvent(e) && Genuine(s, e)
    ensures Appends(s, Next(s, e), more)
    ensures !InStartup(s) ==> !InStartup(Next(s, e))
    ensures InStartup(s) && !e.LeaveStartup? ==> InStartup(Next(s, e))
  {
    hide Orderly, Appends, OnChunk, OnReadPair, OnStartupPop, OnPop, OnNotify, OnAdd, OnSync, OnCancel, SaneTally, SaneName;
    if e.Chunk? {
      ChunkOrderly(s, e.slot, e.chunk, e.now);
      more := ChunkAppends(s, e.slot, e.chunk, e.now);
    } else if !InStartup(s) {
      more := ServingAppends(s, e);
    } else if e.ReadPair? {
      ReadPairOrderly(s, e.hitEof, e.tally, e.wd);
      more := ReadPairAppends(s, e.hitEof, e.tally, e.wd);
    } else if e.StartupPop? {
      StartupPopOrderly(s, e.tally, e.wd);
      more := StartupPopAppends(s, e.tally, e.wd);
    } else {
      more := [];
      OtherAppends(s, e);
    }
  }

  // ----- how every log begins -----

  function Trues(n: nat): (r: seq<bool>)
    ensures |r| == n && forall k :: 0 <= k < n ==> r[k]
  {
    seq(n, _ => true)
  }

  /** How often the name is in the list. */
  function Times(ds: seq<string>, d: string): nat {
    multiset(ds)[d]
  }

  /** Each directory's Monitoring lines begin with as many starts as it has tasks of the startup loop. */
  ghost predicate LogBegins(s: State, sources: seq<string>) {
    forall d :: if InStartup(s) then LinesOf(s.log, d) == Trues(Times(Sources(s.started), d))
                else Trues(Times(sources, d)) <= LinesOf(s.log, d)
  }

  lemma StartMore(log: seq<LogLine>, started: seq<Task>, t: Task, d: string)
    requires LinesOf(log, d) == Trues(Times(Sources(started), d))
    ensures LinesOf(log + [MonitoringStarted(t.source)], d) == Trues(Times(Sources(started + [t]), d))
  {
    LinesMore(log, MonitoringStarted(t.source), d);
    assert Sources(started + [t]) == Sources(started) + [t.source];
  }

  lemma LogBeginsNext(s: State, e: Event, sources: seq<string>)
    requires Orderly(s) && Enabled(s, e) && SaneEvent(e) && Genuine(s, e) && LogBegins(s, sources)
    requires e.LeaveStartup? ==> Sources(s.started) == sources
    ensures LogBegins(Next(s, e), sources)
  {
    hide Orderly, Enabled, SaneEvent, LinesOf, Next, Trues, Times, KnownReport, Monitors, Sources;
    var s' := Next(s, e);
    var more := EventAppends(s, e);
    forall d ensures if InStartup(s') then LinesOf(s'.log, d) == Trues(Times(Sources(s'.started), d))
                     else Trues(Times(sources, d)) <= LinesOf(s'.log, d) {
      LinesAppended(s.log, more, d);
      if InStartup(s) && s'.started != s.started && InStartup(s') {
        StartMore(s.log, s.started, s'.started[|s'.started| - 1], d);
      }
      if e.LeaveStartup? {
        Leaving(s, e);
      }
    }
  }

  lemma Leaving(s: State, e: Event)
    requires e.LeaveStartup? && Enabled(s, e)
    ensures InStartup(s) && Next(s, e).log == s.log
  {
  }

  lemma LinesAppended(log: seq<LogLine>, more: seq<LogLine>, d: string)
    requires |more| <= 1
    ensures LinesOf(log, d) <= LinesOf(log + more, d)
    ensures more != [] && !Monitors(more[0]) ==> LinesOf(log + more, d) == LinesOf(log, d)
    ensures more == [] ==> LinesOf(log + more, d) == LinesOf(log, d)
  {
    if more != [] {
      LinesMore(log, more[0], d);
      assert more == [more[0]];
    } else {
      assert log + more == log;
    }
  }

  lemma {:induction false} RunLog(s: State, es: seq<Event>, sources: seq<string>)
    requires Orderly(s) && Scheduled(s) && Books(s, sources) && EofOk(s) && LogBegins(s, sources)
    requires Allowed(s, es) && SaneEvents(es) && GenuineRun(s, es)
    ensures LogBegins(Run(s, es), sources)
    decreases |es|
  {
    hide Orderly, Scheduled, Books, Next, Enabled, SaneEvent, EofOk, LogBegins;
    if es != [] {
      assert SaneEvent(es[0]);
      StepOrderly(s, es[0]);
      StepScheduled(s, es[0]);
      StepBooks(s, es[0], sources);
      StepEof(s, es[0]);
      if es[0].LeaveStartup? {
        LeavesAllStarted(s, es[0], sources);
      }
      LogBeginsNext(s, es[0], sources);
      RunLog(Next(s, es[0]), es[1..], sources);
    }
  }

  lemma LeavesAllStarted(s: State, e: Event, sources: seq<string>)
    requires Scheduled(s) && Books(s, sources) && EofOk(s) && e.LeaveStartup? && Enabled(s, e)
    ensures Sources(s.started) == sources
  {
    hide Scheduled, ErrorsOk, Distinctly, ConfigOk, AllApart;
    AllStarted(s, sources);
  }

  /** For every run from a config file with distinct sources, each directory's Monitoring lines alternate
      beginning with started, and the last one says started exactly when the directory is active. */
  lemma LogAlternates(mode: Mode, limit: nat, words: seq<string>, es: seq<Event>, d: string)
    requires SaneRun(mode, limit, words, es) && AllApart(ConfigSources(words))
    ensures LogOkFor(Run(Initial(mode, limit, words), es), d)
  {
    hide Orderly, Scheduled, SaneRun, AllApart, LinesOf;
    RunFromConfig(mode, limit, words, es);
  }

  /** And only then, once the startup loop has gone through the file: a directory that is there twice has
      two starts in a row. */
  lemma LogAlternatesExactly(mode: Mode, limit: nat, words: seq<string>, es: seq<Event>)
    requires SaneRun(mode, limit, words, es) && !InStartup(Run(Initial(mode, limit, words), es))
    ensures (forall d :: LogOkFor(Run(Initial(mode, limit, words), es), d)) <==> AllApart(ConfigSources(words))
  {
    hide Orderly, Scheduled, Books, Next, Enabled, SaneEvent, LogOkFor, LogBegins;
    var s0, sources := Initial(mode, limit, words), ConfigSources(words);
    var s := Run(s0, es);
    if AllApart(sources) {
      forall d ensures LogOkFor(s, d) { LogAlternates(mode, limit, words, es, d); }
    } else {
      var i, j :| 0 <= i < j < |sources| && sources[i] == sources[j];
      InitialOrderly(mode, limit, words);
      InitialScheduled(mode, limit, words);
      InitialBooks(mode, limit, words);
      InitialLog(mode, limit, words);
      RunLog(s0, es, sources);
      TwoStarts(s, sources, i, j);
    }
  }

  lemma InitialLog(mode: Mode, limit: nat, words: seq<string>)
    ensures LogBegins(Initial(mode, limit, words), ConfigSources(words))
  {
    assert Sources([]) == [];
    forall d ensures LinesOf([], d) == Trues(Times([], d)) {
    }
  }

  lemma TwoStarts(s: State, sources: seq<string>, i: nat, j: nat)
    requires LogBegins(s, sources) && !InStartup(s) && i < j < |sources| && sources[i] == sources[j]
    ensures !LogOkFor(s, sources[i])
  {
    hide LinesOf;
    var d := sources[i];
    assert Times(sources, d) >= 2 by {
      assert sources == sources[..j] + sources[j..];
      assert d in multiset(sources[..j]) && d in multiset(sources[j..]) by {
        assert sources[..j][i] == d && sources[j..][0] == d;
      }
    }
    assert LinesOf(s.log, d)[1] == Trues(Times(sources, d))[1];
  }
}
