/** Runs of the manager from a config file, event by event. */
module ManagerRuns {
  import opened CStrings
  import opened Marker
  import opened WorkerProcess
  import opened StoreModel
  import opened TaskCode
  import opened WorkerPool
  import opened ManagerModel
  import opened ManagerReports
  import opened ManagerSafety
  import opened ManagerSchedule
  import opened ManagerPasses
  import opened ManagerBooks

  /** The events so far, from a config file with these words, and the state they lead to. */
  datatype Progress = Progress(limit: nat, config: seq<string>, events: seq<Event>, state: State)

  ghost predicate Reached(p: Progress) {
    && SaneRun(Repaired, p.limit, p.config, p.events) && AllApart(ConfigSources(p.config))
    && p.state == Run(Initial(Repaired, p.limit, p.config), p.events)
  }

  ghost function Then(p: Progress, e: Event): Progress
    requires Enabled(p.state, e)
  {
    p.(events := p.events + [e], state := Next(p.state, e))
  }

  lemma ReachedFirst(limit: nat, config: seq<string>)
    requires (forall k :: 0 <= k < |config| ==> SaneName(config[k])) && AllApart(ConfigSources(config))
    ensures Reached(Progress(limit, config, [], Initial(Repaired, limit, config)))
  {
    hide SaneName, AllApart, ConfigSources, Enabled, Next, Genuine, SaneEvent;
  }

  lemma ReachedNext(p: Progress, e: Event)
    requires Reached(p) && Enabled(p.state, e) && SaneEvent(e) && Genuine(p.state, e)
    ensures Reached(Then(p, e))
  {
    hide Enabled, Next, SaneEvent, SaneName, Genuine, AllApart;
    var s0 := Initial(Repaired, p.limit, p.config);
    OneMore(s0, p.events, e);
    GenuineMore(s0, p.events, e);
  }

  lemma {:induction false} GenuineMore(s: State, es: seq<Event>, e: Event)
    requires Allowed(s, es) && GenuineRun(s, es) && Enabled(Run(s, es), e) && Genuine(Run(s, es), e)
    ensures Allowed(s, es + [e]) && GenuineRun(s, es + [e])
    decreases |es|
  {
    hide Next, Enabled, Genuine;
    OneMore(s, es, e);
    if es == [] {
      assert es + [e] == [e] && [e][1..] == [];
    } else {
      assert (es + [e])[1..] == es[1..] + [e];
      GenuineMore(Next(s, es[0]), es[1..], e);
    }
  }

  lemma ReachedIsSound(p: Progress)
    requires Reached(p)
    ensures Orderly(p.state) && Scheduled(p.state) && Books(p.state, ConfigSources(p.config))
    ensures p.state.mode == Repaired && p.state.limit == p.limit && StoreOk(p.state) && AllApart(ConfigSources(p.config))
  {
    hide Scheduled, StoreOk, RunningOk, QueueOk, WordsOk, Books, SaneName, Next, Enabled, SaneEvent;
    InitialOrderly(Repaired, p.limit, p.config);
    InitialScheduled(Repaired, p.limit, p.config);
    InitialBooks(Repaired, p.limit, p.config);
    RunBooks(Initial(Repaired, p.limit, p.config), p.events, ConfigSources(p.config));
  }
}
