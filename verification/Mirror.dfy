/** One watched pair over a whole run: the source directory changes, every change is announced once,
    a FULL can be asked for at any time, the tasks are started first in, first out, and workers finish.
    Several workers run at a time; those that concern the same file finish in the order they were
    started. */
module Mirror {
  import opened CStrings
  import opened Strtok
  import opened ReportParser
  import opened WorkerProcess

  /** A task: one file's, which inotify announced, or a FULL. */
  datatype Change = Added(name: string) | Modified(name: string) | Deleted(name: string) | All

  /** The task concerns the file. */
  predicate About(c: Change, f: string) {
    c.All? || c.name == f
  }

  /** Some file is concerned by both. */
  predicate Overlap(a: Change, b: Change) {
    a.All? || b.All? || a.name == b.name
  }

  function Operation(c: Change): string {
    match c
    case Added(_) => "ADDED"
    case Modified(_) => "MODIFIED"
    case Deleted(_) => "DELETED"
    case All => "FULL"
  }

  /** A running worker; stale are the files it concerns that have changed in the source since it was
      started, so that what it reads of them may be anything. */
  datatype Copying = Copying(change: Change, stale: set<string>)

  datatype State = State(source: map<string, Bytes>, target: map<string, Bytes>,
                         running: seq<Copying>, waiting: seq<Change>)

  /** What a worker has done: what it read of the source, what it left in the target and what it
      counted. */
  datatype Outcome = Outcome(read: map<string, Bytes>, after: map<string, Bytes>, tally: Tally)

  datatype Event =
    | Create(name: string)
    | Write(name: string, content: Bytes)
    | Remove(name: string)
    | Sync(at: nat)
    | Start
    | Finish(slot: nat, outcome: Outcome)

  function DisturbOne(c: Copying, name: string): Copying {
    if About(c.change, name) then c.(stale := c.stale + {name}) else c
  }

  /** The workers for this file now read from under a change. */
  function Disturb(rs: seq<Copying>, name: string): (r: seq<Copying>)
    ensures |r| == |rs|
    ensures forall k :: 0 <= k < |rs| ==> r[k] == DisturbOne(rs[k], name)
  {
    seq(|rs|, k requires 0 <= k < |rs| => DisturbOne(rs[k], name))
  }

  /** The worker did what its contract says, from a source that is the present one but for the stale
      files, and no system call failed that could have worked. */
  ghost predicate Did(s: State, c: Copying, o: Outcome) {
    && (forall f :: f !in c.stale ==> Same(s.source, o.read, f))
    && if c.change.All? then FullResult(o.read, s.target, o.after, NO_FAULTS, o.tally)
       else FileResult(o.read, s.target, o.after, c.change.name, Operation(c.change), false, o.tally)
  }

  ghost predicate Enabled(s: State, e: Event) {
    match e
    case Create(f) => f !in s.source
    case Write(f, _) => f in s.source
    case Remove(f) => f in s.source
    case Sync(at) => at <= |s.waiting|
    case Start => s.waiting != []
    case Finish(i, o) =>
      && i < |s.running| && Did(s, s.running[i], o)
      && forall j :: 0 <= j < i ==> !Overlap(s.running[j].change, s.running[i].change)
  }

  /** A FULL goes to the end of the manager's queue, and so before the changes inotify has not handed
      over yet. */
  function Next(s: State, e: Event): State
    requires e.Start? ==> s.waiting != []
    requires e.Finish? ==> e.slot < |s.running|
    requires e.Sync? ==> e.at <= |s.waiting|
  {
    match e
    case Create(f) => s.(source := s.source[f := []], running := Disturb(s.running, f), waiting := s.waiting + [Added(f)])
    case Write(f, b) => s.(source := s.source[f := b], running := Disturb(s.running, f), waiting := s.waiting + [Modified(f)])
    case Remove(f) => s.(source := s.source - {f}, running := Disturb(s.running, f), waiting := s.waiting + [Deleted(f)])
    case Sync(at) => s.(waiting := s.waiting[..at] + [All] + s.waiting[at..])
    case Start => s.(running := s.running + [Copying(s.waiting[0], {})], waiting := s.waiting[1..])
    case Finish(i, o) => s.(target := o.after, running := s.running[..i] + s.running[i + 1..])
  }

  ghost predicate Allowed(s: State, es: seq<Event>)
    decreases |es|
  {
    es == [] || (Enabled(s, es[0]) && Allowed(Next(s, es[0]), es[1..]))
  }

  ghost function Run(s: State, es: seq<Event>): State
    requires Allowed(s, es)
    decreases |es|
  {
    if es == [] then s else Run(Next(s, es[0]), es[1..])
  }

  // ----- what a worker leaves -----

  /** A file whose copy was asked for, that is there and did not change under the worker, is copied; a
      deleted one is gone; a FULL leaves every file that did not change as it is in the source; and the
      files that are not concerned stay. */
  lemma WorkerResult(s: State, c: Copying, o: Outcome, f: string)
    requires Did(s, c, o)
    ensures !About(c.change, f) ==> Same(s.target, o.after, f)
    ensures c.change == Deleted(f) ==> f !in o.after
    ensures (c.change == Added(f) || c.change == Modified(f)) && f !in c.stale && f in s.source ==> Same(s.source, o.after, f)
    ensures c.change.All? && f !in c.stale ==> Same(s.source, o.after, f)
  {
    assert f !in c.stale ==> Same(s.source, o.read, f);
    if c.change.All? {
      FaultlessFull(o.read, s.target, o.after, NO_FAULTS, o.tally);
    }
  }

  // ----- pending changes -----

  function Changes(rs: seq<Copying>): (r: seq<Change>)
    ensures |r| == |rs| && forall k :: 0 <= k < |r| ==> r[k] == rs[k].change
  {
    seq(|rs|, k requires 0 <= k < |rs| => rs[k].change)
  }

  /** Running and queued tasks, in the order they were announced. */
  function Pending(s: State): seq<Change> {
    Changes(s.running) + s.waiting
  }

  /** The last of these changes that concerns the file. */
  function LastOf(cs: seq<Change>, f: string): Option<Change> {
    if cs == [] then None
    else if About(cs[|cs| - 1], f) then Some(cs[|cs| - 1])
    else LastOf(cs[..|cs| - 1], f)
  }

  lemma {:induction false} LastOfConcat(a: seq<Change>, b: seq<Change>, f: string)
    ensures LastOf(a + b, f) == if LastOf(b, f).Some? then LastOf(b, f) else LastOf(a, f)
    decreases |b|
  {
    if b == [] {
      assert a + b == a;
    } else {
      assert (a + b)[..|a + b| - 1] == a + b[..|b| - 1];
      LastOfConcat(a, b[..|b| - 1], f);
    }
  }

  lemma LastOfOne(c: Change, f: string)
    ensures LastOf([c], f) == if About(c, f) then Some(c) else None
  {
    assert [c][..0] == [];
  }

  lemma {:induction false} LastOfNone(cs: seq<Change>, f: string)
    requires forall k :: 0 <= k < |cs| ==> !About(cs[k], f)
    ensures LastOf(cs, f) == None
  {
    if cs != [] {
      LastOfNone(cs[..|cs| - 1], f);
    }
  }

  // ----- what every run keeps -----

  /** A file without a pending task is the same in both directories; the last pending task of any
      other file is a deletion only if the file is not in the source, and a copy only if it is. */
  ghost predicate FileOk(s: State, f: string) {
    match LastOf(Pending(s), f)
    case None => Same(s.source, s.target, f)
    case Some(c) => c.All? || (c.Deleted? <==> f !in s.source)
  }

  /** A file is stale for a worker only if another task for it is behind that worker. */
  ghost predicate StaleOk(s: State, i: nat)
    requires i < |s.running|
  {
    forall f :: f in s.running[i].stale ==>
                  About(s.running[i].change, f) && LastOf(Changes(s.running[i + 1..]) + s.waiting, f).Some?
  }

  ghost predicate Converging(s: State) {
    (forall f :: FileOk(s, f)) && (forall i :: 0 <= i < |s.running| ==> StaleOk(s, i))
  }

  /** The source changes, and the change is announced. */
  lemma AnnouncedKeeps(s: State, s': State, c: Change)
    requires Converging(s) && s'.target == s.target && !c.All?
    requires s'.running == Disturb(s.running, c.name) && s'.waiting == s.waiting + [c]
    requires c.Deleted? <==> c.name !in s'.source
    requires forall f :: f != c.name ==> (f in s'.source <==> f in s.source) && (f in s.source ==> s'.source[f] == s.source[f])
    ensures Converging(s')
  {
    hide LastOf, Disturb;
    assert Pending(s') == Pending(s) + [c];
    forall f ensures FileOk(s', f) {
      assert FileOk(s, f);
      LastOfConcat(Pending(s), [c], f);
      LastOfOne(c, f);
    }
    forall i | 0 <= i < |s'.running| ensures StaleOk(s', i) {
      assert StaleOk(s, i);
      AnnouncedStale(s, s', c, i);
    }
  }

  lemma AnnouncedStale(s: State, s': State, c: Change, i: nat)
    requires i < |s.running| && StaleOk(s, i) && !c.All?
    requires s'.running == Disturb(s.running, c.name) && s'.waiting == s.waiting + [c]
    ensures StaleOk(s', i)
  {
    hide LastOf, Disturb;
    var rest := Changes(s.running[i + 1..]) + s.waiting;
    assert Changes(s'.running[i + 1..]) + s'.waiting == rest + [c];
    forall f | f in s'.running[i].stale ensures LastOf(rest + [c], f).Some? {
      LastOfConcat(rest, [c], f);
      LastOfOne(c, f);
    }
  }

  /** A FULL is asked for: whatever it stands before decides, and where nothing does it is the last. */
  lemma SyncKeeps(s: State, at: nat)
    requires Converging(s) && at <= |s.waiting|
    ensures Converging(Next(s, Sync(at)))
  {
    hide LastOf, Same;
    var s' := Next(s, Sync(at));
    var a, b := s.waiting[..at], s.waiting[at..];
    assert s.waiting == a + b;
    forall f ensures FileOk(s', f) {
      assert FileOk(s, f);
      Inserted(Changes(s.running), a, b, f);
    }
    forall i | 0 <= i < |s'.running| ensures StaleOk(s', i) {
      assert StaleOk(s, i);
      forall f | f in s'.running[i].stale ensures LastOf(Changes(s'.running[i + 1..]) + s'.waiting, f).Some? {
        Inserted(Changes(s.running[i + 1..]), a, b, f);
      }
    }
  }

  lemma Inserted(before: seq<Change>, a: seq<Change>, b: seq<Change>, f: string)
    ensures LastOf(before + (a + [All] + b), f) == if LastOf(b, f).Some? then LastOf(b, f) else Some(All)
    ensures LastOf(b, f).Some? ==> LastOf(before + (a + b), f) == LastOf(b, f)
  {
    hide LastOf;
    assert before + (a + [All] + b) == (before + a) + ([All] + b);
    assert before + (a + b) == (before + a) + b;
    LastOfConcat(before + a, [All] + b, f);
    LastOfConcat([All], b, f);
    LastOfOne(All, f);
    LastOfConcat(before + a, b, f);
  }

  lemma StartKeeps(s: State)
    requires Converging(s) && s.waiting != []
    ensures Converging(Next(s, Start))
  {
    hide LastOf, Same;
    var s' := Next(s, Start);
    assert Pending(s') == Pending(s);
    forall f ensures FileOk(s', f) { assert FileOk(s, f); }
    forall i | 0 <= i < |s'.running| ensures StaleOk(s', i) {
      if i < |s.running| {
        assert StaleOk(s, i);
        assert Changes(s'.running[i + 1..]) + s'.waiting == Changes(s.running[i + 1..]) + s.waiting;
      }
    }
  }

  /** Taking out a task leaves the last one of each of its files, if another is behind it, and of every
      other file. */
  lemma LastOfWithout(s: State, i: nat, f: string)
    requires i < |s.running|
    requires forall j :: 0 <= j < i ==> !Overlap(s.running[j].change, s.running[i].change)
    ensures var s' := s.(running := s.running[..i] + s.running[i + 1..]);
            var behind := Changes(s.running[i + 1..]) + s.waiting;
            LastOf(Pending(s'), f) == if About(s.running[i].change, f) then LastOf(behind, f) else LastOf(Pending(s), f)
    ensures About(s.running[i].change, f) ==>
              LastOf(Pending(s), f) == var behind := Changes(s.running[i + 1..]) + s.waiting;
                if LastOf(behind, f).Some? then LastOf(behind, f) else Some(s.running[i].change)
  {
    hide LastOf;
    var before, c, behind := Changes(s.running[..i]), s.running[i].change, Changes(s.running[i + 1..]) + s.waiting;
    var s' := s.(running := s.running[..i] + s.running[i + 1..]);
    assert Pending(s') == before + behind;
    assert Pending(s) == before + ([c] + behind);
    LastOfConcat(before, behind, f);
    LastOfConcat(before, [c] + behind, f);
    LastOfConcat([c], behind, f);
    LastOfOne(c, f);
    if About(c, f) {
      LastOfNone(before, f);
    }
  }

  lemma FinishKeeps(s: State, i: nat, o: Outcome)
    requires Converging(s) && Enabled(s, Finish(i, o))
    ensures Converging(Next(s, Finish(i, o)))
  {
    hide LastOf, Pending, Did;
    var s' := Next(s, Finish(i, o));
    forall f ensures FileOk(s', f) {
      assert FileOk(s, f) && StaleOk(s, i);
      LastOfWithout(s, i, f);
      assert Pending(s') == Pending(s.(running := s'.running)) by { PendingOnly(s', s.(running := s'.running)); }
      WorkerResult(s, s.running[i], o, f);
    }
    forall k | 0 <= k < |s'.running| ensures StaleOk(s', k) {
      FinishStale(s, i, o, k);
    }
  }

  lemma PendingOnly(s: State, w: State)
    requires s.running == w.running && s.waiting == w.waiting
    ensures Pending(s) == Pending(w)
  {
  }

  lemma FinishStale(s: State, i: nat, o: Outcome, k: nat)
    requires Converging(s) && Enabled(s, Finish(i, o)) && k < |s.running| - 1
    ensures StaleOk(Next(s, Finish(i, o)), k)
  {
    hide LastOf, Did, FileOk;
    var s' := Next(s, Finish(i, o));
    if k >= i {
      assert StaleOk(s, k + 1);
      assert s'.running[k + 1..] == s.running[k + 2..];
    } else {
      assert StaleOk(s, k);
      forall f | f in s'.running[k].stale ensures LastOf(Changes(s'.running[k + 1..]) + s'.waiting, f).Some? {
        LastBehind(s, i, k, f);
      }
    }
  }

  /** Another file's worker goes: what stands behind worker k of this file is still there. */
  lemma LastBehind(s: State, i: nat, k: nat, g: string)
    requires k < i < |s.running| && !About(s.running[i].change, g)
    ensures var rest := s.running[..i] + s.running[i + 1..];
            LastOf(Changes(rest[k + 1..]) + s.waiting, g) == LastOf(Changes(s.running[k + 1..]) + s.waiting, g)
  {
    hide LastOf;
    var rest, c := s.running[..i] + s.running[i + 1..], s.running[i].change;
    var mid, behind := Changes(s.running[k + 1..i]), Changes(s.running[i + 1..]) + s.waiting;
    assert Changes(s.running[k + 1..]) + s.waiting == mid + ([c] + behind);
    assert rest[k + 1..] == s.running[k + 1..i] + s.running[i + 1..];
    assert Changes(rest[k + 1..]) + s.waiting == mid + behind;
    LastOfConcat(mid, [c] + behind, g);
    LastOfConcat([c], behind, g);
    LastOfConcat(mid, behind, g);
    LastOfOne(c, g);
  }

  lemma StepKeeps(s: State, e: Event)
    requires Converging(s) && Enabled(s, e)
    ensures Converging(Next(s, e))
  {
    hide Converging, Did;
    match e
    case Create(f) => AnnouncedKeeps(s, Next(s, e), Added(f));
    case Write(f, _) => AnnouncedKeeps(s, Next(s, e), Modified(f));
    case Remove(f) => AnnouncedKeeps(s, Next(s, e), Deleted(f));
    case Sync(at) => SyncKeeps(s, at);
    case Start => StartKeeps(s);
    case Finish(i, o) => FinishKeeps(s, i, o);
  }

  lemma {:induction false} RunKeeps(s: State, es: seq<Event>)
    requires Converging(s) && Allowed(s, es)
    ensures Converging(Run(s, es))
    decreases |es|
  {
    hide Converging, Did;
    if es != [] {
      StepKeeps(s, es[0]);
      RunKeeps(Next(s, es[0]), es[1..]);
    }
  }

  /** Equal directories, or any two whose FULL is waiting: how every pair begins. */
  predicate Begins(s: State) {
    s.running == [] && ((s.waiting == [] && s.target == s.source) || s.waiting == [All])
  }

  lemma BeginsConverging(s: State)
    requires Begins(s)
    ensures Converging(s)
  {
    forall f ensures FileOk(s, f) {
      assert Pending(s) == s.waiting;
      LastOfOne(All, f);
    }
  }

  /** From equal directories, or from any two and their first FULL, whatever changes, however many
      workers run at a time and whenever another FULL is asked for: in every reachable state a file with
      no task queued or running is mirrored, and if the last task of a file is not a FULL it is a
      deletion exactly when the file is gone. */
  lemma MirrorConverges(s: State, es: seq<Event>, f: string)
    requires Begins(s) && Allowed(s, es)
    ensures FileOk(Run(s, es), f)
  {
    BeginsConverging(s);
    RunKeeps(s, es);
  }

  /** So when nothing is queued or running the directories are equal. */
  lemma QuiescentIsEqual(s: State)
    requires Converging(s) && s.running == [] && s.waiting == []
    ensures s.target == s.source
  {
    assert Pending(s) == [];
    forall f ensures Same(s.source, s.target, f) {
      assert FileOk(s, f);
    }
    assert s.target.Keys == s.source.Keys by {
      forall f ensures f in s.target <==> f in s.source { assert Same(s.source, s.target, f); }
    }
    forall f | f in s.source ensures s.target[f] == s.source[f] { assert Same(s.source, s.target, f); }
  }

  /** What a worker can do when nothing fails that could work and nothing changes under it. */
  lemma CanFinish(s: State, c: Copying) returns (o: Outcome)
    ensures Did(s, c, o)
  {
    if c.change.All? {
      o := Outcome(s.source, s.source, Tally(|s.source|, |s.target|, 0, []));
      FullDone(s.source, s.target);
    } else {
      var f := c.change.name;
      var missing := Tally(0, 0, 1, [FileFailure(f, "No such file or directory")]);
      OneMissing(f);
      if c.change.Deleted? {
        o := if f in s.target then Outcome(s.source, s.target - {f}, Tally(0, 1, 0, []))
             else Outcome(s.source, s.target, missing);
      } else {
        o := if f in s.source then Outcome(s.source, s.target[f := s.source[f]], Tally(1, 0, 0, []))
             else Outcome(s.source, s.target[f := []], missing);
      }
    }
  }

  lemma FullDone(source: map<string, Bytes>, before: map<string, Bytes>)
    ensures FullResult(source, before, source, NO_FAULTS, Tally(|source|, |before|, 0, []))
  {
    NoFailures();
    var none := before - (before.Keys - {});
    assert none == map[];
    var fs: seq<Failure> := [];
    assert fs[..0] == [] && fs[0..] == [];
  }

  lemma OneMissing(f: string)
    ensures FailuresAre([FileFailure(f, "No such file or directory")], {f})
  {
    NoFailures();
    assert OneLine("No such file or directory");
    OneMoreFailure([], {}, FileFailure(f, "No such file or directory"));
    assert [] + [FileFailure(f, "No such file or directory")] == [FileFailure(f, "No such file or directory")] && {} + {f} == {f};
  }

  /** And if the source is left alone, the tasks there are can always be finished, and then it is so. */
  lemma {:induction false} Drains(s: State) returns (es: seq<Event>)
    requires Converging(s)
    ensures Allowed(s, es) && var r := Run(s, es); r.running == [] && r.waiting == [] && r.source == s.source && r.target == s.source
    decreases 2 * |s.waiting| + |s.running|
  {
    hide Converging, Did;
    if s.running != [] {
      var o := CanFinish(s, s.running[0]);
      var e := Finish(0, o);
      StepKeeps(s, e);
      var rest := Drains(Next(s, e));
      es := [e] + rest;
      assert es[1..] == rest;
    } else if s.waiting != [] {
      StepKeeps(s, Start);
      var rest := Drains(Next(s, Start));
      es := [Start] + rest;
      assert es[1..] == rest;
    } else {
      QuiescentIsEqual(s);
      es := [];
    }
  }

  lemma OneFirst(s: State, e: Event, es: seq<Event>)
    requires Enabled(s, e) && Allowed(Next(s, e), es)
    ensures Allowed(s, [e] + es) && Run(s, [e] + es) == Run(Next(s, e), es)
  {
    assert ([e] + es)[1..] == es;
  }

  // ----- the order matters -----

  const CREATED: map<string, Bytes> := map["f" := []]
  const NOTHING: State := State(map[], map[], [], [])
  const RACING: State := State(map[], map[], [Copying(Added("f"), {"f"}), Copying(Deleted("f"), {})], [])
  const MISSING: Outcome := Outcome(map[], map[], Tally(0, 0, 1, [FileFailure("f", "No such file or directory")]))

  /** A file is created and removed again before its two workers finish. */
  lemma RacingReached() returns (es: seq<Event>)
    ensures Allowed(NOTHING, es) && Run(NOTHING, es) == RACING
  {
    hide Allowed, Run;
    var s1 := State(CREATED, map[], [], [Added("f")]);
    var s2 := State(CREATED, map[], [Copying(Added("f"), {})], []);
    var s3 := State(map[], map[], [Copying(Added("f"), {"f"})], [Deleted("f")]);
    assert Next(NOTHING, Create("f")) == s1;
    assert Next(s1, Start) == s2;
    Removed(s2, s3);
    assert Next(s3, Start) == RACING;
    NoEvents(RACING);
    OneFirst(s3, Start, []);
    OneFirst(s2, Remove("f"), [Start] + []);
    OneFirst(s1, Start, [Remove("f")] + ([Start] + []));
    OneFirst(NOTHING, Create("f"), [Start] + ([Remove("f")] + ([Start] + [])));
    es := [Create("f")] + ([Start] + ([Remove("f")] + ([Start] + [])));
  }

  lemma Removed(s: State, s': State)
    requires s == State(CREATED, map[], [Copying(Added("f"), {})], [])
    requires s' == State(map[], map[], [Copying(Added("f"), {"f"})], [Deleted("f")])
    ensures Next(s, Remove("f")) == s'
  {
    var now: map<string, Bytes> := CREATED - {"f"};
    assert now == map[];
    var none: set<string> := {};
    assert none + {"f"} == {"f"};
    assert DisturbOne(s.running[0], "f") == s'.running[0];
    assert Disturb(s.running, "f") == s'.running;
  }

  lemma NoEvents(s: State)
    ensures Allowed(s, []) && Run(s, []) == s
  {
  }

  /** The worker for the removal finishes first and finds nothing to delete; the one for the creation,
      which no longer finds the file in the source, leaves an empty one. Both do what their contracts
      say, nothing is queued or running any more, and the directories are different. */
  lemma OutOfOrder() returns (es: seq<Event>)
    ensures Begins(NOTHING) && Allowed(NOTHING, es) && Run(NOTHING, es) == RACING
    ensures Did(RACING, RACING.running[1], MISSING)
    ensures var s := Next(RACING, Finish(1, MISSING));
            && s.running == [RACING.running[0]] && Did(s, s.running[0], MISSING.(after := CREATED))
            && var s' := Next(s, Finish(0, MISSING.(after := CREATED)));
            && s'.running == [] && s'.waiting == [] && s'.target != s'.source
  {
    es := RacingReached();
    var s := Next(RACING, Finish(1, MISSING));
    assert s.running == [RACING.running[0]];
    assert "f" in CREATED && "f" !in s.source;
    OneMissing("f");
    assert s.target == map[] && CREATED == s.target["f" := []];
  }
}
