/** The manager as a state machine: the startup loop over the config pairs and the command loop
    after it, over one pool, one overflow queue, one directory store and one watch map. What poll
    returns, which worker writes how much, what the console sends and what inotify reports are
    events; an iteration of either loop is some Chunk events followed by at most one other. */
module ManagerModel {
  import opened CStrings
  import opened WorkerReport
  import opened ReportParser
  import opened RoundTrip
  import opened Marker
  import opened WorkerProcess
  import opened StoreModel
  import opened TaskCode
  import opened WorkerPool

  datatype Phase = Startup | Serving | Stopped | Crashed

  /** Whether the command loop dispatches the task it pops. In the source the dispatch code stands
      inside the branch that was not taken, so it does not. */
  datatype Mode = Repaired | AsWritten

  /** A worker that has not finished: its arguments, what it will have done, and what has been read
      of its report. */
  datatype Running = Running(task: Task, tally: Tally, received: string)
  {
    function Report(): Report {
      ReportOf(task.source, task.target, task.action, tally)
    }
  }

  /** The lines of the log, without timestamps and pids. */
  datatype LogLine =
    | MonitoringStarted(source: string)
    | MonitoringStopped(source: string)
    | Reported(source: string, target: string, operation: string, status: string, details: string)
    | Syncing(source: string, target: string)

  /** What printf makes of a null pointer. */
  function Shown(field: Option<string>): string {
    if field.None? then "(null)" else field.value
  }

  function ReportedLine(f: Fields): LogLine {
    Reported(Shown(f.source), Shown(f.target), Shown(f.operation), Shown(f.status), Shown(f.details))
  }

  datatype State = State(
    mode: Mode,
    phase: Phase,
    limit: nat,
    words: seq<string>,            // the words of the config file not read yet
    eof: bool,                     // feof(config_input)
    running: seq<Running>,         // the live slots
    queue: seq<string>,            // the overflow queue, encoded
    store: map<string, DirInfo>,   // sync_info_mem_store: what a find returns
    shadowed: seq<DirInfo>,        // its other entries, under keys it has more than once
    watches: map<int, string>,     // the watch map
    issued: set<int>,              // the descriptors inotify has handed out
    log: seq<LogLine>,
    shutdown: bool,
    accepted: seq<Task>,           // every task taken on so far
    started: seq<Task>,            // every task a worker was started for
    queued: seq<Task>,             // every task the command loop pushed
    lost: seq<Task>,               // every task popped and not started
    finished: seq<Running>)        // every worker whose report was consumed

  datatype Kind = Create | Modify | Delete | OtherKind

  datatype Event =
    | Chunk(slot: nat, chunk: string, now: string)
    | ReadPair(hitEof: bool, tally: Tally, wd: int)
    | ReadTail
    | StartupPop(tally: Tally, wd: int)
    | LeaveStartup
    | Pop(tally: Tally)
    | Notify(wd: int, name: string, kind: Kind, tally: Tally)
    | AddCommand(source: string, target: string, wd: int, tally: Tally)
    | SyncCommand(source: string, wd: int, tally: Tally)
    | CancelCommand(source: string, wd: int)
    | OtherCommand
    | ShutdownCommand
    | Exit
    | Reshuffle(k: nat)

  predicate SlotFree(s: State) { |s.running| < s.limit }

  // ----- what the branches do -----

  function Launch(s: State, t: Task, tally: Tally): (s': State)
    ensures s'.limit == s.limit && s'.mode == s.mode && s'.phase == s.phase
  {
    s.(running := s.running + [Running(t, tally, "")], started := s.started + [t])
  }

  /** inotify_add_watch returned wd; hash_table_insert keeps an existing binding. */
  function Watch(s: State, wd: int, source: string): (s': State)
    ensures s'.limit == s.limit && s'.mode == s.mode && s'.phase == s.phase
  {
    s.(watches := if wd in s.watches then s.watches else s.watches[wd := source],
       issued := if wd >= 0 then s.issued + {wd} else s.issued)
  }

  /** The startup loop's dispatch: watch, log, store, start. A source that the config file names again
      gets a second entry. */
  function StartupDispatch(s: State, t: Task, tally: Tally, wd: int): (s': State)
    ensures s'.limit == s.limit && s'.mode == s.mode && s'.phase == s.phase
  {
    Launch(Enter(Watch(s, wd, t.source).(log := s.log + [MonitoringStarted(t.source)]),
                 DirInfo(t.source, t.target, "", "", 0, true, true)), t, tally)
  }

  /** sync_info_mem_store_add; the entry under the same key, if there is one, is shadowed. */
  function Enter(s: State, info: DirInfo): (s': State)
    ensures s'.limit == s.limit && s'.mode == s.mode && s'.phase == s.phase
  {
    s.(store := s.store[info.source := info],
       shadowed := if info.source in s.store then s.shadowed + [s.store[info.source]] else s.shadowed)
  }

  /** Which of the entries under one key a find returns depends on where they are in their chain, and a
      rehash moves them. */
  function OnReshuffle(s: State, k: nat): (s': State)
    requires k < |s.shadowed| && s.shadowed[k].source in s.store
    ensures s'.limit == s.limit && s'.mode == s.mode && s'.phase == s.phase
  {
    var info := s.shadowed[k];
    s.(store := s.store[info.source := info], shadowed := s.shadowed[k := s.store[info.source]])
  }

  /** The end of an iteration of the command loop with workers_flag set: a free slot takes the task,
      otherwise it is pushed. */
  function Submit(s: State, t: Task, tally: Tally): (s': State)
    ensures s'.limit == s.limit && s'.mode == s.mode && s'.phase == s.phase
  {
    var taken := s.(accepted := s.accepted + [t]);
    if SlotFree(s) then Launch(taken, t, tally)
    else taken.(queue := s.queue + [Encode(t)], queued := s.queued + [t])
  }

  /** A report is complete: it is parsed, the store is updated and the slot is given up. A missing
      field or an unknown directory ends the manager. */
  function Finish(s: State, i: nat, r: Running, now: string): (s': State)
    requires i < |s.running|
    ensures s'.limit == s.limit && s'.mode == s.mode && s'.phase in {s.phase, Crashed}
  {
    match Parse(r.received, NO_FIELDS)
    case NullDereference => s.(phase := Crashed)
    case Parsed(f) =>
      if f.source.None? || f.status.None? || f.operation.None? || f.source.value !in s.store then s.(phase := Crashed)
      else Completed(s, i, r, now, f.source.value, f.operation.value, f.status.value, f.errors, ReportedLine(f))
  }

  function Completed(s: State, i: nat, r: Running, now: string, source: string, operation: string, status: string, errors: nat,
                     line: LogLine): (s': State)
    requires i < |s.running| && source in s.store
    ensures s'.limit == s.limit && s'.mode == s.mode && s'.phase == s.phase
  {
    s.(store := s.store[source := InfoAfter(s, now, source, operation, status, errors)],
       running := SwapRemove(s.running, i), finished := s.finished + [r], log := s.log + [line])
  }

  /** The entry after a finished worker: in the startup loop every worker, later only a FULL one,
      clears is_in_workers. */
  function InfoAfter(s: State, now: string, source: string, operation: string, status: string, errors: nat): (info: DirInfo)
    requires source in s.store
    ensures info.isActive == s.store[source].isActive && info.target == s.store[source].target
    ensures info.errors == s.store[source].errors + errors && info.source == s.store[source].source
  {
    var info := s.store[source];
    info.(errors := info.errors + errors, lastSync := now, status := status,
          isInWorkers := if s.phase == Startup || operation == "FULL" then false else info.isInWorkers)
  }

  function Received(s: State, i: nat, chunk: string): Running
    requires i < |s.running|
  {
    s.running[i].(received := s.running[i].received + chunk)
  }

  function OnChunk(s: State, i: nat, chunk: string, now: string): (s': State)
    requires i < |s.running|
    ensures s'.limit == s.limit && s'.mode == s.mode && s'.phase in {s.phase, Crashed}
  {
    var r := Received(s, i, chunk);
    if Found(r.received, MARKER) then Finish(s, i, r, now) else s.(running := s.running[i := r])
  }

  /** The configuration pair is joined, and cut apart again if a worker can take it. */
  function OnReadPair(s: State, hitEof: bool, tally: Tally, wd: int): (s': State)
    requires |s.words| >= 2
    ensures s'.limit == s.limit && s'.mode == s.mode && s'.phase in {s.phase, Crashed}
  {
    var buffer := EncodePair(s.words[0], s.words[1]);
    var t := DecodePair(buffer);
    if t.None? then s.(phase := Crashed)
    else
      var next := s.(words := s.words[2..], eof := s.eof || hitEof, accepted := s.accepted + [t.value]);
      if SlotFree(s) then StartupDispatch(next, t.value, tally, wd) else next.(queue := s.queue + [buffer])
  }

  function OnStartupPop(s: State, tally: Tally, wd: int): (s': State)
    requires s.queue != []
    ensures s'.limit == s.limit && s'.mode == s.mode && s'.phase in {s.phase, Crashed}
  {
    var t := DecodePair(s.queue[0]);
    if t.None? then s.(phase := Crashed) else StartupDispatch(s.(queue := s.queue[1..]), t.value, tally, wd)
  }

  function OnPop(s: State, tally: Tally): (s': State)
    requires s.queue != []
    ensures s'.limit == s.limit && s'.mode == s.mode && s'.phase in {s.phase, Crashed}
  {
    var t := Decode(s.queue[0]);
    if t.None? then s.(phase := Crashed)
    else if s.mode == Repaired then Launch(s.(queue := s.queue[1..]), t.value, tally)
    else s.(queue := s.queue[1..], lost := s.lost + [t.value])
  }

  function ActionOf(kind: Kind): string {
    match kind
    case Create => "ADDED"
    case Modify => "MODIFIED"
    case Delete => "DELETED"
    case OtherKind => ""
  }

  /** An inotify record: the error exit for an unknown descriptor, the assert on the store entry. */
  function OnNotify(s: State, wd: int, name: string, kind: Kind, tally: Tally): (s': State)
    ensures s'.limit == s.limit && s'.mode == s.mode && s'.phase in {s.phase, Crashed}
  {
    if wd !in s.watches then s.(phase := Crashed)
    else
      var source := s.watches[wd];
      if source !in s.store then s.(phase := Crashed)
      else if kind == OtherKind then s
      else Submit(s, Task(source, s.store[source].target, name, ActionOf(kind)), tally)
  }

  function OnAdd(s: State, source: string, target: string, wd: int, tally: Tally): (s': State)
    ensures s'.limit == s.limit && s'.mode == s.mode && s'.phase in {s.phase, Crashed}
  {
    if source in s.store && s.store[source].isActive then s
    else
      var info := if source in s.store then s.store[source].(isActive := true, target := target)
                  else DirInfo(source, target, "", "", 0, true, false);
      Submit(Watch(s, wd, source).(store := s.store[source := info], log := s.log + [MonitoringStarted(source)]),
             Task(source, target, "all", "FULL"), tally)
  }

  function OnSync(s: State, source: string, wd: int, tally: Tally): (s': State)
    ensures s'.limit == s.limit && s'.mode == s.mode && s'.phase in {s.phase, Crashed}
  {
    if source !in s.store || s.store[source].isInWorkers || !s.store[source].isActive then s
    else
      var target := s.store[source].target;
      Submit(Watch(s, wd, source).(log := s.log + [Syncing(source, target)]), Task(source, target, "all", "FULL"), tally)
  }

  /** wd is what hash_table_find_key returned; a bound source without a store entry would be a null
      pointer. */
  function OnCancel(s: State, source: string, wd: int): (s': State)
    ensures s'.limit == s.limit && s'.mode == s.mode && s'.phase in {s.phase, Crashed}
  {
    if wd == -1 then s
    else if source !in s.store then s.(phase := Crashed)
    else if !s.store[source].isActive then s
    else s.(store := s.store[source := s.store[source].(isActive := false)], log := s.log + [MonitoringStopped(source)])
  }

  /** What reading a pair comes to, once it cuts apart as it was read. */
  lemma ReadPairIs(s: State, hitEof: bool, wd: int, tally: Tally)
    requires |s.words| >= 2
    requires DecodePair(EncodePair(s.words[0], s.words[1])) == Some(Task(s.words[0], s.words[1], "ALL", "FULL"))
    ensures OnReadPair(s, hitEof, tally, wd) ==
              if SlotFree(s) then StartupDispatch(PairRead(s, hitEof), Task(s.words[0], s.words[1], "ALL", "FULL"), tally, wd)
              else PairRead(s, hitEof).(queue := s.queue + [EncodePair(s.words[0], s.words[1])])
  {
    hide DecodePair, EncodePair, StartupDispatch;
  }

  ghost function PairRead(s: State, hitEof: bool): State
    requires |s.words| >= 2
  {
    s.(words := s.words[2..], eof := s.eof || hitEof, accepted := s.accepted + [Task(s.words[0], s.words[1], "ALL", "FULL")])
  }

  // ----- when they can happen -----

  /** The startup loop goes on. */
  predicate StartupGoesOn(s: State) {
    !s.eof || s.running != [] || s.queue != []
  }

  /** A free slot and a queued task: both loops serve that before anything new. */
  predicate CanPop(s: State) {
    SlotFree(s) && s.queue != []
  }

  predicate Enabled(s: State, e: Event) {
    match e
    case Chunk(i, chunk, _) =>
      && (s.phase == Startup || s.phase == Serving) && i < |s.running| && chunk != ""
      && Received(s, i, chunk).received <= Printed(s.running[i].Report())
    case ReadPair(hitEof, _, _) => s.phase == Startup && !CanPop(s) && |s.words| >= 2 && (hitEof ==> |s.words| == 2)
    case ReadTail => s.phase == Startup && !CanPop(s) && |s.words| < 2
    case StartupPop(_, _) => s.phase == Startup && CanPop(s)
    case LeaveStartup => s.phase == Startup && !StartupGoesOn(s)
    case Pop(_) => s.phase == Serving && CanPop(s)
    case Notify(_, _, _, _) => s.phase == Serving && !CanPop(s)
    case AddCommand(_, _, _, _) => s.phase == Serving && !CanPop(s)
    case SyncCommand(_, _, _) => s.phase == Serving && !CanPop(s)
    case CancelCommand(source, wd) => s.phase == Serving && !CanPop(s) && FindsKey(s.watches, source, wd)
    case OtherCommand => s.phase == Serving && !CanPop(s)
    case ShutdownCommand => s.phase == Serving && !CanPop(s)
    case Exit => s.phase == Serving && s.shutdown && s.queue == [] && s.running == []
    case Reshuffle(k) => (s.phase == Startup || s.phase == Serving) && k < |s.shadowed| && s.shadowed[k].source in s.store
  }

  /** What hash_table_find_key can return. */
  predicate FindsKey(watches: map<int, string>, source: string, wd: int) {
    (wd in watches && watches[wd] == source) || (wd == -1 && forall k :: k in watches ==> watches[k] != source)
  }

  function Next(s: State, e: Event): (s': State)
    requires Enabled(s, e)
    ensures s'.limit == s.limit && s'.mode == s.mode
    ensures s.phase != Startup ==> s'.phase != Startup
  {
    match e
    case Chunk(i, chunk, now) => OnChunk(s, i, chunk, now)
    case ReadPair(hitEof, tally, wd) => OnReadPair(s, hitEof, tally, wd)
    case ReadTail => s.(words := [], eof := true)
    case StartupPop(tally, wd) => OnStartupPop(s, tally, wd)
    case LeaveStartup => s.(phase := Serving, running := [])
    case Pop(tally) => OnPop(s, tally)
    case Notify(wd, name, kind, tally) => OnNotify(s, wd, name, kind, tally)
    case AddCommand(source, target, wd, tally) => OnAdd(s, source, target, wd, tally)
    case SyncCommand(source, wd, tally) => OnSync(s, source, wd, tally)
    case CancelCommand(source, wd) => OnCancel(s, source, wd)
    case OtherCommand => s
    case ShutdownCommand => s.(shutdown := true)
    case Exit => s.(phase := Stopped)
    case Reshuffle(k) => OnReshuffle(s, k)
  }

  predicate Allowed(s: State, es: seq<Event>)
    decreases |es|
  {
    es == [] || (Enabled(s, es[0]) && Allowed(Next(s, es[0]), es[1..]))
  }

  /** The state a run ends in. */
  function Run(s: State, es: seq<Event>): (s': State)
    requires Allowed(s, es)
    ensures s'.limit == s.limit && s'.mode == s.mode
    decreases |es|
  {
    if es == [] then s else Run(Next(s, es[0]), es[1..])
  }

  function Initial(mode: Mode, limit: nat, words: seq<string>): State {
    State(mode, Startup, limit, words, false, [], [], map[], [], map[], {}, [], false, [], [], [], [], [])
  }

  // ----- what is assumed of names and messages -----

  /** A directory name the report can carry: no space, colon or newline, and not the end marker. As
      a C string it has no NUL. */
  ghost predicate SaneName(s: string) {
    IsToken(s, VALUE_DELIMS) && !Occurs(MARKER, s) && NulFree(s)
  }

  ghost predicate SaneLine(s: string) {
    IsToken(s, LINE_DELIMS) && !Occurs(MARKER, s)
  }

  ghost predicate SaneFailure(f: Failure) {
    SaneLine(f.message) && (f.FileFailure? ==> SaneLine(f.name))
  }

  /** A tally a worker can end with: one error line for every failed operation, each on one line. */
  ghost predicate SaneTally(t: Tally) {
    && |t.failures| == FailedOperations(t)
    && forall k :: 0 <= k < |t.failures| ==> SaneFailure(t.failures[k])
  }

  /** A file name the queue can carry. */
  ghost predicate SaneEvent(e: Event) {
    match e
    case ReadPair(_, tally, _) => SaneTally(tally)
    case StartupPop(tally, _) => SaneTally(tally)
    case Pop(tally) => SaneTally(tally)
    case Notify(_, name, _, tally) => SaneTally(tally) && IsWord(name) && NulFree(name)
    case AddCommand(source, target, _, tally) => SaneTally(tally) && SaneName(source) && SaneName(target)
    case SyncCommand(source, _, tally) => SaneTally(tally)
    case _ => true
  }

  ghost predicate SaneEvents(es: seq<Event>) {
    forall k :: 0 <= k < |es| ==> SaneEvent(es[k])
  }
}
