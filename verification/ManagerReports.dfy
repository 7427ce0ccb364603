/** From a worker's counters to the manager's store: what is consumed when a report is complete is
    what the worker meant. */
module ManagerReports {
  import opened CStrings
  import opened Strtok
  import opened WorkerReport
  import opened ReportParser
  import opened RoundTrip
  import opened Marker
  import opened WorkerProcess
  import opened StoreModel
  import opened TaskCode
  import opened WorkerPool
  import opened ManagerModel

  /** A task whose names the report can carry. */
  ghost predicate SaneTask(t: Task) {
    SaneName(t.source) && SaneName(t.target) && IsWord(t.filename) && NulFree(t.filename) && t.action in OPERATIONS
  }

  /** A live worker: sane arguments, a sane outcome, and a report of which a part that is not
      complete has been read. */
  ghost predicate SaneRunning(r: Running) {
    && SaneTask(r.task) && SaneTally(r.tally)
    && r.received <= Printed(r.Report()) && !Found(r.received, MARKER)
  }

  lemma OperationsAreTokens(action: string)
    requires action in OPERATIONS
    ensures IsToken(action, VALUE_DELIMS) && |action| < 15
  {
  }

  lemma SaneNameIsWord(s: string)
    requires SaneName(s)
    ensures IsWord(s)
  {
  }

  lemma LineOfFileFailure(name: string, message: string)
    requires SaneLine(name) && SaneLine(message)
    ensures SaneLine("- File " + name + ": " + message) && "- File " + name + ": " + message != MARKER
  {
    hide Occurs;
    var rest := name + [':'] + (" " + message);
    assert "- File " + name + ": " + message == "- File" + [' '] + rest;
    ShortClean("");
    ShortClean("- File");
    NoOccurrenceAcross(MARKER, "", ' ', message);
    assert "" + [' '] + message == " " + message;
    NoOccurrenceAcross(MARKER, name, ':', " " + message);
    NoOccurrenceAcross(MARKER, "- File", ' ', rest);
    assert ("- File" + [' '] + rest)[0] == '-' && MARKER[0] == 'E';
    LineFree(name, message);
  }

  lemma LineFree(name: string, message: string)
    requires Free(name, LINE_DELIMS) && Free(message, LINE_DELIMS)
    ensures Free("- File " + name + ": " + message, LINE_DELIMS)
  {
    assert Free("- File ", LINE_DELIMS) && Free(": ", LINE_DELIMS);
  }

  lemma SaneFailureLine(f: Failure)
    requires SaneFailure(f)
    ensures SaneLine(Render(f)) && Render(f) != MARKER
  {
    match f
    case FileFailure(name, message) => LineOfFileFailure(name, message);
    case OpenFailure(message) =>
      assert OccursAt(MARKER, MARKER, 0) by { assert MARKER[0..15] == MARKER; }
  }

  /** A sane task with a sane outcome prints a report the parser and the scanner handle. */
  lemma ReportIsSane(t: Task, tally: Tally)
    requires SaneTask(t) && SaneTally(tally)
    ensures var r := ReportOf(t.source, t.target, t.action, tally);
            GoodFields(r) && GoodErrors(r.errors) && Clean(r) && |r.errors| == FailedOperations(tally)
  {
    hide Occurs;
    var r := ReportOf(t.source, t.target, t.action, tally);
    OperationsAreTokens(t.action);
    ShortClean(t.action);
    forall k | 0 <= k < |r.errors|
      ensures IsToken(r.errors[k], LINE_DELIMS) && r.errors[k] != MARKER && !Occurs(MARKER, r.errors[k])
    {
      SaneFailureLine(tally.failures[k]);
    }
  }

  /** The worker's own postconditions give a sane tally, when names and messages are sane. */
  lemma FullTallyIsSane(source: map<string, Bytes>, before: map<string, Bytes>, after: map<string, Bytes>, f: Faults, t: Tally)
    requires FullResult(source, before, after, f, t)
    requires forall name :: name in source || name in before ==> SaneLine(name)
    requires forall k :: 0 <= k < |t.failures| ==> !Occurs(MARKER, t.failures[k].message)
    ensures SaneTally(t)
  {
    FullErrorLines(source, before, after, f, t);
    FullNames(source, before, after, f, t);
  }

  lemma FullNames(source: map<string, Bytes>, before: map<string, Bytes>, after: map<string, Bytes>, f: Faults, t: Tally)
    requires FullResult(source, before, after, f, t)
    ensures forall k :: 0 <= k < |t.failures| ==>
              OneLine(t.failures[k].message) && (t.failures[k].FileFailure? ==> t.failures[k].name in source || t.failures[k].name in before)
  {
    if !f.opening {
      var d := |f.deletes|;
      forall k | 0 <= k < |t.failures|
        ensures OneLine(t.failures[k].message) && (t.failures[k].name in source || t.failures[k].name in before)
      {
        if k < d {
          assert t.failures[k] == t.failures[..d][k];
        } else {
          assert t.failures[k] == t.failures[d..][k - d];
        }
      }
    }
  }

  lemma FileTallyIsSane(source: map<string, Bytes>, before: map<string, Bytes>, after: map<string, Bytes>, name: string,
                        operation: string, fault: bool, t: Tally)
    requires FileResult(source, before, after, name, operation, fault, t) && SaneLine(name)
    requires forall k :: 0 <= k < |t.failures| ==> !Occurs(MARKER, t.failures[k].message)
    ensures SaneTally(t)
  {
  }

  /** What a worker can end with by its contract, on directories whose names, and with messages that, a
      report can carry. */
  ghost predicate WorkedOn(source: map<string, Bytes>, before: map<string, Bytes>, after: map<string, Bytes>, faults: Faults,
                           name: string, operation: string, fault: bool, t: Tally) {
    && (forall k :: 0 <= k < |t.failures| ==> !Occurs(MARKER, t.failures[k].message))
    && if operation == "FULL" then
         && FullResult(source, before, after, faults, t)
         && forall file :: file in source || file in before ==> SaneLine(file)
       else
         FileResult(source, before, after, name, operation, fault, t) && SaneLine(name)
  }

  ghost predicate Worked(t: Tally) {
    exists source, before, after, faults, name, operation, fault :: WorkedOn(source, before, after, faults, name, operation, fault, t)
  }

  lemma WorkedIsSane(t: Tally)
    requires Worked(t)
    ensures SaneTally(t)
  {
    hide Occurs, FullResult, FileResult, SaneLine, SaneTally;
    var source, before, after, faults, name, operation, fault :| WorkedOn(source, before, after, faults, name, operation, fault, t);
    if operation == "FULL" {
      FullTallyIsSane(source, before, after, faults, t);
    } else {
      FileTallyIsSane(source, before, after, name, operation, fault, t);
    }
  }

  /** The chunk that completes a report: the store entry of the task's own source is updated with
      the status the worker meant and as many errors as it had failed operations. */
  lemma FinishIsMeant(s: State, i: nat, chunk: string, now: string)
    requires i < |s.running| && SaneRunning(s.running[i]) && s.running[i].task.source in s.store
    requires Received(s, i, chunk).received <= Printed(s.running[i].Report())
    requires Found(Received(s, i, chunk).received, MARKER)
    ensures var r := Received(s, i, chunk);
            Finish(s, i, r, now)
              == Completed(s, i, r, now, r.task.source, r.task.action, r.Report().Status(), FailedOperations(r.tally), LineOf(r))
  {
    hide Found, Parse, Printed, Completed, SaneTally, SaneTask, Clean, GoodFields, GoodErrors;
    var r := Received(s, i, chunk);
    ReportIsSane(r.task, r.tally);
    FiresExactly(r.Report(), r.received);
    ArrivedParses(r.Report(), r.received);
  }

  /** The line a finished worker gets in the log. */
  function LineOf(r: Running): LogLine {
    ReportedLine(Meant(r.Report()))
  }

  /** The entry of the task's source after its worker has finished. */
  function InfoOf(s: State, r: Running, now: string): DirInfo
    requires r.task.source in s.store
  {
    var failed := |RenderAll(r.tally.failures)|;
    InfoAfter(s, now, r.task.source, r.task.action, r.Report().Status(), failed)
  }

  /** What a chunk does to a sane state: only the slot's text grows, or the worker is done. */
  lemma ChunkCases(s: State, i: nat, chunk: string, now: string)
    requires i < |s.running| && SaneRunning(s.running[i]) && s.running[i].task.source in s.store
    requires Received(s, i, chunk).received <= Printed(s.running[i].Report())
    ensures var r := Received(s, i, chunk);
            && r.task == s.running[i].task && r.tally == s.running[i].tally
            && InfoOf(s, r, now).errors == s.store[r.task.source].errors + FailedOperations(r.tally)
            && OnChunk(s, i, chunk, now) ==
                 if Found(r.received, MARKER) then
                   s.(store := s.store[r.task.source := InfoOf(s, r, now)], running := SwapRemove(s.running, i),
                      finished := s.finished + [r], log := s.log + [LineOf(r)])
                 else s.(running := s.running[i := r])
  {
    hide Found, Printed, Finish, SaneTask;
    var r := Received(s, i, chunk);
    if Found(r.received, MARKER) {
      FinishIsMeant(s, i, chunk, now);
    }
  }
}
