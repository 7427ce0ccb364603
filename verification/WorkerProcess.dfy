/** The worker: FULL, ADDED, MODIFIED and DELETED on a source and a target directory whose every
    system call may fail. Directories are maps from names to contents; which calls fail, how much
    a read or a write transfers and in which order readdir lists names is left open. */
module WorkerProcess {
  import opened CStrings
  import opened Strtok
  import opened Decimal
  import opened WorkerReport
  import opened ReportParser

  newtype byte = x: int | 0 <= x < 256
  type Bytes = seq<byte>

  const MAX_BYTES_READ: nat := 1024

  class Directory {
    var files: map<string, Bytes>

    constructor (files: map<string, Bytes>)
      ensures this.files == files
    {
      this.files := files;
    }
  }

  // ----- system calls; each says whether it failed although it could have worked -----

  /** unlink. */
  method DeleteFile(dir: Directory, name: string) returns (code: int, ghost fault: bool)
    modifies dir
    ensures code == 0 || code == -1
    ensures code == 0 <==> !fault && name in old(dir.files)
    ensures dir.files == if code == 0 then old(dir.files) - {name} else old(dir.files)
  {
    var fails: bool := *;
    fault := fails;
    if fails || name !in dir.files { return -1, fault; }
    dir.files := dir.files - {name};
    return 0, fault;
  }

  /** open with O_RDONLY. */
  method OpenForReading(dir: Directory, name: string) returns (ok: bool, ghost fault: bool)
    ensures ok <==> !fault && name in dir.files
  {
    var fails: bool := *;
    fault := fails;
    ok := !fails && name in dir.files;
  }

  /** open with O_CREAT, O_WRONLY and O_TRUNC: on success the file is there and empty. */
  method OpenTruncated(dir: Directory, name: string) returns (ok: bool, ghost fault: bool)
    modifies dir
    ensures ok <==> !fault
    ensures ok ==> dir.files == old(dir.files)[name := []]
    ensures !ok ==> dir.files == old(dir.files)
  {
    ok := *;
    fault := !ok;
    if ok { dir.files := dir.files[name := []]; }
  }

  /** read: -1 for an error, 0 only at the end of the file, otherwise any positive amount. */
  method Read(content: Bytes, offset: nat) returns (n: int, ghost fault: bool)
    requires offset <= |content|
    ensures -1 <= n <= MAX_BYTES_READ && offset + n <= |content|
    ensures n == 0 ==> offset == |content|
    ensures fault <==> n == -1
  {
    n :| -1 <= n <= MAX_BYTES_READ && offset + n <= |content| && (n == 0 ==> offset == |content|);
    fault := n == -1;
  }

  /** write: -1 for an error, otherwise how many of the bytes were appended. */
  method Write(dir: Directory, name: string, bytes: Bytes) returns (w: int, ghost fault: bool)
    requires name in dir.files
    modifies dir
    ensures -1 <= w <= |bytes|
    ensures dir.files == old(dir.files)[name := old(dir.files[name]) + bytes[..if w < 0 then 0 else w]]
    ensures fault <==> w < |bytes|
  {
    w :| -1 <= w <= |bytes|;
    fault := w < |bytes|;
    dir.files := dir.files[name := dir.files[name] + bytes[..if w < 0 then 0 else w]];
  }

  // ----- one file -----

  /** What a failed copy can have left behind: nothing changed but this file, and it is as it was
      or holds the beginning of the source. */
  ghost predicate PartialCopy(before: map<string, Bytes>, after: map<string, Bytes>, source: map<string, Bytes>, name: string) {
    || after == before
    || (&& name in after && after == before[name := after[name]]
        && after[name] <= (if name in source then source[name] else []))
  }

  /** What a copy leaves: the file's contents when it is there and no call failed or was short, an empty
      file when it is not there. */
  ghost predicate CopyResult(source: map<string, Bytes>, before: map<string, Bytes>, after: map<string, Bytes>, name: string, fault: bool) {
    if fault then PartialCopy(before, after, source, name)
    else after == before[name := if name in source then source[name] else []]
  }

  /** synchronize_files: both files are opened, the target emptied, then chunks are copied until read
      returns 0. The target is opened, and so emptied, even when the source could not be. */
  method SynchronizeFiles(source: Directory, target: Directory, name: string) returns (code: int, ghost fault: bool)
    requires source != target
    modifies target
    ensures code == 0 || code == -1
    ensures code == 0 <==> !fault && name in source.files
    ensures CopyResult(source.files, old(target.files), target.files, name, fault)
  {
    var sourceOpen, sourceFault := OpenForReading(source, name);
    var targetOpen, targetFault := OpenTruncated(target, name);
    fault := sourceFault || targetFault;
    if !sourceOpen || !targetOpen { return -1, fault; }
    var content := source.files[name];
    var offset, n := 0, 1;
    while n > 0
      invariant offset <= |content| && -1 <= n
      invariant target.files == old(target.files)[name := content[..offset]]
      invariant n == 0 ==> offset == |content|
      invariant fault <==> n == -1
      decreases |content| - offset, n
    {
      n, fault := Read(content, offset);
      if n > 0 {
        var w;
        w, fault := Write(target, name, content[offset..offset + n]);
        if w < n {
          return -1, fault;
        }
        assert content[..offset] + content[offset..offset + n][..n] == content[..offset + n];
        offset := offset + n;
      }
    }
    if n < 0 { return -1, fault; }
    assert content[..offset] == content;
    return 0, fault;
  }

  /** ADDED as it is meant: the new file's contents are copied from the source, which is only read. */
  method AddFile(source: Directory, target: Directory, name: string) returns (code: int, ghost fault: bool)
    requires source != target
    modifies target
    ensures code == 0 || code == -1
    ensures code == 0 <==> !fault && name in source.files
    ensures CopyResult(source.files, old(target.files), target.files, name, fault)
  {
    code, fault := SynchronizeFiles(source, target, name);
  }

  /** ADDED as it is written: the path that is opened for writing, and emptied, is the source's. The
      source survives exactly when that open fails or the file was there and empty already, and
      what a successful copy leaves in the target is the empty file. */
  method AddFileAsWritten(source: Directory, target: Directory, name: string) returns (code: int, emptied: bool, ghost fault: bool)
    requires source != target
    modifies source, target
    ensures code == 0 || code == -1
    ensures code == 0 <==> !fault
    ensures source.files == old(source.files) <==>
              !emptied || (name in old(source.files) && old(source.files)[name] == [])
    ensures emptied ==> source.files == old(source.files)[name := []]
    ensures !emptied ==> code == -1 && target.files == old(target.files)
    ensures code == 0 ==> target.files == old(target.files)[name := []]
  {
    emptied, fault := OpenTruncated(source, name);
    if !emptied {
      code := -1;
    } else {
      code, fault := SynchronizeFiles(source, target, name);
      ghost var before, after := old(source.files), source.files;
      assert after[name] == [];
      if name in before && before[name] == [] {
        assert after == before;
      }
    }
  }

  // ----- a whole worker -----

  /** What an error line is about. */
  datatype Failure = FileFailure(name: string, message: string) | OpenFailure(message: string)

  /** The line the worker appends to its error buffer. */
  function Render(f: Failure): string {
    match f
    case FileFailure(name, message) => "- File " + name + ": " + message
    case OpenFailure(message) => message
  }

  /** Up to its first colon, an error line about a file names the file; behind it is the message. */
  lemma RenderSplits(name: string, message: string)
    requires Free(name, ":")
    ensures NextToken(Render(FileFailure(name, message)), ":") == Scan(Some("- File " + name), " " + message)
  {
    hide NextToken;
    assert Free("- File ", ":");
    NextTokenAt("", "- File " + name, ':', " " + message, ":");
    assert "" + ("- File " + name) + [':'] + (" " + message) == Render(FileFailure(name, message));
  }

  function RenderAll(fs: seq<Failure>): (lines: seq<string>)
    ensures |lines| == |fs|
    ensures forall k :: 0 <= k < |fs| ==> lines[k] == Render(fs[k])
  {
    seq(|fs|, k requires 0 <= k < |fs| => Render(fs[k]))
  }

  predicate IsDot(name: string) { name == "." || name == ".." }

  /** The name has an error line. */
  ghost predicate Failed(fs: seq<Failure>, name: string) {
    exists k :: 0 <= k < |fs| && fs[k].FileFailure? && fs[k].name == name
  }

  /** What readdir returns: every file once, in any order, and perhaps the dot entries. */
  ghost predicate Lists(entries: seq<string>, files: map<string, Bytes>) {
    && (forall i, j :: 0 <= i < j < |entries| ==> entries[i] != entries[j])
    && (forall name :: name in files ==> name in entries && name != "." && name != "..")
    && (forall name :: name in entries ==> name in files || name == "." || name == "..")
  }

  lemma FailedMore(fs: seq<Failure>, f: Failure)
    ensures forall name :: Failed(fs + [f], name) <==> Failed(fs, name) || (f.FileFailure? && f.name == name)
  {
    forall name
      ensures Failed(fs + [f], name) <==> Failed(fs, name) || (f.FileFailure? && f.name == name)
    {
      if Failed(fs, name) {
        var k :| 0 <= k < |fs| && fs[k].FileFailure? && fs[k].name == name;
        assert (fs + [f])[k] == fs[k];
      }
      if f.FileFailure? && f.name == name {
        assert (fs + [f])[|fs|] == f;
      }
    }
  }

  /** The name was among the first n entries. */
  ghost predicate Seen(entries: seq<string>, n: nat, name: string)
    requires n <= |entries|
  {
    exists i :: 0 <= i < n && entries[i] == name
  }

  lemma SeenNext(entries: seq<string>, n: nat)
    requires n < |entries|
    ensures forall name :: Seen(entries, n + 1, name) <==> Seen(entries, n, name) || name == entries[n]
  {
    forall name
      ensures Seen(entries, n + 1, name) <==> Seen(entries, n, name) || name == entries[n]
    {
      if name == entries[n] { assert Seen(entries, n + 1, name); }
    }
  }

  lemma SeenAll(entries: seq<string>)
    ensures forall name :: Seen(entries, |entries|, name) <==> name in entries
  {
  }

  /** What strerror can return: some text on one line. */
  predicate OneLine(message: string) { IsToken(message, LINE_DELIMS) }

  /** One failure for each of these names, with a text of strerror. */
  ghost predicate FailuresAre(fs: seq<Failure>, names: set<string>)
    ensures FailuresAre(fs, names) ==> |fs| == |names|
  {
    && |fs| == |names|
    && (forall k :: 0 <= k < |fs| ==> fs[k].FileFailure? && fs[k].name in names && OneLine(fs[k].message))
    && forall name :: name in names ==> Failed(fs, name)
  }

  /** The skip branch: the counter and the error buffer move together. */
  method Skip(name: string, skipped: nat, failures: seq<Failure>, strerror: int -> string) returns (s: nat, fs: seq<Failure>)
    requires forall errno :: OneLine(strerror(errno))
    ensures s == skipped + 1 && |fs| == |failures| + 1 && fs[..|failures|] == failures
    ensures fs[|failures|].FileFailure? && fs[|failures|].name == name && OneLine(fs[|failures|].message)
  {
    var errno: int := *;
    return skipped + 1, failures + [FileFailure(name, strerror(errno))];
  }

  lemma OneMoreFailure(fs: seq<Failure>, names: set<string>, f: Failure)
    requires FailuresAre(fs, names) && f.FileFailure? && f.name !in names && OneLine(f.message)
    ensures FailuresAre(fs + [f], names + {f.name})
  {
    FailedMore(fs, f);
  }

  lemma NoFailures()
    ensures FailuresAre([], {})
  {
  }

  /** What a loop over the entries has dealt with after n of them. */
  ghost predicate Done(entries: seq<string>, n: nat, done: set<string>)
    requires n <= |entries|
  {
    forall name :: name in done <==> Seen(entries, n, name) && !IsDot(name)
  }

  lemma DoneNext(entries: seq<string>, n: nat, done: set<string>)
    requires n < |entries| && Done(entries, n, done) && forall i, j :: 0 <= i < j < |entries| ==> entries[i] != entries[j]
    ensures entries[n] !in done
    ensures Done(entries, n + 1, if IsDot(entries[n]) then done else done + {entries[n]})
  {
    SeenNext(entries, n);
  }

  lemma DoneAll(entries: seq<string>, files: map<string, Bytes>, done: set<string>)
    requires Lists(entries, files) && Done(entries, |entries|, done)
    ensures done == files.Keys
  {
    assert IsDot(".") && IsDot("..");
    SeenAll(entries);
  }

  /** The first loop of FULL: every file of the target is deleted, but for those whose unlink failed. */
  method DeleteAll(target: Directory, entries: seq<string>, strerror: int -> string)
    returns (deleted: nat, skipped: nat, failures: seq<Failure>, ghost faults: set<string>)
    requires Lists(entries, target.files) && forall errno :: OneLine(strerror(errno))
    modifies target
    ensures faults <= old(target.files.Keys) && target.files == old(target.files) - (old(target.files.Keys) - faults)
    ensures deleted == |old(target.files)| - |faults|
    ensures skipped == |faults| && FailuresAre(failures, faults)
  {
    hide Failed, FailuresAre, Done, OneLine;
    ghost var was, done := target.files, {};
    deleted, skipped, failures, faults := 0, 0, [], {};
    NoFailures();
    NothingDone(entries);
    assert was - {} == was;
    for i := 0 to |entries|
      invariant Done(entries, i, done) && faults <= done <= was.Keys
      invariant deleted + |faults| == |done| && skipped == |faults| && FailuresAre(failures, faults)
      invariant target.files == was - (done - faults)
    {
      DoneNext(entries, i, done);
      if IsDot(entries[i]) { continue; }
      ghost var name := entries[i];
      ghost var fault;
      Left(was, done, faults, name);
      deleted, skipped, failures, fault := DeleteOne(target, entries[i], strerror, deleted, skipped, failures, faults);
      faults := if fault then faults + {name} else faults;
      done := done + {name};
    }
    DoneAll(entries, was, done);
  }

  /** One entry of that loop. */
  method DeleteOne(target: Directory, name: string, strerror: int -> string, deleted0: nat, skipped0: nat, failures0: seq<Failure>,
                   ghost faults: set<string>)
    returns (deleted: nat, skipped: nat, failures: seq<Failure>, ghost fault: bool)
    requires name in target.files && name !in faults && FailuresAre(failures0, faults) && forall errno :: OneLine(strerror(errno))
    modifies target
    ensures target.files == if fault then old(target.files) else old(target.files) - {name}
    ensures deleted == (if fault then deleted0 else deleted0 + 1) && skipped == (if fault then skipped0 + 1 else skipped0)
    ensures FailuresAre(failures, if fault then faults + {name} else faults)
  {
    hide FailuresAre, OneLine;
    deleted, skipped, failures := deleted0, skipped0, failures0;
    var code;
    code, fault := DeleteFile(target, name);
    if code < 0 {
      skipped, failures := Skip(name, skipped, failures, strerror);
      assert failures == failures0 + [failures[|failures0|]];
      OneMoreFailure(failures0, faults, failures[|failures0|]);
    } else {
      deleted := deleted + 1;
    }
  }

  /** What is left of the files when one more has been dealt with. */
  lemma Left(was: map<string, Bytes>, done: set<string>, faults: set<string>, name: string)
    requires faults <= done && name !in done && name in was
    ensures was - (done + {name} - (faults + {name})) == was - (done - faults)
    ensures was - (done + {name} - faults) == was - (done - faults) - {name}
    ensures name in was - (done - faults)
  {
    assert done + {name} - (faults + {name}) == done - faults;
  }

  lemma NothingDone(entries: seq<string>)
    ensures Done(entries, 0, {})
  {
  }

  /** The file is in the target exactly as it is in the source. */
  ghost predicate Same(source: map<string, Bytes>, target: map<string, Bytes>, name: string) {
    && (name in source <==> name in target)
    && (name in source ==> source[name] == target[name])
  }

  /** What the second loop leaves of one file: copied, or for a failed copy what that can leave, or as it
      was. */
  ghost predicate Copied(source: map<string, Bytes>, before: map<string, Bytes>, after: map<string, Bytes>, name: string, faults: set<string>) {
    if name !in source then Same(before, after, name)
    else if name !in faults then Same(source, after, name)
    else Same(before, after, name) || (name in after && after[name] <= source[name])
  }

  /** The second loop of FULL: every file of the source is copied, but for those with a call that
      failed. */
  method CopyAll(source: Directory, target: Directory, entries: seq<string>, strerror: int -> string,
                 skipped0: nat, failures0: seq<Failure>)
    returns (copied: nat, skipped: nat, failures: seq<Failure>, ghost faults: set<string>)
    requires source != target && Lists(entries, source.files)
    requires forall errno :: OneLine(strerror(errno))
    modifies target
    ensures faults <= source.files.Keys && copied == |source.files| - |faults| && skipped == skipped0 + |faults|
    ensures |failures| == |failures0| + |faults| && failures[..|failures0|] == failures0 && FailuresAre(failures[|failures0|..], faults)
    ensures forall name :: Copied(source.files, old(target.files), target.files, name, faults)
  {
    hide Failed, FailuresAre, Done, OneLine, Copied, CopyResult;
    ghost var was, done, more := target.files, {}, [];
    copied, skipped, failures, faults := 0, skipped0, failures0, {};
    NoFailures();
    NothingDone(entries);
    assert forall name :: Same(was, target.files, name);
    for i := 0 to |entries|
      invariant Done(entries, i, done) && faults <= done <= source.files.Keys
      invariant copied + |faults| == |done| && skipped == skipped0 + |faults|
      invariant failures == failures0 + more && FailuresAre(more, faults)
      invariant forall name :: if name in done then Copied(source.files, was, target.files, name, faults) else Same(was, target.files, name)
    {
      DoneNext(entries, i, done);
      if IsDot(entries[i]) { continue; }
      ghost var before, name := target.files, entries[i];
      ghost var fault;
      copied, skipped, failures, fault, more := CopyOne(source, target, entries[i], strerror, copied, skipped, failures, failures0, more, faults);
      OneCopied(source.files, was, before, target.files, name, done, faults, fault);
      faults := if fault then faults + {name} else faults;
      done := done + {name};
    }
    DoneAll(entries, source.files, done);
    forall name ensures Copied(source.files, was, target.files, name, faults) {
      NotCopied(source.files, was, target.files, name, faults);
    }
    assert failures[|failures0|..] == more;
  }

  /** One entry of that loop. */
  method CopyOne(source: Directory, target: Directory, name: string, strerror: int -> string, copied0: nat, skipped0: nat,
                 failures0: seq<Failure>, ghost errors: seq<Failure>, ghost more0: seq<Failure>, ghost faults: set<string>)
    returns (copied: nat, skipped: nat, failures: seq<Failure>, ghost fault: bool, ghost more: seq<Failure>)
    requires source != target && name in source.files && name !in faults && forall errno :: OneLine(strerror(errno))
    requires failures0 == errors + more0 && FailuresAre(more0, faults)
    modifies target
    ensures CopyResult(source.files, old(target.files), target.files, name, fault)
    ensures copied == (if fault then copied0 else copied0 + 1) && skipped == (if fault then skipped0 + 1 else skipped0)
    ensures failures == errors + more && FailuresAre(more, if fault then faults + {name} else faults)
  {
    hide FailuresAre, OneLine, CopyResult;
    copied, skipped, failures, more := copied0, skipped0, failures0, more0;
    var code;
    code, fault := SynchronizeFiles(source, target, name);
    if code < 0 {
      skipped, failures := Skip(name, skipped, failures, strerror);
      more := more0 + [failures[|failures0|]];
      assert failures == failures0 + [failures[|failures0|]];
      OneMoreFailure(more0, faults, failures[|failures0|]);
    } else {
      copied := copied + 1;
    }
  }

  lemma NotCopied(source: map<string, Bytes>, was: map<string, Bytes>, after: map<string, Bytes>, name: string, faults: set<string>)
    ensures name !in source && Same(was, after, name) ==> Copied(source, was, after, name, faults)
  {
  }

  /** A copy changes one file; what the others were, they still are. */
  lemma OneCopied(source: map<string, Bytes>, was: map<string, Bytes>, before: map<string, Bytes>, after: map<string, Bytes>,
                  name: string, done: set<string>, faults: set<string>, fault: bool)
    requires name in source && name !in done && faults <= done && CopyResult(source, before, after, name, fault)
    requires forall x :: if x in done then Copied(source, was, before, x, faults) else Same(was, before, x)
    ensures var faults' := if fault then faults + {name} else faults;
            forall x :: if x in done + {name} then Copied(source, was, after, x, faults') else Same(was, after, x)
  {
    var faults' := if fault then faults + {name} else faults;
    forall x ensures if x in done + {name} then Copied(source, was, after, x, faults') else Same(was, after, x) {
      assert if x in done then Copied(source, was, before, x, faults) else Same(was, before, x);
      if x != name {
        assert Same(before, after, x);
      }
    }
  }

  /** The counters and the error buffer when the work is over. */
  datatype Tally = Tally(copied: nat, deleted: nat, skipped: nat, failures: seq<Failure>)

  /** The calls of a FULL that failed: an opendir, the unlink of these files, a call of the copy of
      these. */
  datatype Faults = Faults(opening: bool, deletes: set<string>, copies: set<string>)

  const NO_FAULTS: Faults := Faults(false, {}, {})

  /** A FULL that could not open one of the directories. */
  predicate NotOpened(t: Tally) {
    t.copied == t.deleted == t.skipped == 0 && |t.failures| == 1 && t.failures[0].OpenFailure? && OneLine(t.failures[0].message)
  }

  /** What FULL leaves behind: nothing at all when a directory did not open; otherwise every file of the
      target and every file of the source but for those with a failed call is counted as deleted and as
      copied, each failed call has its error line, the deletions' before the copies', and every file is
      as in the source but for what a failed call has left. */
  ghost predicate FullResult(source: map<string, Bytes>, before: map<string, Bytes>, after: map<string, Bytes>, f: Faults, t: Tally) {
    if f.opening then NotOpened(t) && after == before
    else
      && f.deletes <= before.Keys && f.copies <= source.Keys
      && t.deleted == |before| - |f.deletes| && t.copied == |source| - |f.copies|
      && t.skipped == |t.failures| == |f.deletes| + |f.copies|
      && FailuresAre(t.failures[..|f.deletes|], f.deletes) && FailuresAre(t.failures[|f.deletes|..], f.copies)
      && forall name :: Copied(source, before - (before.Keys - f.deletes), after, name, f.copies)
  }

  /** FULL. */
  method FullSync(source: Directory, target: Directory, targetEntries: seq<string>, sourceEntries: seq<string>,
                  strerror: int -> string) returns (t: Tally, ghost faults: Faults)
    requires source != target && Lists(targetEntries, target.files) && Lists(sourceEntries, source.files)
    requires forall errno :: OneLine(strerror(errno))
    modifies target
    ensures FullResult(source.files, old(target.files), target.files, faults, t)
  {
    hide Failed, FailuresAre, Copied, Lists;
    var sourceOpen, sourceFault := OpenDirectory();
    var targetOpen, targetFault := OpenDirectory();
    if !sourceOpen || !targetOpen {
      var errno: int := *;
      return Tally(0, 0, 0, [OpenFailure(strerror(errno))]), Faults(sourceFault || targetFault, {}, {});
    }
    var deleted, skipped, failures, deletes := DeleteAll(target, targetEntries, strerror);
    var copied;
    ghost var copies;
    copied, skipped, failures, copies := CopyAll(source, target, sourceEntries, strerror, skipped, failures);
    t, faults := Tally(copied, deleted, skipped, failures), Faults(sourceFault || targetFault, deletes, copies);
  }

  /** opendir. */
  method OpenDirectory() returns (ok: bool, ghost fault: bool)
    ensures ok <==> !fault
  {
    ok := *;
    fault := !ok;
  }

  /** What one file's ADDED, MODIFIED or DELETED leaves behind: it works exactly when the file is there
      and no call fails. */
  ghost predicate FileResult(source: map<string, Bytes>, before: map<string, Bytes>, after: map<string, Bytes>,
                             name: string, operation: string, fault: bool, t: Tally) {
    var works := !fault && name in (if operation == "DELETED" then before else source);
    && (if operation == "DELETED" then after == (if works then before - {name} else before) else CopyResult(source, before, after, name, fault))
    && t.deleted == (if works && operation == "DELETED" then 1 else 0)
    && t.copied == (if works && operation != "DELETED" then 1 else 0)
    && t.skipped == |t.failures| == (if works then 0 else 1)
    && FailuresAre(t.failures, if works then {} else {name})
  }

  const OPERATIONS: set<string> := {"FULL", "ADDED", "MODIFIED", "DELETED"}

  /** ADDED, MODIFIED and DELETED. */
  method FileSync(source: Directory, target: Directory, name: string, operation: string, strerror: int -> string)
    returns (t: Tally, ghost fault: bool)
    requires source != target && operation in OPERATIONS && operation != "FULL"
    requires forall errno :: OneLine(strerror(errno))
    modifies target
    ensures FileResult(source.files, old(target.files), target.files, name, operation, fault, t)
  {
    hide CopyResult;
    var code;
    if operation == "ADDED" {
      code, fault := AddFile(source, target, name);
    } else if operation == "MODIFIED" {
      code, fault := SynchronizeFiles(source, target, name);
    } else {
      code, fault := DeleteFile(target, name);
    }
    NoFailures();
    if code == -1 {
      var skipped, failures := Skip(name, 0, [], strerror);
      assert failures == [] + [failures[0]] && {} + {name} == {name};
      OneMoreFailure([], {}, failures[0]);
      t := Tally(0, 0, skipped, failures);
    } else if operation == "DELETED" {
      t := Tally(0, 1, 0, []);
    } else {
      t := Tally(1, 0, 0, []);
    }
  }

  function ReportOf(sourceDir: string, targetDir: string, operation: string, t: Tally): Report {
    Report(sourceDir, targetDir, operation, t.copied, t.deleted, t.skipped, RenderAll(t.failures))
  }

  /** A worker from its arguments to its report; any other operation ends it without one. */
  method Work(sourceDir: string, targetDir: string, filename: string, operation: string,
              source: Directory, target: Directory, targetEntries: seq<string>, sourceEntries: seq<string>,
              strerror: int -> string)
    returns (r: Option<Report>, t: Tally, ghost faults: Faults, ghost fault: bool)
    requires source != target && Lists(targetEntries, target.files) && Lists(sourceEntries, source.files)
    requires forall errno :: OneLine(strerror(errno))
    modifies target
    ensures r == if operation in OPERATIONS then Some(ReportOf(sourceDir, targetDir, operation, t)) else None
    ensures operation == "FULL" ==> FullResult(source.files, old(target.files), target.files, faults, t)
    ensures operation in OPERATIONS && operation != "FULL" ==>
              FileResult(source.files, old(target.files), target.files, filename, operation, fault, t)
    ensures operation !in OPERATIONS ==> target.files == old(target.files)
  {
    hide FullResult, FileResult;
    t, faults, fault := Tally(0, 0, 0, []), NO_FAULTS, false;
    if operation == "FULL" {
      t, faults := FullSync(source, target, targetEntries, sourceEntries, strerror);
    } else if operation in OPERATIONS {
      t, fault := FileSync(source, target, filename, operation, strerror);
    } else {
      return None, t, faults, fault;
    }
    r := Some(ReportOf(sourceDir, targetDir, operation, t));
  }

  // ----- what the report says of the directories -----

  lemma EqualFiles(source: map<string, Bytes>, after: map<string, Bytes>)
    requires forall name :: Same(source, after, name)
    ensures after == source
  {
    assert after.Keys == source.Keys by {
      forall name ensures name in after <==> name in source { assert Same(source, after, name); }
    }
    forall name | name in source ensures after[name] == source[name] { assert Same(source, after, name); }
  }

  /** A FULL without a failed call has no error line, has deleted everything there was and copied
      everything there is, and has made the directories equal; and only such a one has no error line. */
  lemma FaultlessFull(source: map<string, Bytes>, before: map<string, Bytes>, after: map<string, Bytes>, f: Faults, t: Tally)
    requires FullResult(source, before, after, f, t)
    ensures t.failures == [] <==> f == NO_FAULTS
    ensures f == NO_FAULTS ==> t == Tally(|source|, |before|, 0, []) && after == source
  {
    if f == NO_FAULTS {
      var none := before - (before.Keys - {});
      assert none == map[];
      forall name ensures Same(source, after, name) {
        assert Copied(source, none, after, name, {});
      }
      EqualFiles(source, after);
    } else if !f.opening {
      assert f.deletes != {} || f.copies != {};
    }
  }

  /** Every name without an error line is in the target exactly as in the source. */
  lemma MirroredUnlessFailed(source: map<string, Bytes>, before: map<string, Bytes>, after: map<string, Bytes>, f: Faults, t: Tally, name: string)
    requires FullResult(source, before, after, f, t) && !f.opening
    ensures Same(source, after, name) || Failed(t.failures, name)
  {
    assert Copied(source, before - (before.Keys - f.deletes), after, name, f.copies);
    var d := |f.deletes|;
    if name in f.deletes {
      var k :| 0 <= k < |t.failures[..d]| && t.failures[..d][k].FileFailure? && t.failures[..d][k].name == name;
      assert t.failures[k] == t.failures[..d][k];
    }
    if name in f.copies {
      var k :| 0 <= k < |t.failures[d..]| && t.failures[d..][k].FileFailure? && t.failures[d..][k].name == name;
      assert t.failures[d + k] == t.failures[d..][k];
    }
  }

  lemma AllOf(a: set<string>, b: set<string>)
    requires a <= b
    ensures |a| <= |b| && (|a| == |b| <==> a == b)
  {
    assert b == a + (b - a);
    assert |b| == |a| + |b - a|;
  }

  /** What the status word of a FULL means: SUCCESS, no call failed; ERROR, a directory did not open, or
      there were files and a call failed for each of them in each directory; PARTIAL, some calls failed
      and some file was deleted or copied. */
  lemma FullStatus(sourceDir: string, targetDir: string, source: map<string, Bytes>, before: map<string, Bytes>,
                   after: map<string, Bytes>, f: Faults, t: Tally)
    requires FullResult(source, before, after, f, t)
    ensures var word := ReportOf(sourceDir, targetDir, "FULL", t).Status();
            && (word == "SUCCESS" <==> f == NO_FAULTS)
            && (word == "ERROR" <==> f.opening || (f != NO_FAULTS && f.deletes == before.Keys && f.copies == source.Keys))
            && (word == "PARTIAL" <==> !f.opening && f != NO_FAULTS && (f.deletes != before.Keys || f.copies != source.Keys))
  {
    FaultlessFull(source, before, after, f, t);
    if !f.opening {
      AllOf(f.deletes, before.Keys);
      AllOf(f.copies, source.Keys);
      assert |before| == |before.Keys| && |source| == |source.Keys|;
    }
  }

  /** And of one file's operation: SUCCESS, the file was there and no call failed; ERROR otherwise. */
  lemma FileStatus(sourceDir: string, targetDir: string, source: map<string, Bytes>, before: map<string, Bytes>,
                   after: map<string, Bytes>, name: string, operation: string, fault: bool, t: Tally)
    requires FileResult(source, before, after, name, operation, fault, t)
    ensures ReportOf(sourceDir, targetDir, operation, t).Status() ==
              if !fault && name in (if operation == "DELETED" then before else source) then "SUCCESS" else "ERROR"
  {
  }

  /** A FULL that reports SUCCESS has made the directories equal. */
  lemma SuccessMeansEqual(sourceDir: string, targetDir: string, source: map<string, Bytes>, before: map<string, Bytes>,
                          after: map<string, Bytes>, f: Faults, t: Tally)
    requires FullResult(source, before, after, f, t)
    requires ReportOf(sourceDir, targetDir, "FULL", t).Status() == "SUCCESS"
    ensures after == source
  {
    FullStatus(sourceDir, targetDir, source, before, after, f, t);
    FaultlessFull(source, before, after, f, t);
  }

  /** The whole text of a FULL without a failed call: SUCCESS, and how many files there are in the source
      and were in the target. */
  lemma FaultlessReport(sourceDir: string, targetDir: string, source: map<string, Bytes>, before: map<string, Bytes>,
                        after: map<string, Bytes>, t: Tally)
    requires FullResult(source, before, after, NO_FAULTS, t)
    ensures Printed(ReportOf(sourceDir, targetDir, "FULL", t))
         == "EXEC_REPORT_START\nSOURCE DIR: " + sourceDir + "\nTARGET DIR: " + targetDir + "\nOPERATION: FULL\nSTATUS: SUCCESS\nDETAILS: "
            + (if source == map[] then "" else Numeral(|source|) + " files copied,")
            + (if before == map[] then "" else Numeral(|before|) + " files deleted,") + "\nEXEC_REPORT_END\n"
  {
    hide Numeral;
    FaultlessFull(source, before, after, NO_FAULTS, t);
    var r := ReportOf(sourceDir, targetDir, "FULL", t);
    assert r.errors == [];
    var words := Count(|source|, COPIED) + Count(|before|, DELETED);
    FaultlessHeader(sourceDir, targetDir, r);
    assert Printed(r) == Header(r) + words + END by { JoinNothing(Header(r), Count(|source|, COPIED), Count(|before|, DELETED)); }
    assert Header(r) + words == Header(r) + Count(|source|, COPIED) + Count(|before|, DELETED);
    assert |source| == 0 <==> source == map[];
    assert |before| == 0 <==> before == map[];
  }

  lemma JoinNothing(header: string, a: string, b: string)
    ensures header + a + b + "" + "" + END == header + (a + b) + END
  {
  }

  lemma FaultlessHeader(sourceDir: string, targetDir: string, r: Report)
    requires r.source == sourceDir && r.target == targetDir && r.operation == "FULL" && r.errors == []
    ensures Header(r) ==
            "EXEC_REPORT_START\nSOURCE DIR: " + sourceDir + "\nTARGET DIR: " + targetDir + "\nOPERATION: FULL\nSTATUS: SUCCESS\nDETAILS: "
  {
    assert START + SOURCE == "EXEC_REPORT_START\nSOURCE DIR: ";
    assert OPERATION + "FULL" + STATUS + ("SUCCESS" + "\n") + DETAILS == "\nOPERATION: FULL\nSTATUS: SUCCESS\nDETAILS: ";
    var front := START + SOURCE + sourceDir + TARGET + targetDir;
    assert Header(r) == front + (OPERATION + "FULL" + STATUS + ("SUCCESS" + "\n") + DETAILS);
  }

  /** How many error lines there are: one for every file operation that failed, and one for a
      directory that did not open. */
  ghost function FailedOperations(t: Tally): nat {
    t.skipped + (if NotOpened(t) then 1 else 0)
  }

  lemma FullErrorLines(source: map<string, Bytes>, before: map<string, Bytes>, after: map<string, Bytes>, f: Faults, t: Tally)
    requires FullResult(source, before, after, f, t)
    ensures |RenderAll(t.failures)| == FailedOperations(t) == if f.opening then 1 else |f.deletes| + |f.copies|
  {
    if NotOpened(t) {
      assert |t.failures| == 1;
    }
  }
}
