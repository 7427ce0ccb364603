/** The manager's worker pool: three parallel arrays of pids, descriptors and report buffers, a
    count of the live slots, and the pass that reads from every ready worker and takes the finished
    ones out by swapping them with the last. */
module WorkerPool {
  import opened CStrings
  import opened Strtok
  import opened WorkerReport
  import opened ReportParser
  import opened Marker

  const BUFFER_SIZE: nat := 1024

  /** A live worker: its process, the descriptor of its pipe, and what has been read from it. */
  datatype Worker = Worker(pid: int, fd: int, received: string)

  /** No element is there twice. */
  predicate AllApart<B(==)>(s: seq<B>) {
    forall i, j :: 0 <= i < j < |s| ==> s[i] != s[j]
  }

  function SwapRemove<T>(s: seq<T>, i: nat): (r: seq<T>)
    requires i < |s|
    ensures |r| == |s| - 1
  {
    s[i := s[|s| - 1]][..|s| - 1]
  }

  /** What the scanning loop does from slot i on, given what poll found readable: the workers left
      in their slots, and those that finished, in order. A worker swapped into slot i is not looked
      at again. */
  function Pass(ws: seq<Worker>, i: nat, ready: map<int, string>): (r: (seq<Worker>, seq<Worker>))
    ensures |r.0| + |r.1| == |ws|
    decreases |ws| - i
  {
    if i >= |ws| then (ws, [])
    else if ws[i].fd !in ready then Pass(ws, i + 1, ready)
    else
      var w := ws[i].(received := ws[i].received + ready[ws[i].fd]);
      if Found(w.received, MARKER) then
        var r := Pass(SwapRemove(ws, i), i + 1, ready);
        (r.0, [w] + r.1)
      else Pass(ws[i := w], i + 1, ready)
  }

  function Fds(ws: seq<Worker>): seq<int> {
    seq(|ws|, i requires 0 <= i < |ws| => ws[i].fd)
  }

  ghost predicate DistinctFds(ws: seq<Worker>) {
    forall i, j :: 0 <= i < j < |ws| ==> ws[i].fd != ws[j].fd
  }

  method NewBuffer() returns (buffer: array<char>)
    ensures fresh(buffer) && Text(buffer, "")
  {
    buffer := new char[BUFFER_SIZE];
    buffer[0] := NUL;
    CStringIs(buffer[..], 0, "");
  }

  /** strcat of a chunk onto a C string. */
  method StrCat(buffer: array<char>, chunk: string)
    requires Terminated(buffer[..], 0) && NulFree(chunk)
    requires |CString(buffer[..], 0)| + |chunk| < buffer.Length
    modifies buffer
    ensures Terminated(buffer[..], 0) && CString(buffer[..], 0) == old(CString(buffer[..], 0)) + chunk
  {
    var end := End(buffer[..], 0);
    ghost var text := CString(buffer[..], 0);
    for k := 0 to |chunk|
      invariant forall j :: 0 <= j < end ==> buffer[j] == text[j]
      invariant forall j :: 0 <= j < k ==> buffer[end + j] == chunk[j]
    {
      buffer[end + k] := chunk[k];
    }
    buffer[end + |chunk|] := NUL;
    assert NulFree(text + chunk);
    assert buffer[0..|text + chunk|] == text + chunk;
    CStringIs(buffer[..], 0, text + chunk);
  }

  /** Every live slot holds the pid and the descriptor of its own worker. */
  ghost predicate Slots(pids: seq<int>, fds: seq<int>, ws: seq<Worker>) {
    && |ws| <= |pids| && |ws| <= |fds|
    && forall i :: 0 <= i < |ws| ==> pids[i] == ws[i].pid && fds[i] == ws[i].fd
  }

  /** Every live slot's buffer reads as what its worker has sent, and every other one as nothing. */
  ghost predicate Texts(buffers: seq<array<char>>, ws: seq<Worker>)
    reads buffers
  {
    forall i :: 0 <= i < |buffers| ==> Text(buffers[i], if i < |ws| then ws[i].received else "")
  }

  ghost predicate Text(buffer: array<char>, text: string)
    reads buffer
  {
    buffer.Length == BUFFER_SIZE && Terminated(buffer[..], 0) && CString(buffer[..], 0) == text
  }

  lemma SwapBuffers(buffers: seq<array<char>>, ws: seq<Worker>, i: nat)
    requires i < |ws| <= |buffers| && ws[i].received == "" && AllApart(buffers) && Texts(buffers, ws)
    ensures var last := |ws| - 1;
            var now := buffers[i := buffers[last]][last := buffers[i]];
            AllApart(now) && Texts(now, SwapRemove(ws, i))
  {
    hide Text;
  }

  lemma SwapSlots(pids: seq<int>, fds: seq<int>, ws: seq<Worker>, i: nat)
    requires i < |ws| && Slots(pids, fds, ws)
    ensures var last := |ws| - 1;
            Slots(pids[i := pids[last]][last := pids[i]], fds[i := fds[last]][last := fds[i]], SwapRemove(ws, i))
  {
  }

  method Exchange<T>(a: array<T>, i: nat, j: nat)
    requires i < a.Length && j < a.Length
    modifies a
    ensures a[..] == old(a[..])[i := old(a[j])][j := old(a[i])]
  {
    a[i], a[j] := a[j], a[i];
  }

  class Pool {
    const pids: array<int>
    const fds: array<int>
    const buffers: array<array<char>>
    var count: nat
    ghost var workers: seq<Worker>
    ghost var Repr: set<object>

    ghost predicate Valid()
      reads this, Repr
      ensures Valid() ==> this in Repr && count == |workers| <= pids.Length == fds.Length == buffers.Length
    {
      && this in Repr && pids in Repr && fds in Repr && buffers in Repr && pids != fds
      && count == |workers| <= pids.Length == fds.Length == buffers.Length
      && DistinctFds(workers) && Slots(pids[..], fds[..], workers)
      && (forall i :: 0 <= i < buffers.Length ==> buffers[i] in Repr)
      && AllApart(buffers[..]) && Texts(buffers[..], workers)
    }

    constructor (limit: nat)
      ensures Valid() && workers == [] && buffers.Length == limit && fresh(Repr)
    {
      pids := new int[limit];
      fds := new int[limit];
      var none := new char[0];
      buffers := new array<char>[limit](_ => none);
      count := 0;
      workers := [];
      new;
      Repr := {this, pids, fds, buffers};
      hide DistinctFds, Text, Slots;
      for i := 0 to limit
        invariant count == 0 && workers == [] && {this, pids, fds, buffers} <= Repr && fresh(Repr)
        invariant forall k :: 0 <= k < i ==> buffers[k] in Repr && Text(buffers[k], "")
        invariant forall k, j :: 0 <= k < j < i ==> buffers[k] != buffers[j]
      {
        var buffer := NewBuffer();
        buffers[i] := buffer;
        Repr := Repr + {buffer};
      }
      NoWorkers(pids[..], fds[..]);
    }

    /** A new worker takes the first free slot and starts with an empty buffer. */
    method Dispatch(pid: int, fd: int)
      requires Valid() && count < buffers.Length
      requires forall i :: 0 <= i < |workers| ==> workers[i].fd != fd
      modifies Repr
      ensures Valid() && Repr == old(Repr) && workers == old(workers) + [Worker(pid, fd, "")]
    {
      hide Text;
      assert Texts(buffers[..], workers + [Worker(pid, fd, "")]);
      pids[count] := pid;
      fds[count] := fd;
      workers := workers + [Worker(pid, fd, "")];
      count := count + 1;
    }

    /** One read: the chunk is appended to the buffer of its own slot. */
    method Receive(i: nat, chunk: string)
      requires Valid() && i < count && NulFree(chunk) && |workers[i].received| + |chunk| < BUFFER_SIZE
      modifies this`workers, buffers[i]
      ensures Valid() && Repr == old(Repr) && count == old(count)
      ensures workers == old(workers)[i := old(workers)[i].(received := old(workers)[i].received + chunk)]
    {
      hide DistinctFds;
      StrCat(buffers[i], chunk);
      FdsOnly(workers, workers[i := workers[i].(received := workers[i].received + chunk)]);
      workers := workers[i := workers[i].(received := workers[i].received + chunk)];
    }

    /** A complete report is parsed in its own buffer, the fields are read through the pointers the
        parser returned, and the buffer is emptied. */
    method TakeReport(i: nat) returns (outcome: Outcome)
      requires Valid() && i < count
      modifies this`workers, buffers[i]
      ensures Valid() && Repr == old(Repr) && count == old(count)
      ensures workers == old(workers)[i := old(workers)[i].(received := "")]
      ensures outcome == Parse(old(workers)[i].received, NO_FIELDS)
    {
      hide DistinctFds, Parse, ReadsAll;
      outcome := ParseInBuffer(buffers[i]);
      workers := workers[i := workers[i].(received := "")];
      FdsOnly(old(workers), workers);
    }

    /** The pid, the descriptor and the buffer of slot i change places with those of the last live
        slot, which is then free. */
    method SwapOut(i: nat)
      requires Valid() && i < count && workers[i].received == ""
      modifies this`workers, this`count, pids, fds, buffers
      ensures Valid() && Repr == old(Repr) && workers == SwapRemove(old(workers), i)
    {
      hide DistinctFds, Text, Texts, AllApart, Slots;
      SwapRemoveDistinct(workers, i);
      SwapSlots(pids[..], fds[..], workers, i);
      SwapBuffers(buffers[..], workers, i);
      Exchange(pids, i, count - 1);
      Exchange(fds, i, count - 1);
      Exchange(buffers, i, count - 1);
      workers := SwapRemove(workers, i);
      count := count - 1;
    }

    /** The scanning loop: every live slot whose descriptor poll reported is read once, and a worker
        whose report is complete goes: its report is taken and it is swapped out. */
    method ReadReady(ready: map<int, string>) returns (reports: seq<(int, Outcome)>)
      requires Valid() && forall k :: 0 <= k < |workers| ==> Fits(workers[k], ready)
      modifies Repr
      ensures Valid() && Repr == old(Repr)
      ensures workers == Pass(old(workers), 0, ready).0
      ensures reports == Reports(Pass(old(workers), 0, ready).1)
    {
      hide Valid, Pass, Reports, Fits, Found;
      reports := [];
      ghost var done, all := [], Pass(workers, 0, ready);
      var i := 0;
      NoReports();
      while i < count
        invariant Valid() && Repr == old(Repr)
        invariant all.0 == Pass(workers, i, ready).0 && all.1 == done + Pass(workers, i, ready).1
        invariant reports == Reports(done)
        invariant forall k :: i <= k < |workers| ==> Fits(workers[k], ready)
        decreases count - i
      {
        ghost var ws := workers;
        PassStep(ws, i, ready);
        assert Fits(ws[i], ready);
        var finished, report := ReadSlot(i, ready);
        if finished {
          ReportsMore(done, ws[i].(received := ws[i].received + ready[ws[i].fd]));
          done := done + [ws[i].(received := ws[i].received + ready[ws[i].fd])];
          reports := reports + [report];
        }
        i := i + 1;
      }
      PassEnd(workers, i, ready);
      assert all.1 == done;
    }

    /** One turn of that loop. */
    method ReadSlot(i: nat, ready: map<int, string>) returns (finished: bool, report: (int, Outcome))
      requires Valid() && i < count && Fits(workers[i], ready)
      modifies Repr
      ensures Valid() && Repr == old(Repr)
      ensures finished <==> Finishes(old(workers)[i], ready)
      ensures workers == AfterSlot(old(workers), i, ready)
      ensures finished ==> var w := old(workers)[i];
                report == (w.pid, Parse(w.received + ready[w.fd], NO_FIELDS))
    {
      hide DistinctFds, AllApart, Texts, Found, Parse;
      finished, report := false, (0, NullDereference);
      SlotIs(i);
      if fds[i] in ready {
        Receive(i, ready[fds[i]]);
        SlotIs(i);
        finished := IsSubstring(CString(buffers[i][..], 0), MARKER);
        if finished {
          var pid := pids[i];
          var outcome := TakeReport(i);
          report := (pid, outcome);
          SwapOut(i);
        }
      }
    }

    lemma SlotIs(i: nat)
      requires Valid() && i < count
      ensures pids[i] == workers[i].pid && fds[i] == workers[i].fd && buffers[i] in Repr
      ensures Terminated(buffers[i][..], 0) && CString(buffers[i][..], 0) == workers[i].received
    {
      assert Text(buffers[i], workers[i].received);
    }
  }

  /** There is room for what a read will append, and it is text. */
  ghost predicate Fits(w: Worker, ready: map<int, string>) {
    w.fd in ready ==> NulFree(ready[w.fd]) && |w.received| + |ready[w.fd]| < BUFFER_SIZE
  }

  predicate Finishes(w: Worker, ready: map<int, string>) {
    w.fd in ready && Found(w.received + ready[w.fd], MARKER)
  }

  function AfterSlot(ws: seq<Worker>, i: nat, ready: map<int, string>): seq<Worker>
    requires i < |ws|
  {
    if ws[i].fd !in ready then ws
    else if Finishes(ws[i], ready) then SwapRemove(ws, i)
    else ws[i := ws[i].(received := ws[i].received + ready[ws[i].fd])]
  }

  lemma PassStep(ws: seq<Worker>, i: nat, ready: map<int, string>)
    requires i < |ws|
    ensures Pass(ws, i, ready).0 == Pass(AfterSlot(ws, i, ready), i + 1, ready).0
    ensures Pass(ws, i, ready).1 ==
            (if Finishes(ws[i], ready) then [ws[i].(received := ws[i].received + ready[ws[i].fd])] else [])
            + Pass(AfterSlot(ws, i, ready), i + 1, ready).1
    ensures forall k :: i + 1 <= k < |AfterSlot(ws, i, ready)| ==> AfterSlot(ws, i, ready)[k] == ws[k]
  {
  }

  lemma PassEnd(ws: seq<Worker>, i: nat, ready: map<int, string>)
    requires i >= |ws|
    ensures Pass(ws, i, ready) == (ws, [])
  {
  }

  /** What the manager learns from the finished workers. */
  function Reports(done: seq<Worker>): seq<(int, Outcome)> {
    seq(|done|, k requires 0 <= k < |done| => (done[k].pid, Parse(done[k].received, NO_FIELDS)))
  }

  lemma NoReports()
    ensures Reports([]) == []
  {
  }

  lemma ReportsMore(done: seq<Worker>, w: Worker)
    ensures Reports(done + [w]) == Reports(done) + [(w.pid, Parse(w.received, NO_FIELDS))]
  {
    hide Parse;
  }

  method ParseInBuffer(buffer: array<char>) returns (outcome: Outcome)
    requires Terminated(buffer[..], 0) && buffer.Length == BUFFER_SIZE
    modifies buffer
    ensures outcome == Parse(old(CString(buffer[..], 0)), NO_FIELDS) && Text(buffer, "")
  {
    hide Parse, Reads, CString;
    var ok, p := ExtractWorkersOutput(buffer);
    if ok {
      ghost var f := Parse(old(CString(buffer[..], 0)), NO_FIELDS).fields;
      FieldReads(buffer, BUFFER_SIZE, p.source, f.source);
      FieldReads(buffer, BUFFER_SIZE, p.target, f.target);
      FieldReads(buffer, BUFFER_SIZE, p.status, f.status);
      FieldReads(buffer, BUFFER_SIZE, p.operation, f.operation);
      FieldReads(buffer, BUFFER_SIZE, p.details, f.details);
      outcome := Parsed(Fields(ReadField(buffer, p.source), ReadField(buffer, p.target), ReadField(buffer, p.status),
                               ReadField(buffer, p.operation), ReadField(buffer, p.details), p.errors));
    } else {
      outcome := NullDereference;
    }
    buffer[0] := NUL;
    CStringIs(buffer[..], 0, "");
  }

  lemma NoWorkers(pids: seq<int>, fds: seq<int>)
    ensures DistinctFds([]) && Slots(pids, fds, [])
  {
  }

  lemma FdsOnly(ws: seq<Worker>, ws': seq<Worker>)
    requires DistinctFds(ws) && |ws| == |ws'| && forall k :: 0 <= k < |ws| ==> ws'[k].fd == ws[k].fd
    ensures DistinctFds(ws')
  {
  }

  lemma SwapRemoveDistinct(ws: seq<Worker>, i: nat)
    requires DistinctFds(ws) && i < |ws|
    ensures DistinctFds(SwapRemove(ws, i))
  {
  }

  // ----- what a pass does to the workers -----

  /** The worker after a read of its chunk. */
  function AfterRead(w: Worker, ready: map<int, string>): Worker {
    if w.fd in ready then w.(received := w.received + ready[w.fd]) else w
  }

  /** Slots before i are left alone. */
  lemma {:induction false} PassKeeps(ws: seq<Worker>, i: nat, ready: map<int, string>)
    requires i <= |ws|
    ensures i <= |Pass(ws, i, ready).0| && Pass(ws, i, ready).0[..i] == ws[..i]
    decreases |ws| - i
  {
    if i < |ws| {
      var next := AfterSlot(ws, i, ready);
      PassStep(ws, i, ready);
      if i < |next| {
        PassKeeps(next, i + 1, ready);
        assert Pass(next, i + 1, ready).0[..i] == Pass(next, i + 1, ready).0[..i + 1][..i] == next[..i + 1][..i];
        assert next[..i + 1][..i] == ws[..i];
      } else {
        PassEnd(next, i + 1, ready);
        assert next[..i] == ws[..i];
      }
    }
  }

  /** What a pass leaves in slot i: its own worker, read, or for a finished one the worker of the last
      slot, which is not looked at in this pass even if it is ready. */
  lemma PassLeaves(ws: seq<Worker>, i: nat, ready: map<int, string>)
    requires i < |ws| && (Finishes(ws[i], ready) ==> i < |ws| - 1)
    ensures i < |Pass(ws, i, ready).0|
    ensures Pass(ws, i, ready).0[i] == if Finishes(ws[i], ready) then ws[|ws| - 1] else AfterRead(ws[i], ready)
  {
    hide Pass, Found;
    var next := AfterSlot(ws, i, ready);
    PassStep(ws, i, ready);
    PassKeeps(next, i + 1, ready);
    assert next[i] == next[..i + 1][i] == Pass(next, i + 1, ready).0[..i + 1][i];
  }

  /** It is still in a slot, and no read of its descriptor was appended. */
  ghost predicate LeftUnread(w: Worker, r: (seq<Worker>, seq<Worker>), ready: map<int, string>) {
    w in r.0 && (AfterRead(w, ready) != w || Finishes(w, ready))
  }

  /** It is in a slot, with what was ready appended, and its report is not complete. */
  ghost predicate ReadOn(w: Worker, r: (seq<Worker>, seq<Worker>), ready: map<int, string>) {
    !Finishes(w, ready) && AfterRead(w, ready) in r.0
  }

  /** It is among the finished, with a complete report. */
  ghost predicate TakenOut(w: Worker, r: (seq<Worker>, seq<Worker>), ready: map<int, string>) {
    Finishes(w, ready) && AfterRead(w, ready) in r.1
  }

  ghost predicate Accounted(w: Worker, r: (seq<Worker>, seq<Worker>), ready: map<int, string>) {
    LeftUnread(w, r, ready) || ReadOn(w, r, ready) || TakenOut(w, r, ready)
  }

  lemma {:induction false} PassAccountsSome(ws: seq<Worker>, i: nat, ready: map<int, string>)
    ensures forall k :: i <= k < |ws| ==> Accounted(ws[k], Pass(ws, i, ready), ready)
    ensures forall d :: d in Pass(ws, i, ready).1 ==> Found(d.received, MARKER)
    decreases |ws| - i
  {
    hide Pass, Found;
    if i < |ws| {
      var next, r := AfterSlot(ws, i, ready), Pass(ws, i, ready);
      PassStep(ws, i, ready);
      PassAccountsSome(next, i + 1, ready);
      if i < |next| {
        PassKeeps(next, i + 1, ready);
        assert next[i] == r.0[..i + 1][i] == r.0[i];
      }
      forall k | i <= k < |ws| ensures Accounted(ws[k], r, ready) {
        if i < k < |next| {
          assert next[k] == ws[k];
          assert Accounted(next[k], Pass(next, i + 1, ready), ready);
        }
      }
    } else {
      PassEnd(ws, i, ready);
    }
  }

  /** After a pass each worker is exactly one of: unread, read and incomplete, finished. And only
      complete reports are among the finished. */
  lemma PassAccounts(ws: seq<Worker>, ready: map<int, string>)
    requires DistinctFds(ws)
    ensures var r := Pass(ws, 0, ready);
            && (forall w :: w in ws ==>
                  && Accounted(w, r, ready)
                  && !(LeftUnread(w, r, ready) && ReadOn(w, r, ready))
                  && !(LeftUnread(w, r, ready) && TakenOut(w, r, ready))
                  && !(ReadOn(w, r, ready) && TakenOut(w, r, ready)))
            && forall d :: d in r.1 ==> Found(d.received, MARKER)
  {
    hide Pass, Found, Finishes, DistinctFds;
    var r := Pass(ws, 0, ready);
    PassAccountsSome(ws, 0, ready);
    PassConserves(ws, 0, ready);
    forall w | w in ws
      ensures Accounted(w, r, ready) && !(LeftUnread(w, r, ready) && ReadOn(w, r, ready))
           && !(LeftUnread(w, r, ready) && TakenOut(w, r, ready))
    {
      var k :| 0 <= k < |ws| && ws[k] == w;
      assert Accounted(ws[k], r, ready);
      FdOnce(ws, w.fd);
      InFds(r.0, w);
      InFds(r.1, AfterRead(w, ready));
      if AfterRead(w, ready) != w && w in r.0 && AfterRead(w, ready) in r.0 {
        TwoFds(r.0, w, AfterRead(w, ready));
      }
    }
  }

  lemma FdOnce(ws: seq<Worker>, fd: int)
    requires DistinctFds(ws)
    ensures multiset(Fds(ws))[fd] <= 1
    decreases |ws|
  {
    if ws != [] {
      var last := |ws| - 1;
      FdOnce(ws[..last], fd);
      assert Fds(ws) == Fds(ws[..last]) + [ws[last].fd];
      if fd == ws[last].fd {
        forall k | 0 <= k < last ensures Fds(ws[..last])[k] != fd {
        }
        assert fd !in multiset(Fds(ws[..last]));
      }
    }
  }

  lemma InFds(ws: seq<Worker>, w: Worker)
    ensures w in ws ==> multiset(Fds(ws))[w.fd] >= 1
  {
    if w in ws {
      var k :| 0 <= k < |ws| && ws[k] == w;
      assert Fds(ws)[k] == w.fd;
    }
  }

  lemma {:induction false} TwoFds(ws: seq<Worker>, v: Worker, w: Worker)
    requires v in ws && w in ws && v != w && v.fd == w.fd
    ensures multiset(Fds(ws))[v.fd] >= 2
    decreases |ws|
  {
    var last := |ws| - 1;
    var rest := ws[..last];
    assert ws == rest + [ws[last]];
    assert Fds(ws) == Fds(rest) + [ws[last].fd];
    InFds(rest, v);
    InFds(rest, w);
    if v in rest && w in rest {
      TwoFds(rest, v, w);
    }
  }

  /** No worker is lost or doubled: the descriptors in the slots and among the finished are those
      there were, each once. */
  lemma {:induction false} PassConserves(ws: seq<Worker>, i: nat, ready: map<int, string>)
    ensures multiset(Fds(ws)) == multiset(Fds(Pass(ws, i, ready).0)) + multiset(Fds(Pass(ws, i, ready).1))
    decreases |ws| - i
  {
    hide Pass, Found;
    if i < |ws| {
      var next := AfterSlot(ws, i, ready);
      PassStep(ws, i, ready);
      PassConserves(next, i + 1, ready);
      if Finishes(ws[i], ready) {
        var d := AfterRead(ws[i], ready);
        SwapRemoveFds(ws, i);
        assert Fds([d] + Pass(next, i + 1, ready).1) == [ws[i].fd] + Fds(Pass(next, i + 1, ready).1);
      } else {
        assert Fds(next) == Fds(ws);
        assert Pass(ws, i, ready).1 == Pass(next, i + 1, ready).1;
      }
    } else {
      PassEnd(ws, i, ready);
      assert Fds([]) == [];
    }
  }

  lemma SwapRemoveFds(ws: seq<Worker>, i: nat)
    requires i < |ws|
    ensures multiset(Fds(ws)) == multiset(Fds(SwapRemove(ws, i))) + multiset{ws[i].fd}
  {
    var f, last := Fds(ws), |ws| - 1;
    assert f == f[..last] + [f[last]];
    if i < last {
      assert f[..last] == f[..i] + [f[i]] + f[i + 1..last];
      assert Fds(SwapRemove(ws, i)) == f[..i] + [f[last]] + f[i + 1..last];
    } else {
      assert Fds(SwapRemove(ws, i)) == f[..last];
    }
  }

  // ----- the buffer slots as the source moves them -----

  /** The pid and the descriptor are exchanged with slot n - 1, but the emptied buffer is written to
      slot n. None means that slot n is not in the array. */
  function BufferSlotsAsWritten<B>(buffers: seq<B>, i: nat, n: nat): Option<seq<B>>
    requires i < n <= |buffers|
  {
    if n == |buffers| then None else Some(buffers[i := buffers[n - 1]][n := buffers[i]])
  }

  /** When every slot is busy the write is outside the array. Otherwise the live buffers are still
      different objects; the worker dispatched next shares its buffer with a live one exactly when
      the removed slot was not the last; and the two dispatched next always share one. */
  lemma BufferSlotsExactly<B>(buffers: seq<B>, i: nat, n: nat)
    requires i < n <= |buffers| && AllApart(buffers)
    ensures BufferSlotsAsWritten(buffers, i, n).None? <==> n == |buffers|
    ensures n < |buffers| ==>
              var now := BufferSlotsAsWritten(buffers, i, n).value;
              && AllApart(now[..n - 1])
              && (AllApart(now[..n]) <==> i == n - 1)
              && !AllApart(now[..n + 1])
  {
    if n < |buffers| {
      var now := BufferSlotsAsWritten(buffers, i, n).value;
      if i < n - 1 {
        assert now[..n][i] == now[..n][n - 1];
        assert now[..n + 1][i] == now[..n + 1][n - 1];
      } else {
        assert now[..n + 1][n - 1] == now[..n + 1][n];
      }
    }
  }

  /** With four slots and three live workers, the first of which finishes: the next dispatch shares the
      buffer of the worker that was moved into the first slot. */
  lemma SharedBuffer()
    ensures var now := BufferSlotsAsWritten(["a", "b", "c", "d"], 0, 3).value;
            now == ["c", "b", "c", "a"] && now[2] == now[0]
  {
  }
}
