/** Tasks as the queue stores them: the arguments of a worker, joined by spaces and cut apart again
    by strtok. */
module TaskCode {
  import opened CStrings
  import opened Strtok
  import opened ReportParser
  import opened RoundTrip

  /** The arguments of a worker. */
  datatype Task = Task(source: string, target: string, filename: string, action: string)

  const TASK_DELIMS: string := " \n"

  /** What the command loop pushes. */
  function Encode(t: Task): string {
    t.source + [' '] + (t.target + [' '] + (t.filename + [' '] + t.action))
  }

  /** What the startup loop builds, and pushes when no worker is free. */
  function EncodePair(source: string, target: string): string {
    source + [' '] + (target + [' '] + "")
  }

  /** Four strtok calls. */
  function Decode(s: string): Option<Task> {
    var a := NextToken(s, TASK_DELIMS);
    var b := NextToken(a.rest, TASK_DELIMS);
    var c := NextToken(b.rest, TASK_DELIMS);
    var d := NextToken(c.rest, TASK_DELIMS);
    if d.token.None? || c.token.None? || b.token.None? || a.token.None? then None
    else Some(Task(a.token.value, b.token.value, c.token.value, d.token.value))
  }

  /** Two strtok calls; the rest of a startup task is fixed. */
  function DecodePair(s: string): Option<Task> {
    var a := NextToken(s, TASK_DELIMS);
    var b := NextToken(a.rest, TASK_DELIMS);
    if a.token.None? || b.token.None? then None
    else Some(Task(a.token.value, b.token.value, "ALL", "FULL"))
  }

  predicate IsWord(s: string) { IsToken(s, TASK_DELIMS) }

  predicate Words(t: Task) {
    IsWord(t.source) && IsWord(t.target) && IsWord(t.filename) && IsWord(t.action)
  }

  /** A task comes back from the queue exactly when none of its fields is empty or has a space or a
      newline in it. */
  lemma DecodeEncodeExactly(t: Task)
    ensures Decode(Encode(t)) == Some(t) <==> Words(t)
  {
    hide NextToken, Encode;
    if Words(t) {
      DecodeEncode(t);
    }
  }

  lemma DecodeEncode(t: Task)
    requires Words(t)
    ensures Decode(Encode(t)) == Some(t)
  {
    hide NextToken;
    var r2 := t.filename + [' '] + t.action;
    var r1 := t.target + [' '] + r2;
    Field(t.source, r1);
    Field(t.target, r2);
    Field(t.filename, t.action);
    NextTokenLast("", t.action, TASK_DELIMS);
    assert "" + t.action == t.action;
  }

  lemma Field(token: string, rest: string)
    requires IsWord(token)
    ensures NextToken(token + [' '] + rest, TASK_DELIMS) == Scan(Some(token), rest)
  {
    hide NextToken;
    NextTokenAt("", token, ' ', rest, TASK_DELIMS);
    assert "" + token + [' '] + rest == token + [' '] + rest;
  }

  lemma DecodeEncodePairExactly(source: string, target: string)
    ensures DecodePair(EncodePair(source, target)) == Some(Task(source, target, "ALL", "FULL"))
       <==> IsWord(source) && IsWord(target)
  {
    hide NextToken;
    if IsWord(source) && IsWord(target) {
      Field(source, target + [' '] + "");
      Field(target, "");
    }
  }

  // ----- cutting an action apart in place -----

  /** strcpy into a buffer. */
  method Buffered(action: string) returns (buffer: array<char>)
    requires NulFree(action)
    ensures fresh(buffer) && Terminated(buffer[..], 0) && CString(buffer[..], 0) == action
  {
    buffer := new char[|action| + 1](_ => NUL);
    for k := 0 to |action|
      invariant buffer[..k] == action[..k] && buffer[|action|] == NUL
    {
      buffer[k] := action[k];
    }
    CStringIs(buffer[..], 0, action);
  }

  /** Every field found so far reads back through its pointer. */
  ghost predicate AllRead(a: seq<char>, limit: nat, ats: seq<int>, fields: seq<Option<string>>) {
    |ats| == |fields| && forall k :: 0 <= k < |ats| ==> Reads(a, limit, ats[k], fields[k])
  }

  lemma AllReadAfter(a: seq<char>, limit: nat, ats: seq<int>, fields: seq<Option<string>>, b: seq<char>, limit': nat)
    requires AllRead(a, limit, ats, fields) && Keeps(a, b, limit) && limit <= limit'
    ensures AllRead(b, limit', ats, fields)
  {
    hide Reads, Keeps;
    forall k | 0 <= k < |ats| ensures Reads(b, limit', ats[k], fields[k]) {
      ReadsAfter(a, limit, ats[k], fields[k], b, limit');
    }
  }

  /** One more strtok call: the pointers found before it stay good. */
  method NextField(c: Cursor, found: seq<int>, ghost fields: seq<Option<string>>) returns (ats: seq<int>, ghost now: seq<Option<string>>)
    requires c.Valid() && AllRead(c.buffer[..], c.save, found, fields)
    modifies c, c.buffer
    ensures c.Valid() && c.Rest() == NextToken(old(c.Rest()), TASK_DELIMS).rest
    ensures now == fields + [NextToken(old(c.Rest()), TASK_DELIMS).token]
    ensures AllRead(c.buffer[..], c.save, ats, now)
  {
    hide NextToken, Keeps, Holds, Terminated, CString;
    ghost var was, limit := c.buffer[..], c.save;
    var at, r := c.Next(TASK_DELIMS);
    AllReadAfter(was, limit, found, fields, c.buffer[..], c.save);
    ats, now := found + [at], fields + [r.token];
  }

  lemma FieldsRead(buffer: array<char>, limit: nat, ats: seq<int>, fields: seq<Option<string>>)
    requires AllRead(buffer[..], limit, ats, fields)
    ensures forall k :: 0 <= k < |ats| ==> ats[k] <= buffer.Length && ReadField(buffer, ats[k]) == fields[k]
  {
    hide Reads, ReadField;
    forall k | 0 <= k < |ats| ensures ats[k] <= buffer.Length && ReadField(buffer, ats[k]) == fields[k] {
      FieldReads(buffer, limit, ats[k], fields[k]);
    }
  }

  /** Four strtok calls on a copy of the popped action; the fields are read once all are done. */
  method Split(action: string) returns (task: Option<Task>)
    requires NulFree(action)
    ensures task == Decode(action)
  {
    hide NextToken, AllRead, CString, Terminated;
    var buffer := Buffered(action);
    var c := new Cursor(buffer);
    assert AllRead(buffer[..], c.save, [], []) by { NoneRead(buffer[..], c.save); }
    var ats, fields := NextField(c, [], []);
    ats, fields := NextField(c, ats, fields);
    ats, fields := NextField(c, ats, fields);
    ats, fields := NextField(c, ats, fields);
    PointersMatch(buffer[..], c.save, ats, fields);
    FieldsRead(buffer, c.save, ats, fields);
    if ats[0] < 0 || ats[1] < 0 || ats[2] < 0 || ats[3] < 0 {
      return None;
    }
    return Some(Task(CString(buffer[..], ats[0]), CString(buffer[..], ats[1]), CString(buffer[..], ats[2]), CString(buffer[..], ats[3])));
  }

  /** The two calls of the startup loop. */
  method SplitPair(action: string) returns (task: Option<Task>)
    requires NulFree(action)
    ensures task == DecodePair(action)
  {
    hide NextToken, AllRead, CString, Terminated;
    var buffer := Buffered(action);
    var c := new Cursor(buffer);
    assert AllRead(buffer[..], c.save, [], []) by { NoneRead(buffer[..], c.save); }
    var ats, fields := NextField(c, [], []);
    ats, fields := NextField(c, ats, fields);
    PointersMatch(buffer[..], c.save, ats, fields);
    FieldsRead(buffer, c.save, ats, fields);
    if ats[0] < 0 || ats[1] < 0 {
      return None;
    }
    return Some(Task(CString(buffer[..], ats[0]), CString(buffer[..], ats[1]), "ALL", "FULL"));
  }

  lemma NoneRead(a: seq<char>, limit: nat)
    ensures AllRead(a, limit, [], [])
  {
  }

  lemma PointersMatch(a: seq<char>, limit: nat, ats: seq<int>, fields: seq<Option<string>>)
    requires AllRead(a, limit, ats, fields)
    ensures |ats| == |fields| && forall k :: 0 <= k < |ats| ==> (ats[k] < 0 <==> fields[k].None?)
  {
  }
}
