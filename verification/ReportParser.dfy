/** extract_workers_output: the manager's parser, which cuts the report up in place with strtok
    under changing delimiter sets, and its round trip with the worker's printer. */
module ReportParser {
  import opened CStrings
  import opened Strtok
  import opened Decimal
  import opened WorkerReport

  const LABEL_DELIMS: string := ":\n"
  const VALUE_DELIMS: string := " :\n"
  const LINE_DELIMS: string := "\n"

  /** What the parser hands back; a field is None while no strtok result was stored in it. */
  datatype Fields = Fields(source: Option<string>, target: Option<string>, status: Option<string>,
                           operation: Option<string>, details: Option<string>, errors: nat)

  const NO_FIELDS: Fields := Fields(None, None, None, None, None, 0)

  /** NullDereference: strcmp gets a null pointer. */
  datatype Outcome = Parsed(fields: Fields) | NullDereference

  /** The inner loop: lines up to the marker, and the text after it. */
  function CountErrors(s: string): (r: Option<(nat, string)>)
    ensures r.Some? ==> |r.value.1| <= |s|
    decreases |s|
  {
    var line := NextToken(s, LINE_DELIMS);
    if line.token.None? then None
    else if line.token.value == MARKER then Some((0, line.rest))
    else
      var r := CountErrors(line.rest);
      if r.None? then None else Some((r.value.0 + 1, r.value.1))
  }

  /** What one tag does: the fields after it and the text left. */
  function TakeValue(tag: string, s: string, f: Fields): (r: Option<(Fields, string)>)
    ensures r.Some? ==> |r.value.1| <= |s|
  {
    if tag == "SOURCE DIR" then
      var v := NextToken(s, VALUE_DELIMS); Some((f.(source := v.token), v.rest))
    else if tag == "TARGET DIR" then
      var v := NextToken(s, VALUE_DELIMS); Some((f.(target := v.token), v.rest))
    else if tag == "STATUS" then
      var v := NextToken(s, VALUE_DELIMS); Some((f.(status := v.token), v.rest))
    else if tag == "OPERATION" then
      var v := NextToken(s, VALUE_DELIMS); Some((f.(operation := v.token), v.rest))
    else if tag == "DETAILS" then
      var v := NextToken(s, LABEL_DELIMS); Some((f.(details := v.token), v.rest))
    else if tag == "ERRORS" then
      var e := CountErrors(s);
      if e.None? then None else Some((f.(errors := f.errors + e.value.0), e.value.1))
    else Some((f, s))
  }

  /** The outer loop, on the text. */
  function Parse(s: string, f: Fields): Outcome
    decreases |s|
  {
    var tag := NextToken(s, LABEL_DELIMS);
    if tag.token.None? then Parsed(f)
    else
      var step := TakeValue(tag.token.value, tag.rest, f);
      if step.None? then NullDereference else Parse(step.value.1, step.value.0)
  }

  // ----- when it follows a null pointer -----

  /** The marker is on a line of its own, from index p on. */
  ghost predicate MarkerLineAt(s: string, p: nat) {
    && p + |MARKER| <= |s| && s[p..p + |MARKER|] == MARKER
    && (p == 0 || s[p - 1] == '\n') && (p + |MARKER| == |s| || s[p + |MARKER|] == '\n')
  }

  ghost predicate HasMarkerLine(s: string) {
    exists p: nat :: MarkerLineAt(s, p)
  }

  /** The inner loop runs into the end of the text exactly when no line of it is the marker. */
  lemma {:induction false} CountErrorsExactly(s: string)
    ensures CountErrors(s) == None <==> !HasMarkerLine(s)
    decreases |s|
  {
    hide MarkerLineAt;
    var b := SpanIn(s, LINE_DELIMS);
    var e := b + SpanOut(s[b..], LINE_DELIMS);
    LineBounds(s, b, e);
    NextLine(s, b, e);
    if b < |s| {
      MarkerLines(s, b, e);
      if e < |s| {
        CountErrorsExactly(s[e + 1..]);
      } else {
        assert !HasMarkerLine("") by { NoMarkerLine(""); }
        CountErrorsExactly("");
      }
    } else {
      NoMarkerLine(s);
    }
  }

  lemma LineBounds(s: string, b: nat, e: nat)
    requires b == SpanIn(s, LINE_DELIMS) && e == b + SpanOut(s[b..], LINE_DELIMS)
    ensures b <= e <= |s| && (forall k :: 0 <= k < b ==> s[k] == '\n') && (forall k :: b <= k < e ==> s[k] != '\n')
    ensures (e < |s| ==> s[e] == '\n') && (b < |s| ==> b < e)
  {
    hide SpanIn, SpanOut, LINE_DELIMS;
    OnlyNewline();
    var t := s[b..];
    forall k | b <= k < e ensures s[k] != '\n' {
      assert t[k - b] == s[k];
    }
    assert e < |s| ==> t[e - b] == s[e];
    assert b < |s| ==> t[0] == s[b];
  }

  lemma OnlyNewline()
    ensures forall c: char :: c in LINE_DELIMS <==> c == '\n'
  {
  }

  lemma NextLine(s: string, b: nat, e: nat)
    requires b == SpanIn(s, LINE_DELIMS) && e == b + SpanOut(s[b..], LINE_DELIMS)
    ensures NextToken(s, LINE_DELIMS) ==
              if b == |s| then Scan(None, "") else Scan(Some(s[b..e]), if e == |s| then "" else s[e + 1..])
  {
    if b < |s| {
      hide NextToken, SpanIn, SpanOut;
      NextTokenCut(s, b, e, LINE_DELIMS);
    }
  }

  lemma NoMarkerLine(s: string)
    requires forall k :: 0 <= k < |s| ==> s[k] == '\n'
    ensures !HasMarkerLine(s)
  {
    forall p: nat ensures !MarkerLineAt(s, p) {
      if p + |MARKER| <= |s| {
        assert s[p..p + |MARKER|][0] == '\n';
      }
    }
  }

  /** The first line is the marker, or the marker is on a line behind it. */
  lemma MarkerLines(s: string, b: nat, e: nat)
    requires b < e <= |s| && (forall k :: 0 <= k < b ==> s[k] == '\n') && (forall k :: b <= k < e ==> s[k] != '\n')
    requires e < |s| ==> s[e] == '\n'
    ensures HasMarkerLine(s) <==> s[b..e] == MARKER || (e < |s| && HasMarkerLine(s[e + 1..]))
  {
    if s[b..e] == MARKER {
      assert MarkerLineAt(s, b);
    }
    if e < |s| && HasMarkerLine(s[e + 1..]) {
      var p: nat :| MarkerLineAt(s[e + 1..], p);
      assert s[e + 1..][p..p + |MARKER|] == s[e + 1 + p..e + 1 + p + |MARKER|];
      assert MarkerLineAt(s, e + 1 + p);
    }
    if HasMarkerLine(s) && s[b..e] != MARKER {
      var p: nat :| MarkerLineAt(s, p);
      MarkerLineBehind(s, b, e, p);
    }
  }

  /** A line begins in the first line only if it is the first line. */
  lemma MarkerLineFirst(s: string, b: nat, e: nat, p: nat)
    requires b < e <= |s| && (forall k :: 0 <= k < b ==> s[k] == '\n') && (forall k :: b <= k < e ==> s[k] != '\n')
    requires (e < |s| ==> s[e] == '\n') && MarkerLineAt(s, p) && p <= e
    ensures s[b..e] == MARKER
  {
    var n := |MARKER|;
    MarkerCharacters(s, p);
    assert s[p] != '\n';
    assert p == b;
    assert e == |s| || s[e] == '\n';
    assert p + n <= e;
    assert e == p + n;
  }

  lemma MarkerCharacters(s: string, p: nat)
    requires MarkerLineAt(s, p)
    ensures p + |MARKER| <= |s| && forall k :: p <= k < p + |MARKER| ==> s[k] != '\n'
  {
    forall k | p <= k < p + |MARKER| ensures s[k] != '\n' {
      assert s[k] == s[p..p + |MARKER|][k - p] == MARKER[k - p];
    }
  }

  lemma MarkerLineBehind(s: string, b: nat, e: nat, p: nat)
    requires b < e <= |s| && (forall k :: 0 <= k < b ==> s[k] == '\n') && (forall k :: b <= k < e ==> s[k] != '\n')
    requires e < |s| ==> s[e] == '\n'
    requires MarkerLineAt(s, p) && s[b..e] != MARKER
    ensures e < p && MarkerLineAt(s[e + 1..], p - e - 1)
  {
    if p <= e {
      MarkerLineFirst(s, b, e, p);
      assert false;
    }
    assert s[e + 1..][p - e - 1..p - e - 1 + |MARKER|] == s[p..p + |MARKER|];
  }

  /** The labels the outer loop reads, each with the text behind it. */
  function Sections(s: string): seq<(string, string)>
    decreases |s|
  {
    var tag := NextToken(s, LABEL_DELIMS);
    if tag.token.None? then []
    else
      var step := TakeValue(tag.token.value, tag.rest, NO_FIELDS);
      [(tag.token.value, tag.rest)] + (if step.None? then [] else Sections(step.value.1))
  }

  lemma TakeValueRest(tag: string, s: string, f: Fields, g: Fields)
    ensures TakeValue(tag, s, f).None? <==> tag == "ERRORS" && CountErrors(s) == None
    ensures TakeValue(tag, s, f).Some? <==> TakeValue(tag, s, g).Some?
    ensures TakeValue(tag, s, f).Some? ==> TakeValue(tag, s, f).value.1 == TakeValue(tag, s, g).value.1
  {
    hide NextToken, CountErrors;
  }

  /** There is an ERRORS section that the marker does not close. */
  ghost predicate Unclosed(sections: seq<(string, string)>) {
    exists k :: 0 <= k < |sections| && sections[k].0 == "ERRORS" && !HasMarkerLine(sections[k].1)
  }

  /** A null pointer is followed exactly when there is an ERRORS label with no line behind it that is the
      marker. */
  lemma {:induction false} NullDereferenceExactly(s: string, f: Fields)
    ensures Parse(s, f) == NullDereference <==> Unclosed(Sections(s))
    decreases |s|
  {
    hide NextToken, TakeValue, HasMarkerLine, CountErrors;
    var tag := NextToken(s, LABEL_DELIMS);
    if tag.token.Some? {
      var step := TakeValue(tag.token.value, tag.rest, f);
      TakeValueRest(tag.token.value, tag.rest, f, NO_FIELDS);
      TakeValueRest(tag.token.value, tag.rest, NO_FIELDS, f);
      CountErrorsExactly(tag.rest);
      var rest := if step.None? then [] else Sections(step.value.1);
      assert Sections(s) == [(tag.token.value, tag.rest)] + rest;
      if step.None? {
        assert Sections(s)[0].0 == "ERRORS";
      } else {
        NullDereferenceExactly(step.value.1, step.value.0);
        assert !(Sections(s)[0].0 == "ERRORS" && !HasMarkerLine(Sections(s)[0].1));
        UnclosedTail((tag.token.value, tag.rest), rest);
      }
    }
  }

  lemma UnclosedTail(first: (string, string), rest: seq<(string, string)>)
    requires !(first.0 == "ERRORS" && !HasMarkerLine(first.1))
    ensures Unclosed([first] + rest) <==> Unclosed(rest)
  {
    hide HasMarkerLine;
    if Unclosed(rest) {
      var k :| 0 <= k < |rest| && rest[k].0 == "ERRORS" && !HasMarkerLine(rest[k].1);
      assert ([first] + rest)[k + 1] == rest[k];
    }
  }

  // ----- the parser in place -----

  /** The pointers into the buffer that the caller reads the fields through; -1 is null. */
  datatype Pointers = Pointers(source: int, target: int, status: int, operation: int, details: int, errors: nat)

  ghost predicate Reads(a: seq<char>, limit: nat, at: int, field: Option<string>) {
    match field
    case None => at < 0
    case Some(s) => Holds(a, at, s) && at + |s| <= limit
  }

  /** Every field reads back, through its pointer, from the part strtok will not touch again. */
  ghost predicate ReadsAll(a: seq<char>, limit: nat, p: Pointers, f: Fields) {
    && Reads(a, limit, p.source, f.source) && Reads(a, limit, p.target, f.target)
    && Reads(a, limit, p.status, f.status) && Reads(a, limit, p.operation, f.operation)
    && Reads(a, limit, p.details, f.details) && p.errors == f.errors
  }

  /** The field a pointer of the parser points at. */
  function ReadField(buffer: array<char>, at: int): Option<string>
    requires at <= buffer.Length
    reads buffer
  {
    if at < 0 then None else Some(CString(buffer[..], at))
  }

  lemma FieldReads(buffer: array<char>, limit: nat, at: int, field: Option<string>)
    requires Reads(buffer[..], limit, at, field)
    ensures at <= buffer.Length && ReadField(buffer, at) == field
  {
  }

  lemma ReadsAfter(a: seq<char>, limit: nat, at: int, field: Option<string>, b: seq<char>, limit': nat)
    requires Reads(a, limit, at, field) && Keeps(a, b, limit) && limit <= limit'
    ensures Reads(b, limit', at, field)
  {
    if field.Some? {
      HoldsAfter(a, b, limit, at, field.value);
    }
  }

  lemma ReadsAllAfter(a: seq<char>, limit: nat, p: Pointers, f: Fields, b: seq<char>, limit': nat)
    requires ReadsAll(a, limit, p, f) && Keeps(a, b, limit) && limit <= limit'
    ensures ReadsAll(b, limit', p, f)
  {
    ReadsAfter(a, limit, p.source, f.source, b, limit');
    ReadsAfter(a, limit, p.target, f.target, b, limit');
    ReadsAfter(a, limit, p.status, f.status, b, limit');
    ReadsAfter(a, limit, p.operation, f.operation, b, limit');
    ReadsAfter(a, limit, p.details, f.details, b, limit');
  }

  /** One more line before those already counted. */
  function Later(n: nat, r: Option<(nat, string)>): Option<(nat, string)> {
    if r.None? then None else Some((n + r.value.0, r.value.1))
  }

  lemma CountErrorsStep(s: string)
    ensures var line := NextToken(s, LINE_DELIMS);
            CountErrors(s) == if line.token.None? then None
                              else if line.token.value == MARKER then Some((0, line.rest))
                              else Later(1, CountErrors(line.rest))
  {
    hide NextToken;
  }

  /** The loop at the ERRORS label. */
  method CountErrorsInPlace(c: Cursor) returns (ok: bool, n: nat)
    requires c.Valid()
    modifies c, c.buffer
    ensures c.Valid() && c.save >= old(c.save) && Keeps(old(c.buffer[..]), c.buffer[..], old(c.save))
    ensures CountErrors(old(c.Rest())) == if ok then Some((n, c.Rest())) else None
  {
    hide NextToken, Keeps, End, CountErrors;
    n := 0;
    ghost var whole := CountErrors(c.Rest());
    ghost var start, was := c.save, c.buffer[..];
    KeepsSelf(was, start);
    while true
      invariant c.Valid() && c.save >= start && Keeps(was, c.buffer[..], start)
      invariant whole == Later(n, CountErrors(c.Rest()))
      decreases |c.Rest()|
    {
      ghost var before, from := c.buffer[..], c.save;
      CountErrorsStep(c.Rest());
      var str, r := c.Next(LINE_DELIMS);
      KeepsOn(was, before, c.buffer[..], start, from);
      if str < 0 { return false, n; }
      var line := CString(c.buffer[..], str);
      if line == MARKER { return true, n; }
      n := n + 1;
    }
  }

  /** A strtok call between labels leaves every field already stored readable. */
  method NextValue(c: Cursor, delims: string, p: Pointers, ghost f: Fields) returns (at: int, ghost r: Scan)
    requires c.Valid() && ReadsAll(c.buffer[..], c.save, p, f)
    modifies c, c.buffer
    ensures c.Valid() && c.save >= old(c.save)
    ensures r == NextToken(old(c.Rest()), delims) && c.Rest() == r.rest
    ensures Reads(c.buffer[..], c.save, at, r.token) && ReadsAll(c.buffer[..], c.save, p, f)
  {
    ghost var was, limit := c.buffer[..], c.save;
    at, r := c.Next(delims);
    ReadsAllAfter(was, limit, p, f, c.buffer[..], c.save);
  }

  /** The chain of comparisons on a label, and the strtok call each arm makes. */
  method TakeValueInPlace(c: Cursor, tag: string, p: Pointers, ghost f: Fields)
    returns (ok: bool, q: Pointers, ghost g: Fields)
    requires c.Valid() && ReadsAll(c.buffer[..], c.save, p, f)
    modifies c, c.buffer
    ensures c.Valid() && c.save >= old(c.save)
    ensures TakeValue(tag, old(c.Rest()), f) == if ok then Some((g, c.Rest())) else None
    ensures ok ==> ReadsAll(c.buffer[..], c.save, q, g)
  {
    hide NextToken, CountErrors, Reads, Keeps;
    ok, q, g := true, p, f;
    if tag == "SOURCE DIR" {
      var str, r := NextValue(c, VALUE_DELIMS, p, f);
      q, g := p.(source := str), f.(source := r.token);
    } else if tag == "TARGET DIR" {
      var str, r := NextValue(c, VALUE_DELIMS, p, f);
      q, g := p.(target := str), f.(target := r.token);
    } else if tag == "STATUS" {
      var str, r := NextValue(c, VALUE_DELIMS, p, f);
      q, g := p.(status := str), f.(status := r.token);
    } else if tag == "OPERATION" {
      var str, r := NextValue(c, VALUE_DELIMS, p, f);
      q, g := p.(operation := str), f.(operation := r.token);
    } else if tag == "DETAILS" {
      var str, r := NextValue(c, LABEL_DELIMS, p, f);
      q, g := p.(details := str), f.(details := r.token);
    } else if tag == "ERRORS" {
      ghost var was, limit := c.buffer[..], c.save;
      var n;
      ok, n := CountErrorsInPlace(c);
      ReadsAllAfter(was, limit, p, f, c.buffer[..], c.save);
      q, g := p.(errors := p.errors + n), f.(errors := f.errors + n);
    }
  }

  /** extract_workers_output: the fields are read through pointers into the mutilated buffer. */
  method ExtractWorkersOutput(buffer: array<char>) returns (ok: bool, p: Pointers)
    requires Terminated(buffer[..], 0)
    modifies buffer
    ensures ok <==> Parse(old(CString(buffer[..], 0)), NO_FIELDS).Parsed?
    ensures !ok <==> Unclosed(Sections(old(CString(buffer[..], 0))))
    ensures ok ==> ReadsAll(buffer[..], buffer.Length, p, Parse(old(CString(buffer[..], 0)), NO_FIELDS).fields)
  {
    ghost var whole := Parse(CString(buffer[..], 0), NO_FIELDS);
    NullDereferenceExactly(CString(buffer[..], 0), NO_FIELDS);
    var c := new Cursor(buffer);
    p := Pointers(-1, -1, -1, -1, -1, 0);
    ghost var f := NO_FIELDS;
    ok := true;
    while true
      invariant c.Valid() && c.buffer == buffer && ok
      invariant fresh(c)
      invariant whole == Parse(c.Rest(), f)
      invariant ReadsAll(buffer[..], c.save, p, f)
      decreases |c.Rest()|
    {
      var str, r := NextValue(c, LABEL_DELIMS, p, f);
      if str < 0 {
        ReadsAllAfter(buffer[..], c.save, p, f, buffer[..], buffer.Length);
        break;
      }
      var tag := CString(buffer[..], str);
      ok, p, f := TakeValueInPlace(c, tag, p, f);
      if !ok { return; }
    }
  }
}
