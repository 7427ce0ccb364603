/** strtok (section 7.24.5.8 of ISO/IEC 9899:2011): a cursor over a buffer that overwrites the
    delimiter after each token with NUL. Tokens are indices into that same buffer, so what they
    denote is what the buffer holds when they are read, not when they were found. */
module Strtok {
  import opened CStrings

  /** Length of the longest prefix of s made of delimiters. */
  function SpanIn(s: string, delims: string): (n: nat)
    ensures n <= |s|
    ensures forall k :: 0 <= k < n ==> s[k] in delims
    ensures n < |s| ==> s[n] !in delims
  {
    if s == "" || s[0] !in delims then 0 else 1 + SpanIn(s[1..], delims)
  }

  /** Length of the longest delimiter-free prefix of s. */
  function SpanOut(s: string, delims: string): (n: nat)
    ensures n <= |s|
    ensures forall k :: 0 <= k < n ==> s[k] !in delims
    ensures n < |s| ==> s[n] in delims
  {
    if s == "" || s[0] in delims then 0 else 1 + SpanOut(s[1..], delims)
  }

  lemma {:induction false} SpanInIs(s: string, delims: string, n: nat)
    requires n <= |s| && (forall k :: 0 <= k < n ==> s[k] in delims)
    requires n < |s| ==> s[n] !in delims
    ensures SpanIn(s, delims) == n
    decreases n
  {
    if n > 0 {
      assert s[0] in delims;
      SpanInIs(s[1..], delims, n - 1);
    }
  }

  lemma {:induction false} SpanOutIs(s: string, delims: string, n: nat)
    requires n <= |s| && (forall k :: 0 <= k < n ==> s[k] !in delims)
    requires n < |s| ==> s[n] in delims
    ensures SpanOut(s, delims) == n
    decreases n
  {
    if n > 0 {
      assert s[0] !in delims;
      SpanOutIs(s[1..], delims, n - 1);
    }
  }

  /** The outcome of one call on the text that is left: the token, and the text left after it. */
  datatype Scan = Scan(token: Option<string>, rest: string)

  function NextToken(s: string, delims: string): (r: Scan)
    ensures r.token.Some? ==> IsToken(r.token.value, delims) && |r.token.value| + |r.rest| <= |s|
    ensures r.token.None? ==> r.rest == ""
  {
    var b := SpanIn(s, delims);
    var e := b + SpanOut(s[b..], delims);
    if b == |s| then Scan(None, "")
    else if e == |s| then Scan(Some(s[b..]), "")
    else assert s[b..][..e - b] == s[b..e]; Scan(Some(s[b..e]), s[e + 1..])
  }

  /** Delimiters, a token, one delimiter: the call returns the token and drops that delimiter. */
  lemma NextTokenAt(pre: string, token: string, d: char, rest: string, delims: string)
    requires forall k :: 0 <= k < |pre| ==> pre[k] in delims
    requires IsToken(token, delims) && d in delims
    ensures NextToken(pre + token + [d] + rest, delims) == Scan(Some(token), rest)
  {
    var s := pre + token + [d] + rest;
    assert s[|pre|] == token[0];
    SpanInIs(s, delims, |pre|);
    assert s[|pre|..] == token + [d] + rest;
    SpanOutIs(s[|pre|..], delims, |token|);
    assert s[|pre|..|pre| + |token|] == token && s[|pre| + |token| + 1..] == rest;
  }

  /** The last token of a text has no delimiter after it. */
  lemma NextTokenLast(pre: string, token: string, delims: string)
    requires forall k :: 0 <= k < |pre| ==> pre[k] in delims
    requires IsToken(token, delims)
    ensures NextToken(pre + token, delims) == Scan(Some(token), "")
  {
    var s := pre + token;
    assert s[|pre|] == token[0];
    SpanInIs(s, delims, |pre|);
    assert s[|pre|..] == token;
    SpanOutIs(token, delims, |token|);
  }

  lemma NextTokenNone(s: string, delims: string)
    requires forall k :: 0 <= k < |s| ==> s[k] in delims
    ensures NextToken(s, delims) == Scan(None, "")
  {
    SpanInIs(s, delims, |s|);
  }

  /** The hidden state of strtok: the buffer it works in and the index it will continue from. */
  class Cursor {
    const buffer: array<char>
    var save: nat

    ghost predicate Valid()
      reads this, buffer
    {
      Terminated(buffer[..], save)
    }

    /** The text the next call will look at. */
    ghost function Rest(): string
      requires Valid()
      reads this, buffer
    {
      CString(buffer[..], save)
    }

    /** A first call, with the buffer, starts from index 0. */
    constructor (buffer: array<char>)
      requires Terminated(buffer[..], 0)
      ensures Valid() && this.buffer == buffer && save == 0
    {
      this.buffer := buffer;
      save := 0;
    }

    /** The first loop of a call: past the delimiters that stand before the token. */
    method SkipDelimiters(delims: string) returns (b: nat)
      requires Valid()
      ensures b == save + SpanIn(Rest(), delims)
    {
      ghost var text := Rest();
      b := save;
      while buffer[b] != NUL && buffer[b] in delims
        invariant save <= b <= save + |text|
        invariant forall k :: 0 <= k < b - save ==> text[k] in delims
        decreases buffer.Length - b
      {
        assert buffer[b] == text[b - save];
        b := b + 1;
      }
      assert b < save + |text| ==> buffer[b] == text[b - save];
      SpanInIs(text, delims, b - save);
    }

    /** The second loop of a call: to the delimiter or the NUL that ends the token. */
    method FindDelimiter(b: nat, delims: string) returns (e: nat)
      requires Valid() && save <= b <= save + |Rest()|
      ensures e == b + SpanOut(Rest()[b - save..], delims)
    {
      ghost var text := Rest();
      e := b;
      while buffer[e] != NUL && buffer[e] !in delims
        invariant b <= e <= save + |text|
        invariant forall k :: b - save <= k < e - save ==> text[k] !in delims
        decreases buffer.Length - e
      {
        assert buffer[e] == text[e - save];
        e := e + 1;
      }
      assert e < save + |text| ==> buffer[e] == text[e - save];
      SpanOutIs(text[b - save..], delims, e - b);
    }

    /** One call: at is the token's index in the buffer, or -1 for a null pointer. Characters
        before the saved index and every NUL already there stay, so earlier tokens stay. */
    method Next(delims: string) returns (at: int, ghost r: Scan)
      requires Valid()
      modifies this, buffer
      ensures Valid() && save >= old(save)
      ensures r == NextToken(old(Rest()), delims) && Rest() == r.rest
      ensures at < 0 <==> r.token.None?
      ensures at >= 0 ==> Holds(buffer[..], at, r.token.value) && old(save) <= at && at + |r.token.value| <= save
      ensures Keeps(old(buffer[..]), buffer[..], old(save))
    {
      hide NextToken, Holds, Keeps, SpanIn, SpanOut;
      ghost var base, was := save, buffer[..];
      r := NextToken(CString(was, base), delims);
      var b := SkipDelimiters(delims);
      if buffer[b] == NUL {
        NothingLeft(was, base, b, delims);
        save := b;
        at := -1;
        return;
      }
      var e := FindDelimiter(b, delims);
      at := b;
      if buffer[e] == NUL {
        LastToken(was, base, b, e, delims);
        save := e;
      } else {
        TokenCut(was, base, b, e, delims);
        buffer[e] := NUL;
        assert buffer[..] == was[e := NUL];
        save := e + 1;
      }
    }
  }

  /** Only delimiters before the NUL: no token, and nothing left. */
  lemma NothingLeft(was: seq<char>, base: nat, b: nat, delims: string)
    requires Terminated(was, base) && b == base + SpanIn(CString(was, base), delims)
    requires was[b] == NUL
    ensures NextToken(CString(was, base), delims) == Scan(None, "")
    ensures Terminated(was, b) && CString(was, b) == "" && Keeps(was, was, base)
  {
    assert b == End(was, base);
  }

  /** What the two loops found: where the token begins and ends in the text. */
  lemma NextTokenCut(s: string, b: nat, e: nat, delims: string)
    requires b == SpanIn(s, delims) < |s| && e == b + SpanOut(s[b..], delims)
    ensures NextToken(s, delims) == Scan(Some(s[b..e]), if e == |s| then "" else s[e + 1..])
  {
    if e == |s| {
      assert s[b..e] == s[b..];
    }
  }

  /** A token that runs up to the NUL is a C string already. */
  lemma TokenLast(was: seq<char>, base: nat, text: string, b: nat)
    requires Terminated(was, base) && text == CString(was, base) && b <= |text|
    ensures Holds(was, base + b, text[b..]) && Keeps(was, was, base)
    ensures Terminated(was, base + |text|) && CString(was, base + |text|) == ""
  {
    EndIs(was, base + b, base + |text|);
    EndIs(was, base + |text|, base + |text|);
  }

  /** A NUL written at e makes [b, e) a C string of its own and leaves the text after it alone. */
  lemma MarkSplits(was: seq<char>, base: nat, text: string, b: nat, e: nat)
    requires Terminated(was, base) && text == CString(was, base) && b <= e < |text|
    ensures var now := was[base + e := NUL];
            && Holds(now, base + b, text[b..e]) && Keeps(was, now, base)
            && Terminated(now, base + e + 1) && CString(now, base + e + 1) == text[e + 1..]
  {
    var now := was[base + e := NUL];
    EndIs(now, base + b, base + e);
    EndIs(now, base + e + 1, base + |text|);
    assert text == was[base..base + |text|];
    assert forall k :: base + b <= k < base + e ==> now[k] == text[k - base];
    assert now[base + b..base + e] == text[b..e];
    assert now[base + e + 1..base + |text|] == text[e + 1..];
  }

  /** The call's outcome when the token runs up to the NUL. */
  lemma LastToken(was: seq<char>, base: nat, b: nat, e: nat, delims: string)
    requires Terminated(was, base) && b == base + SpanIn(CString(was, base), delims)
    requires was[b] != NUL && e == b + SpanOut(CString(was, base)[b - base..], delims) && was[e] == NUL
    ensures var r := NextToken(CString(was, base), delims);
            && r.token.Some? && Holds(was, b, r.token.value) && b + |r.token.value| <= e
            && Terminated(was, e) && CString(was, e) == r.rest && Keeps(was, was, base)
  {
    hide NextToken, Holds, Keeps, SpanIn, SpanOut;
    var text := CString(was, base);
    NextTokenCut(text, b - base, e - base, delims);
    assert e == End(was, base);
    assert text[b - base..e - base] == text[b - base..];
    TokenLast(was, base, text, b - base);
  }

  lemma BeforeEnd(was: seq<char>, base: nat, e: nat)
    requires Terminated(was, base) && base <= e <= base + |CString(was, base)| && was[e] != NUL
    ensures e < base + |CString(was, base)|
  {
  }

  /** The call's outcome when a delimiter ends the token. */
  lemma TokenCut(was: seq<char>, base: nat, b: nat, e: nat, delims: string)
    requires Terminated(was, base) && b == base + SpanIn(CString(was, base), delims)
    requires was[b] != NUL && e == b + SpanOut(CString(was, base)[b - base..], delims) && was[e] != NUL
    ensures var r := NextToken(CString(was, base), delims);
            var now := was[e := NUL];
            && r.token.Some? && Holds(now, b, r.token.value) && b + |r.token.value| <= e
            && Terminated(now, e + 1) && CString(now, e + 1) == r.rest && Keeps(was, now, base)
  {
    hide NextToken, Holds, Keeps, SpanIn, SpanOut, End;
    var text := CString(was, base);
    BeforeEnd(was, base, e);
    NextTokenCut(text, b - base, e - base, delims);
    MarkSplits(was, base, text, b - base, e - base);
  }

  /** The buffer holds the C string s at index i, NUL included. */
  ghost predicate Holds(a: seq<char>, i: int, s: string) {
    0 <= i && Terminated(a, i) && CString(a, i) == s
  }

  /** Everything before index `from`, and every NUL, is as it was. */
  ghost predicate Keeps(a: seq<char>, b: seq<char>, from: nat) {
    && |a| == |b|
    && forall k :: 0 <= k < |a| && (k < from || a[k] == NUL) ==> b[k] == a[k]
  }

  lemma KeepsSelf(a: seq<char>, from: nat)
    ensures Keeps(a, a, from)
  {
  }

  lemma KeepsOn(a: seq<char>, b: seq<char>, c: seq<char>, from: nat, to: nat)
    requires Keeps(a, b, from) && Keeps(b, c, to) && from <= to
    ensures Keeps(a, c, from)
  {
  }

  /** So a token found earlier still reads the same after later calls. */
  lemma HoldsAfter(a: seq<char>, b: seq<char>, from: nat, i: int, s: string)
    requires Holds(a, i, s) && i + |s| <= from && Keeps(a, b, from)
    ensures Holds(b, i, s)
  {
    EndIs(b, i, i + |s|);
  }
}
