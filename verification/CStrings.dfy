/** Text as the C sources hold it: NUL-terminated runs of characters inside a larger buffer. */
module CStrings {

  datatype Option<+T> = None | Some(value: T)

  const NUL: char := '\0'

  /** No character of s is one of chars. */
  predicate Free(s: string, chars: string) {
    forall k :: 0 <= k < |s| ==> s[k] !in chars
  }

  /** What strtok can hand out under the delimiters delims: non-empty and delimiter-free. */
  predicate IsToken(s: string, delims: string) {
    s != "" && Free(s, delims)
  }

  /** Index of the first NUL of a at or after i (the end of a when there is none). */
  function End(a: seq<char>, i: nat): (e: nat)
    requires i <= |a|
    ensures i <= e <= |a|
    ensures forall k :: i <= k < e ==> a[k] != NUL
    ensures e < |a| ==> a[e] == NUL
    decreases |a| - i
  {
    if i == |a| || a[i] == NUL then i else End(a, i + 1)
  }

  /** The C string that starts at index i of a. */
  function CString(a: seq<char>, i: nat): string
    requires i <= |a|
  {
    a[i..End(a, i)]
  }

  /** A NUL at or after i ends the string inside the buffer. */
  ghost predicate Terminated(a: seq<char>, i: nat) {
    i <= |a| && End(a, i) < |a|
  }

  predicate NulFree(s: string) {
    forall k :: 0 <= k < |s| ==> s[k] != NUL
  }

  lemma {:induction false} EndIs(a: seq<char>, i: nat, e: nat)
    requires i <= e < |a| && a[e] == NUL
    requires forall k :: i <= k < e ==> a[k] != NUL
    ensures End(a, i) == e
    decreases e - i
  {
    if i < e {
      EndIs(a, i + 1, e);
    }
  }

  /** A NUL-free run closed by a NUL is the C string at its first index. */
  lemma CStringIs(a: seq<char>, i: nat, s: string)
    requires i + |s| < |a| && a[i..i + |s|] == s
    requires NulFree(s) && a[i + |s|] == NUL
    ensures CString(a, i) == s && Terminated(a, i)
  {
    forall k | i <= k < i + |s| ensures a[k] != NUL {
      assert a[k] == s[k - i];
    }
    EndIs(a, i, i + |s|);
  }

  /** Everything in a sequence of pieces, in order. */
  function Concat(pieces: seq<string>): string {
    if pieces == [] then "" else pieces[0] + Concat(pieces[1..])
  }

  lemma {:induction false} ConcatAppend(xs: seq<string>, ys: seq<string>)
    ensures Concat(xs + ys) == Concat(xs) + Concat(ys)
  {
    if xs == [] {
      assert xs + ys == ys;
    } else {
      assert (xs + ys)[1..] == xs[1..] + ys;
      ConcatAppend(xs[1..], ys);
    }
  }
}
