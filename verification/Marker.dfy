/** is_substring, the scanner that decides when a worker has finished, and the stream of chunks it
    is run on. */
module Marker {
  import opened CStrings
  import opened Decimal
  import opened WorkerReport
  import opened ReportParser
  import opened RoundTrip

  predicate OccursAt(sub: string, s: string, p: nat) {
    p + |sub| <= |s| && s[p..p + |sub|] == sub
  }

  ghost predicate Occurs(sub: string, s: string) {
    exists p: nat :: OccursAt(sub, s, p)
  }

  /** How much of sub the scanner has matched after reading s; it stops at the whole of it. On a
      mismatch it starts again after the offending character, without looking at it twice. */
  function Matched(s: string, sub: string): (j: nat)
    ensures j <= |sub|
  {
    if s == "" then 0
    else
      var j := Matched(s[..|s| - 1], sub);
      if j == |sub| then j else if s[|s| - 1] == sub[j] then j + 1 else 0
  }

  predicate Found(s: string, sub: string) {
    sub != "" && Matched(s, sub) == |sub|
  }

  /** is_substring. */
  method IsSubstring(s: string, sub: string) returns (r: bool)
    ensures r <==> Found(s, sub)
  {
    var i, j := 0, 0;
    while i < |s|
      invariant i <= |s|
      invariant j == Matched(s[..i], sub) && (sub != "" ==> j < |sub|)
    {
      assert s[..i + 1][..i] == s[..i];
      if j < |sub| && s[i] == sub[j] {
        j := j + 1;
        if j == |sub| {
          FoundEarlier(s[..i + 1], s[i + 1..], sub);
          assert s[..i + 1] + s[i + 1..] == s;
          return true;
        }
      } else {
        j := 0;
      }
      i := i + 1;
    }
    assert s[..i] == s;
    return false;
  }

  /** Once found, found for good. */
  lemma {:induction false} FoundEarlier(s: string, t: string, sub: string)
    requires Found(s, sub)
    ensures Found(s + t, sub)
    decreases |t|
  {
    if t == "" {
      assert s + t == s;
    } else {
      assert (s + t)[..|s + t| - 1] == s + t[..|t| - 1];
      FoundEarlier(s, t[..|t| - 1], sub);
    }
  }

  /** What has been matched is what was read last. */
  lemma {:induction false} MatchedSuffix(s: string, sub: string)
    requires Matched(s, sub) < |sub|
    ensures Matched(s, sub) <= |s| && s[|s| - Matched(s, sub)..] == sub[..Matched(s, sub)]
  {
    var j := Matched(s, sub);
    if j > 0 {
      var t := s[..|s| - 1];
      MatchedSuffix(t, sub);
      assert s == t + [s[|s| - 1]];
      assert sub[..j] == sub[..j - 1] + [sub[j - 1]];
    }
  }

  /** From no match at p, reading k characters of sub matches k. */
  lemma {:induction false} MatchesOn(s: string, sub: string, p: nat, k: nat)
    requires p + k <= |s| && k <= |sub| && s[p..p + k] == sub[..k]
    requires Matched(s[..p], sub) == 0
    ensures Matched(s[..p + k], sub) == k
    decreases k
  {
    if k > 0 {
      assert s[p..p + k - 1] == s[p..p + k][..k - 1] == sub[..k - 1];
      MatchesOn(s, sub, p, k - 1);
      assert s[..p + k][..p + k - 1] == s[..p + k - 1];
      assert s[p + k - 1] == s[p..p + k][k - 1] == sub[k - 1];
    }
  }

  /** A match of j characters began j characters ago, with nothing matched. */
  lemma {:induction false} MatchBegan(s: string, sub: string)
    requires Matched(s, sub) < |sub|
    ensures Matched(s, sub) <= |s| && Matched(s[..|s| - Matched(s, sub)], sub) == 0
  {
    var j := Matched(s, sub);
    if j > 0 {
      MatchBegan(s[..|s| - 1], sub);
      assert s[..|s| - 1][..|s| - j] == s[..|s| - j];
    } else {
      assert s[..|s|] == s;
    }
  }

  /** An occurrence that begins while nothing is matched. */
  ghost predicate Begins(sub: string, s: string, p: nat) {
    OccursAt(sub, s, p) && Matched(s[..p], sub) == 0
  }

  lemma BeginsFound(s: string, sub: string, p: nat)
    requires sub != "" && Begins(sub, s, p)
    ensures Found(s, sub)
  {
    assert sub[..|sub|] == sub;
    MatchesOn(s, sub, p, |sub|);
    FoundEarlier(s[..p + |sub|], s[p + |sub|..], sub);
    assert s[..p + |sub|] + s[p + |sub|..] == s;
  }

  lemma {:induction false} FoundBegins(s: string, sub: string) returns (p: nat)
    requires Found(s, sub)
    ensures Begins(sub, s, p)
  {
    hide Matched;
    LastStep(s, sub);
    var t := s[..|s| - 1];
    if Found(t, sub) {
      p := FoundBegins(t, sub);
      assert s[p..p + |sub|] == t[p..p + |sub|] && s[..p] == t[..p];
    } else {
      MatchedSuffix(t, sub);
      MatchBegan(t, sub);
      p := |s| - |sub|;
      assert t[..p] == s[..p];
      assert s[p..] == t[p..] + [s[|s| - 1]] == sub;
    }
  }

  lemma LastStep(s: string, sub: string)
    requires Found(s, sub)
    ensures s != ""
    ensures !Found(s[..|s| - 1], sub) ==>
              Matched(s[..|s| - 1], sub) == |sub| - 1 && s[|s| - 1] == sub[|sub| - 1]
  {
  }

  /** Exactly what is found. */
  lemma FoundExactly(s: string, sub: string)
    requires sub != ""
    ensures Found(s, sub) <==> exists p: nat :: Begins(sub, s, p)
  {
    if Found(s, sub) {
      var p := FoundBegins(s, sub);
    }
    if p: nat :| Begins(sub, s, p) {
      BeginsFound(s, sub, p);
    }
  }

  /** So a positive answer is never wrong. */
  lemma FoundIsReal(s: string, sub: string)
    ensures Found(s, sub) ==> Occurs(sub, s)
  {
    if Found(s, sub) {
      var p := FoundBegins(s, sub);
    }
  }

  /** And an occurrence at the start, or after a character that is not in the pattern, is found. */
  lemma CleanOccurrenceFound(s: string, sub: string, p: nat)
    requires sub != "" && OccursAt(sub, s, p) && (p == 0 || s[p - 1] !in sub)
    ensures Found(s, sub)
  {
    if p > 0 && Matched(s[..p], sub) != 0 {
      var t := s[..p];
      assert t[..|t| - 1] == s[..p - 1];
      assert Found(t, sub);
      FoundEarlier(t, s[p..], sub);
      assert t + s[p..] == s;
    } else {
      assert s[..0] == "";
      BeginsFound(s, sub, p);
    }
  }

  /** The general promise of its header comment fails: one extra E hides the marker. */
  lemma MarkerMissed()
    ensures Occurs(MARKER, "E" + MARKER) && !Found("E" + MARKER, MARKER)
  {
    hide Matched;
    var s := "E" + MARKER;
    assert s == MISSED;
    assert OccursAt(MARKER, s, 1);
    MissedStep(15);
    assert s[..16] == s;
  }

  /** One character more. */
  lemma MatchedNext(s: string, sub: string, k: nat)
    requires k < |s|
    ensures Matched(s[..k + 1], sub) ==
              var j := Matched(s[..k], sub);
              if j == |sub| then j else if s[k] == sub[j] then j + 1 else 0
  {
    assert s[..k + 1][..k] == s[..k] && s[..k + 1][k] == s[k];
  }

  const MISSED: string := "EEXEC_REPORT_END"

  lemma MissedCharacters(k: nat)
    requires k < 16
    ensures |MISSED| == 16 && (MISSED[k] == 'E' <==> k in {0, 1, 3, 7, 13}) && (MISSED[k] == 'X' <==> k == 2)
  {
  }

  lemma {:induction false} MissedStep(k: nat)
    requires k < 16
    ensures Matched(MISSED[..k + 1], MARKER) == if k in {0, 3, 7, 13} then 1 else 0
  {
    hide Matched, MISSED;
    MissedCharacters(k);
    MatchedNext(MISSED, MARKER, k);
    assert MARKER[0] == 'E' && MARKER[1] == 'X' && |MARKER| == 15;
    if k > 0 {
      MissedStep(k - 1);
    } else {
      assert MISSED[..0] == "";
      NothingMatched(MARKER);
    }
  }

  lemma NothingMatched(sub: string)
    ensures Matched("", sub) == 0
  {
  }

  // ----- the stream of a worker's report -----

  /** No field or error line contains the end marker. */
  ghost predicate Clean(r: Report) {
    && !Occurs(MARKER, r.source) && !Occurs(MARKER, r.target) && !Occurs(MARKER, r.operation)
    && forall k :: 0 <= k < |r.errors| ==> !Occurs(MARKER, r.errors[k])
  }

  /** A character outside the pattern splits a text: no occurrence crosses it. */
  lemma NoOccurrenceAcross(sub: string, a: string, c: char, b: string)
    requires sub != "" && c !in sub && !Occurs(sub, a) && !Occurs(sub, b)
    ensures !Occurs(sub, a + [c] + b)
  {
    var s := a + [c] + b;
    forall p: nat ensures !OccursAt(sub, s, p) {
      if p + |sub| <= |s| {
        if p + |sub| <= |a| {
          assert s[p..p + |sub|] == a[p..p + |sub|];
          assert !OccursAt(sub, a, p);
        } else if p > |a| {
          assert s[p..p + |sub|] == b[p - |a| - 1..p - |a| - 1 + |sub|];
          assert !OccursAt(sub, b, p - |a| - 1);
        } else {
          assert s[p..p + |sub|][|a| - p] == c;
        }
      }
    }
  }

  lemma ShortClean(s: string)
    requires |s| < 15
    ensures !Occurs(MARKER, s)
  {
  }

  lemma LineClean(tag: string, value: string, rest: string)
    requires |tag| < 15 && !Occurs(MARKER, value) && !Occurs(MARKER, rest)
    ensures !Occurs(MARKER, Line(tag, value, rest))
  {
    ShortClean(tag);
    ShortClean("");
    NoOccurrenceAcross(MARKER, value, '\n', rest);
    NoOccurrenceAcross(MARKER, "", ' ', value + ['\n'] + rest);
    assert "" + [' '] + (value + ['\n'] + rest) == " " + value + ['\n'] + rest;
    NoOccurrenceAcross(MARKER, tag, ':', " " + value + ['\n'] + rest);
  }

  lemma {:induction false} ErrorsClean(errors: seq<string>)
    requires forall k :: 0 <= k < |errors| ==> !Occurs(MARKER, errors[k])
    ensures !Occurs(MARKER, ErrorText(errors))
  {
    if errors == [] {
      ShortClean("");
    } else {
      ErrorsClean(errors[1..]);
      NoOccurrenceAcross(MARKER, errors[0], '\n', ErrorText(errors[1..]));
    }
  }

  /** The marker needs an X; the details have none. */
  lemma NoX(s: string)
    requires 'X' !in s
    ensures !Occurs(MARKER, s)
  {
    forall p: nat ensures !OccursAt(MARKER, s, p) {
      if p + 15 <= |s| {
        assert MARKER[1] == 'X' && s[p..p + 15][1] == s[p + 1];
      }
    }
  }

  lemma CountNoX(n: nat, words: string)
    requires 'X' !in words
    ensures 'X' !in Count(n, words)
  {
    if n > 0 {
      assert forall k :: 0 <= k < |Numeral(n)| ==> IsDigit(Numeral(n)[k]);
    }
  }

  lemma StartClean()
    ensures !Occurs(MARKER, "EXEC_REPORT_START")
  {
    var s := "EXEC_REPORT_START";
    forall p: nat ensures !OccursAt(MARKER, s, p) {
      if p + 15 <= |s| {
        assert s[p..p + 15][12] == s[p + 12] && MARKER[12] == 'E';
      }
    }
  }

  /** Nothing before the final marker of a clean report contains the marker. */
  lemma BeforeClean(r: Report)
    requires Clean(r)
    ensures !Occurs(MARKER, LinesThen(r, ""))
  {
    hide Line, Occurs, Details, Count;
    var d := Details(r.copied, r.deleted, r.skipped);
    assert 'X' !in d by { DetailsNoX(r.copied, r.deleted, r.skipped); }
    NoX(d);
    var l6 := ErrorSection(r.errors, "");
    ErrorSectionClean(r.errors);
    var l5 := Line("DETAILS", d, l6);
    LineClean("DETAILS", d, l6);
    var l4 := Line("STATUS", r.Status(), l5);
    ShortClean(r.Status());
    LineClean("STATUS", r.Status(), l5);
    var l3 := Line("OPERATION", r.operation, l4);
    LineClean("OPERATION", r.operation, l4);
    var l2 := Line("TARGET DIR", r.target, l3);
    LineClean("TARGET DIR", r.target, l3);
    var l1 := Line("SOURCE DIR", r.source, l2);
    LineClean("SOURCE DIR", r.source, l2);
    StartClean();
    NoOccurrenceAcross(MARKER, "EXEC_REPORT_START", '\n', l1);
  }

  lemma DetailsNoX(copied: nat, deleted: nat, skipped: nat)
    ensures 'X' !in Details(copied, deleted, skipped)
  {
    CountNoX(copied, COPIED);
    CountNoX(deleted, DELETED);
    CountNoX(skipped, SKIPPED);
  }

  lemma ErrorSectionClean(errors: seq<string>)
    requires forall k :: 0 <= k < |errors| ==> !Occurs(MARKER, errors[k])
    ensures !Occurs(MARKER, ErrorSection(errors, ""))
  {
    ShortClean("");
    ShortClean("ERRORS");
    if errors != [] {
      ErrorsClean(errors);
      NoOccurrenceAcross(MARKER, ErrorText(errors), '\n', "");
      NoOccurrenceAcross(MARKER, "ERRORS", ':', ErrorText(errors) + ['\n'] + "");
    }
  }

  lemma {:induction false} ErrorSectionThen(errors: seq<string>, x: string)
    requires errors != []
    ensures ErrorSection(errors, x) == ErrorSection(errors, "") + x
  {
  }

  lemma LineThen(tag: string, value: string, rest: string, x: string)
    ensures Line(tag, value, rest + x) == Line(tag, value, rest) + x
  {
  }

  /** A report is what stands before its marker, the marker, and a newline. */
  lemma PrintedEnds(r: Report, x: string)
    ensures LinesThen(r, x) == LinesThen(r, "") + x
  {
    hide Line, Details, ErrorText;
    var d := Details(r.copied, r.deleted, r.skipped);
    var e := ErrorSection(r.errors, "");
    assert ErrorSection(r.errors, x) == e + x by {
      if r.errors != [] { ErrorSectionThen(r.errors, x); }
    }
    LineThen("DETAILS", d, e, x);
    var l5 := Line("DETAILS", d, e);
    LineThen("STATUS", r.Status(), l5, x);
    var l4 := Line("STATUS", r.Status(), l5);
    LineThen("OPERATION", r.operation, l4, x);
    var l3 := Line("OPERATION", r.operation, l4);
    LineThen("TARGET DIR", r.target, l3, x);
    var l2 := Line("TARGET DIR", r.target, l3);
    LineThen("SOURCE DIR", r.source, l2, x);
    var l1 := Line("SOURCE DIR", r.source, l2);
    assert "EXEC_REPORT_START" + ['\n'] + (l1 + x) == "EXEC_REPORT_START" + ['\n'] + l1 + x;
  }

  /** The printer puts a newline before the marker. */
  lemma NewlineBeforeMarker(r: Report)
    ensures var before := LinesThen(r, "");
            && Printed(r) == before + MARKER + "\n"
            && before != "" && before[|before| - 1] == '\n'
  {
    hide LinesThen, Header, Count, ErrorText;
    PrintedIsLines(r);
    PrintedEnds(r, MARKER + "\n");
    var before := LinesThen(r, "");
    assert before + (MARKER + "\n") == before + MARKER + "\n";
    var p := Printed(r);
    assert p[|p| - 17..] == END by { PrintedSuffix(r); }
    assert p[|p| - 17] == END[0] == '\n';
  }

  lemma PrintedSuffix(r: Report)
    ensures |Printed(r)| >= 17 && Printed(r)[|Printed(r)| - 17..] == END
  {
    hide Header, Count, ErrorText;
    assert |END| == 17;
  }

  lemma OccursLonger(sub: string, s: string, t: string)
    requires s <= t
    ensures Occurs(sub, s) ==> Occurs(sub, t)
  {
    if p: nat :| OccursAt(sub, s, p) {
      assert t[p..p + |sub|] == s[p..p + |sub|];
      assert OccursAt(sub, t, p);
    }
  }

  lemma NotYet(before: string, t: string)
    requires before != "" && before[|before| - 1] == '\n' && !Occurs(MARKER, before)
    requires t <= before + MARKER[..14]
    ensures !Occurs(MARKER, t)
  {
    hide Occurs;
    var a := before[..|before| - 1];
    OccursLonger(MARKER, a, before);
    ShortClean(MARKER[..14]);
    NoOccurrenceAcross(MARKER, a, '\n', MARKER[..14]);
    assert a + ['\n'] + MARKER[..14] == before + MARKER[..14];
    OccursLonger(MARKER, t, before + MARKER[..14]);
  }

  /** The scanner fires on what has arrived of a clean report exactly when the whole marker has. */
  lemma FiresExactly(r: Report, t: string)
    requires Clean(r) && t <= Printed(r)
    ensures Found(t, MARKER) <==> |Printed(r)| <= |t| + 1
  {
    hide LinesThen, Printed, Occurs, Found, Matched;
    var before := LinesThen(r, "");
    NewlineBeforeMarker(r);
    BeforeClean(r);
    if |Printed(r)| <= |t| + 1 {
      assert t[|before|..|before| + 15] == MARKER;
      assert t[|before| - 1] == '\n';
      CleanOccurrenceFound(t, MARKER, |before|);
    } else {
      assert (before + MARKER + "\n")[..|before| + 14] == before + MARKER[..14];
      NotYet(before, t);
      FoundIsReal(t, MARKER);
    }
  }

  /** Whatever the splitting into reads, the scanner fires first on the read that completes the
      marker, and what is parsed then is the report the worker meant. */
  lemma ChunkingIndependence(r: Report, chunks: seq<string>, k: nat)
    requires Clean(r) && GoodFields(r) && GoodErrors(r.errors)
    requires k <= |chunks| && Concat(chunks) <= Printed(r)
    ensures Found(Concat(chunks[..k]), MARKER) <==> |Printed(r)| <= |Concat(chunks[..k])| + 1
    ensures Found(Concat(chunks[..k]), MARKER) ==> Parse(Concat(chunks[..k]), NO_FIELDS) == Parsed(Meant(r))
  {
    var t := Concat(chunks[..k]);
    ConcatAppend(chunks[..k], chunks[k..]);
    assert chunks[..k] + chunks[k..] == chunks;
    assert t <= Printed(r);
    FiresExactly(r, t);
    if Found(t, MARKER) {
      ArrivedParses(r, t);
    }
  }

  /** The newline after the marker need not have arrived. */
  lemma ArrivedParses(r: Report, t: string)
    requires GoodFields(r) && GoodErrors(r.errors)
    requires t <= Printed(r) && |Printed(r)| <= |t| + 1
    ensures Parse(t, NO_FIELDS) == Parsed(Meant(r))
  {
    hide LinesThen, Printed, Parse;
    NewlineBeforeMarker(r);
    PrintedEnds(r, MARKER + "");
    PrintedEnds(r, MARKER + "\n");
    var before := LinesThen(r, "");
    assert MARKER + "" == MARKER;
    if |t| < |Printed(r)| {
      assert t == (before + MARKER + "\n")[..|before| + 15] == before + MARKER;
      ParseLines(r, "");
    } else {
      assert before + MARKER + "\n" == before + (MARKER + "\n");
      assert t == Printed(r);
      ParseLines(r, "\n");
    }
  }
}
