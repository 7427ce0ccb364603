/** What the manager parses is what the worker printed. */
module RoundTrip {
  import opened CStrings
  import opened Strtok
  import opened Decimal
  import opened WorkerReport
  import opened ReportParser

  /** One labelled line, and the text after it. */
  function Line(tag: string, value: string, rest: string): string {
    tag + [':'] + (" " + value + ['\n'] + rest)
  }

  function ErrorSection(errors: seq<string>, rest: string): string {
    if errors == [] then rest else "ERRORS" + [':'] + (ErrorText(errors) + ['\n'] + rest)
  }

  /** The report as lines, and the text after its last newline before the end marker. */
  function LinesThen(r: Report, rest: string): string {
    "EXEC_REPORT_START" + ['\n'] +
    Line("SOURCE DIR", r.source,
    Line("TARGET DIR", r.target,
    Line("OPERATION", r.operation,
    Line("STATUS", r.Status(),
    Line("DETAILS", Details(r.copied, r.deleted, r.skipped),
    ErrorSection(r.errors, rest))))))
  }

  /** A report up to its end marker; tail is what has arrived after it. */
  function Lines(r: Report, tail: string): string {
    LinesThen(r, MARKER + tail)
  }

  /** An error line strtok keeps whole and the counting loop does not take for the marker. */
  predicate GoodErrors(errors: seq<string>) {
    forall k :: 0 <= k < |errors| ==> IsToken(errors[k], LINE_DELIMS) && errors[k] != MARKER
  }

  predicate GoodFields(r: Report) {
    && IsToken(r.source, VALUE_DELIMS) && IsToken(r.target, VALUE_DELIMS) && IsToken(r.operation, VALUE_DELIMS)
  }

  /** The fields as the worker meant them; the details keep the space that follows their label. */
  function Meant(r: Report): Fields {
    Fields(Some(r.source), Some(r.target), Some(r.Status()), Some(r.operation),
           Some(" " + Details(r.copied, r.deleted, r.skipped)), |r.errors|)
  }

  // ----- the printed text is the lines -----

  lemma LinesAreHeader(r: Report, rest: string)
    ensures Header(r) + rest ==
            "EXEC_REPORT_START" + ['\n'] + Line("SOURCE DIR", r.source, Line("TARGET DIR", r.target,
            Line("OPERATION", r.operation, Line("STATUS", r.Status(), "DETAILS" + [':'] + (" " + rest)))))
  {
    Pieces();
    HeaderGroups("EXEC_REPORT_START", "SOURCE DIR", r.source, "TARGET DIR", r.target, "OPERATION", r.operation,
                 "STATUS", r.Status(), "DETAILS", rest);
  }

  lemma HeaderGroups(start: string, s: string, source: string, t: string, target: string, o: string, operation: string,
                     u: string, status: string, d: string, rest: string)
    ensures start + ['\n'] + (s + ": ") + source + ("\n" + t + ": ") + target + ("\n" + o + ": ") + operation
            + ("\n" + u + ": ") + (status + "\n") + (d + ": ") + rest
         == start + ['\n'] + Line(s, source, Line(t, target, Line(o, operation, Line(u, status, d + [':'] + (" " + rest)))))
  {
    hide Line;
    var l4 := d + [':'] + (" " + rest);
    var l3 := Line(u, status, l4);
    var l2 := Line(o, operation, l3);
    var l1 := Line(t, target, l2);
    var h0 := start + ['\n'] + (s + ": ") + source;
    var h1 := h0 + ("\n" + t + ": ") + target;
    var h2 := h1 + ("\n" + o + ": ") + operation;
    var h3 := h2 + ("\n" + u + ": ") + status;
    assert h2 + ("\n" + u + ": ") + (status + "\n") + (d + ": ") + rest == h3 + ['\n'] + l4;
    Nest(h2, u, status, l4);
    Nest(h1, o, operation, l3);
    Nest(h0, t, target, l2);
    FirstLine(start, s, source, l1);
  }

  lemma Nest(h: string, tag: string, value: string, rest: string)
    ensures h + ("\n" + tag + ": ") + value + ['\n'] + rest == h + ['\n'] + Line(tag, value, rest)
  {
  }

  lemma FirstLine(start: string, tag: string, value: string, rest: string)
    ensures start + ['\n'] + (tag + ": ") + value + ['\n'] + rest == start + ['\n'] + Line(tag, value, rest)
  {
  }

  lemma Pieces()
    ensures START == "EXEC_REPORT_START" + ['\n'] && SOURCE == "SOURCE DIR" + ": " && TARGET == "\n" + "TARGET DIR" + ": "
    ensures OPERATION == "\n" + "OPERATION" + ": " && STATUS == "\n" + "STATUS" + ": " && DETAILS == "DETAILS" + ": "
    ensures ERRORS == "\n" + "ERRORS" + ":" && END == "\n" + MARKER + "\n"
  {
  }

  lemma EndGroups(h: string, c: string, d: string, k: string, sec: string, marker: string, tail: string, errors: string, text: string)
    requires sec == "" || sec == "\n" + errors + ":" + text
    ensures h + c + d + k + sec + ("\n" + marker + tail)
         == h + ((c + (d + k)) + ['\n'] + (if sec == "" then marker + tail else errors + [':'] + (text + ['\n'] + (marker + tail))))
  {
    if sec == "" {
      assert h + c + d + k + sec + ("\n" + marker + tail) == h + ((c + (d + k)) + ['\n'] + (marker + tail));
    } else {
      var rest := errors + [':'] + (text + ['\n'] + (marker + tail));
      assert sec + ("\n" + marker + tail) == ['\n'] + rest;
      assert h + c + d + k + sec + ("\n" + marker + tail) == h + c + d + k + (sec + ("\n" + marker + tail));
      assert h + c + d + k + (['\n'] + rest) == h + ((c + (d + k)) + ['\n'] + rest);
    }
  }

  /** The pieces the worker writes are the lines the manager reads. */
  lemma PrintedIsLines(r: Report)
    ensures Printed(r) == Lines(r, "\n")
  {
    hide Header, Line, Count, ErrorText;
    var c, d, k := Count(r.copied, COPIED), Count(r.deleted, DELETED), Count(r.skipped, SKIPPED);
    var sec := if r.errors == [] then "" else ERRORS + ErrorText(r.errors);
    var rest := Details(r.copied, r.deleted, r.skipped) + ['\n'] + ErrorSection(r.errors, MARKER + "\n");
    Pieces();
    EndGroups(Header(r), c, d, k, sec, MARKER, "\n", "ERRORS", ErrorText(r.errors));
    assert Printed(r) == Header(r) + rest;
    LinesAreHeader(r, rest);
    LastLine(Details(r.copied, r.deleted, r.skipped), ErrorSection(r.errors, MARKER + "\n"));
  }

  lemma LastLine(value: string, rest: string)
    ensures "DETAILS" + [':'] + (" " + (value + ['\n'] + rest)) == Line("DETAILS", value, rest)
  {
    assert " " + (value + ['\n'] + rest) == " " + value + ['\n'] + rest;
  }

  // ----- parsing the lines -----

  /** A label and a value: two strtok calls, and the parser stands at the next line. */
  lemma LabelThen(tag: string, value: string, rest: string)
    requires IsToken(tag, LABEL_DELIMS)
    ensures NextToken(Line(tag, value, rest), LABEL_DELIMS) == Scan(Some(tag), " " + value + ['\n'] + rest)
    ensures IsToken(value, VALUE_DELIMS) ==>
              NextToken(" " + value + ['\n'] + rest, VALUE_DELIMS) == Scan(Some(value), rest)
    ensures Free(value, LABEL_DELIMS) ==>
              NextToken(" " + value + ['\n'] + rest, LABEL_DELIMS) == Scan(Some(" " + value), rest)
  {
    hide NextToken;
    NextTokenAt("", tag, ':', " " + value + ['\n'] + rest, LABEL_DELIMS);
    assert "" + tag + [':'] + (" " + value + ['\n'] + rest) == Line(tag, value, rest);
    if IsToken(value, VALUE_DELIMS) {
      NextTokenAt(" ", value, '\n', rest, VALUE_DELIMS);
    }
    if Free(value, LABEL_DELIMS) {
      NextTokenAt("", " " + value, '\n', rest, LABEL_DELIMS);
      assert "" + (" " + value) + ['\n'] + rest == " " + value + ['\n'] + rest;
    }
  }

  lemma TagsAreTokens()
    ensures IsToken("EXEC_REPORT_START", LABEL_DELIMS) && IsToken("SOURCE DIR", LABEL_DELIMS)
    ensures IsToken("TARGET DIR", LABEL_DELIMS) && IsToken("OPERATION", LABEL_DELIMS)
    ensures IsToken("STATUS", LABEL_DELIMS) && IsToken("DETAILS", LABEL_DELIMS) && IsToken("ERRORS", LABEL_DELIMS)
  {
  }

  lemma MarkerIsToken()
    ensures IsToken(MARKER, LABEL_DELIMS) && IsToken(MARKER, LINE_DELIMS)
  {
  }

  lemma StatusIsToken(r: Report)
    ensures IsToken(r.Status(), VALUE_DELIMS)
  {
  }

  /** The counting loop sees every line of the error buffer, then the marker. */
  lemma {:induction false} CountsLines(errors: seq<string>, tail: string)
    requires GoodErrors(errors) && tail in {"", "\n"}
    ensures CountErrors(ErrorText(errors) + ['\n'] + (MARKER + tail)) == Some((|errors|, ""))
  {
    hide NextToken;
    var end := ['\n'] + (MARKER + tail);
    var text := ErrorText(errors) + ['\n'] + (MARKER + tail);
    assert text == ErrorText(errors) + end;
    MarkerIsToken();
    if errors == [] {
      assert text == end;
      if tail == "" {
        NextTokenLast("\n", MARKER, LINE_DELIMS);
        assert text == "\n" + MARKER;
      } else {
        NextTokenAt("\n", MARKER, '\n', "", LINE_DELIMS);
        assert text == "\n" + MARKER + ['\n'] + "";
      }
    } else {
      var rest := ErrorText(errors[1..]) + ['\n'] + (MARKER + tail);
      assert IsToken(errors[0], LINE_DELIMS);
      NextTokenAt("", errors[0], '\n', rest, LINE_DELIMS);
      assert text == "" + errors[0] + ['\n'] + rest;
      CountsLines(errors[1..], tail);
    }
  }

  /** Whether or not the last newline has arrived, nothing follows the marker. */
  lemma ParseEnd(tail: string, f: Fields)
    requires tail in {"", "\n"}
    ensures Parse(MARKER + tail, f) == Parsed(f)
  {
    hide NextToken;
    MarkerIsToken();
    if tail == "" {
      NextTokenLast("", MARKER, LABEL_DELIMS);
      assert MARKER + tail == "" + MARKER;
    } else {
      NextTokenAt("", MARKER, '\n', "", LABEL_DELIMS);
      assert MARKER + tail == "" + MARKER + ['\n'] + "";
    }
    NextTokenNone("", LABEL_DELIMS);
  }

  lemma ParseErrorSection(errors: seq<string>, tail: string, f: Fields)
    requires GoodErrors(errors) && tail in {"", "\n"}
    ensures Parse(ErrorSection(errors, MARKER + tail), f) == Parsed(f.(errors := f.errors + |errors|))
  {
    hide NextToken, CountErrors;
    if errors == [] {
      ParseEnd(tail, f);
    } else {
      var text := ErrorText(errors) + ['\n'] + (MARKER + tail);
      TagsAreTokens();
      NextTokenAt("", "ERRORS", ':', text, LABEL_DELIMS);
      assert ErrorSection(errors, MARKER + tail) == "" + "ERRORS" + [':'] + text;
      CountsLines(errors, tail);
      NextTokenNone("", LABEL_DELIMS);
      assert Parse("", f.(errors := f.errors + |errors|)) == Parsed(f.(errors := f.errors + |errors|));
    }
  }

  lemma ParseLine(tag: string, value: string, rest: string, f: Fields)
    requires IsToken(tag, LABEL_DELIMS) && IsToken(value, VALUE_DELIMS)
    requires tag in {"SOURCE DIR", "TARGET DIR", "OPERATION", "STATUS"}
    ensures Parse(Line(tag, value, rest), f)
         == Parse(rest, if tag == "SOURCE DIR" then f.(source := Some(value))
                        else if tag == "TARGET DIR" then f.(target := Some(value))
                        else if tag == "STATUS" then f.(status := Some(value))
                        else f.(operation := Some(value)))
  {
    hide NextToken, Line, CountErrors, IsToken;
    LabelThen(tag, value, rest);
  }

  lemma CountFree(n: nat, words: string)
    requires Free(words, LABEL_DELIMS)
    ensures Free(Count(n, words), LABEL_DELIMS)
  {
    if n > 0 {
      var s := Numeral(n);
      forall k | 0 <= k < |Count(n, words)| ensures Count(n, words)[k] !in LABEL_DELIMS {
        if k < |s| {
          assert IsDigit(s[k]);
        } else {
          assert Count(n, words)[k] == words[k - |s|];
        }
      }
    }
  }

  lemma DetailsFree(copied: nat, deleted: nat, skipped: nat)
    ensures Free(Details(copied, deleted, skipped), LABEL_DELIMS)
  {
    CountFree(copied, COPIED);
    CountFree(deleted, DELETED);
    CountFree(skipped, SKIPPED);
  }

  /** Printing and then parsing gives back every field, the details with their leading space and
      the exact number of error lines, with or without the newline after the marker. */
  lemma ParseLines(r: Report, tail: string)
    requires GoodFields(r) && GoodErrors(r.errors) && tail in {"", "\n"}
    ensures Parse(Lines(r, tail), NO_FIELDS) == Parsed(Meant(r))
  {
    hide NextToken, Line, CountErrors, IsToken, ErrorSection, Details;
    var d := Details(r.copied, r.deleted, r.skipped);
    var l6 := ErrorSection(r.errors, MARKER + tail);
    var l5 := Line("DETAILS", d, l6);
    var l4 := Line("STATUS", r.Status(), l5);
    var l3 := Line("OPERATION", r.operation, l4);
    var l2 := Line("TARGET DIR", r.target, l3);
    var l1 := Line("SOURCE DIR", r.source, l2);
    TagsAreTokens();
    StatusIsToken(r);
    NextTokenAt("", "EXEC_REPORT_START", '\n', l1, LABEL_DELIMS);
    assert Lines(r, tail) == "" + "EXEC_REPORT_START" + ['\n'] + l1;
    ParseLine("SOURCE DIR", r.source, l2, NO_FIELDS);
    var f1 := NO_FIELDS.(source := Some(r.source));
    ParseLine("TARGET DIR", r.target, l3, f1);
    var f2 := f1.(target := Some(r.target));
    ParseLine("OPERATION", r.operation, l4, f2);
    var f3 := f2.(operation := Some(r.operation));
    ParseLine("STATUS", r.Status(), l5, f3);
    var f4 := f3.(status := Some(r.Status()));
    DetailsFree(r.copied, r.deleted, r.skipped);
    LabelThen("DETAILS", d, l6);
    ParseErrorSection(r.errors, tail, f4.(details := Some(" " + d)));
  }

  predicate TokenOrNone(field: Option<string>) {
    field.None? || IsToken(field.value, VALUE_DELIMS)
  }

  predicate TokenFields(f: Fields) {
    TokenOrNone(f.source) && TokenOrNone(f.target) && TokenOrNone(f.operation)
  }

  /** Whatever the text, the parser can only store tokens in these fields. */
  lemma {:induction false} ParsesTokens(s: string, f: Fields)
    requires TokenFields(f) && Parse(s, f).Parsed?
    ensures TokenFields(Parse(s, f).fields)
    decreases |s|
  {
    hide NextToken, CountErrors;
    var tag := NextToken(s, LABEL_DELIMS);
    if tag.token.Some? {
      var step := TakeValue(tag.token.value, tag.rest, f);
      ParsesTokens(step.value.1, step.value.0);
    }
  }

  /** The report comes back as it was meant exactly when its three argument fields are non-empty
      and free of space, colon and newline. */
  lemma RoundTripExactly(r: Report)
    requires GoodErrors(r.errors)
    ensures Parse(Printed(r), NO_FIELDS) == Parsed(Meant(r)) <==> GoodFields(r)
  {
    PrintedIsLines(r);
    if GoodFields(r) {
      ParseLines(r, "\n");
    } else if Parse(Printed(r), NO_FIELDS).Parsed? {
      ParsesTokens(Printed(r), NO_FIELDS);
    }
  }

  /** Words that cannot be taken for more digits, and long enough to tell the parts apart. */
  predicate PartWords(words: string) {
    |words| >= 8 && !IsDigit(words[0])
  }

  /** One part of the DETAILS text and whatever follows it determine the count and the rest. */
  lemma SameCount(m: nat, n: nat, words: string, x: string, y: string)
    requires PartWords(words)
    requires m > 0 && n > 0 && Count(m, words) + x == Count(n, words) + y
    ensures m == n && x == y
  {
    hide Numeral, ValueOf;
    var a, b := Numeral(m), Numeral(n);
    Regroup(a, words, x);
    Regroup(b, words, y);
    SameDigits(a, words + x, b, words + y);
    NumeralInjective(m, n);
    assert (words + x)[|words|..] == x && (words + y)[|words|..] == y;
  }

  lemma Regroup(a: string, b: string, c: string)
    ensures a + b + c == a + (b + c)
  {
  }

  /** The word after the first number tells which part a non-empty text starts with. */
  function FirstWord(s: string): string {
    var n := DigitRun(s);
    if n + 8 <= |s| then s[n..n + 8] else ""
  }

  lemma FirstWordOf(n: nat, words: string, x: string)
    requires n > 0 && PartWords(words)
    ensures FirstWord(Count(n, words) + x) == words[..8]
  {
    hide Numeral, DigitRun;
    var a := Numeral(n);
    Regroup(a, words, x);
    DigitRunIs(a, words + x);
    assert (a + (words + x))[|a|..|a| + 8] == words[..8];
  }

  function FirstPart(copied: nat, deleted: nat, skipped: nat): string {
    if copied > 0 then COPIED[..8] else if deleted > 0 then DELETED[..8] else if skipped > 0 then SKIPPED[..8] else ""
  }

  lemma DetailsStart(copied: nat, deleted: nat, skipped: nat)
    ensures FirstWord(Details(copied, deleted, skipped)) == FirstPart(copied, deleted, skipped)
  {
    hide Count, FirstWord;
    if copied > 0 {
      FirstWordOf(copied, COPIED, Count(deleted, DELETED) + Count(skipped, SKIPPED));
    } else if deleted > 0 {
      FirstWordOf(deleted, DELETED, Count(skipped, SKIPPED));
      assert Details(copied, deleted, skipped) == Count(deleted, DELETED) + Count(skipped, SKIPPED) by { NoCount(COPIED); }
    } else {
      assert Details(copied, deleted, skipped) == Count(skipped, SKIPPED) + "" by { NoCount(COPIED); NoCount(DELETED); }
      if skipped > 0 {
        FirstWordOf(skipped, SKIPPED, "");
      } else {
        NoCount(SKIPPED);
        NoFirstWord();
      }
    }
  }

  lemma NoCount(words: string)
    ensures Count(0, words) == ""
  {
  }

  lemma NoFirstWord()
    ensures FirstWord("") == ""
  {
  }

  lemma PartsDiffer()
    ensures COPIED[..8] != DELETED[..8] && DELETED[..8] != SKIPPED[..8] && COPIED[..8] != SKIPPED[..8]
    ensures |COPIED[..8]| == |DELETED[..8]| == |SKIPPED[..8]| == 8
  {
    assert COPIED[..8][7] == 'c' && DELETED[..8][7] == 'd' && SKIPPED[..8][7] == 's';
  }

  /** Different counters print different DETAILS. */
  lemma DetailsInjective(c: nat, d: nat, k: nat, c': nat, d': nat, k': nat)
    requires Details(c, d, k) == Details(c', d', k')
    ensures (c, d, k) == (c', d', k')
  {
    hide Count, FirstWord, Details;
    DetailsStart(c, d, k);
    DetailsStart(c', d', k');
    PartsDiffer();
    assert (c > 0) == (c' > 0);
    assert Count(d, DELETED) + Count(k, SKIPPED) == Count(d', DELETED) + Count(k', SKIPPED) && c == c' by {
      DetailsTail(c, d, k);
      DetailsTail(c', d', k');
      if c > 0 {
        SameCount(c, c', COPIED, Count(d, DELETED) + Count(k, SKIPPED), Count(d', DELETED) + Count(k', SKIPPED));
      }
    }
    DetailsTail(0, d, k);
    DetailsTail(0, d', k');
    DetailsStart(0, d, k);
    DetailsStart(0, d', k');
    assert (d > 0) == (d' > 0);
    if d > 0 {
      SameCount(d, d', DELETED, Count(k, SKIPPED), Count(k', SKIPPED));
    }
    DetailsTail(0, 0, k);
    DetailsTail(0, 0, k');
    DetailsStart(0, 0, k);
    DetailsStart(0, 0, k');
    assert (k > 0) == (k' > 0);
    if k > 0 {
      SameCount(k, k', SKIPPED, "", "");
    }
  }

  lemma DetailsTail(c: nat, d: nat, k: nat)
    ensures c > 0 ==> Details(c, d, k) == Count(c, COPIED) + (Count(d, DELETED) + Count(k, SKIPPED))
    ensures c == 0 ==> Details(c, d, k) == Count(d, DELETED) + Count(k, SKIPPED)
    ensures c == 0 && d == 0 ==> Details(c, d, k) == Count(k, SKIPPED)
    ensures Count(0, DELETED) == ""
  {
  }
}
