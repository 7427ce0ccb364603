/** The report a worker prints on its pipe and the manager's parser for it. */
module WorkerReport {
  import opened CStrings
  import opened Strtok
  import opened Decimal

  const MARKER: string := "EXEC_REPORT_END"

  /** What a worker has to say when it ends: its arguments, its counters and its error lines
      (without their newlines). */
  datatype Report = Report(source: string, target: string, operation: string,
                           copied: nat, deleted: nat, skipped: nat, errors: seq<string>)
  {
    function Status(): string {
      if errors == [] then "SUCCESS" else if deleted == 0 && copied == 0 then "ERROR" else "PARTIAL"
    }
  }

  function Count(n: nat, words: string): string {
    if n > 0 then Numeral(n) + words else ""
  }

  const COPIED: string := " files copied,"
  const DELETED: string := " files deleted,"
  const SKIPPED: string := " files skipped"

  function Details(copied: nat, deleted: nat, skipped: nat): string {
    Count(copied, COPIED) + (Count(deleted, DELETED) + Count(skipped, SKIPPED))
  }

  /** Word for word. */
  lemma DetailsWords(copied: nat, deleted: nat, skipped: nat)
    ensures Details(copied, deleted, skipped)
         == (if copied > 0 then Numeral(copied) + " files copied," else "")
            + ((if deleted > 0 then Numeral(deleted) + " files deleted," else "")
               + (if skipped > 0 then Numeral(skipped) + " files skipped" else ""))
  {
  }

  /** The error buffer: every line closed by a newline. */
  function ErrorText(errors: seq<string>): string {
    if errors == [] then "" else errors[0] + "\n" + ErrorText(errors[1..])
  }

  // The literal pieces, in the order in which they are written.
  const START: string := "EXEC_REPORT_START\n"
  const SOURCE: string := "SOURCE DIR: "
  const TARGET: string := "\nTARGET DIR: "
  const OPERATION: string := "\nOPERATION: "
  const STATUS: string := "\nSTATUS: "
  const DETAILS: string := "DETAILS: "
  const ERRORS: string := "\nERRORS:"
  const END: string := "\nEXEC_REPORT_END\n"

  function Header(r: Report): string {
    START + SOURCE + r.source + TARGET + r.target + OPERATION + r.operation + STATUS + (r.Status() + "\n") + DETAILS
  }

  /** Everything the worker writes, piece by piece. */
  function Printed(r: Report): string {
    Header(r) + Count(r.copied, COPIED) + Count(r.deleted, DELETED) + Count(r.skipped, SKIPPED)
    + (if r.errors == [] then "" else ERRORS + ErrorText(r.errors)) + END
  }

  /** The worker's end of its pipe. */
  class Pipe {
    var text: string

    constructor ()
      ensures text == ""
    {
      text := "";
    }

    /** write(1, s, n): the first n bytes of s. */
    method Write(s: string, n: nat)
      requires n <= |s|
      modifies this
      ensures text == old(text) + (if n == |s| then s else s[..n])
    {
      text := text + s[..n];
    }
  }

  /** One count of the DETAILS line, with the byte count of the words. The numeral is made before its
      length is taken: the order the source fixes for the skipped files only, and leaves to the compiler
      for the other two. */
  method PrintCount(pipe: Pipe, numBuffer: array<char>, n: nat, words: string, bytes: nat)
    requires n < 0x8000_0000 && numBuffer.Length == 32 && bytes == |words|
    modifies pipe, numBuffer
    ensures pipe.text == old(pipe.text) + Count(n, words)
    ensures n > 0 ==> Terminated(numBuffer[..], 0) && CString(numBuffer[..], 0) == Numeral(n)
  {
    if n > 0 {
      IntFitsBuffer(n);
      NumberToString(numBuffer, n);
      var s := CString(numBuffer[..], 0);
      pipe.Write(s, |s|);
      pipe.Write(words, bytes);
      assert old(pipe.text) + s + words == old(pipe.text) + (s + words);
    }
  }

  /** The same when the compiler takes the length first: it is that of what the buffer held before. The
      count is printed right exactly when that was as long as the numeral; for the deleted files it was
      the numeral of the copied ones. */
  method PrintCountLengthFirst(pipe: Pipe, numBuffer: array<char>, n: nat, words: string, bytes: nat)
    requires 0 < n < 0x8000_0000 && numBuffer.Length == 32 && bytes == |words| && Terminated(numBuffer[..], 0)
    modifies pipe, numBuffer
    ensures pipe.text == old(pipe.text) + Count(n, words) <==> |old(CString(numBuffer[..], 0))| == |Numeral(n)|
  {
    var length := |CString(numBuffer[..], 0)|;
    IntFitsBuffer(n);
    NumberToString(numBuffer, n);
    ghost var before := pipe.text;
    pipe.Write(numBuffer[..], length);
    pipe.Write(words, bytes);
    assert pipe.text == before + numBuffer[..length] + words;
    SameLengths(before, numBuffer[..length], Numeral(n), words);
    assert length == |Numeral(n)| ==> numBuffer[..length] == CString(numBuffer[..], 0);
  }

  lemma SameLengths(before: string, a: string, b: string, words: string)
    ensures before + a + words == before + (b + words) <==> a == b
  {
    if before + a + words == before + (b + words) {
      assert |a| == |b|;
      assert a == (before + a + words)[|before|..|before| + |a|];
      assert b == (before + (b + words))[|before|..|before| + |b|];
    }
  }

  /** The header lines, with the byte counts the source passes to write. */
  method PrintHeader(r: Report, pipe: Pipe)
    requires pipe.text == ""
    modifies pipe
    ensures pipe.text == Header(r)
  {
    pipe.Write(START, 18);
    assert pipe.text == START;
    pipe.Write(SOURCE, 12);
    pipe.Write(r.source, |r.source|);
    pipe.Write(TARGET, 13);
    pipe.Write(r.target, |r.target|);
    pipe.Write(OPERATION, 12);
    pipe.Write(r.operation, |r.operation|);
    pipe.Write(STATUS, 9);
    if r.errors == [] {
      pipe.Write("SUCCESS\n", 8);
      assert "SUCCESS\n" == "SUCCESS" + "\n";
    } else if r.deleted == 0 && r.copied == 0 {
      pipe.Write("ERROR\n", 6);
      assert "ERROR\n" == "ERROR" + "\n";
    } else {
      pipe.Write("PARTIAL\n", 8);
      assert "PARTIAL\n" == "PARTIAL" + "\n";
    }
    pipe.Write(DETAILS, 9);
  }

  /** The whole printer. */
  method PrintReport(r: Report, pipe: Pipe)
    requires r.copied < 0x8000_0000 && r.deleted < 0x8000_0000 && r.skipped < 0x8000_0000
    requires pipe.text == ""
    modifies pipe
    ensures pipe.text == Printed(r)
  {
    hide Header, Count, ErrorText;
    PrintHeader(r, pipe);
    var numBuffer := new char[32];
    PrintCount(pipe, numBuffer, r.copied, COPIED, 14);
    PrintCount(pipe, numBuffer, r.deleted, DELETED, 15);
    PrintCount(pipe, numBuffer, r.skipped, SKIPPED, 14);
    ghost var before := pipe.text;
    if r.errors != [] {
      var errorBuffer := ErrorText(r.errors);
      pipe.Write(ERRORS, 8);
      pipe.Write(errorBuffer, |errorBuffer|);
      assert before + ERRORS + errorBuffer == before + (ERRORS + errorBuffer);
    } else {
      assert before == before + "";
    }
    pipe.Write(END, 17);
  }
}
