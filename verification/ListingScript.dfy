/** The listing script: which directories it takes for monitored, and exactly when it is right. */
module ListingScript {
  import opened CStrings
  import opened Strtok
  import opened Decimal
  import opened WorkerReport
  import opened ReportParser
  import opened RoundTrip
  import opened Marker
  import opened WorkerProcess
  import opened StoreModel
  import opened TaskCode
  import opened WorkerPool
  import opened ManagerModel
  import opened ManagerReports
  import opened ManagerSafety
  import opened ManagerSchedule
  import opened ManagerBooks
  import opened ManagerStartup
  import opened ManagerLog
  import opened ManagerPasses
  import opened ManagerRuns

  // ----- the pipeline -----

  const WORD: string := "Monitoring"
  const BLANKS: string := " \t"

  /** A line of the log after its timestamp, and without the pid of a report. */
  function LineText(l: LogLine): string {
    match l
    case MonitoringStarted(d) => " Monitoring started for " + d
    case MonitoringStopped(d) => " Monitoring stopped for " + d
    case Syncing(d, t) => " Syncing directory: " + (d + " -> " + t)
    case Reported(d, t, o, s, x) => " [" + d + "] [" + t + "] [" + o + "] [" + s + "] [" + x + "]"
  }

  /** cut -d"]" -f2, of which the timestamp is the first field. */
  function Cut(text: string): string {
    text[..SpanOut(text, "]")]
  }

  /** A name as the pattern of grep: a dot is any character. */
  predicate MatchesAt(file: string, text: string, p: nat) {
    p + |file| <= |text| && forall k :: 0 <= k < |file| ==> file[k] == '.' || file[k] == text[p + k]
  }

  ghost predicate Greps(file: string, text: string) {
    exists p: nat :: MatchesAt(file, text, p)
  }

  /** The line passes both greps. */
  ghost predicate Kept(l: LogLine, file: string) {
    Occurs(WORD, LineText(l)) && Greps(file, Cut(LineText(l)))
  }

  /** awk '{print $2}'. */
  function SecondWord(text: string): Option<string> {
    NextToken(NextToken(text, BLANKS).rest, BLANKS).token
  }

  /** What the script takes for the directory's state: the second word of the last line kept. */
  ghost function Answer(log: seq<LogLine>, file: string): Option<string> {
    if log == [] then None
    else if Kept(log[|log| - 1], file) then SecondWord(Cut(LineText(log[|log| - 1])))
    else Answer(log[..|log| - 1], file)
  }

  /** It lists the directory as monitored exactly if it is active. */
  ghost predicate Right(s: State, file: string) {
    Answer(s.log, file) == Some("started") <==> Active(s, file)
  }

  // ----- names -----

  /** Characters of which the shell, cut or grep make something else; a dot is not among them. */
  const SPECIAL: string := "*?[]\\^$\t"

  ghost predicate ListedName(d: string) {
    SaneName(d) && Free(d, SPECIAL) && d[0] != '-'
  }

  /** A Monitoring line of the other directory passes for one of this. */
  ghost predicate Confused(file: string, d: string) {
    d != file && (Greps(file, LineText(MonitoringStarted(d))) || Greps(file, LineText(MonitoringStopped(d))))
  }

  /** A line that is not a Monitoring line passes for one of this directory. */
  ghost predicate Disturbed(file: string, d: string, t: string) {
    (Occurs(WORD, d) || Occurs(WORD, t)) && Greps(file, LineText(Syncing(d, t)))
  }

  /** Among these sources and targets there is nothing that passes for a Monitoring line of the file. */
  ghost predicate Distinguished(file: string, D: set<string>, T: set<string>) {
    && (forall d :: d in D ==> !Confused(file, d))
    && (forall d, t :: d in D && t in T ==> !Disturbed(file, d, t))
  }

  /** The log is about these sources and targets. */
  ghost predicate Over(log: seq<LogLine>, D: set<string>, T: set<string>) {
    forall k :: 0 <= k < |log| ==> log[k].source in D && (!Monitors(log[k]) ==> log[k].target in T)
  }

  // ----- which lines are kept -----

  lemma CutWhole(text: string)
    requires ']' !in text
    ensures Cut(text) == text
  {
    SpanOutIs(text, "]", |text|);
  }

  lemma SecondWordIs(a: string, b: string, rest: string)
    requires IsToken(a, BLANKS) && IsToken(b, BLANKS)
    ensures SecondWord(" " + a + [' '] + (b + [' '] + rest)) == Some(b)
  {
    hide NextToken;
    NextTokenAt(" ", a, ' ', b + [' '] + rest, BLANKS);
    NextTokenAt("", b, ' ', rest, BLANKS);
    assert "" + b + [' '] + rest == b + [' '] + rest;
  }

  /** A Monitoring line has the word, is not cut, and says what it says. */
  lemma MonitoringLine(l: LogLine)
    requires Monitors(l) && ListedName(l.source)
    ensures Occurs(WORD, LineText(l)) && Cut(LineText(l)) == LineText(l)
    ensures SecondWord(LineText(l)) == Some(if l.MonitoringStarted? then "started" else "stopped")
  {
    hide SecondWord, SaneName, Occurs, Cut, LineText;
    var b := if l.MonitoringStarted? then "started" else "stopped";
    MonitoringText(l, b);
    MonitoringHas(b, l.source);
    CutWhole(LineText(l));
    SecondWordIs("Monitoring", b, "for " + l.source);
  }

  lemma MonitoringText(l: LogLine, b: string)
    requires Monitors(l) && ']' !in l.source && b == if l.MonitoringStarted? then "started" else "stopped"
    ensures LineText(l) == " " + "Monitoring" + [' '] + (b + [' '] + ("for " + l.source)) && ']' !in LineText(l)
  {
    var pre := if l.MonitoringStarted? then " Monitoring started for " else " Monitoring stopped for ";
    assert LineText(l) == pre + l.source;
    assert pre == " " + "Monitoring" + [' '] + (b + [' '] + "for ") by {
      if l.MonitoringStarted? { StartedPieces(); } else { StoppedPieces(); }
    }
    Regroup(" " + "Monitoring" + [' '], b + [' '], "for ", l.source);
    assert ']' !in pre by { if l.MonitoringStarted? { StartedPieces(); } else { StoppedPieces(); } }
  }

  lemma StartedPieces()
    ensures " Monitoring started for " == " " + "Monitoring" + [' '] + ("started" + [' '] + "for ")
    ensures ']' !in " Monitoring started for "
  {
  }

  lemma StoppedPieces()
    ensures " Monitoring stopped for " == " " + "Monitoring" + [' '] + ("stopped" + [' '] + "for ")
    ensures ']' !in " Monitoring stopped for "
  {
  }

  lemma Regroup(a: string, b: string, c: string, d: string)
    ensures a + (b + c) + d == a + (b + (c + d))
  {
  }

  lemma MonitoringHas(b: string, d: string)
    ensures Occurs(WORD, " " + "Monitoring" + [' '] + (b + [' '] + ("for " + d)))
  {
    hide Occurs;
    assert WORD[0..10] == WORD;
    OccursHere(WORD, WORD, 0);
    OccursInside(" ", WORD, [' '] + (b + [' '] + ("for " + d)));
    assert " " + WORD + ([' '] + (b + [' '] + ("for " + d))) == " " + "Monitoring" + [' '] + (b + [' '] + ("for " + d));
  }

  lemma OccursHere(sub: string, s: string, p: nat)
    requires p + |sub| <= |s| && s[p..p + |sub|] == sub
    ensures Occurs(sub, s)
  {
    assert OccursAt(sub, s, p);
  }

  lemma OwnLineGreps(pre: string, file: string)
    ensures Greps(file, pre + file)
  {
    assert MatchesAt(file, pre + file, |pre|);
  }

  lemma MissingCharacter(sub: string, s: string, k: nat)
    requires k < |sub| && sub[k] !in s
    ensures !Occurs(sub, s)
  {
    if Occurs(sub, s) {
      hide OccursAt;
      var p: nat :| OccursAt(sub, s, p);
      CharacterOf(sub, s, p, k);
      assert false;
    }
  }

  lemma CharacterOf(sub: string, s: string, p: nat, k: nat)
    requires OccursAt(sub, s, p) && k < |sub|
    ensures sub[k] in s
  {
    assert s[p + k] == s[p..p + |sub|][k] == sub[k];
  }

  lemma NoCapital(s: string)
    requires 'M' !in s
    ensures !Occurs(WORD, s)
  {
    MissingCharacter(WORD, s, 0);
  }

  lemma TooShort(s: string)
    requires |s| < 10
    ensures !Occurs(WORD, s)
  {
  }

  lemma Across(a: string, c: char, b: string)
    requires c in " []" && !Occurs(WORD, a) && !Occurs(WORD, b)
    ensures !Occurs(WORD, a + [c] + b)
  {
    NoOccurrenceAcross(WORD, a, c, b);
  }

  lemma OccursInside(pre: string, s: string, post: string)
    requires Occurs(WORD, s)
    ensures Occurs(WORD, pre + s + post)
  {
    var p: nat :| OccursAt(WORD, s, p);
    assert (pre + s + post)[|pre| + p..|pre| + p + 10] == s[p..p + 10];
    OccursHere(WORD, pre + s + post, |pre| + p);
  }

  /** A Syncing line has the word exactly if a name in it has. */
  lemma SyncingHas(d: string, t: string)
    ensures Occurs(WORD, LineText(Syncing(d, t))) <==> Occurs(WORD, d) || Occurs(WORD, t)
  {
    hide Occurs;
    var text := LineText(Syncing(d, t));
    if Occurs(WORD, d) {
      OccursInside(" Syncing directory: ", d, " -> " + t);
      assert text == " Syncing directory: " + d + (" -> " + t);
    } else if Occurs(WORD, t) {
      OccursInside(" Syncing directory: " + d + " -> ", t, "");
      assert text == " Syncing directory: " + d + " -> " + t + "";
    } else {
      TooShort("->");
      Across("->", ' ', t);
      Across(d, ' ', "->" + [' '] + t);
      NoCapital(" Syncing directory:");
      Across(" Syncing directory:", ' ', d + [' '] + ("->" + [' '] + t));
      assert text == " Syncing directory:" + [' '] + (d + [' '] + ("->" + [' '] + t));
    }
  }

  /** It is not cut, and its second word is directory. */
  lemma SyncingLine(d: string, t: string)
    requires ListedName(d) && ListedName(t)
    ensures Cut(LineText(Syncing(d, t))) == LineText(Syncing(d, t))
    ensures SecondWord(LineText(Syncing(d, t))) == Some("directory:")
  {
    hide NextToken, SaneName, SecondWord, Cut;
    var text := LineText(Syncing(d, t));
    assert ']' !in text by { NoBracket(d, t); }
    CutWhole(text);
    assert text == " " + "Syncing" + [' '] + ("directory:" + [' '] + (d + " -> " + t));
    SecondWordIs("Syncing", "directory:", d + " -> " + t);
  }

  lemma NoBracket(d: string, t: string)
    requires ']' !in d && ']' !in t
    ensures ']' !in LineText(Syncing(d, t))
  {
    assert ']' !in " Syncing directory: " && ']' !in " -> ";
  }

  lemma DetailsNoCapital(copied: nat, deleted: nat, skipped: nat)
    ensures 'M' !in Details(copied, deleted, skipped)
  {
    hide Numeral;
    assert 'M' !in COPIED && 'M' !in DELETED && 'M' !in SKIPPED;
    CountNoCapital(copied, COPIED);
    CountNoCapital(deleted, DELETED);
    CountNoCapital(skipped, SKIPPED);
  }

  lemma CountNoCapital(n: nat, words: string)
    requires 'M' !in words
    ensures 'M' !in Count(n, words)
  {
    hide Numeral;
    assert forall k :: 0 <= k < |Numeral(n)| ==> IsDigit(Numeral(n)[k]);
  }

  /** What is left of a report's line by cut ends with the source. */
  lemma ReportCut(l: LogLine)
    requires l.Reported? && ListedName(l.source)
    ensures Cut(LineText(l)) == " [" + l.source
  {
    hide SaneName, Cut;
    var rest := "] [" + l.target + "] [" + l.operation + "] [" + l.status + "] [" + l.details + "]";
    assert LineText(l) == " [" + l.source + rest;
    CutReport(l.source, rest);
  }

  /** And it has the word only if a name in it has. */
  lemma ReportHas(l: LogLine)
    requires l.Reported? && KnownReport(l) && !Occurs(WORD, l.source) && !Occurs(WORD, l.target)
    ensures !Occurs(WORD, LineText(l))
  {
    hide Occurs, Details, Bracketed;
    var copied: nat, deleted: nat, skipped: nat :| l.details == " " + Details(copied, deleted, skipped);
    DetailsNoCapital(copied, deleted, skipped);
    NoCapital(l.details);
    TooShort(l.operation);
    TooShort(l.status);
    var x := Bracketed(l.details, "");
    var sx := Bracketed(l.status, x);
    var osx := Bracketed(l.operation, sx);
    var tosx := Bracketed(l.target, osx);
    TooShort("");
    InBrackets(l.details, "");
    InBrackets(l.status, x);
    InBrackets(l.operation, sx);
    InBrackets(l.target, osx);
    InBrackets(l.source, tosx);
    assert LineText(l) == Bracketed(l.source, tosx) by { Brackets(l); }
  }

  lemma Brackets(l: LogLine)
    requires l.Reported?
    ensures LineText(l) ==
            Bracketed(l.source, Bracketed(l.target, Bracketed(l.operation, Bracketed(l.status, Bracketed(l.details, "")))))
  {
    BracketedIs(l.details, "");
    BracketedIs(l.status, Bracketed(l.details, ""));
    BracketedIs(l.operation, Bracketed(l.status, Bracketed(l.details, "")));
    BracketedIs(l.target, Bracketed(l.operation, Bracketed(l.status, Bracketed(l.details, ""))));
    BracketedIs(l.source, Bracketed(l.target, Bracketed(l.operation, Bracketed(l.status, Bracketed(l.details, "")))));
    hide Bracketed;
    LeftToRight(l.source, l.target, l.operation, l.status, l.details);
  }

  lemma BracketedIs(s: string, rest: string)
    ensures Bracketed(s, rest) == " [" + s + "]" + rest
  {
  }

  lemma LeftToRight(a: string, b: string, c: string, d: string, e: string)
    ensures " [" + a + "] [" + b + "] [" + c + "] [" + d + "] [" + e + "]"
         == " [" + a + "]" + (" [" + b + "]" + (" [" + c + "]" + (" [" + d + "]" + (" [" + e + "]" + ""))))
  {
    assert " [" + e + "]" + "" == " [" + e + "]";
    assert "]" + " [" == "] [";
    assert " [" + d + "]" + (" [" + e + "]") == " [" + d + "] [" + e + "]";
    assert " [" + c + "]" + (" [" + d + "] [" + e + "]") == " [" + c + "] [" + d + "] [" + e + "]";
    assert " [" + b + "]" + (" [" + c + "] [" + d + "] [" + e + "]") == " [" + b + "] [" + c + "] [" + d + "] [" + e + "]";
  }

  lemma CutReport(d: string, rest: string)
    requires ']' !in d && rest != "" && rest[0] == ']'
    ensures Cut(" [" + d + rest) == " [" + d
  {
    var text := " [" + d + rest;
    SpanOutIs(text, "]", 2 + |d|);
  }

  function Bracketed(s: string, rest: string): string {
    "" + [' '] + ("" + ['['] + (s + [']'] + rest))
  }

  lemma InBrackets(s: string, rest: string)
    requires !Occurs(WORD, s) && !Occurs(WORD, rest)
    ensures !Occurs(WORD, Bracketed(s, rest))
  {
    hide Occurs;
    TooShort("");
    Across(s, ']', rest);
    Across("", '[', s + [']'] + rest);
    Across("", ' ', "" + ['['] + (s + [']'] + rest));
  }

  /** What matches in the source of a report's line also does in the Syncing line of that source. */
  lemma ReportGreps(file: string, d: string, t: string)
    requires ListedName(file) && Greps(file, " [" + d)
    ensures Greps(file, LineText(Syncing(d, t)))
  {
    var a, b := " [" + d, LineText(Syncing(d, t));
    var p: nat :| MatchesAt(file, a, p);
    forall k | 0 <= k < |file| ensures file[k] == '.' || file[k] == b[p + 18 + k] {
      assert file[k] != ' ' && file[k] != '[';
      if p + k >= 2 {
        assert a[p + k] == d[p + k - 2] == b[p + 18 + k];
      }
    }
    assert MatchesAt(file, b, p + 18);
  }

  /** Among distinguished names the lines kept are the file's own Monitoring lines. */
  lemma KeptExactly(l: LogLine, file: string, D: set<string>, T: set<string>)
    requires Distinguished(file, D, T) && ListedName(file) && KnownReport(l)
    requires l.source in D && ListedName(l.source) && (!Monitors(l) ==> l.target in T && ListedName(l.target))
    ensures Kept(l, file) <==> Monitors(l) && l.source == file
  {
    hide Occurs, Greps, SaneName, LineText, KnownReport;
    if Monitors(l) {
      MonitoringLine(l);
      assert !Confused(file, l.source);
      if l.source == file { OwnGreps(l); }
    } else {
      assert !Disturbed(file, l.source, l.target);
      if l.Syncing? {
        SyncingHas(l.source, l.target);
        SyncingLine(l.source, l.target);
      } else {
        ReportCut(l);
        if !Occurs(WORD, l.source) && !Occurs(WORD, l.target) { ReportHas(l); }
        if Greps(file, " [" + l.source) { ReportGreps(file, l.source, l.target); }
      }
    }
  }

  lemma OwnGreps(l: LogLine)
    requires Monitors(l)
    ensures Greps(l.source, LineText(l))
  {
    hide Greps;
    OwnLineGreps(if l.MonitoringStarted? then " Monitoring started for " else " Monitoring stopped for ", l.source);
  }

  lemma {:induction false} AnswerOwn(log: seq<LogLine>, file: string)
    requires forall k :: 0 <= k < |log| ==> (Kept(log[k], file) <==> Monitors(log[k]) && log[k].source == file)
    requires ListedName(file)
    ensures var lines := LinesOf(log, file);
            Answer(log, file) == if lines == [] then None else Some(if lines[|lines| - 1] then "started" else "stopped")
  {
    hide Kept, LineText, Cut, SecondWord, SaneName;
    if log != [] {
      var last, rest := log[|log| - 1], log[..|log| - 1];
      AnswerOwn(rest, file);
      if Kept(last, file) {
        MonitoringLine(last);
      }
    }
  }

  // ----- when it is right -----

  ghost predicate LogKnown(log: seq<LogLine>) {
    forall k :: 0 <= k < |log| ==> KnownReport(log[k])
  }

  lemma {:induction false} RunKnown(s: State, es: seq<Event>)
    requires Orderly(s) && LogKnown(s.log) && Allowed(s, es) && SaneEvents(es) && GenuineRun(s, es)
    ensures LogKnown(Run(s, es).log)
    decreases |es|
  {
    hide Orderly, Next, Enabled, SaneEvent, KnownReport, Monitors;
    if es != [] {
      assert SaneEvent(es[0]);
      StepOrderly(s, es[0]);
      var more := EventAppends(s, es[0]);
      assert LogKnown(s.log + more);
      RunKnown(Next(s, es[0]), es[1..]);
    }
  }

  lemma ScriptRight(mode: Mode, limit: nat, words: seq<string>, es: seq<Event>, file: string, D: set<string>, T: set<string>)
    requires SaneRun(mode, limit, words, es) && AllApart(ConfigSources(words))
    requires Over(Run(Initial(mode, limit, words), es).log, D, T) && Distinguished(file, D, T)
    requires ListedName(file) && (forall d :: d in D ==> ListedName(d)) && forall t :: t in T ==> ListedName(t)
    ensures Right(Run(Initial(mode, limit, words), es), file)
  {
    hide Orderly, Next, Enabled, SaneEvent, Genuine, Kept, Distinguished, LinesOf, Active, KnownReport, Answer, SaneName, Initial;
    var s0 := Initial(mode, limit, words);
    var s := Run(s0, es);
    InitialOrderly(mode, limit, words);
    assert s0.log == [] by { NoLog(mode, limit, words); }
    RunKnown(s0, es);
    forall k | 0 <= k < |s.log| ensures Kept(s.log[k], file) <==> Monitors(s.log[k]) && s.log[k].source == file {
      KeptExactly(s.log[k], file, D, T);
    }
    AnswerOwn(s.log, file);
    LogAlternates(mode, limit, words, es, file);
  }

  lemma NoLog(mode: Mode, limit: nat, words: seq<string>)
    ensures Initial(mode, limit, words).log == []
  {
  }

  // ----- and when it is not -----

  /** Serving, with no queue and a free slot of three. */
  predicate Ready(s: State) {
    s.phase == Serving && s.mode == Repaired && s.limit == 3 && s.queue == [] && |s.running| < 3
  }

  lemma NothingYet() returns (p: Progress)
    ensures Reached(p) && p.limit == 3 && p.config == []
    ensures Ready(p.state) && p.state.running == [] && p.state.log == [] && p.state.store == map[] && p.state.watches == map[]
  {
    hide Enabled, Next, Genuine, SaneEvent, AllApart, ConfigSources, SaneName;
    assert AllApart(ConfigSources([])) by { NoPairs(); }
    ReachedFirst(3, []);
    p := Progress(3, [], [], Initial(Repaired, 3, []));
    EmptyStartup(p.state);
    ReachedNext(p, ReadTail);
    p := Then(p, ReadTail);
    ReachedNext(p, LeaveStartup);
    p := Then(p, LeaveStartup);
  }

  lemma NoPairs()
    ensures AllApart(ConfigSources([]))
  {
  }

  lemma EmptyStartup(s: State)
    requires s == Initial(Repaired, 3, [])
    ensures Enabled(s, ReadTail) && SaneEvent(ReadTail) && Genuine(s, ReadTail)
    ensures var s' := Next(s, ReadTail);
            && Enabled(s', LeaveStartup) && SaneEvent(LeaveStartup) && Genuine(s', LeaveStartup)
            && Next(s', LeaveStartup) == s.(eof := true, phase := Serving)
  {
  }

  /** An add command for a new directory. */
  lemma AddRuns(p: Progress, d: string, t: string, wd: int) returns (q: Progress)
    requires Reached(p) && Ready(p.state) && d !in p.state.store && wd >= 0 && wd !in p.state.watches && SaneName(d) && SaneName(t)
    ensures Reached(q) && q.limit == p.limit && q.config == p.config
    ensures q.state.phase == Serving && q.state.mode == Repaired && q.state.limit == 3 && q.state.queue == []
    ensures |q.state.running| == |p.state.running| + 1 && q.state.log == p.state.log + [MonitoringStarted(d)]
    ensures q.state.store == p.state.store[d := DirInfo(d, t, "", "", 0, true, false)] && q.state.watches == p.state.watches[wd := d]
  {
    hide SaneName, Reached;
    var e := AddCommand(d, t, wd, CLEAN);
    ReachedNext(p, e);
    q := Then(p, e);
  }

  /** A cancel command for an active one. */
  lemma CancelRuns(p: Progress, d: string, wd: int) returns (q: Progress)
    requires Reached(p) && p.state.phase == Serving && p.state.queue == [] && wd != -1
    requires wd in p.state.watches && p.state.watches[wd] == d && d in p.state.store && p.state.store[d].isActive
    ensures Reached(q) && q.limit == p.limit && q.config == p.config
    ensures q.state == p.state.(log := p.state.log + [MonitoringStopped(d)], store := p.state.store[d := p.state.store[d].(isActive := false)])
  {
    hide SaneName, Reached;
    var e := CancelCommand(d, wd);
    ReachedNext(p, e);
    q := Then(p, e);
  }

  /** A sync command for one that is not in the workers. */
  lemma SyncRuns(p: Progress, d: string) returns (q: Progress)
    requires Reached(p) && Ready(p.state) && d in p.state.store && p.state.store[d].isActive && !p.state.store[d].isInWorkers
    ensures Reached(q) && q.limit == p.limit && q.config == p.config
    ensures q.state.store == p.state.store && q.state.log == p.state.log + [Syncing(d, p.state.store[d].target)]
  {
    hide SaneName, Reached;
    var e := SyncCommand(d, -1, CLEAN);
    ReachedNext(p, e);
    q := Then(p, e);
  }

  lemma AnswerLast(log: seq<LogLine>, l: LogLine, file: string)
    requires Kept(l, file)
    ensures Answer(log + [l], file) == SecondWord(Cut(LineText(l)))
  {
    hide Kept, LineText, Cut, SecondWord;
    assert (log + [l])[|log|] == l;
  }

  /** A line that stands last in the log and passes for one of this directory decides the answer. */
  lemma KeptMonitoring(log: seq<LogLine>, l: LogLine, file: string)
    requires Monitors(l) && ListedName(l.source) && Greps(file, LineText(l))
    ensures Answer(log + [l], file) == Some(if l.MonitoringStarted? then "started" else "stopped")
  {
    hide LineText, Cut, SecondWord, SaneName, Occurs, Greps;
    MonitoringLine(l);
    AnswerLast(log, l, file);
  }

  lemma KeptSyncing(log: seq<LogLine>, d: string, t: string, file: string)
    requires ListedName(d) && ListedName(t) && Disturbed(file, d, t)
    ensures Answer(log + [Syncing(d, t)], file) == Some("directory:")
  {
    hide LineText, Cut, SecondWord, SaneName, Occurs, Greps;
    SyncingHas(d, t);
    SyncingLine(d, t);
    AnswerLast(log, Syncing(d, t), file);
  }

  /** Names that are confused: a run after which the rule is wrong. */
  lemma ConfusedWrong(file: string, d: string) returns (p: Progress)
    requires Confused(file, d) && ListedName(file) && ListedName(d)
    ensures Reached(p) && p.limit == 3 && p.config == [] && !Right(p.state, file)
    ensures forall k :: 0 <= k < |p.state.log| ==> Monitors(p.state.log[k]) && p.state.log[k].source in {file, d}
  {
    hide Reached, Greps, Answer, SaneName, LineText;
    p := NothingYet();
    if Greps(file, LineText(MonitoringStarted(d))) {
      p := AddRuns(p, file, file, 1);
      p := CancelRuns(p, file, 1);
      ghost var before := p.state.log;
      p := AddRuns(p, d, file, 2);
      KeptMonitoring(before, MonitoringStarted(d), file);
    } else {
      p := AddRuns(p, d, file, 1);
      p := AddRuns(p, file, file, 2);
      ghost var before := p.state.log;
      p := CancelRuns(p, d, 1);
      KeptMonitoring(before, MonitoringStopped(d), file);
    }
  }

  /** Names with the word in them: likewise. */
  lemma DisturbedWrong(file: string, d: string, t: string) returns (p: Progress)
    requires Disturbed(file, d, t) && ListedName(file) && ListedName(d) && ListedName(t)
    ensures Reached(p) && p.limit == 3 && p.config == [] && !Right(p.state, file)
    ensures forall k :: 0 <= k < |p.state.log| ==>
              p.state.log[k].source in {file, d} && (!Monitors(p.state.log[k]) ==> p.state.log[k].target == t)
  {
    hide Reached, Disturbed, Answer, SaneName, LineText;
    p := NothingYet();
    p := AddRuns(p, d, t, 1);
    if file != d {
      p := AddRuns(p, file, file, 2);
    }
    ghost var before := p.state.log;
    p := SyncRuns(p, d);
    KeptSyncing(before, d, t, file);
  }

  // ----- the two together -----

  /** In every run whose log is about these names the script is right about the file. */
  ghost predicate RightOver(file: string, D: set<string>, T: set<string>) {
    forall mode, limit, words, es :: SaneRun(mode, limit, words, es) && AllApart(ConfigSources(words)) ==>
      Over(Run(Initial(mode, limit, words), es).log, D, T) ==> Right(Run(Initial(mode, limit, words), es), file)
  }

  /** For names of ordinary characters and dots: the script is right about a directory in every run that
      involves only these sources and targets if and only if its name, a dot being any character, occurs
      in no other one's Monitoring line, and in no Syncing line with the word Monitoring in a name. */
  lemma ScriptRightExactly(file: string, D: set<string>, T: set<string>)
    requires file in D && (forall d :: d in D ==> ListedName(d)) && forall t :: t in T ==> ListedName(t)
    ensures RightOver(file, D, T) <==> Distinguished(file, D, T)
  {
    hide SaneRun, Right, AllApart, Confused, Disturbed, Initial, Run, Allowed, ListedName, Reached;
    if Distinguished(file, D, T) {
      forall mode, limit, words, es | SaneRun(mode, limit, words, es) && AllApart(ConfigSources(words))
        ensures Allowed(Initial(mode, limit, words), es)
             && (Over(Run(Initial(mode, limit, words), es).log, D, T) ==> Right(Run(Initial(mode, limit, words), es), file))
      {
        SaneRunIs(mode, limit, words, es);
        if Over(Run(Initial(mode, limit, words), es).log, D, T) {
          ScriptRight(mode, limit, words, es, file, D, T);
        }
      }
    }
    if d :| d in D && Confused(file, d) {
      var p := ConfusedWrong(file, d);
      WrongOver(p, file, D, T);
    } else if d, t :| d in D && t in T && Disturbed(file, d, t) {
      var p := DisturbedWrong(file, d, t);
      WrongOver(p, file, D, T);
    }
  }

  lemma WrongOver(p: Progress, file: string, D: set<string>, T: set<string>)
    requires Reached(p) && Over(p.state.log, D, T) && !Right(p.state, file)
    ensures !RightOver(file, D, T)
  {
    hide Right, Over, Initial, AllApart, ConfigSources;
    assert SaneRun(Repaired, p.limit, p.config, p.events);
  }

  /** Two sources, neither of which is inside the other, that are confused: the dot of one matches the x
      of the other. And one inside the other. */
  lemma ConfusedNames()
    ensures Confused("/a.b", "/axb") && !Occurs("/a.b", LineText(MonitoringStarted("/axb")))
    ensures Confused("/a", "/ab")
  {
    hide Occurs, Greps;
    var pre := " Monitoring started for ";
    MatchesBehind(pre, "/a.b", "/axb");
    MatchesBehind(pre, "/a", "/ab");
    assert '.' !in pre;
    assert '.' !in pre + "/axb";
    MissingCharacter("/a.b", pre + "/axb", 2);
  }

  lemma MatchesBehind(pre: string, file: string, d: string)
    requires MatchesAt(file, d, 0)
    ensures Greps(file, pre + d)
  {
    forall k | 0 <= k < |file| ensures file[k] == '.' || file[k] == (pre + d)[|pre| + k] {
      assert (pre + d)[|pre| + k] == d[0 + k];
    }
    assert MatchesAt(file, pre + d, |pre|);
  }

  /** A source with the word in its name disturbs itself. */
  lemma DisturbedName(t: string)
    ensures Disturbed("/Monitoring", "/Monitoring", t)
  {
    var d := "/Monitoring";
    OccursHere(WORD, d, 1);
    var text := LineText(Syncing(d, t));
    assert MatchesAt(d, text, 20);
  }
}
