/** The two bounded diagnostic recorders (host_v1.py): the per-launch stage recorder and the recorder of the close and
    response stages. Clocks and JSON are parameters: a call brings its duration, a line its size. */
module Recorders {
  import opened Commons

  const LINE_PREFIX := "stage-diagnostic "

  // ---- the launch recorder -----------------------------------------------

  const STAGES := {"launch_options", "launch_persistent_context", "supervisor_job_bind", "new_page", "goto",
                   "observed.fonts", "observed.media", "observed.identity", "cookie", "observed.write", "response_write"}
  const EVENTS := {"start", "success", "error", "timeout", "cancelled"}
  const REASONS := {"success", "enumerate_timeout", "readiness_timeout", "count_mismatch", "playwright_exception", "unavailable"}
  const STAGE_MAX_EVENTS: nat := 22
  const STAGE_MAX_LINE_BYTES: nat := 512
  const STAGE_MAX_BYTES: nat := 22 * 512

  datatype Call = Call(stage: string, event: string, ms: nat, exception: Option<string>, reason: Option<string>)

  /** The events a terminal reason may come with. */
  predicate ReasonFits(reason: string, event: string) {
    if reason == "enumerate_timeout" then event == "success" || event == "timeout"
    else if reason == "readiness_timeout" then event == "timeout"
    else if reason == "playwright_exception" then event == "error"
    else event == "success"
  }

  /** The calls that raise no ValueError. */
  predicate Supported(c: Call) {
    && c.stage in STAGES && c.event in EVENTS
    && (c.reason.Some? ==> c.stage == "observed.media" && c.reason.value in REASONS && ReasonFits(c.reason.value, c.event))
  }

  function KeyOf(c: Call): string { if c.event == "start" then "start" else "terminal" }

  function Digits(n: nat): nat {
    if n < 10 then 1 else 1 + Digits(n / 10)
  }

  /** The bytes of the line with its line break (quotes here are single, their number is the same), for an exception class of this length. */
  function LineBytes(c: Call, exception: Option<nat>): nat {
    |LINE_PREFIX| + |"{'kind':'camoufox-host-stage','stage':'"| + |c.stage| + |"','event':'"| + |c.event|
    + |"','durationMs':"| + Digits(c.ms)
    + (if exception.Some? then |",'exceptionClass':'"| + exception.value + 1 else 0)
    + (if c.reason.Some? then |",'reason':'"| + |c.reason.value| + 1 else 0) + 2
  }

  /** The line that is written: without the exception class when that makes it too long. */
  function WrittenBytes(c: Call): nat {
    var full := LineBytes(c, if c.exception.None? then None else Some(if |c.exception.value| < 64 then |c.exception.value| else 64));
    if full > STAGE_MAX_LINE_BYTES then LineBytes(c, None) else full
  }

  datatype Slot = Slot(stage: string, key: string)

  function SlotOf(c: Call): Slot { Slot(c.stage, KeyOf(c)) }

  function Slots(seen: map<string, set<string>>): set<Slot> {
    set stage, key | stage in seen && key in seen[stage] :: Slot(stage, key)
  }

  lemma SupportedSlot(c: Call)
    requires Supported(c)
    ensures SlotOf(c) == Slot(c.stage, KeyOf(c)) && IsSlot(SlotOf(c))
  {
  }

  /** Looking a stage up, giving it an empty set and adding a key, in terms of slots. */
  lemma SlotsAre(seen: map<string, set<string>>, stage: string, key: string)
    ensures Slot(stage, key) in Slots(seen) <==> stage in seen && key in seen[stage]
    ensures stage !in seen ==> Slots(seen[stage := {}]) == Slots(seen)
    ensures var keys := if stage in seen then seen[stage] else {};
            Slots(seen[stage := keys + {key}]) == Slots(seen) + {Slot(stage, key)}
  {
  }

  lemma StageNames(stage: string)
    requires stage in STAGES
    ensures |stage| <= 25
  {
  }

  /** Every supported line fits a line's budget until its duration takes hundreds of digits. */
  lemma LinesFit(c: Call)
    requires Supported(c) && Digits(c.ms) <= 300
    ensures WrittenBytes(c) <= STAGE_MAX_LINE_BYTES
  {
    StageNames(c.stage);
    assert |c.event| <= 9;
    if c.reason.Some? { assert |c.reason.value| <= 20; }
  }

  predicate IsSlot(s: Slot) { s.stage in STAGES && s.key in {"start", "terminal"} }

  /** The counters count the slots seen, which are the ones logged. */
  ghost predicate Fits(events: nat, bytes: nat, log: seq<Slot>, slots: set<Slot>) {
    && events == |log| == |slots| && bytes <= events * STAGE_MAX_LINE_BYTES
    && (forall s :: s in log <==> s in slots) && forall s | s in slots :: IsSlot(s)
  }

  lemma FitsBudget(events: nat, bytes: nat, log: seq<Slot>, slots: set<Slot>)
    requires Fits(events, bytes, log, slots)
    ensures events <= STAGE_MAX_EVENTS && bytes <= STAGE_MAX_BYTES
  {
    SlotsBound(slots);
  }

  lemma FitsNext(events: nat, bytes: nat, log: seq<Slot>, slots: set<Slot>, slot: Slot, line: nat)
    requires Fits(events, bytes, log, slots) && IsSlot(slot) && line <= STAGE_MAX_LINE_BYTES
    ensures slot in slots <==> slot in log
    ensures slot !in slots ==>
              && events < STAGE_MAX_EVENTS && bytes + line <= STAGE_MAX_BYTES
              && Fits(events + 1, bytes + line, log + [slot], slots + {slot})
  {
    hide IsSlot;
    if slot !in slots { SlotsBound(slots + {slot}); }
  }

  /** `_LaunchStageRecorder` */
  class LaunchStageRecorder {
    var events: nat
    var bytes: nat
    var seen: map<string, set<string>>
    var log: seq<Slot>

    ghost predicate Valid()
      reads this
    {
      Fits(events, bytes, log, Slots(seen))
    }

    constructor ()
      ensures Valid() && log == []
    {
      events, bytes, seen, log := 0, 0, map[], [];
      assert Slots(map[]) == {};
    }

    /** `record`: false where it raises ValueError. A slot not yet in the log is always recorded: neither budget can
        be used up while one is missing. */
    method Record(c: Call) returns (supported: bool)
      requires Valid() && (Supported(c) ==> WrittenBytes(c) <= STAGE_MAX_LINE_BYTES)
      modifies this
      ensures Valid() && events <= STAGE_MAX_EVENTS && bytes <= STAGE_MAX_BYTES
      ensures supported <==> Supported(c)
      ensures log == old(log) + if Supported(c) && SlotOf(c) !in old(log) then [SlotOf(c)] else []
    {
      hide Supported, WrittenBytes, Slots, SlotOf, Fits;
      FitsBudget(events, bytes, log, Slots(seen));
      if !Supported(c) { return false; }
      SupportedSlot(c);
      supported := true;
      var key := KeyOf(c);
      SlotsAre(seen, c.stage, key);
      FitsNext(events, bytes, log, Slots(seen), SlotOf(c), WrittenBytes(c));
      if c.stage !in seen {
        seen := seen[c.stage := {}];
        SlotsAre(seen, c.stage, key);
      }
      if key in seen[c.stage] || events >= STAGE_MAX_EVENTS {
        return;
      }
      var line := WrittenBytes(c);
      if bytes + line > STAGE_MAX_BYTES {
        assert false;
      }
      seen := seen[c.stage := seen[c.stage] + {key}];
      events := events + 1;
      bytes := bytes + line;
      log := log + [SlotOf(c)];
    }

    /** A whole launch: the log is each slot's first call, in the order of the calls. */
    method RecordAll(calls: seq<Call>)
      requires Valid() && log == [] && forall c | c in calls && Supported(c) :: WrittenBytes(c) <= STAGE_MAX_LINE_BYTES
      modifies this
      ensures Valid() && log == Firsts(calls)
    {
      var i := 0;
      while i < |calls|
        invariant 0 <= i <= |calls| && Valid() && log == Firsts(calls[..i])
      {
        assert calls[i] in calls && calls[..i + 1][..i] == calls[..i];
        var _ := Record(calls[i]);
        i := i + 1;
      }
      assert calls[..i] == calls;
    }
  }

  /** The slots of the supported calls, each where it first comes up. */
  function Firsts(calls: seq<Call>): (slots: seq<Slot>) {
    if calls == [] then []
    else
      var before, last := Firsts(calls[..|calls| - 1]), calls[|calls| - 1];
      before + if Supported(last) && SlotOf(last) !in before then [SlotOf(last)] else []
  }

  /** Nothing is lost and nothing is there twice. */
  lemma {:induction false} FirstsCoverCalls(calls: seq<Call>)
    ensures forall s :: s in Firsts(calls) <==> exists c :: c in calls && Supported(c) && SlotOf(c) == s
    ensures forall i, j | 0 <= i < j < |Firsts(calls)| :: Firsts(calls)[i] != Firsts(calls)[j]
  {
    hide Supported, SlotOf;
    if calls != [] {
      var front, last := calls[..|calls| - 1], calls[|calls| - 1];
      FirstsCoverCalls(front);
      assert calls == front + [last];
      forall s
        ensures s in Firsts(calls) <==> exists c :: c in calls && Supported(c) && SlotOf(c) == s
      {
        if s in Firsts(calls) {
          if s in Firsts(front) {
            var c :| c in front && Supported(c) && SlotOf(c) == s;
            assert c in calls;
          } else {
            assert last in calls;
          }
        }
      }
    }
  }

  lemma {:induction false} ProductBound(slots: set<Slot>, stages: set<string>)
    requires forall s | s in slots :: s.stage in stages && s.key in {"start", "terminal"}
    ensures |slots| <= 2 * |stages|
    decreases |stages|
  {
    if stages == {} {
      assert slots == {};
    } else {
      var stage :| stage in stages;
      var here := {Slot(stage, "start"), Slot(stage, "terminal")};
      ProductBound(slots - here, stages - {stage});
      assert |slots - here| + |slots * here| == |slots|;
      assert slots * here <= here;
      SubsetCard(slots * here, here);
    }
  }

  lemma {:induction false} SubsetCard<T>(a: set<T>, b: set<T>)
    requires a <= b
    ensures |a| <= |b|
  {
    assert b == a + (b - a);
  }

  lemma SlotsBound(slots: set<Slot>)
    requires forall s | s in slots :: IsSlot(s)
    ensures |slots| <= STAGE_MAX_EVENTS
  {
    ProductBound(slots, STAGES);
    StageCount();
  }

  lemma StageCount()
    ensures |STAGES| <= 11
  {
  }

  // ---- the recorder of the close and response stages ---------------------

  const MAX_EVENTS: nat := 20
  const MAX_BYTES: nat := 3072
  const CLOSE_RESERVE: nat := 1024
  const MAX_ENCODED: nat := 512
  const TRUNCATED := "{'kind':'camoufox-host-stage','event':'truncated'}"
  const RESPONSE_KEYS: nat := 2
  const MAX_LINE: nat := |LINE_PREFIX| + MAX_ENCODED + 1

  /** `encoded` is the size of the payload's JSON. */
  datatype Report = Report(stage: string, event: string, phase: Option<string>, encoded: nat)

  datatype Line = Line(stage: string, key: string, bytes: nat)

  function DedupeKey(r: Report): string {
    (if r.phase.None? || r.phase.value == "" then "stage" else r.phase.value) + ":"
    + (if r.event == "success" || r.event == "failed" then "terminal" else r.event)
  }

  function LineOf(r: Report): Line {
    Line(r.stage, DedupeKey(r), |LINE_PREFIX| + (if r.encoded > MAX_ENCODED then |TRUNCATED| else r.encoded) + 1)
  }

  /** A response has the two plain reports of its stage. */
  predicate PlainResponse(r: Report) {
    r.stage == "response write" ==> r.phase.None? && r.event in {"start", "success", "failed"}
  }

  function Total(lines: seq<Line>): nat {
    if lines == [] then 0 else Total(lines[..|lines| - 1]) + lines[|lines| - 1].bytes
  }

  function LinesOf(lines: seq<Line>, stage: string): (own: seq<Line>)
    ensures forall line :: line in own <==> line in lines && line.stage == stage
  {
    if lines == [] then []
    else
      var last := lines[|lines| - 1];
      assert lines == lines[..|lines| - 1] + [last];
      LinesOf(lines[..|lines| - 1], stage) + if last.stage == stage then [last] else []
  }

  predicate Logged(lines: seq<Line>, stage: string, key: string) {
    exists i | 0 <= i < |lines| :: lines[i].stage == stage && lines[i].key == key
  }

  /** `_diagnostic` and the globals it updates. The set of keys seen for each stage is the set of keys logged. */
  class Diagnostics {
    var events: nat
    var bytes: nat
    var seen: map<string, set<string>>
    var log: seq<Line>

    ghost predicate Valid()
      reads this
    {
      && events == |log| && bytes == Total(log)
      && forall stage, key :: stage in seen && key in seen[stage] <==> Logged(log, stage, key)
    }

    constructor ()
      ensures Valid() && log == []
    {
      events, bytes, seen, log := 0, 0, map[], [];
    }

    method Diagnose(r: Report)
      requires Valid()
      modifies this
      ensures Valid() && log == if Admits(old(log), r) then old(log) + [LineOf(r)] else old(log)
    {
      if r.stage != "close" && r.stage != "response write" { return; }
      if events >= MAX_EVENTS { return; }
      if r.stage !in seen {
        seen := seen[r.stage := {}];
      }
      var key := DedupeKey(r);
      if key in seen[r.stage] { return; }
      var line := LineOf(r);
      var floor := if r.stage != "close" then CLOSE_RESERVE else 0;
      if bytes + line.bytes > MAX_BYTES - floor { return; }
      seen := seen[r.stage := seen[r.stage] + {key}];
      events := events + 1;
      bytes := bytes + line.bytes;
      LoggedNext(log, line);
      log := log + [line];
    }

    /** A whole run. */
    method DiagnoseAll(reports: seq<Report>)
      requires Valid() && log == []
      modifies this
      ensures Valid() && log == LogOf(reports)
    {
      hide Valid, Admits;
      var i := 0;
      while i < |reports|
        invariant 0 <= i <= |reports| && Valid() && log == LogOf(reports[..i])
      {
        assert reports[..i + 1][..i] == reports[..i];
        Diagnose(reports[i]);
        i := i + 1;
      }
      assert reports[..i] == reports;
    }
  }

  /** When a report becomes a line. */
  predicate Admits(log: seq<Line>, r: Report) {
    && r.stage in {"close", "response write"} && |log| < MAX_EVENTS && !Logged(log, r.stage, DedupeKey(r))
    && Total(log) + LineOf(r).bytes <= MAX_BYTES - if r.stage != "close" then CLOSE_RESERVE else 0
  }

  function LogOf(reports: seq<Report>): seq<Line> {
    if reports == [] then []
    else
      var before, last := LogOf(reports[..|reports| - 1]), reports[|reports| - 1];
      if Admits(before, last) then before + [LineOf(last)] else before
  }

  /** The lines of the close reports, each where its key first comes up. */
  function FirstCloses(reports: seq<Report>): seq<Line> {
    if reports == [] then []
    else
      var before, last := FirstCloses(reports[..|reports| - 1]), reports[|reports| - 1];
      before + if last.stage == "close" && !Logged(before, "close", DedupeKey(last)) then [LineOf(last)] else []
  }

  lemma LoggedNext(log: seq<Line>, line: Line)
    ensures Total(log + [line]) == Total(log) + line.bytes
    ensures forall stage, key :: Logged(log + [line], stage, key) <==>
              Logged(log, stage, key) || (stage == line.stage && key == line.key)
  {
    var more := log + [line];
    assert more[..|log|] == log;
    forall stage, key
      ensures Logged(more, stage, key) <==> Logged(log, stage, key) || (stage == line.stage && key == line.key)
    {
      if Logged(log, stage, key) {
        var i :| 0 <= i < |log| && log[i].stage == stage && log[i].key == key;
        assert more[i] == log[i];
      }
      assert more[|log|] == line;
    }
  }

  function Flag(log: seq<Line>, event: string): nat {
    if Logged(log, "response write", "stage" + ":" + event) then 1 else 0
  }

  lemma LinesNext(log: seq<Line>, line: Line, stage: string)
    ensures LinesOf(log + [line], stage) == LinesOf(log, stage) + if line.stage == stage then [line] else []
    ensures Total(LinesOf(log + [line], stage)) == Total(LinesOf(log, stage)) + if line.stage == stage then line.bytes else 0
  {
    hide Total;
    assert (log + [line])[..|log|] == log;
    LoggedNext(LinesOf(log, stage), line);
    assert LinesOf(log, stage) + [] == LinesOf(log, stage);
  }

  lemma NoLines(stage: string)
    ensures Total([]) == 0 && LinesOf([], stage) == []
  {
  }

  /** The log is the lines of the two stages, within the budgets, and the response lines never reach into the
      bytes kept for the close. */
  lemma {:induction false} PartsOfLog(reports: seq<Report>)
    ensures var log := LogOf(reports);
            var close, response := LinesOf(log, "close"), LinesOf(log, "response write");
            && |log| == |close| + |response| <= MAX_EVENTS
            && Total(log) == Total(close) + Total(response) <= MAX_BYTES
            && Total(response) <= MAX_BYTES - CLOSE_RESERVE
  {
    hide LinesOf, Total, Logged, DedupeKey;
    if reports == [] {
      NoLines("close");
      NoLines("response write");
    } else {
      var front, last := reports[..|reports| - 1], reports[|reports| - 1];
      PartsOfLog(front);
      var log, line := LogOf(front), LineOf(last);
      LoggedNext(log, line);
      LinesNext(log, line, "close");
      LinesNext(log, line, "response write");
    }
  }

  lemma ResponseKeys(r: Report)
    requires PlainResponse(r) && r.stage == "response write"
    ensures DedupeKey(r) == "stage" + ":" + "start" || DedupeKey(r) == "stage" + ":" + "terminal"
    ensures LineOf(r).bytes <= MAX_LINE
  {
  }

  /** Over any run with plain responses they take at most two lines. */
  lemma {:induction false} ResponsesAreFew(reports: seq<Report>)
    requires forall r | r in reports :: PlainResponse(r)
    ensures var log := LogOf(reports);
            var response := LinesOf(log, "response write");
            && |response| == Flag(log, "start") + Flag(log, "terminal")
            && Total(response) <= |response| * MAX_LINE
  {
    hide LinesOf, Total, Logged, DedupeKey, PlainResponse;
    if reports == [] {
      NoLines("response write");
      NothingLogged();
    } else {
      var front, last := reports[..|reports| - 1], reports[|reports| - 1];
      ResponsesAreFew(front);
      var log := LogOf(front);
      if Admits(log, last) { FewNext(log, last); }
    }
  }

  lemma FewNext(log: seq<Line>, r: Report)
    requires Admits(log, r) && PlainResponse(r)
    ensures var response, more := LinesOf(log, "response write"), LinesOf(log + [LineOf(r)], "response write");
            && |more| - |response| == Flag(log + [LineOf(r)], "start") + Flag(log + [LineOf(r)], "terminal")
                                      - Flag(log, "start") - Flag(log, "terminal")
            && Total(more) <= Total(response) + (|more| - |response|) * MAX_LINE
  {
    hide LinesOf, Total, Logged, DedupeKey, PlainResponse;
    LoggedNext(log, LineOf(r));
    LinesNext(log, LineOf(r), "response write");
    if r.stage == "response write" { ResponseKeys(r); }
  }

  lemma NothingLogged()
    ensures Flag([], "start") == Flag([], "terminal") == 0
  {
  }

  lemma LoggedClose(log: seq<Line>, key: string)
    ensures Logged(log, "close", key) <==> Logged(LinesOf(log, "close"), "close", key)
  {
    var close := LinesOf(log, "close");
    if Logged(log, "close", key) {
      var i :| 0 <= i < |log| && log[i].stage == "close" && log[i].key == key;
      assert log[i] in close;
    }
    if Logged(close, "close", key) {
      var i :| 0 <= i < |close| && close[i].key == key;
      assert close[i] in log;
    }
  }

  /** Every close report is in the log, each where its key first comes up. */
  ghost predicate CloseKept(reports: seq<Report>) {
    LinesOf(LogOf(reports), "close") == FirstCloses(reports)
  }

  /** What the first close reports and the logged response lines take together. */
  ghost predicate FitTogether(reports: seq<Report>) {
    var close, response := FirstCloses(reports), LinesOf(LogOf(reports), "response write");
    |close| + |response| <= MAX_EVENTS && Total(close) + Total(response) <= MAX_BYTES
  }

  lemma FitEarlier(reports: seq<Report>)
    requires reports != [] && FitTogether(reports)
    ensures FitTogether(reports[..|reports| - 1])
  {
    hide LinesOf, Total, Logged, DedupeKey;
    var front, last := reports[..|reports| - 1], reports[|reports| - 1];
    LoggedNext(FirstCloses(front), LineOf(last));
    assert FirstCloses(front) + [] == FirstCloses(front);
    LinesNext(LogOf(front), LineOf(last), "response write");
  }

  lemma KeptNext(reports: seq<Report>)
    requires reports != [] && FitTogether(reports) && CloseKept(reports[..|reports| - 1])
    ensures CloseKept(reports)
  {
    hide LinesOf, Total, Logged, DedupeKey;
    var front, last := reports[..|reports| - 1], reports[|reports| - 1];
    var log, line := LogOf(front), LineOf(last);
    PartsOfLog(front);
    LoggedClose(log, DedupeKey(last));
    LoggedNext(FirstCloses(front), line);
    LinesNext(log, line, "close");
    LinesNext(log, line, "response write");
    assert FirstCloses(front) + [] == FirstCloses(front) && LinesOf(log, "close") + [] == LinesOf(log, "close");
    assert LinesOf(log, "response write") + [] == LinesOf(log, "response write");
  }

  /** The close loses nothing exactly when its first reports fit both budgets beside the logged response lines. */
  lemma {:induction false} CloseKeptIff(reports: seq<Report>)
    ensures CloseKept(reports) <==> FitTogether(reports)
  {
    PartsOfLog(reports);
    hide LinesOf, Total, Logged, DedupeKey;
    if FitTogether(reports) {
      if reports == [] {
        NoLines("close");
      } else {
        FitEarlier(reports);
        CloseKeptIff(reports[..|reports| - 1]);
        KeptNext(reports);
      }
    }
  }

  /** The bound any close can count on, whatever the responses do: the whole budget less two response lines. */
  lemma CloseReportsKept(reports: seq<Report>)
    requires forall r | r in reports :: PlainResponse(r)
    requires |FirstCloses(reports)| <= MAX_EVENTS - RESPONSE_KEYS
    requires Total(FirstCloses(reports)) <= MAX_BYTES - RESPONSE_KEYS * MAX_LINE
    ensures CloseKept(reports)
  {
    hide LinesOf, Total, Logged, DedupeKey, PlainResponse;
    ResponsesAreFew(reports);
    CloseKeptIff(reports);
  }

  lemma CloseAppended(reports: seq<Report>, r: Report, close: seq<Line>, response: seq<Line>)
    requires FirstCloses(reports) == close && LinesOf(LogOf(reports), "response write") == response
    requires r.stage == "close" && forall line | line in close :: line.key != DedupeKey(r)
    ensures FirstCloses(reports + [r]) == close + [LineOf(r)]
    ensures LinesOf(LogOf(reports + [r]), "response write") == response
  {
    hide LinesOf, Total, Admits, DedupeKey;
    assert (reports + [r])[..|reports|] == reports && LineOf(r).stage == "close" && !Logged(close, "close", DedupeKey(r));
    var log := LogOf(reports);
    if Admits(log, r) {
      LinesNext(log, LineOf(r), "response write");
      assert LinesOf(log, "response write") + [] == LinesOf(log, "response write");
    }
  }

  /** Two full response lines. */
  function Responses(): (run: seq<Report>)
    ensures |run| == 2
  {
    [Report("response write", "start", None, 512), Report("response write", "success", None, 512)]
  }

  /** Four phases of a close. */
  function Results(): (run: seq<Report>)
    ensures |run| == 4
  {
    [Result("a", 512), Result("b", 512), Result("c", 512), Result("d", 405)]
  }

  function Result(phase: string, encoded: nat): Report { Report("close", "result", Some(phase), encoded) }

  lemma FullSizes(p: seq<Report>, r: seq<Report>)
    requires p == Responses() && r == Results()
    ensures LineOf(p[0]).bytes == LineOf(p[1]).bytes == MAX_LINE
    ensures LineOf(r[0]).bytes == LineOf(r[1]).bytes == LineOf(r[2]).bytes == MAX_LINE && LineOf(r[3]).bytes == 423
    ensures PlainResponse(p[0]) && PlainResponse(p[1]) && forall i | 0 <= i < 4 :: PlainResponse(r[i]) && r[i].stage == "close"
    ensures MAX_LINE == 530
  {
    hide DedupeKey;
  }

  lemma TooMuch(p: seq<Report>, r: seq<Report>)
    requires |p| == 2 && |r| == 4 && FirstCloses(p) == []
    requires LinesOf(LogOf(p), "response write") == [LineOf(p[0]), LineOf(p[1])]
    requires forall i | 0 <= i < |r| :: r[i].stage == "close"
    requires forall i, j | 0 <= i < j < |r| :: DedupeKey(r[i]) != DedupeKey(r[j])
    requires LineOf(p[0]).bytes + LineOf(p[1]).bytes
             + LineOf(r[0]).bytes + LineOf(r[1]).bytes + LineOf(r[2]).bytes + LineOf(r[3]).bytes > MAX_BYTES
    ensures |FirstCloses(p + r)| == 4 && !CloseKept(p + r)
    ensures Total(FirstCloses(p + r)) == LineOf(r[0]).bytes + LineOf(r[1]).bytes + LineOf(r[2]).bytes + LineOf(r[3]).bytes
  {
    hide LinesOf, Total, LogOf, FirstCloses, LineOf, DedupeKey, CloseKept;
    RunLines(p, r);
    TotalOfPair(LineOf(p[0]), LineOf(p[1]));
    TotalOfFour(FirstCloses(p + r));
    CloseKeptIff(p + r);
  }

  /** For the recorder alone no larger bound holds: beside two full response lines, four close lines of one byte more
      lose the last. The Host never calls it so. */
  lemma CloseBoundIsTight()
    ensures var run := Responses() + Results();
            && (forall r | r in run :: PlainResponse(r))
            && |FirstCloses(run)| <= MAX_EVENTS - RESPONSE_KEYS
            && Total(FirstCloses(run)) == MAX_BYTES - RESPONSE_KEYS * MAX_LINE + 1
            && !CloseKept(run)
  {
    hide LinesOf, Total, LogOf, FirstCloses, LineOf, DedupeKey, PlainResponse, Results, Responses, CloseKept;
    var p, r := Responses(), Results();
    FullSizes(p, r);
    ResultKeys(r);
    PairLogged(p, [LineOf(p[0]), LineOf(p[1])]);
    TooMuch(p, r);
  }

  lemma ResultKeys(r: seq<Report>)
    requires r == Results()
    ensures forall i, j | 0 <= i < j < 4 :: DedupeKey(r[i]) != DedupeKey(r[j])
  {
    assert DedupeKey(r[0])[0] == 'a' && DedupeKey(r[1])[0] == 'b' && DedupeKey(r[2])[0] == 'c' && DedupeKey(r[3])[0] == 'd';
  }

  /** Close reports with different keys after others that bring none. */
  lemma {:induction false} RunLines(before: seq<Report>, r: seq<Report>)
    requires FirstCloses(before) == []
    requires forall i | 0 <= i < |r| :: r[i].stage == "close"
    requires forall i, j | 0 <= i < j < |r| :: DedupeKey(r[i]) != DedupeKey(r[j])
    ensures var close := FirstCloses(before + r); |close| == |r| && forall i | 0 <= i < |r| :: close[i] == LineOf(r[i])
    ensures LinesOf(LogOf(before + r), "response write") == LinesOf(LogOf(before), "response write")
  {
    hide LinesOf, LogOf, FirstCloses, DedupeKey;
    if r == [] {
      assert before + r == before;
    } else {
      var front, last := r[..|r| - 1], r[|r| - 1];
      RunLines(before, front);
      assert before + r == before + front + [last];
      CloseAppended(before + front, last, FirstCloses(before + front), LinesOf(LogOf(before + front), "response write"));
    }
  }

  lemma PairLogged(p: seq<Report>, lines: seq<Line>)
    requires p == Responses() && lines == [LineOf(p[0]), LineOf(p[1])]
    ensures LinesOf(LogOf(p), "response write") == lines && FirstCloses(p) == []
  {
    var start, done := p[0], p[1];
    assert p == [start, done] && [start, done][..1] == [start] && [start][..0] == [] && lines[..1] == [lines[0]];
    NoLines("response write");
    assert DedupeKey(start) == "stage" + ":" + "start" && DedupeKey(done) == "stage" + ":" + "terminal";
    TotalOfPair(lines[0], lines[1]);
    assert LogOf([start]) == [lines[0]];
    assert !Logged([lines[0]], "response write", lines[1].key);
    assert LogOf([start, done]) == lines;
    LinesNext([], lines[0], "response write");
    LinesNext([lines[0]], lines[1], "response write");
    assert [] + [lines[0]] == [lines[0]] && [lines[0]] + [lines[1]] == lines;
  }

  lemma TotalOfPair(first: Line, second: Line)
    ensures Total([first]) == first.bytes && Total([first, second]) == first.bytes + second.bytes
  {
    assert [first, second][..1] == [first];
  }

  lemma TotalOfFour(lines: seq<Line>)
    requires |lines| == 4
    ensures Total(lines) == lines[0].bytes + lines[1].bytes + lines[2].bytes + lines[3].bytes
  {
    assert lines[..3][..2] == lines[..2] == [lines[0], lines[1]];
    TotalOfPair(lines[0], lines[1]);
  }

  // ---- the Host's own reports ----------------------------------------------

  /** The fields of one call of `_diagnostic`. */
  datatype Fields = Fields(
    stage: string, event: string, ms: nat, phase: Option<string>, outcome: Option<string>, failure: Option<string>)

  /** What is left of a text after the cut. */
  function Cut(text: string): nat { if |text| < 64 then |text| else 64 }

  function FieldBytes(name: string, text: Option<string>): nat {
    if text.None? then 0 else |",'':''"| + |name| + Cut(text.value)
  }

  /** The size of the payload's JSON (quotes here are single, their number is the same). */
  function EncodedBytes(f: Fields): nat {
    |"{'kind':'camoufox-host-stage','stage':'"| + |f.stage| + |"','event':'"| + |f.event| + |"','durationMs':"| + Digits(f.ms)
    + FieldBytes("phase", f.phase) + FieldBytes("outcome", f.outcome) + FieldBytes("failure", f.failure) + 1
  }

  function ReportOf(f: Fields): Report { Report(f.stage, f.event, f.phase, EncodedBytes(f)) }

  function ReportsOf(calls: seq<Fields>): (reports: seq<Report>)
    ensures |reports| == |calls| && forall i | 0 <= i < |calls| :: reports[i] == ReportOf(calls[i])
  {
    seq(|calls|, i requires 0 <= i < |calls| => ReportOf(calls[i]))
  }

  /** `_StageDiagnostic`: the failure is a reason of the Host's or the name of an exception class. */
  predicate StageCall(f: Fields) {
    f.phase.None? && f.outcome.None? && f.event in {"start", "success", "failed"} && (f.failure.Some? <==> f.event == "failed")
  }

  /** Closing the page and then the context. */
  predicate ContextCall(f: Fields, phase: string, key: string) {
    && f.phase == Some(phase)
    && (|| (f.event == "start" && f.outcome.None? && f.failure.None?)
        || (f.event == "result" && f.outcome in {Some("success"), Some("not_present")} && f.failure.None?)
        || (f.event == "result" && f.outcome == Some("timeout") && f.failure == Some(key + "_close_timeout"))
        || (f.event == "result" && f.outcome == Some("exception") && f.failure == Some(key + "_close_exception")))
  }

  /** The three results that end a close or a failed session. */
  predicate EndCall(f: Fields) {
    f.event == "result" && (ExitCall(f) || CleanupCall(f) || EvidenceCall(f))
  }

  predicate ExitCall(f: Fields) {
    && f.phase == Some("graceful-process-exit")
    && (|| (f.outcome == Some("success") && f.failure.None?)
        || (f.outcome == Some("forced") && f.failure == Some("forced"))
        || (f.outcome == Some("failed") && f.failure in {Some("failed"), Some("session_failed"), Some("managed_process_tree_not_exited")}))
  }

  predicate CleanupCall(f: Fields) {
    && f.phase == Some("forced-job-cleanup")
    && (|| (f.outcome == Some("not_needed") && f.failure.None?)
        || (f.outcome == Some("performed") && f.failure in {None, Some("performed")})
        || (f.outcome == Some("failed") && f.failure in {Some("failed"), Some("managed_process_tree_not_exited")}))
  }

  predicate EvidenceCall(f: Fields) {
    && f.phase == Some("sqlite-evidence")
    && (|| (f.outcome in {Some("available"), Some("not_collected")} && f.failure.None?)
        || (f.outcome == Some("unavailable") && f.failure == Some("unavailable")))
  }

  /** The calls the Host makes. */
  predicate HostCall(f: Fields) {
    || (f.stage == "response write" && StageCall(f))
    || (f.stage == "close" && (StageCall(f) || ContextCall(f, "page.close", "page") || ContextCall(f, "ctx.close", "ctx") || EndCall(f)))
  }

  function HostKeys(): (keys: seq<string>)
    ensures |keys| == 9
  {
    ["stage" + ":" + "start", "stage" + ":" + "terminal",
     "page.close" + ":" + "start", "page.close" + ":" + "result", "ctx.close" + ":" + "start", "ctx.close" + ":" + "result",
     "graceful-process-exit" + ":" + "result", "forced-job-cleanup" + ":" + "result", "sqlite-evidence" + ":" + "result"]
  }

  lemma HostKey(f: Fields)
    requires HostCall(f) && f.stage == "close"
    ensures DedupeKey(ReportOf(f)) in HostKeys()
  {
    hide EncodedBytes;
    var keys := HostKeys();
    if StageCall(f) {
      assert keys[0] in keys && keys[1] in keys;
    } else if ContextCall(f, "page.close", "page") {
      assert keys[2] in keys && keys[3] in keys;
    } else if ContextCall(f, "ctx.close", "ctx") {
      assert keys[4] in keys && keys[5] in keys;
    } else {
      assert keys[6] in keys && keys[7] in keys && keys[8] in keys;
    }
  }

  const HOST_LINE: nat := 223

  /** Each of these lines is short until its duration takes more than thirty digits. */
  lemma HostLineFits(f: Fields)
    requires HostCall(f) && f.stage == "close" && Digits(f.ms) <= 30
    ensures LineOf(ReportOf(f)).bytes <= HOST_LINE
  {
    hide Digits, EncodedBytes, FieldBytes, DedupeKey, StageCall, ContextCall, EndCall;
    EncodedIs(f);
    FieldIs("phase", f.phase);
    FieldIs("outcome", f.outcome);
    FieldIs("failure", f.failure);
    if StageCall(f) {
      StageFits(f);
    } else if ContextCall(f, "page.close", "page") {
      ContextFits(f, "page.close", "page");
    } else if ContextCall(f, "ctx.close", "ctx") {
      ContextFits(f, "ctx.close", "ctx");
    } else {
      EndFits(f);
    }
  }

  lemma EncodedIs(f: Fields)
    ensures EncodedBytes(f) == 66 + |f.stage| + |f.event| + Digits(f.ms)
                               + FieldBytes("phase", f.phase) + FieldBytes("outcome", f.outcome) + FieldBytes("failure", f.failure)
    ensures |LINE_PREFIX| == 17 && |TRUNCATED| == 50
  {
    hide Digits, FieldBytes;
  }

  lemma FieldIs(name: string, text: Option<string>)
    ensures FieldBytes(name, text) == if text.None? then 0 else 6 + |name| + Cut(text.value)
  {
  }

  lemma StageFits(f: Fields)
    requires StageCall(f)
    ensures f.phase.None? && f.outcome.None? && |f.event| <= 7
  {
  }

  lemma ContextFits(f: Fields, phase: string, key: string)
    requires ContextCall(f, phase, key) && |phase| <= 10 && |key| <= 4
    ensures |f.event| <= 6 && f.phase.Some? && |f.phase.value| <= 10
    ensures f.outcome.Some? ==> |f.outcome.value| <= 11
    ensures f.failure.Some? ==> |f.failure.value| <= 20
  {
  }

  lemma EndFits(f: Fields)
    requires EndCall(f)
    ensures |f.event| == 6 && f.phase.Some? && |f.phase.value| <= 21
    ensures f.outcome.Some? && |f.outcome.value| <= 13
    ensures f.failure.Some? ==> |f.failure.value| <= 31
    ensures f.failure.Some? && |f.failure.value| > 14 ==> |f.outcome.value| <= 6
  {
  }

  predicate DistinctKeys(lines: seq<Line>) {
    forall i, j | 0 <= i < j < |lines| :: lines[i].key != lines[j].key
  }

  lemma {:induction false} FirstsAreOwn(reports: seq<Report>, keys: seq<string>, most: nat)
    requires forall r | r in reports && r.stage == "close" :: DedupeKey(r) in keys && LineOf(r).bytes <= most
    ensures forall line | line in FirstCloses(reports) :: line.stage == "close" && line.key in keys && line.bytes <= most
    ensures DistinctKeys(FirstCloses(reports))
  {
    hide DedupeKey;
    if reports != [] {
      var front, last := reports[..|reports| - 1], reports[|reports| - 1];
      assert reports == front + [last];
      FirstsAreOwn(front, keys, most);
      assert LineOf(last).key == DedupeKey(last);
      hide LineOf;
      var before := FirstCloses(front);
      if !Logged(before, "close", DedupeKey(last)) {
        forall i | 0 <= i < |before|
          ensures before[i].key != DedupeKey(last)
        {
          assert before[i] in before;
        }
      }
    }
  }

  lemma {:induction false} KeysBound(lines: seq<Line>, keys: seq<string>)
    requires forall line | line in lines :: line.key in keys
    requires DistinctKeys(lines)
    ensures |lines| <= |keys|
  {
    var used := set line | line in lines :: line.key;
    UsedCount(lines);
    ElementsBound(keys);
    SubsetCard(used, set k | k in keys);
  }

  lemma {:induction false} UsedCount(lines: seq<Line>)
    requires DistinctKeys(lines)
    ensures |set line | line in lines :: line.key| == |lines|
  {
    if lines == [] {
      assert (set line | line in lines :: line.key) == {};
    } else {
      var front, last := lines[..|lines| - 1], lines[|lines| - 1];
      UsedCount(front);
      assert lines == front + [last];
      assert (set line | line in lines :: line.key) == (set line | line in front :: line.key) + {last.key};
    }
  }

  lemma {:induction false} ElementsBound(keys: seq<string>)
    ensures |set k | k in keys| <= |keys|
  {
    if keys != [] {
      ElementsBound(keys[1..]);
      assert keys == [keys[0]] + keys[1..];
      assert (set k | k in keys) == {keys[0]} + set k | k in keys[1..];
    }
  }

  lemma {:induction false} TotalBound(lines: seq<Line>, most: nat)
    requires forall line | line in lines :: line.bytes <= most
    ensures Total(lines) <= |lines| * most
  {
    if lines != [] { TotalBound(lines[..|lines| - 1], most); }
  }

  /** Over any run of the Host its close loses nothing: every one of its nine reports is in the log, each as it first
      came up, whatever the responses did and however many sessions were closed. */
  lemma HostCloseIsComplete(calls: seq<Fields>)
    requires forall f | f in calls :: HostCall(f) && Digits(f.ms) <= 30
    ensures CloseKept(ReportsOf(calls))
  {
    hide LinesOf, Total, LogOf, FirstCloses, LineOf, DedupeKey, CloseKept, HostCall, HostKeys, EncodedBytes, Digits;
    var reports := ReportsOf(calls);
    forall r | r in reports
      ensures PlainResponse(r)
      ensures r.stage == "close" ==> DedupeKey(r) in HostKeys() && LineOf(r).bytes <= HOST_LINE
    {
      var i :| 0 <= i < |reports| && reports[i] == r;
      var f := calls[i];
      assert f in calls;
      HostResponse(f);
      if f.stage == "close" {
        HostKey(f);
        HostLineFits(f);
      }
    }
    FirstsAreOwn(reports, HostKeys(), HOST_LINE);
    KeysBound(FirstCloses(reports), HostKeys());
    TotalBound(FirstCloses(reports), HOST_LINE);
    CloseReportsKept(reports);
  }

  lemma HostResponse(f: Fields)
    requires HostCall(f)
    ensures PlainResponse(ReportOf(f))
  {
  }
}
