/** The voice phase-anchor check (fp2_r1_diag.py): reading the diagnostic log of a browser run, and the verdict on
    when the page first saw the native voices. JSON values keep only the kinds the checks tell apart. */
module PhaseAnchor {
  import opened Commons

  // ---- events ------------------------------------------------------------

  datatype Process = Parent | Content

  datatype Kind =
    | VoicesParsed(parsed: Option<nat>)
    | SapiBegin
    | SapiEnd
    | BatchBegin(n: nat)
    | BatchEnd
    | Snapshot(n: nat)
    | SendAdded(h: string)
    | InitialVoices(n: nat)
    | RecvAdd(h: string)
    | GetVoices(ctx: nat, n: nat, cache: nat, first: nat)

  datatype Event = Overflow | Event(process: Process, number: nat, kind: Kind)

  datatype RawValue = IntValue(i: int) | StrValue(s: string) | NullValue | OtherValue

  type Raw = map<string, RawValue>

  const SEQUENCE_LIMIT := 512

  predicate IsHash(h: string) {
    |h| == 12 && forall c | c in h :: '0' <= c <= '9' || 'a' <= c <= 'f'
  }

  function ProcessOf(kind: Kind): Process {
    if kind.InitialVoices? || kind.RecvAdd? || kind.GetVoices? then Content else Parent
  }

  predicate WellFormed(e: Event) {
    e.Event? ==>
      e.number < SEQUENCE_LIMIT && e.process == ProcessOf(e.kind) && KindWellFormed(e.kind)
  }

  function Name(kind: Kind): string {
    match kind
    case VoicesParsed(_) => "E1_mvoices_parsed"
    case SapiBegin => "E2a_sapi_init_begin"
    case SapiEnd => "E2b_sapi_init_end"
    case BatchBegin(_) => "E3a_managed_batch_begin"
    case BatchEnd => "E3b_managed_batch_end"
    case Snapshot(_) => "E4_sendinit_snapshot"
    case SendAdded(_) => "E5_send_voice_added"
    case InitialVoices(_) => "E6_recv_initial_voices"
    case RecvAdd(_) => "E6_recv_add_voice"
    case GetVoices(_, _, _, _) => "E7_getvoices"
  }

  /** The object an event is logged as. */
  function Logged(e: Event): Raw {
    match e
    case Overflow => map["e" := StrValue("OVERFLOW")]
    case Event(process, number, kind) =>
      map["e" := StrValue(Name(kind)), "proc" := StrValue(if process.Parent? then "P" else "C"), "seq" := IntValue(number)]
      + Details(kind)
  }

  function Details(kind: Kind): Raw {
    match kind
    case VoicesParsed(parsed) => map["n" := if parsed.None? then NullValue else IntValue(parsed.value)]
    case BatchBegin(n) => map["n" := IntValue(n)]
    case Snapshot(n) => map["n" := IntValue(n)]
    case InitialVoices(n) => map["n" := IntValue(n)]
    case SendAdded(h) => map["h" := StrValue(h)]
    case RecvAdd(h) => map["h" := StrValue(h)]
    case GetVoices(ctx, n, cache, first) =>
      map["ctx" := IntValue(ctx), "n" := IntValue(n), "cache" := IntValue(cache), "first" := IntValue(first)]
    case _ => map[]
  }

  predicate KindWellFormed(kind: Kind) {
    && (kind.SendAdded? || kind.RecvAdd? ==> IsHash(kind.h))
    && (kind.GetVoices? ==> kind.first <= 1)
  }

  predicate IsCount(raw: Raw, key: string) {
    key in raw && raw[key].IntValue? && raw[key].i >= 0
  }

  function KindOf(name: string, raw: Raw): Option<Kind> {
    if name == "E1_mvoices_parsed" then
      if "n" in raw && raw["n"].NullValue? then Some(VoicesParsed(None))
      else if IsCount(raw, "n") then Some(VoicesParsed(Some(raw["n"].i))) else None
    else if name == "E2a_sapi_init_begin" then Some(SapiBegin)
    else if name == "E2b_sapi_init_end" then Some(SapiEnd)
    else if name == "E3a_managed_batch_begin" then if IsCount(raw, "n") then Some(BatchBegin(raw["n"].i)) else None
    else if name == "E3b_managed_batch_end" then Some(BatchEnd)
    else if name == "E4_sendinit_snapshot" then if IsCount(raw, "n") then Some(Snapshot(raw["n"].i)) else None
    else if name == "E5_send_voice_added" then
      if "h" in raw && raw["h"].StrValue? && IsHash(raw["h"].s) then Some(SendAdded(raw["h"].s)) else None
    else if name == "E6_recv_initial_voices" then if IsCount(raw, "n") then Some(InitialVoices(raw["n"].i)) else None
    else if name == "E6_recv_add_voice" then
      if "h" in raw && raw["h"].StrValue? && IsHash(raw["h"].s) then Some(RecvAdd(raw["h"].s)) else None
    else if name == "E7_getvoices" then
      if IsCount(raw, "ctx") && IsCount(raw, "n") && IsCount(raw, "cache") && IsCount(raw, "first") && raw["first"].i <= 1
      then Some(GetVoices(raw["ctx"].i, raw["n"].i, raw["cache"].i, raw["first"].i)) else None
    else None
  }

  function FieldsOf(name: string): set<string> {
    if name in {"E1_mvoices_parsed", "E3a_managed_batch_begin", "E4_sendinit_snapshot", "E6_recv_initial_voices"} then {"n"}
    else if name in {"E5_send_voice_added", "E6_recv_add_voice"} then {"h"}
    else if name == "E7_getvoices" then {"ctx", "n", "cache", "first"}
    else {}
  }

  /** `_validate_event`, giving the event it admits. */
  function ValidateEvent(raw: Raw): Option<Event> {
    if "e" !in raw || !raw["e"].StrValue? then None
    else if raw["e"].s == "OVERFLOW" then if raw.Keys == {"e"} then Some(Overflow) else None
    else if raw.Keys != {"e", "proc", "seq"} + FieldsOf(raw["e"].s) then None
    else
      var kind := KindOf(raw["e"].s, raw);
      if kind.None? then None
      else if raw["proc"] != StrValue(if ProcessOf(kind.value).Parent? then "P" else "C") then None
      else if !IsCount(raw, "seq") || raw["seq"].i >= SEQUENCE_LIMIT then None
      else Some(Event(ProcessOf(kind.value), raw["seq"].i, kind.value))
  }

  lemma FieldsFit(kind: Kind)
    ensures Details(kind).Keys == FieldsOf(Name(kind)) && Name(kind) != "OVERFLOW"
    ensures "e" !in Details(kind) && "proc" !in Details(kind) && "seq" !in Details(kind)
  {
  }

  lemma KindIsNamed(name: string, raw: Raw, kind: Kind)
    requires KindOf(name, raw) == Some(kind)
    ensures Name(kind) == name && KindWellFormed(kind)
    ensures forall k | k in Details(kind) :: k in raw && raw[k] == Details(kind)[k]
  {
    hide IsHash;
  }

  lemma KindIsRead(raw: Raw, kind: Kind)
    requires KindWellFormed(kind) && Details(kind).Keys <= raw.Keys
    requires forall k | k in Details(kind) :: k in raw && raw[k] == Details(kind)[k]
    ensures KindOf(Name(kind), raw) == Some(kind)
  {
    hide IsHash;
  }

  /** The objects admitted are exactly those that well-formed events are logged as, each for its one event. */
  lemma AdmittedIffLogged(raw: Raw, e: Event)
    ensures ValidateEvent(raw) == Some(e) <==> raw == Logged(e) && WellFormed(e)
  {
    if ValidateEvent(raw) == Some(e) { AdmittedIsLogged(raw, e); }
    if raw == Logged(e) && WellFormed(e) { LoggedIsAdmitted(e); }
  }

  lemma AdmittedIsLogged(raw: Raw, e: Event)
    requires ValidateEvent(raw) == Some(e)
    ensures raw == Logged(e) && WellFormed(e)
  {
    hide KindOf, FieldsOf, Name, Details, KindWellFormed;
    if e.Event? {
      KindIsNamed(raw["e"].s, raw, e.kind);
      FieldsFit(e.kind);
      assert raw.Keys == Logged(e).Keys;
    }
  }

  lemma LoggedIsAdmitted(e: Event)
    requires WellFormed(e)
    ensures ValidateEvent(Logged(e)) == Some(e)
  {
    hide KindOf, FieldsOf, Name, Details, KindWellFormed;
    if e.Event? {
      FieldsFit(e.kind);
      KindIsRead(Logged(e), e.kind);
      assert Logged(e).Keys == {"e", "proc", "seq"} + FieldsOf(Name(e.kind));
    }
  }

  // ---- reading the log ---------------------------------------------------

  /** A line of the log: one that the transport pattern matches, with the object after the marker (None when it is
      no strict JSON object), one that only mentions the marker, or any other. */
  datatype LogLine = Diagnostic(pid: nat, bytes: nat, raw: Option<Raw>) | Mangled | Unrelated

  const LINE_LIMIT := 240

  function EventOf(line: LogLine): Option<Event> {
    if line.Diagnostic? && line.bytes <= LINE_LIMIT && line.raw.Some? then ValidateEvent(line.raw.value) else None
  }

  predicate LineAdmitted(line: LogLine) {
    line.Unrelated? || EventOf(line).Some?
  }

  function EventsOf(lines: seq<LogLine>): (events: seq<Event>) {
    if lines == [] then []
    else
      var last := EventOf(lines[|lines| - 1]);
      EventsOf(lines[..|lines| - 1]) + if last.Some? then [last.value] else []
  }

  function PidsOf(lines: seq<LogLine>): set<nat> {
    set line | line in lines && line.Diagnostic? :: line.pid
  }

  function Select(events: seq<Event>, process: Process): (selected: seq<Event>)
    ensures forall e :: e in selected <==> e in events && e.Event? && e.process == process
  {
    if events == [] then []
    else
      var last := events[|events| - 1];
      assert events == events[..|events| - 1] + [last];
      Select(events[..|events| - 1], process) + if last.Event? && last.process == process then [last] else []
  }

  function Numbers(events: seq<Event>): set<nat> {
    set e | e in events && e.Event? :: e.number
  }

  predicate Distinct(events: seq<Event>) {
    forall i, j | 0 <= i < j < |events| :: events[i].Event? && events[j].Event? ==> events[i].number != events[j].number
  }

  /** The numbers of one process are 0 up to one less than how many there are. */
  predicate Contiguous(events: seq<Event>) {
    Distinct(events) && Numbers(events) == UpTo(|events|)
  }

  predicate LogAdmitted(lines: seq<LogLine>) {
    var events := EventsOf(lines);
    && (forall line | line in lines :: LineAdmitted(line))
    && Overflow !in events && events != [] && |PidsOf(lines)| == 1
    && Contiguous(Select(events, Parent)) && Contiguous(Select(events, Content))
  }

  lemma {:induction false} DistinctCount(events: seq<Event>)
    requires Distinct(events) && forall e | e in events :: e.Event?
    ensures |Numbers(events)| == |events|
  {
    if events == [] {
      assert Numbers(events) == {};
    } else {
      var before, last := events[..|events| - 1], events[|events| - 1];
      DistinctCount(before);
      assert events == before + [last];
      assert Numbers(events) == Numbers(before) + {last.number};
    }
  }

  lemma {:induction false} EventsPrefix(lines: seq<LogLine>, i: nat)
    requires i <= |lines|
    ensures EventsOf(lines[..i]) <= EventsOf(lines)
  {
    if i < |lines| {
      EventsPrefix(lines[..|lines| - 1], i);
      assert lines[..|lines| - 1][..i] == lines[..i];
    } else {
      assert lines[..i] == lines;
    }
  }

  lemma {:induction false} SelectPrefix(some: seq<Event>, all: seq<Event>, process: Process)
    requires some <= all
    ensures Select(some, process) <= Select(all, process)
  {
    if |some| < |all| {
      SelectPrefix(some, all[..|all| - 1], process);
    } else {
      assert some == all;
    }
  }

  /** What the two sets of numbers hold once these events are read. */
  ghost predicate Tracks(sequences: map<Process, set<nat>>, events: seq<Event>) {
    forall p: Process :: p in sequences && sequences[p] == Numbers(Select(events, p)) && Distinct(Select(events, p))
  }

  lemma SelectNext(events: seq<Event>, e: Event, process: Process)
    ensures Select(events + [e], process) ==
              Select(events, process) + if e.Event? && e.process == process then [e] else []
  {
    assert (events + [e])[..|events|] == events;
  }

  lemma NumbersNext(events: seq<Event>, e: Event)
    requires e.Event? && Distinct(events)
    ensures Numbers(events + [e]) == Numbers(events) + {e.number}
    ensures Distinct(events + [e]) <==> e.number !in Numbers(events)
  {
    var more := events + [e];
    if e.number in Numbers(events) {
      var other :| other in events && other.Event? && other.number == e.number;
      var i :| 0 <= i < |events| && events[i] == other;
      assert more[i] == other && more[|events|] == e;
    }
  }

  lemma TracksNext(sequences: map<Process, set<nat>>, events: seq<Event>, e: Event)
    requires Tracks(sequences, events) && e.Event?
    ensures e.process in sequences
    ensures e.number !in sequences[e.process] ==>
              Tracks(sequences[e.process := sequences[e.process] + {e.number}], events + [e])
    ensures e.number in sequences[e.process] ==> !Distinct(Select(events + [e], e.process))
  {
    hide Select, Numbers, Distinct;
    forall p: Process { SelectNext(events, e, p); }
    NumbersNext(Select(events, e.process), e);
    forall p: Process | p != e.process
      ensures Select(events + [e], p) == Select(events, p)
    {
      assert Select(events, p) + [] == Select(events, p);
    }
  }

  lemma UntrackedNext(sequences: map<Process, set<nat>>, events: seq<Event>)
    requires Tracks(sequences, events)
    ensures Tracks(sequences, events + [Overflow])
  {
    hide Distinct, Numbers, Select;
    forall p: Process
      ensures Select(events + [Overflow], p) == Select(events, p)
    {
      SelectNext(events, Overflow, p);
    }
  }

  lemma NothingTracked()
    ensures Tracks(map[Parent := {}, Content := {}], [])
  {
    var none: map<Process, set<nat>> := map[Parent := {}, Content := {}];
    assert Numbers([]) == {};
    forall p: Process
      ensures p in none && none[p] == {}
    {
      match p
      case Parent =>
      case Content =>
    }
  }

  lemma NothingRead()
    ensures EventsOf([]) == [] && PidsOf([]) == {}
  {
  }

  lemma ReadNext(lines: seq<LogLine>, i: nat)
    requires i < |lines|
    ensures var event := EventOf(lines[i]);
            EventsOf(lines[..i + 1]) == EventsOf(lines[..i]) + if event.Some? then [event.value] else []
    ensures PidsOf(lines[..i + 1]) == PidsOf(lines[..i]) + if lines[i].Diagnostic? then {lines[i].pid} else {}
  {
    hide EventOf;
    assert lines[..i + 1][..i] == lines[..i];
    assert lines[..i + 1] == lines[..i] + [lines[i]];
  }

  /** `parse_diagnostic_log`: the events, or None for any DiagnosticError. */
  method ParseDiagnosticLog(lines: seq<LogLine>) returns (events: Option<seq<Event>>)
    ensures events.Some? <==> LogAdmitted(lines)
    ensures events.Some? ==> events.value == EventsOf(lines)
  {
    hide ValidateEvent, Select, Numbers, Distinct, Tracks, EventsOf, PidsOf, Contiguous;
    var found: seq<Event> := [];
    var sequences: map<Process, set<nat>> := map[Parent := {}, Content := {}];
    var pids: set<nat> := {};
    NothingTracked();
    NothingRead();
    assert lines[..0] == [];
    var i := 0;
    while i < |lines|
      invariant 0 <= i <= |lines| && found == EventsOf(lines[..i]) && pids == PidsOf(lines[..i])
      invariant forall line | line in lines[..i] :: LineAdmitted(line)
      invariant sequences.Keys == {Parent, Content} && Tracks(sequences, found)
    {
      var line := lines[i];
      assert line in lines;
      ReadNext(lines, i);
      if line.Mangled? { return None; }
      if line.Diagnostic? {
        var event := EventOf(line);
        if event.None? { return None; }
        var e := event.value;
        pids := pids + {line.pid};
        if e.Event? {
          TracksNext(sequences, found, e);
          if e.number in sequences[e.process] {
            DuplicateIsFatal(lines, i + 1, e.process);
            return None;
          }
          sequences := sequences[e.process := sequences[e.process] + {e.number}];
        } else {
          UntrackedNext(sequences, found);
        }
        found := found + [e];
      }
      i := i + 1;
    }
    assert lines[..i] == lines;
    if Overflow in found { return None; }
    TracksCounts(sequences, found, Parent);
    TracksCounts(sequences, found, Content);
    if sequences[Parent] != UpTo(|sequences[Parent]|) { return None; }
    if sequences[Content] != UpTo(|sequences[Content]|) { return None; }
    if |pids| != 1 || found == [] { return None; }
    events := Some(found);
  }

  lemma TracksCounts(sequences: map<Process, set<nat>>, events: seq<Event>, process: Process)
    requires Tracks(sequences, events)
    ensures process in sequences
    ensures sequences[process] == UpTo(|sequences[process]|) <==> Contiguous(Select(events, process))
  {
    hide Distinct, Numbers, Select;
    DistinctCount(Select(events, process));
  }

  lemma DuplicateIsFatal(lines: seq<LogLine>, i: nat, process: Process)
    requires i <= |lines| && !Distinct(Select(EventsOf(lines[..i]), process))
    ensures !LogAdmitted(lines)
  {
    hide EventsOf, Select;
    EventsPrefix(lines, i);
    SelectPrefix(EventsOf(lines[..i]), EventsOf(lines), process);
  }

  // ---- order -------------------------------------------------------------

  predicate Increasing(events: seq<Event>) {
    && (forall e | e in events :: e.Event?)
    && forall i, j | 0 <= i < j < |events| :: events[i].number < events[j].number
  }

  /** Stable: an earlier event stays before a later one with its number. */
  function Insert(e: Event, sorted: seq<Event>): (more: seq<Event>)
    requires e.Event? && forall x | x in sorted :: x.Event?
    ensures |more| == |sorted| + 1 && forall x :: x in more <==> x == e || x in sorted
  {
    if sorted == [] then [e]
    else
      assert sorted == [sorted[0]] + sorted[1..];
      if e.number <= sorted[0].number then [e] + sorted else [sorted[0]] + Insert(e, sorted[1..])
  }

  /** `sorted(..., key=seq)` */
  function Sorted(events: seq<Event>): (sorted: seq<Event>)
    requires forall e | e in events :: e.Event?
    ensures |sorted| == |events| && forall e :: e in sorted <==> e in events
  {
    if events == [] then []
    else
      assert events == [events[0]] + events[1..];
      Insert(events[0], Sorted(events[1..]))
  }

  lemma {:induction false} InsertKeepsOrder(e: Event, sorted: seq<Event>)
    requires e.Event? && Increasing(sorted) && forall x | x in sorted :: x.number != e.number
    ensures Increasing(Insert(e, sorted))
  {
    if sorted != [] && e.number > sorted[0].number {
      var rest := sorted[1..];
      InsertKeepsOrder(e, rest);
      forall x | x in Insert(e, rest)
        ensures sorted[0].number < x.number
      {
        if x != e {
          var i :| 0 <= i < |rest| && rest[i] == x;
          assert sorted[i + 1] == x;
        }
      }
    }
  }

  lemma {:induction false} SortedIsIncreasing(events: seq<Event>)
    requires (forall e | e in events :: e.Event?) && Distinct(events)
    ensures Increasing(Sorted(events))
  {
    if events != [] {
      SortedIsIncreasing(events[1..]);
      forall x | x in events[1..]
        ensures x.number != events[0].number
      {
        var i :| 0 <= i < |events[1..]| && events[1..][i] == x;
        assert events[i + 1] == x;
      }
      InsertKeepsOrder(events[0], Sorted(events[1..]));
    }
  }

  lemma {:induction false} IncreasingFloor(events: seq<Event>, i: nat)
    requires Increasing(events) && i < |events|
    ensures events[i].number >= i
  {
    if i > 0 {
      IncreasingFloor(events, i - 1);
      assert events[i - 1].number < events[i].number;
    }
  }

  lemma {:induction false} IncreasingCeiling(events: seq<Event>, i: nat)
    requires Increasing(events) && i < |events| && events[|events| - 1].number < |events|
    ensures events[i].number <= i
    decreases |events| - i
  {
    if i + 1 < |events| { IncreasingCeiling(events, i + 1); }
  }

  /** In an admitted log the events of each process, put in order, are numbered by their positions: nothing is
      missing and nothing is there twice. No process has more than the format's limit. */
  lemma AdmittedNumbering(lines: seq<LogLine>, process: Process, i: nat)
    requires LogAdmitted(lines) && i < |Select(EventsOf(lines), process)|
    ensures Sorted(Select(EventsOf(lines), process))[i].number == i && i < SEQUENCE_LIMIT
  {
    hide EventsOf, Select;
    var events := Select(EventsOf(lines), process);
    var sorted := Sorted(events);
    SortedIsIncreasing(events);
    var last := sorted[|sorted| - 1];
    assert last.number in Numbers(events);
    IncreasingFloor(sorted, i);
    IncreasingCeiling(sorted, i);
    EventsAreWellFormed(lines, sorted[i]);
  }

  lemma {:induction false} EventsAreWellFormed(lines: seq<LogLine>, e: Event)
    requires e in EventsOf(lines)
    ensures WellFormed(e)
  {
    var before, last := lines[..|lines| - 1], lines[|lines| - 1];
    if e in EventsOf(before) {
      EventsAreWellFormed(before, e);
    } else {
      AdmittedIsLogged(last.raw.value, e);
    }
  }

  // ---- the observation ---------------------------------------------------

  datatype Inventory = Inventory(count: int, hashes: seq<string>)

  datatype FirstChange = FirstChange(at: real, isTrusted: bool, targetIsSynth: bool, inventory: Inventory)

  /** What the page reported. `framed` stands for the digests, schema, flags and key sets being exact. */
  datatype Observation = Observation(
    framed: bool, initialAt: real, finalAt: real, sameObject: bool, eventCount: int,
    initial: Inventory, first: Option<FirstChange>, final: Inventory)

  function Members(hashes: seq<string>): set<string> {
    set h | h in hashes
  }

  predicate InventoryChecked(v: Inventory) {
    && 0 <= v.count == |v.hashes|
    && (forall i, j | 0 <= i < j < |v.hashes| :: v.hashes[i] != v.hashes[j])
    && (forall h | h in v.hashes :: IsHash(h))
  }

  /** `_top_phase_observation` */
  predicate ObservationChecked(o: Observation) {
    && o.framed && o.finalAt - o.initialAt >= 3000.0 && o.sameObject && 0 <= o.eventCount <= 2
    && InventoryChecked(o.initial) && InventoryChecked(o.final)
    && match o.first
       case None => o.eventCount == 0
       case Some(first) => o.initialAt <= first.at <= o.finalAt && o.eventCount >= 1 && InventoryChecked(first.inventory)
  }

  function Inventories(o: Observation): (inventories: seq<Inventory>) {
    [o.initial] + (if o.first.Some? then [o.first.value.inventory] else []) + [o.final]
  }

  // ---- the verdict -------------------------------------------------------

  function Keep(events: seq<Event>, keep: Event -> bool): (kept: seq<Event>)
    ensures forall e :: e in kept <==> e in events && keep(e)
  {
    if events == [] then []
    else
      assert events == [events[0]] + events[1..];
      (if keep(events[0]) then [events[0]] else []) + Keep(events[1..], keep)
  }

  lemma {:induction false} KeepIsIncreasing(events: seq<Event>, keep: Event -> bool)
    requires Increasing(events)
    ensures Increasing(Keep(events, keep))
  {
    if events != [] {
      var rest := Keep(events[1..], keep);
      KeepIsIncreasing(events[1..], keep);
      forall x | x in rest
        ensures events[0].number < x.number
      {
        var i :| 0 <= i < |events[1..]| && events[1..][i] == x;
        assert events[i + 1] == x;
      }
    }
  }

  predicate IsAdd(e: Event) { e.Event? && e.kind.RecvAdd? }

  predicate IsSend(e: Event) { e.Event? && e.kind.SendAdded? }

  predicate IsInitial(e: Event) { e.Event? && e.kind.InitialVoices? }

  predicate IsQuery(e: Event) { e.Event? && e.kind.GetVoices? }

  predicate IsSapiBegin(e: Event) { e.Event? && e.kind.SapiBegin? }

  predicate IsSapiEnd(e: Event) { e.Event? && e.kind.SapiEnd? }

  predicate IsParsed(e: Event) { e.Event? && e.kind.VoicesParsed? }

  predicate IsBatchBegin(e: Event) { e.Event? && e.kind.BatchBegin? }

  predicate IsBatchEnd(e: Event) { e.Event? && e.kind.BatchEnd? }

  predicate IsSnapshot(e: Event) { e.Event? && e.kind.Snapshot? }

  function At(e: Event): nat { if e.Event? then e.number else 0 }

  function CountOf(e: Event): Option<nat> {
    if e.Overflow? then None else
    match e.kind
    case VoicesParsed(parsed) => parsed
    case BatchBegin(n) => Some(n)
    case Snapshot(n) => Some(n)
    case InitialVoices(n) => Some(n)
    case _ => None
  }

  const MANAGED_VOICES := 53
  const NATIVE_VOICES := 5
  const ALL_VOICES := 58

  function HashOf(e: Event): string {
    if e.Event? && (e.kind.RecvAdd? || e.kind.SendAdded?) then e.kind.h else ""
  }

  function Hashes(events: seq<Event>): set<string> {
    set e | e in events :: HashOf(e)
  }

  /** The native voices and then the managed ones, all of them. */
  predicate NativeThenManaged(adds: seq<Event>, managed: set<string>, native: set<string>) {
    |adds| == ALL_VOICES && Hashes(adds[..NATIVE_VOICES]) == native && Hashes(adds[NATIVE_VOICES..]) == managed
  }

  /** The parent process parsed, registered and sent the voices in the one order expected. */
  predicate ParentInOrder(parent: seq<Event>, managed: set<string>, native: set<string>) {
    var begin, end, parsed := Keep(parent, IsSapiBegin), Keep(parent, IsSapiEnd), Keep(parent, IsParsed);
    var batch, done, snapshot := Keep(parent, IsBatchBegin), Keep(parent, IsBatchEnd), Keep(parent, IsSnapshot);
    var adds := Keep(parent, IsSend);
    && |begin| == |end| == |parsed| == |batch| == |done| == |snapshot| == 1
    && CountOf(parsed[0]) == CountOf(batch[0]) == Some(|managed|) && |managed| == MANAGED_VOICES
    && CountOf(snapshot[0]) == Some(|native + managed|) && |native + managed| == ALL_VOICES
    && NativeThenManaged(adds, managed, native)
    && At(begin[0]) < At(adds[0])
    && At(adds[4]) < At(end[0]) < At(parsed[0]) < At(batch[0]) < At(adds[5])
    && At(adds[57]) < At(done[0]) < At(snapshot[0])
  }

  /** The content process received every voice before the initial list. */
  predicate Delivered(content: seq<Event>, managed: set<string>, native: set<string>) {
    var adds, initial := Keep(content, IsAdd), Keep(content, IsInitial);
    && NativeThenManaged(adds, managed, native) && |initial| == 1
    && CountOf(initial[0]) == Some(ALL_VOICES) && At(adds[57]) < At(initial[0])
  }

  /** Each query reports the inventory the page saw, in one context. */
  predicate QueriesMatch(queries: seq<Event>, inventories: seq<Inventory>) {
    && |queries| == |inventories|
    && forall i | 0 <= i < |queries| ::
         QueryMatches(queries[i], queries[0], i == 0, inventories[i].count)
  }

  predicate QueryMatches(query: Event, firstQuery: Event, first: bool, count: int) {
    && IsQuery(query) && IsQuery(firstQuery) && query.kind.ctx == firstQuery.kind.ctx
    && query.kind.first == (if first then 1 else 0) && query.kind.n == query.kind.cache == count
  }

  function ContentOf(events: seq<Event>): seq<Event> { Sorted(Select(events, Content)) }

  function QueriesOf(events: seq<Event>): seq<Event> { Keep(ContentOf(events), IsQuery) }

  /** Everything `classify_phase_anchor` demands before it gives a verdict. */
  predicate Accepted(events: seq<Event>, o: Observation, managed: set<string>, native: set<string>) {
    && ObservationChecked(o)
    && (forall v | v in Inventories(o) :: Members(v.hashes) <= native + managed)
    && (o.first.Some? ==> o.first.value.isTrusted && o.first.value.targetIsSynth)
    && ParentInOrder(Sorted(Select(events, Parent)), managed, native)
    && Delivered(ContentOf(events), managed, native)
    && QueriesMatch(QueriesOf(events), Inventories(o))
    && Members(o.final.hashes) == native + managed
    && At(Keep(ContentOf(events), IsInitial)[0]) < At(QueriesOf(events)[|QueriesOf(events)| - 1])
  }

  /** `classify_phase_anchor`: None for any DiagnosticError, otherwise whether the phase is supported. */
  function ClassifyPhaseAnchor(events: seq<Event>, o: Observation, managed: set<string>, native: set<string>): Option<bool> {
    if !Accepted(events, o, managed, native) then None
    else
      var adds, queries := Keep(ContentOf(events), IsAdd), QueriesOf(events);
      Some(&& o.first.Some? && o.initial.hashes == [] && Members(o.first.value.inventory.hashes) == native
           && At(queries[0]) < At(adds[0]) && At(adds[4]) < At(queries[1]) < At(adds[5]))
  }

  // ---- replay ------------------------------------------------------------

  /** The content process's mirror when it reaches number `at`: every voice added before, whatever the log's order. */
  function Mirror(events: seq<Event>, at: nat): set<string> {
    set e | e in events && e.Event? && e.process.Content? && e.kind.RecvAdd? && e.number < at :: e.kind.h
  }

  /** At every query the mirror is what the page reported. */
  predicate Replays(events: seq<Event>, o: Observation) {
    && |QueriesOf(events)| == |Inventories(o)|
    && forall i | 0 <= i < |QueriesOf(events)| ::
         Mirror(events, At(QueriesOf(events)[i])) == Members(Inventories(o)[i].hashes)
  }

  lemma {:induction false} HashesBound(events: seq<Event>)
    ensures |Hashes(events)| <= |events|
  {
    if events == [] {
      assert Hashes(events) == {};
    } else {
      HashesBound(events[1..]);
      assert events == [events[0]] + events[1..];
      assert Hashes(events) == {HashOf(events[0])} + Hashes(events[1..]);
    }
  }

  /** The checks on counts leave no room for a voice added twice: five native voices, none of them managed. */
  lemma VoicesApart(adds: seq<Event>, managed: set<string>, native: set<string>)
    requires NativeThenManaged(adds, managed, native) && |managed| == MANAGED_VOICES && |native + managed| == ALL_VOICES
    ensures |native| == NATIVE_VOICES && native * managed == {}
    ensures Hashes(adds) == native + managed
  {
    HashesBound(adds[..NATIVE_VOICES]);
    assert |native * managed| == 0;
    assert adds == adds[..NATIVE_VOICES] + adds[NATIVE_VOICES..];
  }

  /** The adds of the content process, in order. */
  ghost predicate AddsOf(events: seq<Event>, adds: seq<Event>) {
    && Increasing(adds)
    && forall e :: e in adds <==> e in events && e.Event? && e.process.Content? && e.kind.RecvAdd?
  }

  lemma ContentAdds(events: seq<Event>)
    requires Distinct(Select(events, Content))
    ensures AddsOf(events, Keep(ContentOf(events), IsAdd)) && Increasing(QueriesOf(events))
  {
    SortedIsIncreasing(Select(events, Content));
    KeepIsIncreasing(ContentOf(events), IsAdd);
    KeepIsIncreasing(ContentOf(events), IsQuery);
  }

  /** The mirror between two adds is what the adds up to there brought. */
  lemma MirrorAfter(events: seq<Event>, adds: seq<Event>, at: nat, k: nat)
    requires AddsOf(events, adds) && k <= |adds|
    requires (k > 0 ==> At(adds[k - 1]) < at) && (k < |adds| ==> at <= At(adds[k]))
    ensures Mirror(events, at) == Hashes(adds[..k])
  {
    forall e | e in adds
      ensures At(e) < at <==> e in adds[..k]
    {
      var i :| 0 <= i < |adds| && adds[i] == e;
      if i < k { assert adds[..k][i] == e; }
    }
    forall e | e in adds[..k]
      ensures e in adds
    {
    }
    forall h | h in Mirror(events, at)
      ensures h in Hashes(adds[..k])
    {
      var e :| e in events && e.Event? && e.process.Content? && e.kind.RecvAdd? && e.number < at && e.kind.h == h;
      assert e in adds && HashOf(e) == h;
    }
    forall h | h in Hashes(adds[..k])
      ensures h in Mirror(events, at)
    {
      var e :| e in adds[..k] && HashOf(e) == h;
      assert e in adds;
    }
  }

  /** How many adds come before `at`. */
  lemma AddsBefore(adds: seq<Event>, at: nat) returns (k: nat)
    requires Increasing(adds)
    ensures k <= |adds| && (k > 0 ==> At(adds[k - 1]) < at) && (k < |adds| ==> at <= At(adds[k]))
  {
    k := 0;
    while k < |adds| && At(adds[k]) < at
      invariant 0 <= k <= |adds| && (k > 0 ==> At(adds[k - 1]) < at)
    {
      k := k + 1;
    }
  }

  /** The first k adds are no voices, or exactly the native ones, for one k each. */
  lemma SeenVoices(adds: seq<Event>, k: nat, managed: set<string>, native: set<string>)
    requires NativeThenManaged(adds, managed, native) && k <= |adds|
    requires |managed| == MANAGED_VOICES && |native + managed| == ALL_VOICES
    ensures Hashes(adds[..k]) == {} <==> k == 0
    ensures Hashes(adds[..k]) == native <==> k == NATIVE_VOICES
    ensures k == ALL_VOICES ==> Hashes(adds[..k]) == native + managed
  {
    VoicesApart(adds, managed, native);
    var seen := adds[..k];
    HashesBound(seen);
    if k > 0 { assert seen[0] in seen && HashOf(seen[0]) in Hashes(seen); }
    if k > NATIVE_VOICES {
      var sixth := adds[NATIVE_VOICES];
      assert seen[NATIVE_VOICES] == sixth && sixth in seen && HashOf(sixth) in Hashes(seen);
      assert adds[NATIVE_VOICES..][0] == sixth && HashOf(sixth) in Hashes(adds[NATIVE_VOICES..]);
      assert HashOf(sixth) !in native * managed;
    }
    if k == ALL_VOICES { assert seen == adds; }
  }

  /** The mirror is empty before the first add, exactly the native voices between the fifth and the sixth, and
      everything after the last; at no other point is it empty or exactly the native voices. */
  lemma MirrorPhases(events: seq<Event>, adds: seq<Event>, at: nat, managed: set<string>, native: set<string>)
    requires AddsOf(events, adds) && NativeThenManaged(adds, managed, native)
    requires |managed| == MANAGED_VOICES && |native + managed| == ALL_VOICES
    requires forall e | e in adds :: At(e) != at
    ensures Mirror(events, at) == {} <==> at < At(adds[0])
    ensures Mirror(events, at) == native <==> At(adds[4]) < at < At(adds[5])
    ensures At(adds[57]) < at ==> Mirror(events, at) == native + managed
  {
    hide Mirror, Hashes;
    var k := AddsBefore(adds, at);
    MirrorAfter(events, adds, at, k);
    SeenVoices(adds, k, managed, native);
    BeforeIff(adds, at, k, 0);
    BeforeIff(adds, at, k, 4);
    BeforeIff(adds, at, k, 5);
    BeforeIff(adds, at, k, 57);
  }

  lemma BeforeIff(adds: seq<Event>, at: nat, k: nat, i: nat)
    requires Increasing(adds) && (forall e | e in adds :: At(e) != at) && i < |adds|
    requires k <= |adds| && (k > 0 ==> At(adds[k - 1]) < at) && (k < |adds| ==> at <= At(adds[k]))
    ensures At(adds[i]) < at <==> i < k
    ensures at < At(adds[i]) <==> k <= i
  {
    assert adds[i] in adds;
  }

  lemma QueriesMissAdds(events: seq<Event>, query: Event, add: Event)
    requires Distinct(Select(events, Content))
    requires query in QueriesOf(events) && add in Keep(ContentOf(events), IsAdd)
    ensures At(query) != At(add)
  {
    var content := Select(events, Content);
    var i :| 0 <= i < |content| && content[i] == query;
    var j :| 0 <= j < |content| && content[j] == add;
  }

  /** The whole verdict, for every log whose content numbers are distinct and every observation the checks accept:
      the phase is supported exactly when the page saw nothing, then the native voices, and replaying the adds gives
      what was reported at each of the three queries. The last report is right whatever the verdict. */
  lemma SupportedIffReplayed(events: seq<Event>, o: Observation, managed: set<string>, native: set<string>)
    requires Distinct(Select(events, Content)) && Accepted(events, o, managed, native)
    ensures ClassifyPhaseAnchor(events, o, managed, native) == Some(true) <==>
              && o.first.Some? && o.initial.hashes == [] && Members(o.first.value.inventory.hashes) == native
              && Replays(events, o)
    ensures Mirror(events, At(QueriesOf(events)[|QueriesOf(events)| - 1])) == Members(o.final.hashes)
  {
    hide Mirror, ContentOf, Select, ObservationChecked, ParentInOrder, Replays;
    var adds, queries := Keep(ContentOf(events), IsAdd), QueriesOf(events);
    ContentAdds(events);
    assert |managed| == MANAGED_VOICES && |native + managed| == ALL_VOICES by { ParentCounts(events, o, managed, native); }
    forall q, e | q in queries && e in adds
      ensures At(e) != At(q)
    {
      QueriesMissAdds(events, q, e);
    }
    var last := queries[|queries| - 1];
    MirrorPhases(events, adds, At(last), managed, native);
    MirrorPhases(events, adds, At(queries[0]), managed, native);
    if o.first.Some? && o.initial.hashes == [] && Members(o.first.value.inventory.hashes) == native {
      MirrorPhases(events, adds, At(queries[1]), managed, native);
      ReplaysThree(events, o);
    }
  }

  lemma ParentCounts(events: seq<Event>, o: Observation, managed: set<string>, native: set<string>)
    requires Accepted(events, o, managed, native)
    ensures |managed| == MANAGED_VOICES && |native + managed| == ALL_VOICES
  {
    hide Keep, Sorted, Select, ContentOf, QueriesOf, Delivered;
  }

  lemma ReplaysThree(events: seq<Event>, o: Observation)
    requires o.first.Some? && |QueriesOf(events)| == 3
    ensures var q := QueriesOf(events);
            Replays(events, o) <==> && Mirror(events, At(q[0])) == Members(o.initial.hashes)
                                    && Mirror(events, At(q[1])) == Members(o.first.value.inventory.hashes)
                                    && Mirror(events, At(q[2])) == Members(o.final.hashes)
  {
    hide Mirror, QueriesOf, Members;
    assert Inventories(o) == [o.initial, o.first.value.inventory, o.final];
  }

  /** From the log's text to the verdict: a supported log replays. */
  lemma SupportedLogReplays(lines: seq<LogLine>, o: Observation, managed: set<string>, native: set<string>)
    requires LogAdmitted(lines) && ClassifyPhaseAnchor(EventsOf(lines), o, managed, native) == Some(true)
    ensures Replays(EventsOf(lines), o) && |Inventories(o)| == 3 && native * managed == {}
    ensures Members(Inventories(o)[0].hashes) == {} && Members(Inventories(o)[1].hashes) == native
    ensures Members(Inventories(o)[2].hashes) == native + managed
  {
    hide Replays, ContentOf, Select, ParentInOrder, ObservationChecked, QueriesOf;
    var events := EventsOf(lines);
    SupportedIffReplayed(events, o, managed, native);
    ParentCounts(events, o, managed, native);
    VoicesApart(Keep(ContentOf(events), IsAdd), managed, native);
  }

  /** The number of the first event kept. */
  function FirstAt(events: seq<Event>, keep: Event -> bool): nat {
    var kept := Keep(events, keep);
    if kept == [] then 0 else At(kept[0])
  }

  /** What the parent's own events say once a log is accepted: every native voice is sent while the platform's
      voices are initialised, every managed voice inside the managed batch, and the snapshot follows them all. */
  lemma ParentSendsInPhase(parent: seq<Event>, managed: set<string>, native: set<string>, send: Event)
    requires Increasing(parent) && ParentInOrder(parent, managed, native)
    requires send in parent && IsSend(send)
    ensures HashOf(send) in native ==> FirstAt(parent, IsSapiBegin) < At(send) < FirstAt(parent, IsSapiEnd)
    ensures HashOf(send) in managed ==> FirstAt(parent, IsBatchBegin) < At(send) < FirstAt(parent, IsBatchEnd)
    ensures At(send) < FirstAt(parent, IsSnapshot) && HashOf(send) in native + managed
  {
    KeepIsIncreasing(parent, IsSend);
    assert send in Keep(parent, IsSend);
    ParentNumbers(parent, managed, native);
    hide ParentInOrder, Keep, NativeThenManaged, FirstAt, HashOf;
    var i := SendPosition(Keep(parent, IsSend), managed, native, send);
    SendBetween(parent, managed, native, i);
  }

  lemma ParentNumbers(parent: seq<Event>, managed: set<string>, native: set<string>)
    requires ParentInOrder(parent, managed, native)
    ensures NativeThenManaged(Keep(parent, IsSend), managed, native)
    ensures |managed| == MANAGED_VOICES && |native + managed| == ALL_VOICES
  {
    hide Keep;
  }

  lemma SendBetween(parent: seq<Event>, managed: set<string>, native: set<string>, i: nat)
    requires ParentInOrder(parent, managed, native) && Increasing(Keep(parent, IsSend)) && i < |Keep(parent, IsSend)|
    ensures var at := At(Keep(parent, IsSend)[i]);
            && (i < NATIVE_VOICES ==> FirstAt(parent, IsSapiBegin) < at < FirstAt(parent, IsSapiEnd))
            && (i >= NATIVE_VOICES ==> FirstAt(parent, IsBatchBegin) < at < FirstAt(parent, IsBatchEnd))
            && at < FirstAt(parent, IsSnapshot)
  {
    hide Keep, NativeThenManaged, At;
    ParentNumbers(parent, managed, native);
    AllSent(Keep(parent, IsSend), managed, native);
    var sends := Keep(parent, IsSend);
    Ordered(sends, 0, i);
    Ordered(sends, i, 57);
    if i >= 5 { Ordered(sends, 5, i); } else { Ordered(sends, i, 4); }
  }

  lemma AllSent(sends: seq<Event>, managed: set<string>, native: set<string>)
    requires NativeThenManaged(sends, managed, native)
    ensures |sends| == ALL_VOICES
  {
  }

  /** Where a voice is sent tells whether it is native. */
  lemma SendPosition(sends: seq<Event>, managed: set<string>, native: set<string>, send: Event) returns (i: nat)
    requires NativeThenManaged(sends, managed, native) && |managed| == MANAGED_VOICES && |native + managed| == ALL_VOICES
    requires send in sends
    ensures i < |sends| == ALL_VOICES && sends[i] == send
    ensures HashOf(send) in native <==> i < NATIVE_VOICES
    ensures HashOf(send) in managed <==> i >= NATIVE_VOICES
  {
    VoicesApart(sends, managed, native);
    i :| 0 <= i < |sends| && sends[i] == send;
    if i < NATIVE_VOICES {
      assert sends[..NATIVE_VOICES][i] == send && HashOf(send) in Hashes(sends[..NATIVE_VOICES]);
    } else {
      assert sends[NATIVE_VOICES..][i - NATIVE_VOICES] == send && HashOf(send) in Hashes(sends[NATIVE_VOICES..]);
    }
    assert HashOf(send) !in native * managed;
  }

  lemma Ordered(events: seq<Event>, i: nat, j: nat)
    requires Increasing(events) && i <= j < |events|
    ensures At(events[i]) <= At(events[j])
  {
    assert events[i] in events && events[j] in events;
  }
}
