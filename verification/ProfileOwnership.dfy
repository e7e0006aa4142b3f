/** Who may run a browser on a profile: Hosts, exit supervisors and browser roots of one machine
    as a step system (Linux branch of host_v1.py, exit_supervisor.py and host_platform.py).

    Assumptions about the machine, each built into a step:
    a new process gets a start time later than every earlier process with its PID;
    a lease is an flock on a close-on-exec descriptor, so it ends with its holder or an explicit release;
    a supervisor ends before its browser root only when its Host kills it;
    the watcher's SIGKILL takes the supervisor and its browser root together; its SIGTERM, a second earlier, only
    allows the browser to exit, because the supervisor catches it. */
module ProfileOwnership {
  import opened Commons

  type Profile = string

  /** What the protocol calls a process identity: PID reuse changes the start time. */
  datatype Ident = Ident(pid: nat, start: nat)

  /** How far a supervisor is in `main`: Killing is the watcher's second between its two signals. */
  datatype Phase = Fresh | Holding | Running(browser: Ident) | Killing(browser: Ident) | Finished

  datatype Process =
    | Host
    | Supervisor(profile: Profile, host: Ident, phase: Phase)
    | Browser(profile: Profile, supervisor: Ident, host: Ident)

  /** How far the session that holds a Host lease is: in `launch` before the browser
      (Leased to Cleared), with a supervisor spawned (Launched), or given up on (Quarantined). */
  datatype Stage = Leased | Probing | Probed | Cleared | Launched | Quarantined

  /** `supervisor` is the process the launch spawned; `known` is the browser identity
      the Host has read from the supervisor's metadata file. */
  datatype Session = Session(host: Ident, stage: Stage, supervisor: Option<Ident>, known: Option<Ident>)

  /** One recorded process. The strict schema also wants a role. */
  datatype Entry = Entry(ident: Ident, hasRole: bool)

  datatype Record = Unreadable | Readable(entries: seq<Entry>)

  datatype System = System(
    procs: map<Ident, Process>,
    lastStart: map<nat, nat>,
    hostLease: map<Profile, Session>,
    supLease: map<Profile, Ident>,
    metadata: map<Ident, Ident>,
    records: map<Profile, Record>,
    torn: set<Profile>)

  datatype Action =
    | StartHost(id: Ident)
    | AcquireHostLease(host: Ident, p: Profile)
    | ProbeBegin(p: Profile)
    | ProbeEnd(p: Profile)
    | CheckQuarantine(p: Profile, unlinkable: bool)
    | SpawnSupervisor(p: Profile, id: Ident)
    | SupervisorAcquire(sup: Ident)
    | SpawnBrowser(sup: Ident, id: Ident)
    | WriteMetadata(sup: Ident)
    | ReadMetadata(p: Profile)
    | BrowserExit(id: Ident)
    | SupervisorRelease(sup: Ident)
    | SupervisorExit(sup: Ident)
    | GroupTerm(sup: Ident)
    | GroupKill(sup: Ident)
    | HostKillsSupervisor(p: Profile)
    | ConfirmExited(p: Profile)
    | QuarantineSession(p: Profile, written: bool, others: seq<Ident>)
    | CorruptRecord(p: Profile)
    | HostDies(id: Ident)

  // ---- observations ------------------------------------------------------

  /** A PID that was never used, or a later start time on a free one. */
  predicate FreshIdent(s: System, id: Ident) {
    && (forall other | other in s.procs :: other.pid != id.pid)
    && (id.pid in s.lastStart ==> s.lastStart[id.pid] < id.start)
  }

  predicate Used(lastStart: map<nat, nat>, id: Ident) {
    id.pid in lastStart && id.start <= lastStart[id.pid]
  }

  predicate IsBrowserOf(s: System, b: Ident, p: Profile) {
    b in s.procs && s.procs[b].Browser? && s.procs[b].profile == p
  }

  /** A live browser root whose supervisor is gone, so no supervisor lease speaks for it. */
  predicate Unsupervised(s: System, b: Ident, p: Profile) {
    IsBrowserOf(s, b, p) && s.procs[b].supervisor !in s.procs
  }

  predicate HasUnsupervised(s: System, p: Profile) {
    exists b | b in s.procs :: Unsupervised(s, b, p)
  }

  /** A supervisor whose session no longer holds the Host lease: its Host died, or gave the
      launch up before it knew any identity to wait for. */
  predicate Stale(s: System, sup: Ident, p: Profile) {
    p !in s.hostLease || s.hostLease[p].supervisor != Some(sup)
  }

  predicate WellFormed(r: Record) {
    r.Readable? && forall e | e in r.entries :: e.hasRole
  }

  predicate Names(r: Record, id: Ident) {
    r.Readable? && exists e | e in r.entries :: e.ident == id
  }

  predicate AllDead(s: System, r: Record) {
    r.Readable? && forall e | e in r.entries :: e.ident !in s.procs
  }

  /** The record alone keeps every launch on p out for as long as b lives. */
  predicate Blocks(records: map<Profile, Record>, p: Profile, b: Ident) {
    p in records && (!WellFormed(records[p]) || Names(records[p], b))
  }

  // ---- steps -------------------------------------------------------------

  function Spawn(s: System, id: Ident, what: Process): System {
    s.(procs := s.procs[id := what], lastStart := s.lastStart[id.pid := id.start])
  }

  /** The kernel closes the dead process's descriptors, and with them its leases. */
  function Die(s: System, id: Ident): System {
    s.(procs := s.procs - {id},
       hostLease := map p | p in s.hostLease && s.hostLease[p].host != id :: s.hostLease[p],
       supLease := map p | p in s.supLease && s.supLease[p] != id :: s.supLease[p])
  }

  function Release(s: System, p: Profile): System {
    s.(hostLease := s.hostLease - {p})
  }

  function SetSession(s: System, p: Profile, session: Session): System {
    s.(hostLease := s.hostLease[p := session])
  }

  /** `clear_quarantine_if_stale` as `launch` uses it. */
  predicate Passes(s: System, p: Profile, unlinkable: bool) {
    p in s.records ==> WellFormed(s.records[p]) && AllDead(s, s.records[p]) && unlinkable
  }

  /** `write_quarantine_record` on Linux: what is left of the captured tree, without roles.
      The known roots that are still alive are in it. */
  function RecordOf(s: System, session: Session, others: seq<Ident>): Record {
    var live := seq(|others|, i requires 0 <= i < |others| => Entry(others[i], false));
    Readable(
      (if session.supervisor.Some? && session.supervisor.value in s.procs
       then [Entry(session.supervisor.value, false)] else [])
      + (if session.known.Some? && session.known.value in s.procs
         then [Entry(session.known.value, false)] else [])
      + live)
  }

  /** A Host that dies holding p while an unsupervised browser is left with no record to block on. */
  predicate Tears(s: System, p: Profile, host: Ident) {
    && p in s.hostLease && s.hostLease[p].host == host
    && exists b | b in s.procs :: Unsupervised(s, b, p) && !Blocks(s.records, p, b)
  }

  predicate InPhase(s: System, sup: Ident, phase: Phase) {
    sup in s.procs && s.procs[sup].Supervisor? && s.procs[sup].phase == phase
  }

  /** `proc.wait()` has returned, or the browser was never spawned, and no watcher keeps the interpreter alive. */
  predicate NoBrowserLeft(s: System, sup: Ident) {
    && sup in s.procs && s.procs[sup].Supervisor?
    && (s.procs[sup].phase.Running? ==> s.procs[sup].phase.browser !in s.procs)
    && !s.procs[sup].phase.Killing?
  }

  predicate AtStage(s: System, p: Profile, stage: Stage) {
    p in s.hostLease && s.hostLease[p].stage == stage
  }

  predicate Enabled(s: System, a: Action) {
    match a
    case StartHost(id) => FreshIdent(s, id)
    case AcquireHostLease(h, p) => h in s.procs && s.procs[h] == Host && p !in s.hostLease
    case ProbeBegin(p) => AtStage(s, p, Leased)
    case ProbeEnd(p) => AtStage(s, p, Probing)
    case CheckQuarantine(p, _) => AtStage(s, p, Probed)
    case SpawnSupervisor(p, id) => AtStage(s, p, Cleared) && FreshIdent(s, id)
    case SupervisorAcquire(sup) => InPhase(s, sup, Fresh)
    case SpawnBrowser(sup, id) => InPhase(s, sup, Holding) && FreshIdent(s, id)
    case WriteMetadata(sup) => sup in s.procs && s.procs[sup].Supervisor? && s.procs[sup].phase.Running?
    case ReadMetadata(p) =>
      && AtStage(s, p, Launched)
      && s.hostLease[p].supervisor.Some? && s.hostLease[p].supervisor.value in s.metadata
    case BrowserExit(id) => id in s.procs && s.procs[id].Browser?
    case SupervisorRelease(sup) =>
      NoBrowserLeft(s, sup) && s.procs[sup].phase.Running?
    case SupervisorExit(sup) => NoBrowserLeft(s, sup)
    case GroupTerm(sup) =>
      && sup in s.procs && s.procs[sup].Supervisor? && s.procs[sup].phase.Running?
      && s.procs[sup].host !in s.procs
    case GroupKill(sup) => sup in s.procs && s.procs[sup].Supervisor? && s.procs[sup].phase.Killing?
    case HostKillsSupervisor(p) =>
      && AtStage(s, p, Launched)
      && s.hostLease[p].known.Some? && s.hostLease[p].supervisor.Some?
      && s.hostLease[p].supervisor.value in s.procs
    case ConfirmExited(p) =>
      // Without metadata there is no root to confirm, and the tree counts as exited.
      && (AtStage(s, p, Cleared) || AtStage(s, p, Launched))
      && (s.hostLease[p].known.Some? ==>
            && s.hostLease[p].known.value !in s.procs
            && s.hostLease[p].supervisor.Some? && s.hostLease[p].supervisor.value !in s.procs)
    case QuarantineSession(p, _, _) => AtStage(s, p, Launched) && s.hostLease[p].known.Some?
    case CorruptRecord(p) => p in s.records
    case HostDies(id) => id in s.procs && s.procs[id] == Host
  }

  function Hold(s: System, sup: Ident): System
    requires InPhase(s, sup, Fresh)
  {
    s.(procs := s.procs[sup := s.procs[sup].(phase := Holding)], supLease := s.supLease[s.procs[sup].profile := sup])
  }

  /** SIGTERM has gone to the group: the supervisor catches it, the browser may or may not exit. */
  function Terminated(s: System, sup: Ident): System
    requires Enabled(s, GroupTerm(sup))
  {
    s.(procs := s.procs[sup := s.procs[sup].(phase := Killing(s.procs[sup].phase.browser))])
  }

  function Next(s: System, a: Action): System
    requires Enabled(s, a)
  {
    match a
    case StartHost(id) => Spawn(s, id, Host)
    case AcquireHostLease(h, p) => SetSession(s, p, Session(h, Leased, None, None))
    case ProbeBegin(p) =>
      if p in s.supLease then Release(s, p)
      else SetSession(s, p, s.hostLease[p].(stage := Probing)).(supLease := s.supLease[p := s.hostLease[p].host])
    case ProbeEnd(p) =>
      SetSession(s, p, s.hostLease[p].(stage := Probed)).(supLease := s.supLease - {p})
    case CheckQuarantine(p, unlinkable) =>
      if Passes(s, p, unlinkable)
      then SetSession(s, p, s.hostLease[p].(stage := Cleared)).(records := s.records - {p})
      else Release(s, p)
    case SpawnSupervisor(p, id) =>
      SetSession(Spawn(s, id, Supervisor(p, s.hostLease[p].host, Fresh)), p,
        s.hostLease[p].(stage := Launched, supervisor := Some(id)))
    case SupervisorAcquire(sup) =>
      var p := s.procs[sup].profile;
      if p in s.supLease then Die(s, sup)
      else Hold(s, sup)
    case SpawnBrowser(sup, id) =>
      var spawned := Spawn(s, id, Browser(s.procs[sup].profile, sup, s.procs[sup].host));
      spawned.(procs := spawned.procs[sup := s.procs[sup].(phase := Running(id))])
    case WriteMetadata(sup) => s.(metadata := s.metadata[sup := s.procs[sup].phase.browser])
    case ReadMetadata(p) =>
      SetSession(s, p, s.hostLease[p].(known := Some(s.metadata[s.hostLease[p].supervisor.value])))
    case BrowserExit(id) => Die(s, id)
    case SupervisorRelease(sup) =>
      s.(procs := s.procs[sup := s.procs[sup].(phase := Finished)], supLease := s.supLease - {s.procs[sup].profile})
    case SupervisorExit(sup) => Die(s, sup)
    case GroupTerm(sup) => Terminated(s, sup)
    case GroupKill(sup) => Die(Die(s, s.procs[sup].phase.browser), sup)
    case HostKillsSupervisor(p) => Die(s, s.hostLease[p].supervisor.value)
    case ConfirmExited(p) => Release(s, p)
    case QuarantineSession(p, written, others) =>
      var session := s.hostLease[p];
      SetSession(s, p, session.(stage := Quarantined))
        .(records := if written then s.records[p := RecordOf(s, session, others)] else s.records)
    case CorruptRecord(p) => s.(records := s.records[p := Unreadable])
    case HostDies(id) =>
      Die(s.(torn := s.torn + set p | p in s.hostLease && Tears(s, p, id)), id)
  }

  // ---- invariant ---------------------------------------------------------

  /** The supervisor has spawned this browser and not let go of it. */
  predicate Minds(phase: Phase, b: Ident) { phase == Running(b) || phase == Killing(b) }

  predicate Minding(phase: Phase) { phase.Running? || phase.Killing? }

  ghost predicate Initial(s: System) {
    s.procs == map[] && s.hostLease == map[] && s.supLease == map[] && s.metadata == map[] && s.torn == {}
  }

  /** Nothing in the state speaks of an identity that could still be handed out. */
  ghost predicate IdentsUsed(s: System) {
    && (forall id | id in s.procs ::
          && Used(s.lastStart, id)
          && (s.procs[id].Supervisor? ==> Used(s.lastStart, s.procs[id].host))
          && (s.procs[id].Supervisor? && Minding(s.procs[id].phase) ==> Used(s.lastStart, s.procs[id].phase.browser))
          && (s.procs[id].Browser? ==> Used(s.lastStart, s.procs[id].host) && Used(s.lastStart, s.procs[id].supervisor)))
    && (forall p | p in s.hostLease ::
          && Used(s.lastStart, s.hostLease[p].host)
          && (s.hostLease[p].supervisor.Some? ==> Used(s.lastStart, s.hostLease[p].supervisor.value)))
    && (forall sup | sup in s.metadata :: Used(s.lastStart, sup) && Used(s.lastStart, s.metadata[sup]))
  }

  ghost predicate SessionOk(s: System, p: Profile)
    requires p in s.hostLease
  {
    var l := s.hostLease[p];
    && l.host in s.procs && s.procs[l.host] == Host
    && (l.supervisor.Some? <==> l.stage in {Launched, Quarantined})
    && (l.supervisor.Some? && l.supervisor.value in s.procs ==>
          var q := s.procs[l.supervisor.value]; q.Supervisor? && q.profile == p && q.host == l.host)
    && (l.known.Some? ==>
          && l.supervisor.Some? && l.supervisor.value in s.metadata
          && s.metadata[l.supervisor.value] == l.known.value)
    && (l.stage == Probing ==> p in s.supLease && s.supLease[p] == l.host)
    && (l.stage == Quarantined ==> l.known.Some?)
    && (l.stage in {Cleared, Launched} ==> p !in s.records)
  }

  /** A supervisor lease is held by a probing Host or by a supervisor that is past taking it. */
  ghost predicate LeaseOk(s: System, p: Profile)
    requires p in s.supLease
  {
    var h := s.supLease[p];
    && h in s.procs
    && (|| (s.procs[h].Supervisor? && s.procs[h].profile == p && (s.procs[h].phase.Holding? || Minding(s.procs[h].phase)))
        || (s.procs[h].Host? && AtStage(s, p, Probing) && s.hostLease[p].host == h))
  }

  /** What vouches for an unsupervised browser: the Host that killed its supervisor still holds
      the profile and has it on its list, or the record blocks, or the profile is torn. */
  ghost predicate Vouched(s: System, b: Ident)
    requires b in s.procs && s.procs[b].Browser?
  {
    var Browser(p, sup, host) := s.procs[b];
    || (p in s.hostLease && s.hostLease[p].supervisor == Some(sup) && s.hostLease[p].known == Some(b))
    || Blocks(s.records, p, b)
    || p in s.torn
  }

  ghost predicate ProcessOk(s: System, id: Ident)
    requires id in s.procs
  {
    match s.procs[id]
    case Host => true
    case Supervisor(p, host, phase) =>
      && (phase.Holding? || Minding(phase) ==> p in s.supLease && s.supLease[p] == id)
      && (Minding(phase) && phase.browser in s.procs ==> s.procs[phase.browser] == Browser(p, id, host))
      && (phase.Killing? ==> host !in s.procs)
      && (id in s.metadata ==> Minds(phase, s.metadata[id]) || phase.Finished?)
    case Browser(p, sup, host) =>
      && (sup in s.metadata ==> s.metadata[sup] == id)
      && (if sup in s.procs
          then s.procs[sup].Supervisor? && s.procs[sup] == Supervisor(p, host, s.procs[sup].phase) && Minds(s.procs[sup].phase, id)
          else Vouched(s, id))
  }

  ghost predicate Inv(s: System) {
    && IdentsUsed(s)
    && (forall p | p in s.hostLease :: SessionOk(s, p))
    && (forall p | p in s.supLease :: LeaseOk(s, p))
    && (forall id | id in s.procs :: ProcessOk(s, id))
  }

  lemma InitialInv(s: System)
    requires Initial(s)
    ensures Inv(s)
  {
  }

  // ---- the invariant is kept, step by step -------------------------------

  lemma SpawnKeepsUsed(s: System, id: Ident, what: Process)
    requires FreshIdent(s, id)
    ensures !Used(s.lastStart, id)
    ensures forall other :: Used(s.lastStart, other) ==> Used(Spawn(s, id, what).lastStart, other)
    ensures Used(Spawn(s, id, what).lastStart, id)
  {
  }

  lemma DieKeepsLeases(s: System, id: Ident)
    requires Inv(s) && id in s.procs
    ensures IdentsUsed(Die(s, id))
    ensures forall p | p in Die(s, id).hostLease :: SessionOk(Die(s, id), p)
    ensures forall p | p in Die(s, id).supLease :: LeaseOk(Die(s, id), p)
  {
    hide Used, Blocks, ProcessOk;
  }

  lemma DieKeepsInv(s: System, id: Ident)
    requires Inv(s) && id in s.procs
    requires forall b | b in s.procs && b != id && s.procs[b].Browser? ::
               s.procs[b].supervisor == id || s.procs[b].supervisor !in s.procs ==> Vouched(Die(s, id), b)
    ensures Inv(Die(s, id))
  {
    hide Used, Blocks, IdentsUsed, SessionOk, LeaseOk;
    DieKeepsLeases(s, id);
  }

  lemma DieUnusedKeepsInv(s: System, id: Ident)
    requires Inv(s) && id !in s.procs
    ensures Die(s, id) == s
  {
    var t := Die(s, id);
    assert t.procs == s.procs && t.hostLease == s.hostLease && t.supLease == s.supLease;
  }

  /** A new process that holds nothing yet and is no browser. */
  lemma SpawnKeepsInv(s: System, id: Ident, what: Process)
    requires Inv(s) && FreshIdent(s, id)
    requires what.Host? || (what.Supervisor? && what.phase == Fresh && Used(s.lastStart, what.host))
    ensures Inv(Spawn(s, id, what))
  {
    SpawnKeepsIdents(s, id, what);
    SpawnKeepsLeases(s, id, what);
    hide Used, Blocks, IdentsUsed, FreshIdent, SessionOk, LeaseOk, ProcessOk;
    forall x | x in Spawn(s, id, what).procs
      ensures ProcessOk(Spawn(s, id, what), x)
    {
      SpawnKeepsProcess(s, id, what, x);
    }
  }

  lemma SpawnKeepsLeases(s: System, id: Ident, what: Process)
    requires Inv(s) && FreshIdent(s, id)
    ensures forall p | p in s.hostLease :: SessionOk(Spawn(s, id, what), p)
    ensures forall p | p in s.supLease :: LeaseOk(Spawn(s, id, what), p)
  {
    FreshIsUnnamed(s, id);
    hide Used, Blocks, IdentsUsed, FreshIdent, ProcessOk, SessionOk, LeaseOk;
    forall p | p in s.hostLease
      ensures SessionOk(Spawn(s, id, what), p)
    {
      SpawnKeepsSession(s, id, what, p);
    }
    forall p | p in s.supLease
      ensures LeaseOk(Spawn(s, id, what), p)
    {
      SpawnKeepsLease(s, id, what, p);
    }
  }

  lemma SpawnKeepsSession(s: System, id: Ident, what: Process, p: Profile)
    requires p in s.hostLease && SessionOk(s, p) && id !in s.procs && s.hostLease[p].supervisor != Some(id)
    ensures SessionOk(Spawn(s, id, what), p)
  {
  }

  lemma SpawnKeepsLease(s: System, id: Ident, what: Process, p: Profile)
    requires p in s.supLease && LeaseOk(s, p) && id !in s.procs
    ensures LeaseOk(Spawn(s, id, what), p)
  {
  }

  lemma SpawnKeepsProcess(s: System, id: Ident, what: Process, x: Ident)
    requires Inv(s) && FreshIdent(s, id) && (x in s.procs || x == id)
    requires what.Host? || (what.Supervisor? && what.phase == Fresh && Used(s.lastStart, what.host))
    ensures ProcessOk(Spawn(s, id, what), x)
  {
    FreshIsUnnamed(s, id);
    hide Used, Blocks, IdentsUsed, FreshIdent, SessionOk, LeaseOk;
    if x in s.procs { assert ProcessOk(s, x); }
  }

  lemma SpawnKeepsIdents(s: System, id: Ident, what: Process)
    requires IdentsUsed(s) && FreshIdent(s, id)
    requires what.Host? || (what.Supervisor? && what.phase == Fresh && Used(s.lastStart, what.host))
    ensures IdentsUsed(Spawn(s, id, what))
  {
    SpawnKeepsUsed(s, id, what);
    hide Used, FreshIdent;
  }

  /** Nothing in the state speaks of a fresh identity. */
  lemma FreshIsUnnamed(s: System, id: Ident)
    requires IdentsUsed(s) && FreshIdent(s, id)
    ensures id !in s.procs && id !in s.metadata
    ensures forall p | p in s.hostLease :: s.hostLease[p].host != id && s.hostLease[p].supervisor != Some(id)
    ensures forall x | x in s.procs ::
              && (s.procs[x].Supervisor? ==> !Minds(s.procs[x].phase, id) && s.procs[x].host != id)
              && (s.procs[x].Browser? ==> s.procs[x].supervisor != id)
  {
    SpawnKeepsUsed(s, id, Host);
    hide Used, FreshIdent;
  }

  lemma StartHostKeepsInv(s: System, id: Ident)
    requires Inv(s) && Enabled(s, StartHost(id))
    ensures Inv(Next(s, StartHost(id)))
  {
    SpawnKeepsInv(s, id, Host);
  }

  lemma AcquireHostLeaseKeepsInv(s: System, h: Ident, p: Profile)
    requires Inv(s) && Enabled(s, AcquireHostLease(h, p))
    ensures Inv(Next(s, AcquireHostLease(h, p)))
  {
    hide Used, Blocks;
  }

  lemma ReleaseKeepsInv(s: System, p: Profile)
    requires Inv(s) && p in s.hostLease && s.hostLease[p].stage != Probing
    requires s.hostLease[p].known.Some? ==> s.hostLease[p].known.value !in s.procs
    ensures Inv(Release(s, p))
  {
    hide Used, Blocks;
  }

  lemma ProbeBeginKeepsInv(s: System, p: Profile)
    requires Inv(s) && Enabled(s, ProbeBegin(p))
    ensures Inv(Next(s, ProbeBegin(p)))
  {
    if p in s.supLease { ReleaseKeepsInv(s, p); } else { ProbeTakesKeepsInv(s, p); }
  }

  function Probe(s: System, p: Profile): System
    requires p in s.hostLease
  {
    SetSession(s, p, s.hostLease[p].(stage := Probing)).(supLease := s.supLease[p := s.hostLease[p].host])
  }

  lemma ProbeTakesKeepsInv(s: System, p: Profile)
    requires Inv(s) && AtStage(s, p, Leased) && p !in s.supLease
    ensures Inv(Probe(s, p))
  {
    hide Used, Blocks, ProcessOk, IdentsUsed, SessionOk, LeaseOk;
    var t := Probe(s, p);
    StageKeepsUsed(s, t, p);
    ProbeKeepsProcesses(s, t, p, Probing);
    forall q | q in t.hostLease
      ensures SessionOk(t, q)
    {
      ProbeKeepsSession(s, t, p, Probing, q);
    }
    forall q | q in t.supLease
      ensures LeaseOk(t, q)
    {
      if q == p { ProbeHolds(s, p); } else { ProbeKeepsLease(s, t, p, Probing, q); }
    }
  }

  lemma ProbeHolds(s: System, p: Profile)
    requires p in s.hostLease && SessionOk(s, p)
    ensures LeaseOk(Probe(s, p), p)
  {
  }

  ghost predicate Probes(s: System, t: System, p: Profile, stage: Stage) {
    && p in s.hostLease && t == SetSession(s, p, s.hostLease[p].(stage := stage)).(supLease := t.supLease)
    && (forall q | q != p :: (q in t.supLease <==> q in s.supLease) && (q in s.supLease ==> t.supLease[q] == s.supLease[q]))
    && (stage == Probing ==> p in t.supLease && t.supLease[p] == s.hostLease[p].host)
    && (s.hostLease[p].stage == Leased || s.hostLease[p].stage == Probing) && (stage == Probing || stage == Probed)
  }

  lemma ProbeKeepsSession(s: System, t: System, p: Profile, stage: Stage, q: Profile)
    requires Probes(s, t, p, stage) && q in s.hostLease && SessionOk(s, q)
    ensures SessionOk(t, q)
  {
  }

  lemma ProbeKeepsLease(s: System, t: System, p: Profile, stage: Stage, q: Profile)
    requires Probes(s, t, p, stage) && q != p && q in s.supLease && LeaseOk(s, q)
    ensures q in t.supLease && LeaseOk(t, q)
  {
  }

  /** A session in another stage names the same processes. */
  lemma StageKeepsUsed(s: System, t: System, p: Profile)
    requires IdentsUsed(s) && p in s.hostLease && p in t.hostLease
    requires t.procs == s.procs && t.lastStart == s.lastStart && t.metadata == s.metadata
    requires t.hostLease == s.hostLease[p := t.hostLease[p]]
    requires t.hostLease[p].host == s.hostLease[p].host && t.hostLease[p].supervisor == s.hostLease[p].supervisor
    ensures IdentsUsed(t)
  {
    hide Used;
  }

  lemma ProbeEndKeepsInv(s: System, p: Profile)
    requires Inv(s) && Enabled(s, ProbeEnd(p))
    ensures Inv(Next(s, ProbeEnd(p)))
  {
    var t := SetSession(s, p, s.hostLease[p].(stage := Probed)).(supLease := s.supLease - {p});
    assert p in s.supLease && s.supLease[p] == s.hostLease[p].host && s.procs[s.supLease[p]] == Host by { assert SessionOk(s, p); }
    hide Used, Blocks, ProcessOk, IdentsUsed, SessionOk, LeaseOk;
    StageKeepsUsed(s, t, p);
    ProbeKeepsProcesses(s, t, p, Probed);
    forall q | q in t.hostLease
      ensures SessionOk(t, q)
    {
      ProbeKeepsSession(s, t, p, Probed, q);
    }
    forall q | q in t.supLease
      ensures LeaseOk(t, q)
    {
      ProbeKeepsLease(s, t, p, Probed, q);
    }
  }

  /** Probing touches no process: a supervisor's lease is not the probe's. */
  lemma ProbeKeepsProcesses(s: System, t: System, p: Profile, stage: Stage)
    requires Inv(s) && p in s.hostLease
    requires t == SetSession(s, p, s.hostLease[p].(stage := stage)).(supLease := t.supLease)
    requires forall q | q != p :: (q in t.supLease <==> q in s.supLease) && (q in s.supLease ==> t.supLease[q] == s.supLease[q])
    requires p in s.supLease ==> s.supLease[p] in s.procs && s.procs[s.supLease[p]].Host?
    ensures forall id | id in t.procs :: ProcessOk(t, id)
  {
    hide Used, Blocks, IdentsUsed, SessionOk, LeaseOk;
  }

  lemma CheckKeepsInv(s: System, p: Profile, unlinkable: bool)
    requires Inv(s) && Enabled(s, CheckQuarantine(p, unlinkable))
    ensures Inv(Next(s, CheckQuarantine(p, unlinkable)))
  {
    if Passes(s, p, unlinkable) {
      UnlinkKeepsBlocks(s, p);
      ClearedKeepsInv(s, p);
    } else {
      ReleaseKeepsInv(s, p);
    }
  }

  /** Removing a record that passed the check takes no live process off any list. */
  lemma UnlinkKeepsBlocks(s: System, p: Profile)
    requires p in s.records ==> WellFormed(s.records[p]) && AllDead(s, s.records[p])
    ensures forall q, b | b in s.procs && Blocks(s.records, q, b) :: Blocks(s.records - {p}, q, b)
  {
  }

  lemma ClearedKeepsInv(s: System, p: Profile)
    requires Inv(s) && AtStage(s, p, Probed)
    requires forall q, b | b in s.procs && Blocks(s.records, q, b) :: Blocks(s.records - {p}, q, b)
    ensures Inv(SetSession(s, p, s.hostLease[p].(stage := Cleared)).(records := s.records - {p}))
  {
    var t := SetSession(s, p, s.hostLease[p].(stage := Cleared)).(records := s.records - {p});
    StageKeepsUsed(s, t, p);
    hide Used, Blocks, IdentsUsed, ProcessOk, SessionOk, LeaseOk;
    forall q | q in t.hostLease
      ensures SessionOk(t, q)
    {
      ClearedSession(s, p, q);
    }
    forall q | q in t.supLease
      ensures LeaseOk(t, q)
    {
      ClearedLease(s, p, q);
    }
    ClearedProcesses(s, p);
  }

  lemma ClearedSession(s: System, p: Profile, q: Profile)
    requires AtStage(s, p, Probed) && q in s.hostLease && SessionOk(s, q)
    ensures SessionOk(SetSession(s, p, s.hostLease[p].(stage := Cleared)).(records := s.records - {p}), q)
  {
  }

  lemma ClearedLease(s: System, p: Profile, q: Profile)
    requires AtStage(s, p, Probed) && q in s.supLease && LeaseOk(s, q)
    ensures LeaseOk(SetSession(s, p, s.hostLease[p].(stage := Cleared)).(records := s.records - {p}), q)
  {
  }

  lemma ClearedProcesses(s: System, p: Profile)
    requires Inv(s) && AtStage(s, p, Probed)
    requires forall q, b | b in s.procs && Blocks(s.records, q, b) :: Blocks(s.records - {p}, q, b)
    ensures var t := SetSession(s, p, s.hostLease[p].(stage := Cleared)).(records := s.records - {p});
            forall id | id in t.procs :: ProcessOk(t, id)
  {
    hide Used, Blocks, IdentsUsed, SessionOk, LeaseOk;
  }

  lemma LaunchedKeepsInv(s: System, p: Profile, id: Ident)
    requires Inv(s) && AtStage(s, p, Cleared)
    requires id in s.procs && s.procs[id] == Supervisor(p, s.hostLease[p].host, Fresh)
    ensures Inv(SetSession(s, p, s.hostLease[p].(stage := Launched, supervisor := Some(id))))
  {
    hide Used, Blocks;
  }

  lemma SpawnSupervisorKeepsInv(s: System, p: Profile, id: Ident)
    requires Inv(s) && Enabled(s, SpawnSupervisor(p, id))
    ensures Inv(Next(s, SpawnSupervisor(p, id)))
  {
    var what := Supervisor(p, s.hostLease[p].host, Fresh);
    SpawnKeepsUsed(s, id, what);
    SpawnKeepsInv(s, id, what);
    LaunchedKeepsInv(Spawn(s, id, what), p, id);
  }

  lemma SpawnBrowserKeepsLeases(s: System, sup: Ident, id: Ident)
    requires Inv(s) && Enabled(s, SpawnBrowser(sup, id))
    ensures var t := Next(s, SpawnBrowser(sup, id));
            && (forall p | p in t.hostLease :: SessionOk(t, p))
            && (forall p | p in t.supLease :: LeaseOk(t, p))
  {
    FreshIsUnnamed(s, id);
    hide Used, Blocks, ProcessOk, IdentsUsed, FreshIdent;
    var t := Next(s, SpawnBrowser(sup, id));
    forall p | p in t.hostLease
      ensures SessionOk(t, p)
    {
      hide LeaseOk;
    }
    forall p | p in t.supLease
      ensures LeaseOk(t, p)
    {
      hide SessionOk;
    }
  }

  lemma SpawnBrowserKeepsUsed(s: System, sup: Ident, id: Ident)
    requires Inv(s) && Enabled(s, SpawnBrowser(sup, id))
    ensures IdentsUsed(Next(s, SpawnBrowser(sup, id)))
  {
    SpawnKeepsUsed(s, id, Browser(s.procs[sup].profile, sup, s.procs[sup].host));
    hide Used, Blocks, ProcessOk, SessionOk, LeaseOk;
  }

  lemma SpawnBrowserKeepsInv(s: System, sup: Ident, id: Ident)
    requires Inv(s) && Enabled(s, SpawnBrowser(sup, id))
    ensures Inv(Next(s, SpawnBrowser(sup, id)))
  {
    SpawnBrowserKeepsLeases(s, sup, id);
    SpawnBrowserKeepsUsed(s, sup, id);
    hide Used, Blocks, SessionOk, LeaseOk, ProcessOk, IdentsUsed, FreshIdent;
    forall x | x in Next(s, SpawnBrowser(sup, id)).procs
      ensures ProcessOk(Next(s, SpawnBrowser(sup, id)), x)
    {
      SpawnBrowserKeepsProcess(s, sup, id, x);
    }
  }

  lemma SpawnBrowserKeepsProcess(s: System, sup: Ident, id: Ident, x: Ident)
    requires Inv(s) && Enabled(s, SpawnBrowser(sup, id)) && (x in s.procs || x == id)
    ensures ProcessOk(Next(s, SpawnBrowser(sup, id)), x)
  {
    FreshIsUnnamed(s, id);
    assert ProcessOk(s, sup);
    if x in s.procs { assert ProcessOk(s, x); }
    hide Inv, Used, Blocks, FreshIdent;
  }

  lemma HoldKeepsLeases(s: System, sup: Ident)
    requires Inv(s) && InPhase(s, sup, Fresh) && s.procs[sup].profile !in s.supLease
    ensures IdentsUsed(Hold(s, sup))
    ensures forall p | p in Hold(s, sup).hostLease :: SessionOk(Hold(s, sup), p)
    ensures forall p | p in Hold(s, sup).supLease :: LeaseOk(Hold(s, sup), p)
  {
    hide Used, Blocks, ProcessOk;
  }

  lemma HoldKeepsInv(s: System, sup: Ident)
    requires Inv(s) && InPhase(s, sup, Fresh) && s.procs[sup].profile !in s.supLease
    ensures Inv(Hold(s, sup))
  {
    HoldKeepsLeases(s, sup);
    hide Used, Blocks, IdentsUsed, SessionOk, LeaseOk;
  }

  lemma SupervisorAcquireKeepsInv(s: System, sup: Ident)
    requires Inv(s) && Enabled(s, SupervisorAcquire(sup))
    ensures Inv(Next(s, SupervisorAcquire(sup)))
  {
    hide Used, Blocks;
    if s.procs[sup].profile in s.supLease {
      DieKeepsInv(s, sup);
    } else {
      HoldKeepsInv(s, sup);
    }
  }

  lemma WriteMetadataKeepsInv(s: System, sup: Ident)
    requires Inv(s) && Enabled(s, WriteMetadata(sup))
    ensures Inv(Next(s, WriteMetadata(sup)))
  {
    hide Used, Blocks;
  }

  lemma ReadMetadataKeepsInv(s: System, p: Profile)
    requires Inv(s) && Enabled(s, ReadMetadata(p))
    ensures Inv(Next(s, ReadMetadata(p)))
  {
    var t := Next(s, ReadMetadata(p));
    StageKeepsUsed(s, t, p);
    hide Used, Blocks, IdentsUsed, ProcessOk, SessionOk, LeaseOk;
    forall q | q in t.hostLease
      ensures SessionOk(t, q)
    {
      ReadKeepsSession(s, p, q);
    }
    forall q | q in t.supLease
      ensures LeaseOk(t, q)
    {
      ReadKeepsLease(s, p, q);
    }
    forall id | id in t.procs
      ensures ProcessOk(t, id)
    {
      ReadKeepsProcess(s, p, id);
    }
  }

  lemma ReadKeepsSession(s: System, p: Profile, q: Profile)
    requires Enabled(s, ReadMetadata(p)) && q in s.hostLease && SessionOk(s, q)
    ensures SessionOk(Next(s, ReadMetadata(p)), q)
  {
  }

  lemma ReadKeepsLease(s: System, p: Profile, q: Profile)
    requires Enabled(s, ReadMetadata(p)) && q in s.supLease && LeaseOk(s, q)
    ensures LeaseOk(Next(s, ReadMetadata(p)), q)
  {
  }

  /** The identity read is the one the metadata has for the session's supervisor. */
  lemma ReadKeepsProcess(s: System, p: Profile, id: Ident)
    requires Inv(s) && Enabled(s, ReadMetadata(p)) && id in s.procs
    ensures ProcessOk(Next(s, ReadMetadata(p)), id)
  {
    assert SessionOk(s, p) && ProcessOk(s, id);
    hide Inv, Used, Blocks, SessionOk;
  }

  function Released(s: System, sup: Ident): System
    requires InPhase(s, sup, Finished) || NoBrowserLeft(s, sup)
  {
    s.(procs := s.procs[sup := s.procs[sup].(phase := Finished)], supLease := s.supLease - {s.procs[sup].profile})
  }

  lemma ReleasedKeepsLeases(s: System, sup: Ident)
    requires Inv(s) && NoBrowserLeft(s, sup) && s.procs[sup].phase.Running?
    ensures IdentsUsed(Released(s, sup))
    ensures forall p | p in Released(s, sup).hostLease :: SessionOk(Released(s, sup), p)
    ensures forall p | p in Released(s, sup).supLease :: LeaseOk(Released(s, sup), p)
  {
    hide Used, Blocks;
    assert ProcessOk(s, sup);
    hide ProcessOk;
  }

  lemma SupervisorReleaseKeepsInv(s: System, sup: Ident)
    requires Inv(s) && Enabled(s, SupervisorRelease(sup))
    ensures Inv(Next(s, SupervisorRelease(sup)))
  {
    ReleasedKeepsLeases(s, sup);
    hide Used, Blocks, IdentsUsed, SessionOk, LeaseOk;
  }

  lemma GroupTermKeepsInv(s: System, sup: Ident)
    requires Inv(s) && Enabled(s, GroupTerm(sup))
    ensures Inv(Next(s, GroupTerm(sup)))
  {
    TerminatedKeepsLeases(s, sup);
    hide Used, Blocks, IdentsUsed, SessionOk, LeaseOk;
  }

  lemma TerminatedKeepsLeases(s: System, sup: Ident)
    requires Inv(s) && Enabled(s, GroupTerm(sup))
    ensures IdentsUsed(Terminated(s, sup))
    ensures forall p | p in Terminated(s, sup).hostLease :: SessionOk(Terminated(s, sup), p)
    ensures forall p | p in Terminated(s, sup).supLease :: LeaseOk(Terminated(s, sup), p)
  {
    hide Used, Blocks, ProcessOk;
  }

  lemma GroupKillKeepsInv(s: System, sup: Ident)
    requires Inv(s) && Enabled(s, GroupKill(sup))
    ensures Inv(Next(s, GroupKill(sup)))
  {
    var b := s.procs[sup].phase.browser;
    var t := Die(s, b);
    if b in s.procs {
      assert s.procs[b].Browser? by { assert ProcessOk(s, sup); }
      BrowserExitKeepsInv(s, b);
    } else {
      DieUnusedKeepsInv(s, b);
    }
    hide Inv;
    LoneSupervisorDies(t, sup);
  }

  /** A supervisor with no browser left. */
  lemma LoneSupervisorDies(s: System, sup: Ident)
    requires Inv(s) && sup in s.procs && s.procs[sup].Supervisor?
    requires Minding(s.procs[sup].phase) ==> s.procs[sup].phase.browser !in s.procs
    ensures Inv(Die(s, sup))
  {
    hide Used, Blocks, IdentsUsed, LeaseOk;
    DieKeepsInv(s, sup);
  }

  lemma QuarantineKeepsInv(s: System, p: Profile, written: bool, others: seq<Ident>)
    requires Inv(s) && Enabled(s, QuarantineSession(p, written, others))
    ensures Inv(Next(s, QuarantineSession(p, written, others)))
  {
    var session := s.hostLease[p];
    NewRecordKeepsBlocks(s.records, p, RecordOf(s, session, others));
    QuarantinedKeepsInv(s, p, s.records);
    QuarantinedKeepsInv(s, p, s.records[p := RecordOf(s, session, others)]);
  }

  lemma NewRecordKeepsBlocks(records: map<Profile, Record>, p: Profile, r: Record)
    ensures p !in records ==> forall q, b | Blocks(records, q, b) :: Blocks(records[p := r], q, b)
  {
  }

  function AsQuarantined(s: System, p: Profile, records: map<Profile, Record>): System
    requires p in s.hostLease
  {
    SetSession(s, p, s.hostLease[p].(stage := Quarantined)).(records := records)
  }

  lemma QuarantinedKeepsLeases(s: System, p: Profile, records: map<Profile, Record>)
    requires Inv(s) && AtStage(s, p, Launched) && s.hostLease[p].known.Some?
    requires records.Keys <= s.records.Keys + {p}
    ensures var t := AsQuarantined(s, p, records);
            && IdentsUsed(t)
            && (forall q | q in t.hostLease :: SessionOk(t, q))
            && (forall q | q in t.supLease :: LeaseOk(t, q))
  {
    hide Used, Blocks, ProcessOk;
    assert SessionOk(s, p);
  }

  lemma QuarantinedKeepsInv(s: System, p: Profile, records: map<Profile, Record>)
    requires Inv(s) && AtStage(s, p, Launched) && s.hostLease[p].known.Some?
    requires p !in s.records ==> forall q, b | Blocks(s.records, q, b) :: Blocks(records, q, b)
    requires records.Keys <= s.records.Keys + {p}
    ensures Inv(AsQuarantined(s, p, records))
  {
    QuarantinedKeepsLeases(s, p, records);
    assert p !in s.records by { assert SessionOk(s, p); }
    hide Used, Blocks, SessionOk, LeaseOk, IdentsUsed;
  }

  lemma CorruptRecordKeepsInv(s: System, p: Profile)
    requires Inv(s) && Enabled(s, CorruptRecord(p))
    ensures Inv(Next(s, CorruptRecord(p)))
  {
  }

  lemma TornKeepsInv(s: System, torn: set<Profile>)
    requires Inv(s) && s.torn <= torn
    ensures Inv(s.(torn := torn))
  {
    hide Used, Blocks;
  }

  lemma HostDiesKeepsInv(s: System, id: Ident)
    requires Inv(s) && Enabled(s, HostDies(id))
    ensures Inv(Next(s, HostDies(id)))
  {
    var t := s.(torn := s.torn + set p | p in s.hostLease && Tears(s, p, id));
    TornKeepsInv(s, t.torn);
    hide Used, Blocks, IdentsUsed, LeaseOk;
    DieKeepsInv(t, id);
  }

  lemma BrowserExitKeepsInv(s: System, id: Ident)
    requires Inv(s) && Enabled(s, BrowserExit(id))
    ensures Inv(Next(s, BrowserExit(id)))
  {
    hide Used, Blocks;
    DieKeepsInv(s, id);
  }

  lemma SupervisorExitKeepsInv(s: System, sup: Ident)
    requires Inv(s) && Enabled(s, SupervisorExit(sup))
    ensures Inv(Next(s, SupervisorExit(sup)))
  {
    LoneSupervisorDies(s, sup);
  }

  lemma HostKillKeepsInv(s: System, p: Profile)
    requires Inv(s) && Enabled(s, HostKillsSupervisor(p))
    ensures Inv(Next(s, HostKillsSupervisor(p)))
  {
    hide Used, Blocks;
    DieKeepsInv(s, s.hostLease[p].supervisor.value);
  }

  lemma ConfirmKeepsInv(s: System, p: Profile)
    requires Inv(s) && Enabled(s, ConfirmExited(p))
    ensures Inv(Next(s, ConfirmExited(p)))
  {
    ReleaseKeepsInv(s, p);
  }

  lemma InvStep(s: System, a: Action)
    requires Inv(s) && Enabled(s, a)
    ensures Inv(Next(s, a))
  {
    hide Inv, Next;
    match a {
      case StartHost(id) => StartHostKeepsInv(s, id);
      case AcquireHostLease(h, p) => AcquireHostLeaseKeepsInv(s, h, p);
      case ProbeBegin(p) => ProbeBeginKeepsInv(s, p);
      case ProbeEnd(p) => ProbeEndKeepsInv(s, p);
      case CheckQuarantine(p, unlinkable) => CheckKeepsInv(s, p, unlinkable);
      case SpawnSupervisor(p, id) => SpawnSupervisorKeepsInv(s, p, id);
      case SupervisorAcquire(sup) => SupervisorAcquireKeepsInv(s, sup);
      case SpawnBrowser(sup, id) => SpawnBrowserKeepsInv(s, sup, id);
      case WriteMetadata(sup) => WriteMetadataKeepsInv(s, sup);
      case ReadMetadata(p) => ReadMetadataKeepsInv(s, p);
      case BrowserExit(id) => BrowserExitKeepsInv(s, id);
      case SupervisorRelease(sup) => SupervisorReleaseKeepsInv(s, sup);
      case SupervisorExit(sup) => SupervisorExitKeepsInv(s, sup);
      case GroupTerm(sup) => GroupTermKeepsInv(s, sup);
      case GroupKill(sup) => GroupKillKeepsInv(s, sup);
      case HostKillsSupervisor(p) => HostKillKeepsInv(s, p);
      case ConfirmExited(p) => ConfirmKeepsInv(s, p);
      case QuarantineSession(p, written, others) => QuarantineKeepsInv(s, p, written, others);
      case CorruptRecord(p) => CorruptRecordKeepsInv(s, p);
      case HostDies(id) => HostDiesKeepsInv(s, id);
    }
  }

  // ---- runs --------------------------------------------------------------

  function Exec(s: System, run: seq<Action>): Option<System>
    decreases run
  {
    if run == [] then Some(s)
    else if Enabled(s, run[0]) then Exec(Next(s, run[0]), run[1..])
    else None
  }

  lemma {:induction false} ExecKeepsInv(s: System, run: seq<Action>)
    requires Inv(s) && Exec(s, run).Some?
    ensures Inv(Exec(s, run).value)
    decreases run
  {
    hide Inv, Enabled, Next;
    if run != [] {
      InvStep(s, run[0]);
      ExecKeepsInv(Next(s, run[0]), run[1..]);
    }
  }

  /** An identity that was used and is gone never comes back, however often its PID is reused. */
  lemma {:induction false} DeadStaysDead(s: System, run: seq<Action>, id: Ident)
    requires Used(s.lastStart, id) && id !in s.procs && Exec(s, run).Some?
    ensures id !in Exec(s, run).value.procs
    decreases run
  {
    if run != [] {
      DeadStaysDeadStep(s, run[0], id);
      DeadStaysDead(Next(s, run[0]), run[1..], id);
    }
  }

  lemma DeadStaysDeadStep(s: System, a: Action, id: Ident)
    requires Used(s.lastStart, id) && id !in s.procs && Enabled(s, a)
    ensures Used(Next(s, a).lastStart, id) && id !in Next(s, a).procs
  {
    hide Used, Enabled, Next;
    if Kills(a) { DeathRevivesNobody(s, a, id); } else { StepRevivesNobody(s, a, id); }
  }

  lemma DeathRevivesNobody(s: System, a: Action, id: Ident)
    requires Used(s.lastStart, id) && id !in s.procs && Enabled(s, a) && Kills(a)
    ensures Used(Next(s, a).lastStart, id) && id !in Next(s, a).procs
  {
    hide Used, Passes, RecordOf, Tears, Blocks, AllDead, WellFormed, FreshIdent, AtStage;
  }

  lemma StepRevivesNobody(s: System, a: Action, id: Ident)
    requires Used(s.lastStart, id) && id !in s.procs && Enabled(s, a) && !Kills(a)
    ensures Used(Next(s, a).lastStart, id) && id !in Next(s, a).procs
  {
    hide Passes, RecordOf, Tears, Blocks, AllDead, WellFormed, Die;
  }

  // ---- at most one browser -----------------------------------------------

  ghost predicate AtMostOne(s: System) {
    forall p, b, b' :: IsBrowserOf(s, b, p) && IsBrowserOf(s, b', p) ==> b == b'
  }

  /** Unconditionally: two live browsers of one profile cannot both have a live supervisor. */
  lemma AtMostOneSupervised(s: System, p: Profile, b: Ident, b': Ident)
    requires Inv(s) && IsBrowserOf(s, b, p) && IsBrowserOf(s, b', p)
    requires !Unsupervised(s, b, p) && !Unsupervised(s, b', p)
    ensures b == b'
  {
    assert ProcessOk(s, b) && ProcessOk(s, b');
    assert ProcessOk(s, s.procs[b].supervisor) && ProcessOk(s, s.procs[b'].supervisor);
  }

  /** The lease cannot see one thing: exclusion is lost by a step exactly when that step spawns
      a browser while one without a supervisor is still alive on the profile. */
  lemma ExclusionLostIff(s: System, a: Action)
    requires Inv(s) && Enabled(s, a) && AtMostOne(s)
    ensures !AtMostOne(Next(s, a)) <==> a.SpawnBrowser? && HasUnsupervised(s, s.procs[a.sup].profile)
  {
    if a.SpawnBrowser? {
      SpawnExclusion(s, a.sup, a.id);
    } else {
      NoNewBrowser(s, a);
    }
  }

  lemma NoNewBrowser(s: System, a: Action)
    requires Enabled(s, a) && !a.SpawnBrowser?
    ensures forall b, p :: IsBrowserOf(Next(s, a), b, p) ==> IsBrowserOf(s, b, p)
  {
  }

  lemma SpawnExclusion(s: System, sup: Ident, id: Ident)
    requires Inv(s) && Enabled(s, SpawnBrowser(sup, id)) && AtMostOne(s)
    ensures AtMostOne(Next(s, SpawnBrowser(sup, id))) <==> !HasUnsupervised(s, s.procs[sup].profile)
  {
    var p := s.procs[sup].profile;
    var t := Next(s, SpawnBrowser(sup, id));
    assert IsBrowserOf(t, id, p) && id !in s.procs;
    forall b, q | b != id && b != sup
      ensures IsBrowserOf(t, b, q) <==> IsBrowserOf(s, b, q)
    {
    }
    forall b | IsBrowserOf(s, b, p)
      ensures Unsupervised(s, b, p)
    {
      // A supervised one would hold the very lease that sup holds.
      assert ProcessOk(s, b) && ProcessOk(s, sup);
    }
  }

  /** And that needs a supervisor left over from an abandoned session, or a torn profile. */
  lemma DangerousSpawn(s: System, sup: Ident, id: Ident)
    requires Inv(s) && Enabled(s, SpawnBrowser(sup, id)) && HasUnsupervised(s, s.procs[sup].profile)
    ensures s.procs[sup].profile in s.torn || Stale(s, sup, s.procs[sup].profile)
  {
    var p := s.procs[sup].profile;
    var b :| b in s.procs && Unsupervised(s, b, p);
    assert ProcessOk(s, b) && ProcessOk(s, sup);
    if !Stale(s, sup, p) {
      assert SessionOk(s, p);
    }
  }

  /** No supervisor of an abandoned session takes part while an unsupervised browser is alive. */
  ghost predicate NoStaleSpawn(s: System, run: seq<Action>)
    decreases run
  {
    run != [] && Enabled(s, run[0]) ==>
      && NoStaleSpawn(Next(s, run[0]), run[1..])
      && (run[0].SpawnBrowser? && Stale(s, run[0].sup, s.procs[run[0].sup].profile) ==>
            !HasUnsupervised(s, s.procs[run[0].sup].profile))
  }

  lemma {:induction false} TornGrows(s: System, run: seq<Action>)
    requires Exec(s, run).Some?
    ensures s.torn <= Exec(s, run).value.torn
    decreases run
  {
    if run != [] { TornGrows(Next(s, run[0]), run[1..]); }
  }

  lemma {:induction false} MutualExclusionFrom(s: System, run: seq<Action>)
    requires Inv(s) && AtMostOne(s) && Exec(s, run).Some?
    requires NoStaleSpawn(s, run) && Exec(s, run).value.torn == {}
    ensures AtMostOne(Exec(s, run).value)
    decreases run
  {
    if run != [] {
      hide Inv, AtMostOne, Next, Stale;
      var a := run[0];
      TornGrows(s, run);
      ExclusionLostIff(s, a);
      if a.SpawnBrowser? && HasUnsupervised(s, s.procs[a.sup].profile) {
        DangerousSpawn(s, a.sup, a.id);
      }
      InvStep(s, a);
      MutualExclusionFrom(Next(s, a), run[1..]);
    }
  }

  /** Mutual exclusion over whole runs, from any state a machine can boot into, with any number
      of Hosts, crashes, restarts, takeovers and reused PIDs. */
  lemma MutualExclusion(s: System, run: seq<Action>)
    requires Initial(s) && Exec(s, run).Some?
    requires NoStaleSpawn(s, run) && Exec(s, run).value.torn == {}
    ensures AtMostOne(Exec(s, run).value)
  {
    InitialInv(s);
    MutualExclusionFrom(s, run);
  }

  ghost predicate AllSupervised(s: System) {
    forall b, p :: !Unsupervised(s, b, p)
  }

  /** The steps in which a process dies. */
  predicate Kills(a: Action) {
    a.BrowserExit? || a.SupervisorExit? || a.SupervisorAcquire? || a.GroupKill? || a.HostKillsSupervisor? || a.HostDies?
  }

  /** The browser root that the Host knows of is dead. */
  predicate RootGone(s: System, p: Profile) {
    p in s.hostLease && s.hostLease[p].known.Some? && s.hostLease[p].known.value !in s.procs
  }

  /** Whenever a Host SIGKILLs a supervisor, the browser root it read from the metadata is dead already. */
  ghost predicate BrowserFirst(s: System, run: seq<Action>)
    decreases run
  {
    run != [] && Enabled(s, run[0]) ==>
      && (run[0].HostKillsSupervisor? ==> RootGone(s, run[0].p))
      && BrowserFirst(Next(s, run[0]), run[1..])
  }

  lemma HostKillKeepsSupervised(s: System, p: Profile)
    requires Inv(s) && Enabled(s, HostKillsSupervisor(p)) && AllSupervised(s) && RootGone(s, p)
    ensures AllSupervised(Next(s, HostKillsSupervisor(p)))
  {
    var sup := s.hostLease[p].supervisor.value;
    assert SessionOk(s, p);
    hide Used, Blocks, IdentsUsed, SessionOk, LeaseOk, FreshIdent, Tears;
    forall b, q | IsBrowserOf(Next(s, HostKillsSupervisor(p)), b, q)
      ensures !Unsupervised(Next(s, HostKillsSupervisor(p)), b, q)
    {
      assert ProcessOk(s, b) && !Unsupervised(s, b, q);
    }
  }

  lemma SupervisedStep(s: System, a: Action)
    requires Inv(s) && Enabled(s, a) && AllSupervised(s) && (a.HostKillsSupervisor? ==> RootGone(s, a.p))
    ensures AllSupervised(Next(s, a))
  {
    if a.HostKillsSupervisor? {
      HostKillKeepsSupervised(s, a.p);
    } else if Kills(a) {
      KillsKeepSupervised(s, a);
    } else {
      hide Used, FreshIdent, Passes, RecordOf, Inv;
      forall b, p | IsBrowserOf(Next(s, a), b, p)
        ensures !Unsupervised(Next(s, a), b, p)
      {
        if b in s.procs { assert !Unsupervised(s, b, p); }
      }
    }
  }

  /** A supervisor that dies by itself or with its group takes its browser with it, or has none left. */
  lemma KillsKeepSupervised(s: System, a: Action)
    requires Inv(s) && Enabled(s, a) && AllSupervised(s) && Kills(a) && !a.HostKillsSupervisor?
    ensures AllSupervised(Next(s, a))
  {
    hide Used, Blocks, IdentsUsed, SessionOk, LeaseOk, FreshIdent, Tears;
    forall b, p | IsBrowserOf(Next(s, a), b, p)
      ensures !Unsupervised(Next(s, a), b, p)
    {
      assert ProcessOk(s, b) && !Unsupervised(s, b, p);
    }
  }

  lemma {:induction false} ExclusionIfBrowserFirstFrom(s: System, run: seq<Action>)
    requires Inv(s) && AllSupervised(s) && AtMostOne(s) && Exec(s, run).Some? && BrowserFirst(s, run)
    ensures AllSupervised(Exec(s, run).value) && AtMostOne(Exec(s, run).value)
    decreases run
  {
    if run != [] {
      SupervisedStep(s, run[0]);
      ExclusionLostIff(s, run[0]);
      InvStep(s, run[0]);
      hide Inv, AtMostOne, Next, Enabled, AllSupervised, RootGone;
      ExclusionIfBrowserFirstFrom(Next(s, run[0]), run[1..]);
    }
  }

  /** A condition a Host could check before each of its kills: when it never SIGKILLs a supervisor before the browser
      root is dead, exclusion holds over every run, with any crashes, takeovers and stale supervisors. */
  lemma ExclusionIfBrowserFirst(s: System, run: seq<Action>)
    requires Initial(s) && Exec(s, run).Some? && BrowserFirst(s, run)
    ensures AtMostOne(Exec(s, run).value)
  {
    InitialInv(s);
    ExclusionIfBrowserFirstFrom(s, run);
  }

  lemma {:induction false} NoForceIsBrowserFirst(s: System, run: seq<Action>)
    requires forall i | 0 <= i < |run| :: !run[i].HostKillsSupervisor?
    ensures BrowserFirst(s, run)
    decreases run
  {
    if run != [] && Enabled(s, run[0]) { NoForceIsBrowserFirst(Next(s, run[0]), run[1..]); }
  }

  /** When no Host ever has to SIGKILL a supervisor, exclusion needs no further condition. */
  lemma ExclusionWithoutForce(s: System, run: seq<Action>)
    requires Initial(s) && Exec(s, run).Some?
    requires forall i | 0 <= i < |run| :: !run[i].HostKillsSupervisor?
    ensures AtMostOne(Exec(s, run).value)
  {
    NoForceIsBrowserFirst(s, run);
    ExclusionIfBrowserFirst(s, run);
  }

  // ---- both conditions are needed ----------------------------------------

  const EMPTY := System(map[], map[], map[], map[], map[], map[], {})

  /** A run without stale spawns that leads from the empty machine to s. */
  ghost predicate Leads(run: seq<Action>, s: System) {
    Exec(EMPTY, run) == Some(s) && NoStaleSpawn(EMPTY, run)
  }

  lemma {:induction false} ExecSnoc(s: System, run: seq<Action>, t: System, a: Action)
    requires Exec(s, run) == Some(t) && Enabled(t, a)
    ensures Exec(s, run + [a]) == Some(Next(t, a))
    ensures NoStaleSpawn(s, run) && !a.SpawnBrowser? ==> NoStaleSpawn(s, run + [a])
    ensures NoStaleSpawn(s, run) && a.SpawnBrowser?
            && (!HasUnsupervised(t, t.procs[a.sup].profile) || !Stale(t, a.sup, t.procs[a.sup].profile))
            ==> NoStaleSpawn(s, run + [a])
    decreases run
  {
    if run == [] {
      assert [] + [a] == [a] && [a][1..] == [];
    } else {
      assert (run + [a])[1..] == run[1..] + [a];
      ExecSnoc(Next(s, run[0]), run[1..], t, a);
    }
  }

  predicate Idle(s: System, p: Profile) {
    p !in s.hostLease && p !in s.supLease && p !in s.records
  }

  lemma ProbeIdle(run: seq<Action>, s: System, h: Ident, p: Profile) returns (run': seq<Action>)
    requires Leads(run, s) && h in s.procs && s.procs[h] == Host && Idle(s, p)
    ensures Leads(run', SetSession(s, p, Session(h, Probing, None, None)).(supLease := s.supLease[p := h]))
  {
    hide Exec, NoStaleSpawn;
    var s1 := SetSession(s, p, Session(h, Leased, None, None));
    ExecSnoc(EMPTY, run, s, AcquireHostLease(h, p));
    var s2 := SetSession(s, p, Session(h, Probing, None, None)).(supLease := s.supLease[p := h]);
    assert Next(s1, ProbeBegin(p)) == s2;
    ExecSnoc(EMPTY, run + [AcquireHostLease(h, p)], s1, ProbeBegin(p));
    run' := run + [AcquireHostLease(h, p)] + [ProbeBegin(p)];
  }

  lemma LeaseIdle(run: seq<Action>, s: System, h: Ident, p: Profile) returns (run': seq<Action>)
    requires Leads(run, s) && h in s.procs && s.procs[h] == Host && Idle(s, p)
    ensures Leads(run', SetSession(s, p, Session(h, Cleared, None, None)))
  {
    hide Exec, NoStaleSpawn;
    run' := ProbeIdle(run, s, h, p);
    var s2 := SetSession(s, p, Session(h, Probing, None, None)).(supLease := s.supLease[p := h]);
    var s3 := SetSession(s, p, Session(h, Probed, None, None));
    ProbedIdle(s, h, p);
    CheckedIdle(s, h, p);
    hide Next, HasUnsupervised, Stale;
    ExecSnoc(EMPTY, run', s2, ProbeEnd(p));
    ExecSnoc(EMPTY, run' + [ProbeEnd(p)], s3, CheckQuarantine(p, true));
    run' := run' + [ProbeEnd(p)] + [CheckQuarantine(p, true)];
  }

  lemma ProbedIdle(s: System, h: Ident, p: Profile)
    requires Idle(s, p)
    ensures var probing := SetSession(s, p, Session(h, Probing, None, None)).(supLease := s.supLease[p := h]);
            Enabled(probing, ProbeEnd(p)) && Next(probing, ProbeEnd(p)) == SetSession(s, p, Session(h, Probed, None, None))
  {
    assert s.supLease[p := h] - {p} == s.supLease;
  }

  lemma CheckedIdle(s: System, h: Ident, p: Profile)
    requires Idle(s, p)
    ensures var probed := SetSession(s, p, Session(h, Probed, None, None));
            && Enabled(probed, CheckQuarantine(p, true))
            && Next(probed, CheckQuarantine(p, true)) == SetSession(s, p, Session(h, Cleared, None, None))
  {
    hide Release, WellFormed, AllDead;
    assert s.records - {p} == s.records;
  }

  /** An idle profile, leased by the Host h, with the supervisor sup spawned. */
  function Opened(s: System, h: Ident, p: Profile, sup: Ident): System {
    SetSession(Spawn(s, sup, Supervisor(p, h, Fresh)), p, Session(h, Launched, Some(sup), None))
  }

  lemma OpenIdle(run: seq<Action>, s: System, h: Ident, p: Profile, sup: Ident) returns (run': seq<Action>)
    requires Leads(run, s) && h in s.procs && s.procs[h] == Host && Idle(s, p) && FreshIdent(s, sup)
    ensures Leads(run', Opened(s, h, p, sup))
  {
    hide Exec, NoStaleSpawn;
    run' := LeaseIdle(run, s, h, p);
    var t := SetSession(s, p, Session(h, Cleared, None, None));
    assert Next(t, SpawnSupervisor(p, sup)) == Opened(s, h, p, sup);
    ExecSnoc(EMPTY, run', t, SpawnSupervisor(p, sup));
    run' := run' + [SpawnSupervisor(p, sup)];
  }

  /** The supervisor takes the free lease. */
  lemma HoldFree(run: seq<Action>, s: System, sup: Ident) returns (run': seq<Action>)
    requires Leads(run, s) && InPhase(s, sup, Fresh) && s.procs[sup].profile !in s.supLease
    ensures Leads(run', Hold(s, sup))
  {
    hide Exec, NoStaleSpawn;
    ExecSnoc(EMPTY, run, s, SupervisorAcquire(sup));
    run' := run + [SupervisorAcquire(sup)];
  }

  /** Its Host learns the browser identity and SIGKILLs the supervisor, which `kill_targets` lists first. */
  lemma LoseSupervisor(run: seq<Action>, s: System, p: Profile, sup: Ident, b: Ident)
    returns (run': seq<Action>, t: System)
    requires Leads(run, s) && InPhase(s, sup, Running(b)) && s.procs[sup].host != sup
    requires p in s.hostLease && s.hostLease[p] == Session(s.procs[sup].host, Launched, Some(sup), None)
    ensures Leads(run', t)
    ensures t == Die(SetSession(s, p, s.hostLease[p].(known := Some(b))).(metadata := s.metadata[sup := b]), sup)
  {
    hide Exec, NoStaleSpawn;
    var s1 := s.(metadata := s.metadata[sup := b]);
    ExecSnoc(EMPTY, run, s, WriteMetadata(sup));
    var s2 := SetSession(s1, p, s.hostLease[p].(known := Some(b)));
    ExecSnoc(EMPTY, run + [WriteMetadata(sup)], s1, ReadMetadata(p));
    ExecSnoc(EMPTY, run + [WriteMetadata(sup)] + [ReadMetadata(p)], s2, HostKillsSupervisor(p));
    run' := run + [WriteMetadata(sup)] + [ReadMetadata(p)] + [HostKillsSupervisor(p)];
    t := Next(s2, HostKillsSupervisor(p));
  }

  /** A session of the Host h on p with the browser b running behind sup. */
  function Browsing(s: System, h: Ident, p: Profile, sup: Ident, b: Ident): System {
    s.(procs := s.procs[sup := Supervisor(p, h, Running(b))][b := Browser(p, sup, h)],
       lastStart := s.lastStart[sup.pid := sup.start][b.pid := b.start],
       hostLease := s.hostLease[p := Session(h, Launched, Some(sup), None)],
       supLease := s.supLease[p := sup])
  }

  lemma BrowseIdle(run: seq<Action>, s: System, h: Ident, p: Profile, sup: Ident, b: Ident)
    returns (run': seq<Action>)
    requires Leads(run, s) && h in s.procs && s.procs[h] == Host && Idle(s, p)
    requires FreshIdent(s, sup) && FreshIdent(s, b) && sup.pid != b.pid
    ensures Leads(run', Browsing(s, h, p, sup, b))
  {
    hide Exec, NoStaleSpawn, HasUnsupervised;
    run' := OpenIdle(run, s, h, p, sup);
    var s1 := Opened(s, h, p, sup);
    run' := HoldFree(run', s1, sup);
    var s2 := Hold(s1, sup);
    ExecSnoc(EMPTY, run', s2, SpawnBrowser(sup, b));
    run' := run' + [SpawnBrowser(sup, b)];
    assert Next(s2, SpawnBrowser(sup, b)) == Browsing(s, h, p, sup, b);
  }

  /** The same after the supervisor was SIGKILLed by its Host and the browser was not reached yet. */
  function Bereft(s: System, h: Ident, p: Profile, sup: Ident, b: Ident): System {
    s.(procs := s.procs[b := Browser(p, sup, h)],
       lastStart := s.lastStart[sup.pid := sup.start][b.pid := b.start],
       hostLease := s.hostLease[p := Session(h, Launched, Some(sup), Some(b))],
       metadata := s.metadata[sup := b])
  }

  lemma LeaveBereft(run: seq<Action>, s: System, h: Ident, p: Profile, sup: Ident, b: Ident)
    returns (run': seq<Action>)
    requires Leads(run, s) && h in s.procs && s.procs[h] == Host && Idle(s, p)
    requires FreshIdent(s, sup) && FreshIdent(s, b) && sup.pid != b.pid
    requires forall q | q in s.hostLease :: s.hostLease[q].host in s.procs
    requires forall q | q in s.supLease :: s.supLease[q] in s.procs
    ensures Leads(run', Bereft(s, h, p, sup, b))
  {
    hide Exec, NoStaleSpawn;
    run' := BrowseIdle(run, s, h, p, sup, b);
    var t := Browsing(s, h, p, sup, b);
    run', t := LoseSupervisor(run', t, p, sup, b);
    BereftIsDie(s, h, p, sup, b);
  }

  lemma BereftIsDie(s: System, h: Ident, p: Profile, sup: Ident, b: Ident)
    requires h in s.procs && Idle(s, p)
    requires FreshIdent(s, sup) && FreshIdent(s, b) && sup.pid != b.pid
    requires forall q | q in s.hostLease :: s.hostLease[q].host in s.procs
    requires forall q | q in s.supLease :: s.supLease[q] in s.procs
    ensures var t := Browsing(s, h, p, sup, b);
            Die(SetSession(t, p, t.hostLease[p].(known := Some(b))).(metadata := t.metadata[sup := b]), sup)
            == Bereft(s, h, p, sup, b)
  {
    hide FreshIdent;
    var t := Browsing(s, h, p, sup, b);
    var u := Die(SetSession(t, p, t.hostLease[p].(known := Some(b))).(metadata := t.metadata[sup := b]), sup);
    assert sup !in s.procs && sup != b by { NotLive(s, sup); }
    AddAndRemove(s.procs, sup, Supervisor(p, h, Running(b)), b, Browser(p, sup, h));
    assert u.hostLease == Bereft(s, h, p, sup, b).hostLease;
    assert u.supLease == s.supLease;
  }

  lemma NotLive(s: System, id: Ident)
    requires FreshIdent(s, id)
    ensures id !in s.procs
  {
  }

  lemma AddAndRemove<K, V>(m: map<K, V>, k: K, v: V, k': K, v': V)
    requires k !in m && k != k'
    ensures m[k := v][k' := v'] - {k} == m[k' := v']
  {
  }

  lemma StartFirst(h: Ident) returns (run: seq<Action>)
    ensures Leads(run, Spawn(EMPTY, h, Host))
  {
    ExecSnoc(EMPTY, [], EMPTY, StartHost(h));
    run := [] + [StartHost(h)];
  }

  lemma FreshAfter(s: System, id: Ident)
    requires id.pid !in s.lastStart && forall x | x in s.procs :: x.pid != id.pid
    ensures FreshIdent(s, id)
  {
  }

  lemma TornFirstHalf(h: Ident, p: Profile, sup: Ident, b: Ident) returns (run: seq<Action>, s: System)
    requires h.pid != sup.pid && sup.pid != b.pid && h.pid != b.pid
    ensures Leads(run, s)
    ensures s.procs == map[b := Browser(p, sup, h)] && s.torn == {p}
    ensures s.hostLease == map[] && s.supLease == map[] && s.records == map[]
    ensures s.lastStart.Keys == {h.pid, sup.pid, b.pid}
  {
    hide Exec, NoStaleSpawn;
    run := StartFirst(h);
    run := LeaveBereft(run, Spawn(EMPTY, h, Host), h, p, sup, b);
    s := Bereft(Spawn(EMPTY, h, Host), h, p, sup, b);
    ExecSnoc(EMPTY, run, s, HostDies(h));
    assert Unsupervised(s, b, p) && !Blocks(s.records, p, b) && Tears(s, p, h);
    run, s := run + [HostDies(h)], Next(s, HostDies(h));
    assert s.procs == map[b := Browser(p, sup, h)];
  }

  /** A Host that dies between killing the supervisor and the death of its browser: the next Host
      passes every check and spawns a second browser, without any stale supervisor. */
  lemma TornProfileLosesExclusion()
    ensures exists run, s :: Leads(run, s) && s.torn != {} && !AtMostOne(s)
  {
    hide Exec, NoStaleSpawn;
    var p := "p";
    var h, sup, b := Ident(4, 1), Ident(5, 1), Ident(6, 1);
    var b1 := Ident(3, 1);
    var run, s := TornFirstHalf(Ident(1, 1), p, Ident(2, 1), b1);
    FreshAfter(s, h);
    ExecSnoc(EMPTY, run, s, StartHost(h));
    run, s := run + [StartHost(h)], Spawn(s, h, Host);
    FreshAfter(s, sup);
    FreshAfter(s, b);
    run := BrowseIdle(run, s, h, p, sup, b);
    s := Browsing(s, h, p, sup, b);
    assert IsBrowserOf(s, b1, p) && IsBrowserOf(s, b, p);
  }

  lemma StaleFirstHalf(h: Ident, p: Profile, stale: Ident) returns (run: seq<Action>)
    requires h.pid != stale.pid
    ensures Leads(run, Spawn(Spawn(EMPTY, h, Host), stale, Supervisor(p, h, Fresh)))
  {
    hide Exec, NoStaleSpawn;
    run := StartFirst(h);
    var s := Spawn(EMPTY, h, Host);
    run := OpenIdle(run, s, h, p, stale);
    s := Opened(s, h, p, stale);
    ExecSnoc(EMPTY, run, s, ConfirmExited(p));
    run := run + [ConfirmExited(p)];
    assert Next(s, ConfirmExited(p)).hostLease == map[];
  }

  lemma StaleSpawns(run: seq<Action>, s: System, stale: Ident, b: Ident, p: Profile, b1: Ident)
    requires Leads(run, s) && InPhase(s, stale, Fresh) && s.procs[stale].profile == p && p !in s.supLease
    requires IsBrowserOf(s, b1, p) && FreshIdent(s, b) && s.torn == {}
    ensures exists run', s' :: Exec(EMPTY, run') == Some(s') && s'.torn == {} && !AtMostOne(s')
  {
    hide Exec, NoStaleSpawn;
    var run' := HoldFree(run, s, stale);
    var t := Hold(s, stale);
    ExecSnoc(EMPTY, run', t, SpawnBrowser(stale, b));
    var u := Next(t, SpawnBrowser(stale, b));
    assert IsBrowserOf(u, b1, p) && IsBrowserOf(u, b, p);
  }

  /** A supervisor whose launch was given up before its metadata was read can wake up while a later
      session has just killed its own supervisor: two browsers, and nothing torn. */
  lemma StaleSupervisorLosesExclusion()
    ensures exists run, s :: Exec(EMPTY, run) == Some(s) && s.torn == {} && !AtMostOne(s)
  {
    hide Exec, NoStaleSpawn, AtMostOne;
    var p, h := "p", Ident(1, 1);
    var stale, b, sup1, b1 := Ident(2, 1), Ident(3, 1), Ident(4, 1), Ident(5, 1);
    var run := StaleFirstHalf(h, p, stale);
    var s := Spawn(Spawn(EMPTY, h, Host), stale, Supervisor(p, h, Fresh));
    run := LeaveBereft(run, s, h, p, sup1, b1);
    FreshAfter(Bereft(s, h, p, sup1, b1), b);
    StaleSpawns(run, Bereft(s, h, p, sup1, b1), stale, b, p, b1);
  }

  // ---- the watcher's grace period ----------------------------------------

  predicate InGrace(s: System, sup: Ident) {
    sup in s.procs && s.procs[sup].Supervisor? && s.procs[sup].phase.Killing?
  }

  /** From the watcher's SIGTERM to its SIGKILL the supervisor stays up and keeps its lease, even when the browser is
      gone, whatever else the machine does: every probe of the profile is refused, no other supervisor gets the lease,
      and no browser is added. */
  lemma {:induction false} LeaseSpansGrace(s: System, run: seq<Action>, sup: Ident)
    requires Inv(s) && InGrace(s, sup) && Exec(s, run).Some?
    requires forall i | 0 <= i < |run| :: run[i] != GroupKill(sup)
    ensures var t := Exec(s, run).value;
            var p := s.procs[sup].profile;
            && sup in t.procs && t.procs[sup] == s.procs[sup]
            && p in t.supLease && t.supLease[p] == sup
            && (AtStage(t, p, Leased) ==> p !in Next(t, ProbeBegin(p)).hostLease)
            && (forall other | InPhase(t, other, Fresh) && t.procs[other].profile == p ::
                  other !in Next(t, SupervisorAcquire(other)).procs)
            && (forall b | IsBrowserOf(t, b, p) :: IsBrowserOf(s, b, p))
    decreases run
  {
    var p := s.procs[sup].profile;
    assert ProcessOk(s, sup);
    if run == [] {
      forall other | InPhase(s, other, Fresh) && s.procs[other].profile == p
        ensures other !in Next(s, SupervisorAcquire(other)).procs
      {
      }
    } else {
      GraceStep(s, run[0], sup);
      InvStep(s, run[0]);
      hide Inv, Next, Enabled, IsBrowserOf;
      LeaseSpansGrace(Next(s, run[0]), run[1..], sup);
    }
  }

  lemma GraceStep(s: System, a: Action, sup: Ident)
    requires Inv(s) && Enabled(s, a) && InGrace(s, sup) && a != GroupKill(sup)
    ensures sup in Next(s, a).procs && Next(s, a).procs[sup] == s.procs[sup]
    ensures var p := s.procs[sup].profile; forall b | IsBrowserOf(Next(s, a), b, p) :: IsBrowserOf(s, b, p)
  {
    var p := s.procs[sup].profile;
    assert ProcessOk(s, sup);
    GraceSparesSupervisor(s, a, sup);
    if a.SpawnBrowser? {
      assert ProcessOk(s, a.sup);
      hide Inv, ProcessOk, FreshIdent;
    } else {
      hide Inv, ProcessOk;
      NoNewBrowser(s, a);
    }
  }

  lemma GraceSparesSupervisor(s: System, a: Action, sup: Ident)
    requires Inv(s) && Enabled(s, a) && InGrace(s, sup) && a != GroupKill(sup)
    ensures sup in Next(s, a).procs && Next(s, a).procs[sup] == s.procs[sup]
  {
    hide Inv, Enabled, Next, InGrace;
    if Kills(a) { KillSparesGrace(s, a, sup); } else { OthersSpareGrace(s, a, sup); }
  }

  /** No step but a death touches a supervisor in its grace period. */
  lemma OthersSpareGrace(s: System, a: Action, sup: Ident)
    requires Enabled(s, a) && !Kills(a) && InGrace(s, sup)
    ensures sup in Next(s, a).procs && Next(s, a).procs[sup] == s.procs[sup]
  {
    hide Tears, Passes, RecordOf, Used, Blocks, AllDead, WellFormed, Die, AtStage;
  }

  lemma KillSparesGrace(s: System, a: Action, sup: Ident)
    requires Inv(s) && Enabled(s, a) && Kills(a) && InGrace(s, sup) && a != GroupKill(sup)
    ensures sup in Next(s, a).procs && Next(s, a).procs[sup] == s.procs[sup]
  {
    if a.HostKillsSupervisor? {
      hide Enabled, Next, Inv;
      HostKillSparesGrace(s, a.p, sup);
    } else if a.GroupKill? {
      hide Enabled, Next, Inv;
      GroupKillSparesGrace(s, a.sup, sup);
    } else {
      hide Inv, SessionOk, ProcessOk, Tears, Passes, RecordOf, Used, Blocks, AllDead, WellFormed, Spawn;
    }
  }

  lemma GroupKillSparesGrace(s: System, other: Ident, sup: Ident)
    requires Inv(s) && Enabled(s, GroupKill(other)) && InGrace(s, sup) && other != sup
    ensures var t := Next(s, GroupKill(other)); sup in t.procs && t.procs[sup] == s.procs[sup]
  {
    GroupKillsBrowser(s, other);
    hide Inv;
  }

  /** The Host of a supervisor in its grace period is dead, so no Host has it for its own. */
  lemma HostKillSparesGrace(s: System, p: Profile, sup: Ident)
    requires Inv(s) && Enabled(s, HostKillsSupervisor(p)) && InGrace(s, sup)
    ensures var t := Next(s, HostKillsSupervisor(p)); sup in t.procs && t.procs[sup] == s.procs[sup]
  {
    assert ProcessOk(s, sup) && SessionOk(s, p);
    hide Inv, SessionOk, ProcessOk;
  }

  /** The SIGKILL ends both, and with the supervisor its lease. */
  lemma GraceEnds(s: System, sup: Ident)
    requires Inv(s) && InGrace(s, sup)
    ensures var t := Next(s, GroupKill(sup));
            && sup !in t.procs && s.procs[sup].phase.browser !in t.procs
            && s.procs[sup].profile !in t.supLease
  {
    assert ProcessOk(s, sup);
  }

  // ---- the quarantine record over successive Hosts -----------------------

  predicate Operating(s: System, p: Profile) {
    AtStage(s, p, Cleared) || AtStage(s, p, Launched)
  }

  /** A launch as far as the check, with nothing in between. */
  function Takeover(h: Ident, p: Profile): seq<Action> {
    [AcquireHostLease(h, p), ProbeBegin(p), ProbeEnd(p), CheckQuarantine(p, true)]
  }

  /** A live Host takes a profile over exactly when both leases are free and the record, if there is one, is strictly
      valid and names only dead processes. */
  lemma TakeoverIff(s: System, h: Ident, p: Profile)
    requires Inv(s) && h in s.procs && s.procs[h] == Host
    ensures var taken := Exec(s, Takeover(h, p));
            taken.Some? && Operating(taken.value, p) <==>
              && p !in s.hostLease && p !in s.supLease
              && (p in s.records ==> WellFormed(s.records[p]) && AllDead(s, s.records[p]))
  {
    var run := Takeover(h, p);
    hide WellFormed, AllDead, Inv;
    if p !in s.hostLease {
      var s1 := SetSession(s, p, Session(h, Leased, None, None));
      assert Exec(s, run) == Exec(s1, run[1..]);
      if p in s.supLease {
        assert !Enabled(Release(s1, p), ProbeEnd(p)) && run[1..][1..][0] == ProbeEnd(p);
        assert Exec(s1, run[1..]) == Exec(Release(s1, p), run[1..][1..]);
      } else {
        var s2 := Probe(s1, p);
        var s3 := SetSession(s2, p, s2.hostLease[p].(stage := Probed)).(supLease := s2.supLease - {p});
        assert run[1..][1..] == [ProbeEnd(p), CheckQuarantine(p, true)];
        assert run[1..][1..][1..] == [CheckQuarantine(p, true)] && [CheckQuarantine(p, true)][1..] == [];
        assert Exec(s1, run[1..]) == Exec(s2, [ProbeEnd(p), CheckQuarantine(p, true)]);
        assert Exec(s2, [ProbeEnd(p), CheckQuarantine(p, true)]) == Exec(s3, [CheckQuarantine(p, true)]);
        assert Exec(s3, [CheckQuarantine(p, true)]) == Some(Next(s3, CheckQuarantine(p, true)));
        SameJudgement(s, s3, p);
      }
    }
  }

  lemma SameJudgement(s: System, t: System, p: Profile)
    requires t.procs == s.procs && t.records == s.records
    ensures p in s.records ==> AllDead(t, t.records[p]) == AllDead(s, s.records[p])
    ensures Passes(t, p, true) == Passes(s, p, true)
  {
  }

  /** Whatever happens in between, whoever operates on a profile that once had a quarantine record has it valid and
      every process it named dead. */
  lemma TakeoverMeansGone(s: System, run: seq<Action>, p: Profile)
    requires Inv(s) && p in s.records && Exec(s, run).Some? && Operating(Exec(s, run).value, p)
    ensures WellFormed(s.records[p])
    ensures forall e | e in s.records[p].entries && Used(s.lastStart, e.ident) :: e.ident !in Exec(s, run).value.procs
  {
    if !WellFormed(s.records[p]) { InvalidRecordBlocksForever(s, run, p); }
    forall e | e in s.records[p].entries && Used(s.lastStart, e.ident)
      ensures e.ident !in Exec(s, run).value.procs
    {
      if e.ident in Exec(s, run).value.procs { LiveRecordedProcessBlocks(s, run, p, e.ident); }
    }
  }

  /** Only the check removes a record, and only one that is strictly valid with every process dead. */
  lemma RecordRemovedOnlyByCheck(s: System, a: Action, p: Profile)
    requires Enabled(s, a) && p in s.records && p !in Next(s, a).records
    ensures a == CheckQuarantine(p, true) && WellFormed(s.records[p]) && AllDead(s, s.records[p])
  {
    hide RecordOf, Tears, FreshIdent;
  }

  lemma BlockedStep(s: System, a: Action, p: Profile, id: Ident)
    requires Inv(s) && Enabled(s, a) && Blocks(s.records, p, id)
    requires WellFormed(s.records[p]) ==> id in s.procs
    ensures Blocks(Next(s, a).records, p, id)
    ensures !WellFormed(s.records[p]) ==> !WellFormed(Next(s, a).records[p])
  {
    if p in s.hostLease { assert SessionOk(s, p); }
    if a.CheckQuarantine? {
      assert a.p == p && WellFormed(s.records[p]) ==> !AllDead(s, s.records[p]);
    } else if !a.QuarantineSession? && !a.CorruptRecord? {
      RecordsStep(s, a);
    }
  }

  lemma RecordsStep(s: System, a: Action)
    requires Enabled(s, a) && !a.CheckQuarantine? && !a.QuarantineSession? && !a.CorruptRecord?
    ensures Next(s, a).records == s.records
  {
    hide FreshIdent, Tears;
  }

  /** A record that fails the strict schema, or cannot be read, keeps every later launch out for good. */
  lemma {:induction false} InvalidRecordBlocksForever(s: System, run: seq<Action>, p: Profile)
    requires Inv(s) && p in s.records && !WellFormed(s.records[p]) && Exec(s, run).Some?
    ensures p in Exec(s, run).value.records && !WellFormed(Exec(s, run).value.records[p])
    ensures !Operating(Exec(s, run).value, p)
    decreases run
  {
    if run == [] {
      assert p in s.hostLease ==> SessionOk(s, p);
    } else {
      BlockedStep(s, run[0], p, Ident(0, 0));
      InvStep(s, run[0]);
      hide Inv, Enabled, Next, WellFormed;
      InvalidRecordBlocksForever(Next(s, run[0]), run[1..], p);
    }
  }

  /** A valid record keeps every later launch out as long as one of its processes is the same live process. */
  lemma {:induction false} LiveRecordedProcessBlocks(s: System, run: seq<Action>, p: Profile, id: Ident)
    requires Inv(s) && Blocks(s.records, p, id) && Used(s.lastStart, id)
    requires Exec(s, run).Some? && id in Exec(s, run).value.procs
    ensures Blocks(Exec(s, run).value.records, p, id) && !Operating(Exec(s, run).value, p)
    decreases run
  {
    if id !in s.procs { DeadStaysDead(s, run, id); }
    if run == [] {
      assert p in s.hostLease ==> SessionOk(s, p);
    } else {
      BlockedStep(s, run[0], p, id);
      InvStep(s, run[0]);
      UsedGrows(s, run[0], id);
      hide Inv, Enabled, Next, Blocks, Operating, Used;
      LiveRecordedProcessBlocks(Next(s, run[0]), run[1..], p, id);
    }
  }

  lemma UsedGrows(s: System, a: Action, id: Ident)
    requires Enabled(s, a) && Used(s.lastStart, id)
    ensures Used(Next(s, a).lastStart, id)
  {
    hide Passes, RecordOf, Tears, Blocks, AllDead, WellFormed;
  }

  /** The record a Linux Host writes names its processes without the role the schema requires, so
      unless the list is empty the profile stays closed even after all of them are gone. */
  lemma LinuxRecordIsFinal(s: System, run: seq<Action>, p: Profile, others: seq<Ident>)
    requires Inv(s) && Enabled(s, QuarantineSession(p, true, others))
    requires RecordOf(s, s.hostLease[p], others).entries != []
    requires Exec(Next(s, QuarantineSession(p, true, others)), run).Some?
    ensures !Operating(Exec(Next(s, QuarantineSession(p, true, others)), run).value, p)
  {
    var t := Next(s, QuarantineSession(p, true, others));
    var e := RecordOf(s, s.hostLease[p], others).entries[0];
    assert !e.hasRole && e in t.records[p].entries;
    InvStep(s, QuarantineSession(p, true, others));
    InvalidRecordBlocksForever(t, run, p);
  }

  predicate TakesOver(s: System, h: Ident, p: Profile) {
    var taken := Exec(s, Takeover(h, p));
    taken.Some? && Operating(taken.value, p)
  }

  /** Nothing in the run writes p's record or breaks it. */
  predicate LeavesRecord(run: seq<Action>, p: Profile) {
    forall i | 0 <= i < |run| :: run[i] != CorruptRecord(p) && !(run[i].QuarantineSession? && run[i].p == p)
  }

  lemma {:induction false} EmptyRecordStays(s: System, run: seq<Action>, p: Profile)
    requires Exec(s, run).Some? && LeavesRecord(run, p) && (p in s.records ==> s.records[p] == Readable([]))
    ensures var t := Exec(s, run).value; p in t.records ==> t.records[p] == Readable([])
    decreases run
  {
    if run != [] {
      var t := Next(s, run[0]);
      EmptyRecordStep(s, run[0], p);
      hide Enabled, Next;
      EmptyRecordStays(t, run[1..], p);
    }
  }

  lemma EmptyRecordStep(s: System, a: Action, p: Profile)
    requires Enabled(s, a) && (p in s.records ==> s.records[p] == Readable([]))
    requires a != CorruptRecord(p) && !(a.QuarantineSession? && a.p == p)
    ensures p in Next(s, a).records ==> Next(s, a).records[p] == Readable([])
  {
    if !a.CheckQuarantine? && !a.QuarantineSession? && !a.CorruptRecord? { RecordsStep(s, a); }
  }

  /** What the promise of a takeover comes to on Linux. Once every process the record names is dead and both leases are
      free, a live Host takes the profile over exactly when the record written named no process at all. */
  lemma LinuxTakeoverIff(s: System, run: seq<Action>, p: Profile, others: seq<Ident>, h: Ident)
    requires Inv(s) && Enabled(s, QuarantineSession(p, true, others)) && LeavesRecord(run, p)
    requires Exec(Next(s, QuarantineSession(p, true, others)), run).Some?
    requires var t := Exec(Next(s, QuarantineSession(p, true, others)), run).value;
             && h in t.procs && t.procs[h] == Host && p !in t.hostLease && p !in t.supLease
             && AllDead(t, RecordOf(s, s.hostLease[p], others))
    ensures TakesOver(Exec(Next(s, QuarantineSession(p, true, others)), run).value, h, p)
       <==> RecordOf(s, s.hostLease[p], others).entries == []
  {
    var a := QuarantineSession(p, true, others);
    var record, begun := RecordOf(s, s.hostLease[p], others), Next(s, a);
    assert begun.records[p] == record;
    InvStep(s, a);
    ExecKeepsInv(begun, run);
    TakeoverIff(Exec(begun, run).value, h, p);
    if record.entries == [] {
      EmptyRecordStays(begun, run, p);
    } else {
      var e := record.entries[0];
      assert !e.hasRole && e in begun.records[p].entries;
      InvalidRecordBlocksForever(begun, run, p);
    }
  }

  /** A session with the browser b behind sup, quarantined by the Host h with a record of both. */
  lemma QuarantineBoth(run: seq<Action>, s: System, h: Ident, p: Profile, sup: Ident, b: Ident)
    returns (run': seq<Action>, t: System)
    requires Leads(run, s) && s.procs == map[h := Host, sup := Supervisor(p, h, Running(b)), b := Browser(p, sup, h)]
    requires s.hostLease == map[p := Session(h, Launched, Some(sup), None)] && s.supLease == map[p := sup] && s.records == map[]
    requires h != sup && sup != b && h != b
    ensures Leads(run', t) && t.procs == s.procs && t.supLease == s.supLease && t.lastStart == s.lastStart
    ensures t.records == map[p := Readable([Entry(sup, false), Entry(b, false)])]
    ensures t.hostLease == map[p := Session(h, Quarantined, Some(sup), Some(b))]
  {
    hide Exec, NoStaleSpawn, Next, Enabled, SetSession;
    var s1 := s.(metadata := s.metadata[sup := b]);
    var s2 := SetSession(s1, p, Session(h, Launched, Some(sup), Some(b)));
    Written(s, p, sup, b);
    ReadBack(s1, h, p, sup, b);
    SameButSession(s1, p, Session(h, Launched, Some(sup), Some(b)));
    t := Recorded(s2, h, p, sup, b);
    ExecSnoc(EMPTY, run, s, WriteMetadata(sup));
    ExecSnoc(EMPTY, run + [WriteMetadata(sup)], s1, ReadMetadata(p));
    ExecSnoc(EMPTY, run + [WriteMetadata(sup)] + [ReadMetadata(p)], s2, QuarantineSession(p, true, []));
    run' := run + [WriteMetadata(sup)] + [ReadMetadata(p)] + [QuarantineSession(p, true, [])];
  }

  lemma SameButSession(s: System, p: Profile, session: Session)
    ensures SetSession(s, p, session) == s.(hostLease := s.hostLease[p := session])
  {
  }

  lemma Written(s: System, p: Profile, sup: Ident, b: Ident)
    requires InPhase(s, sup, Running(b))
    ensures Enabled(s, WriteMetadata(sup)) && Next(s, WriteMetadata(sup)) == s.(metadata := s.metadata[sup := b])
  {
  }

  lemma ReadBack(s: System, h: Ident, p: Profile, sup: Ident, b: Ident)
    requires p in s.hostLease && s.hostLease[p] == Session(h, Launched, Some(sup), None)
    requires sup in s.metadata && s.metadata[sup] == b
    ensures Enabled(s, ReadMetadata(p)) && Next(s, ReadMetadata(p)) == SetSession(s, p, Session(h, Launched, Some(sup), Some(b)))
  {
  }

  lemma Recorded(s: System, h: Ident, p: Profile, sup: Ident, b: Ident) returns (t: System)
    requires p in s.hostLease && s.hostLease[p] == Session(h, Launched, Some(sup), Some(b))
    requires sup in s.procs && b in s.procs
    ensures Enabled(s, QuarantineSession(p, true, [])) && t == Next(s, QuarantineSession(p, true, []))
    ensures t == s.(hostLease := s.hostLease[p := Session(h, Quarantined, Some(sup), Some(b))],
                    records := s.records[p := Readable([Entry(sup, false), Entry(b, false)])])
  {
    t := Next(s, QuarantineSession(p, true, []));
    assert RecordOf(s, s.hostLease[p], []) == Readable([Entry(sup, false), Entry(b, false)]);
  }

  /** Then the browser, the supervisor and the Host die, in this order. */
  lemma AllThreeDie(run: seq<Action>, s: System, h: Ident, p: Profile, sup: Ident, b: Ident)
    returns (run': seq<Action>, t: System)
    requires Leads(run, s) && s.procs == map[h := Host, sup := Supervisor(p, h, Running(b)), b := Browser(p, sup, h)]
    requires s.hostLease == map[p := Session(h, Quarantined, Some(sup), Some(b))] && s.supLease == map[p := sup]
    requires h != sup && sup != b && h != b
    ensures Leads(run', t) && t.procs == map[] && t.hostLease == map[] && t.supLease == map[]
    ensures t.records == s.records && t.lastStart == s.lastStart
  {
    hide Exec, NoStaleSpawn, Enabled, Next;
    var s1 := BrowserDies(s, h, p, sup, b);
    ExecSnoc(EMPTY, run, s, BrowserExit(b));
    var s2 := SupervisorDies(s1, h, p, sup, b);
    ExecSnoc(EMPTY, run + [BrowserExit(b)], s1, SupervisorExit(sup));
    t := LastHostDies(s2, h, p);
    ExecSnoc(EMPTY, run + [BrowserExit(b)] + [SupervisorExit(sup)], s2, HostDies(h));
    run' := run + [BrowserExit(b)] + [SupervisorExit(sup)] + [HostDies(h)];
  }

  lemma BrowserDies(s: System, h: Ident, p: Profile, sup: Ident, b: Ident) returns (t: System)
    requires s.procs == map[h := Host, sup := Supervisor(p, h, Running(b)), b := Browser(p, sup, h)]
    requires h != sup && sup != b && h != b && p in s.hostLease && s.hostLease == map[p := s.hostLease[p]]
    requires s.hostLease[p].host == h && s.supLease == map[p := sup]
    ensures Enabled(s, BrowserExit(b)) && t == Next(s, BrowserExit(b))
    ensures t.procs == map[h := Host, sup := Supervisor(p, h, Running(b))]
    ensures t == s.(procs := t.procs)
  {
    t := Next(s, BrowserExit(b));
    assert t.procs == map[h := Host, sup := Supervisor(p, h, Running(b))];
    assert t.hostLease == s.hostLease && t.supLease == s.supLease;
  }

  lemma SupervisorDies(s: System, h: Ident, p: Profile, sup: Ident, b: Ident) returns (t: System)
    requires s.procs == map[h := Host, sup := Supervisor(p, h, Running(b))]
    requires h != sup && sup != b && h != b && p in s.hostLease && s.hostLease == map[p := s.hostLease[p]]
    requires s.hostLease[p].host == h && s.supLease == map[p := sup]
    ensures Enabled(s, SupervisorExit(sup)) && t == Next(s, SupervisorExit(sup))
    ensures t.procs == map[h := Host] && t == s.(procs := t.procs, supLease := map[])
  {
    t := Next(s, SupervisorExit(sup));
    assert t.procs == map[h := Host];
    assert t.hostLease == s.hostLease && t.supLease == map[];
  }

  lemma LastHostDies(s: System, h: Ident, p: Profile) returns (t: System)
    requires s.procs == map[h := Host] && p in s.hostLease && s.hostLease == map[p := s.hostLease[p]]
    requires s.hostLease[p].host == h && s.supLease == map[]
    ensures Enabled(s, HostDies(h)) && t == Next(s, HostDies(h))
    ensures t.procs == map[] && t.hostLease == map[] && t.supLease == map[] && t.records == s.records && t.lastStart == s.lastStart
  {
    hide Tears;
    t := Next(s, HostDies(h));
    assert t.procs == map[] && t.hostLease == map[] && t.supLease == map[];
  }

  /** A run from an empty machine after which a profile is closed for good, although its record was written by a Host
      and every process it names is dead: the next Host is refused. */
  lemma LinuxRecordRefusesTheNextHost()
    ensures exists run, s, h, p ::
              && Leads(run, s) && h in s.procs && s.procs[h] == Host && p !in s.hostLease && p !in s.supLease
              && p in s.records && AllDead(s, s.records[p]) && s.records[p].entries != [] && !TakesOver(s, h, p)
  {
    hide Exec, NoStaleSpawn;
    var p, h, sup, b, next := "p", Ident(1, 1), Ident(2, 1), Ident(3, 1), Ident(4, 1);
    var run := StartFirst(h);
    var s := Spawn(EMPTY, h, Host);
    run := BrowseIdle(run, s, h, p, sup, b);
    s := Browsing(s, h, p, sup, b);
    run, s := QuarantineBoth(run, s, h, p, sup, b);
    run, s := AllThreeDie(run, s, h, p, sup, b);
    ExecSnoc(EMPTY, run, s, StartHost(next));
    var t := Spawn(s, next, Host);
    RefusesTheNext(run + [StartHost(next)], t, next, p, sup);
    assert Leads(run + [StartHost(next)], t) && !TakesOver(t, next, p);
  }

  lemma RefusesTheNext(run: seq<Action>, s: System, h: Ident, p: Profile, sup: Ident)
    requires Leads(run, s) && h in s.procs && s.procs[h] == Host && p in s.records && s.records[p].Readable?
    requires Entry(sup, false) in s.records[p].entries
    ensures !TakesOver(s, h, p)
  {
    hide Leads, Exec;
    LeadsInv(run, s);
    TakeoverIff(s, h, p);
    assert !WellFormed(s.records[p]);
  }

  lemma LeadsInv(run: seq<Action>, s: System)
    requires Leads(run, s)
    ensures Inv(s)
  {
    InitialInv(EMPTY);
    ExecKeepsInv(EMPTY, run);
  }

  // ---- a refused launch ----------------------------------------------------

  /** A launch that is refused, by a lease or by the record, has happened in vain: the leases are given back and the
      machine is as it was. Where the Host lease is taken already the launch does not even begin. */
  lemma RefusedLaunchIsUndone(s: System, h: Ident, p: Profile)
    requires Inv(s) && h in s.procs && s.procs[h] == Host
    ensures p in s.hostLease ==> Exec(s, Takeover(h, p)[..1]).None?
    ensures p !in s.hostLease && p in s.supLease ==>
              Exec(s, Takeover(h, p)[..2]) == Some(s) && Exec(s, Takeover(h, p)[..3]).None?
    ensures p !in s.hostLease && p !in s.supLease && !TakesOver(s, h, p) ==> Exec(s, Takeover(h, p)) == Some(s)
  {
    var a, b, c, d := AcquireHostLease(h, p), ProbeBegin(p), ProbeEnd(p), CheckQuarantine(p, true);
    var run := Takeover(h, p);
    assert run == [a] + ([b] + ([c] + ([d] + [])));
    assert run[..1] == [a] + [] && run[..2] == [a] + ([b] + []) && run[..3] == [a] + ([b] + ([c] + []));
    TakenAndLost(s, h, p);
    hide Inv, Enabled, Next, Exec, TakesOver;
    forall t: System, x: Action, rest: seq<Action> {:trigger Exec(t, [x] + rest)}
      ensures Exec(t, [x] + rest) == if Enabled(t, x) then Exec(Next(t, x), rest) else None
    {
      ExecCons(t, x, rest);
    }
    ExecNothing();
    if Free(s, p) { RefusalEnds(s, h, p); }
  }

  lemma ExecNothing()
    ensures forall s: System {:trigger Exec(s, [])} :: Exec(s, []) == Some(s)
  {
  }

  lemma ExecCons(s: System, a: Action, rest: seq<Action>)
    ensures Exec(s, [a] + rest) == if Enabled(s, a) then Exec(Next(s, a), rest) else None
  {
    assert ([a] + rest)[1..] == rest;
    hide Enabled, Next;
  }

  /** The Host lease is taken unless it is held, and given back by a probe that finds the other one held. */
  lemma TakenAndLost(s: System, h: Ident, p: Profile)
    requires h in s.procs && s.procs[h] == Host
    ensures Enabled(s, AcquireHostLease(h, p)) <==> p !in s.hostLease
    ensures p !in s.hostLease ==> Enabled(Next(s, AcquireHostLease(h, p)), ProbeBegin(p))
    ensures p !in s.hostLease && p in s.supLease ==>
              Next(Next(s, AcquireHostLease(h, p)), ProbeBegin(p)) == s && !Enabled(s, ProbeEnd(p))
  {
    if p !in s.hostLease { assert Next(s, AcquireHostLease(h, p)).hostLease - {p} == s.hostLease; }
  }

  /** A launch that gets past the probe runs to the check, and a refusal there undoes it. */
  lemma RefusalEnds(s: System, h: Ident, p: Profile)
    requires h in s.procs && s.procs[h] == Host && Free(s, p)
    ensures Exec(s, Takeover(h, p)).Some?
    ensures Operating(Exec(s, Takeover(h, p)).value, p) || Exec(s, Takeover(h, p)) == Some(s)
  {
    var a, b, c, d := AcquireHostLease(h, p), ProbeBegin(p), ProbeEnd(p), CheckQuarantine(p, true);
    var s1 := Next(s, a);
    var s2 := Next(s1, b);
    var s3 := Next(s2, c);
    assert s3.supLease == s.supLease && s3.hostLease - {p} == s.hostLease;
    assert Next(s3, d) == s || Operating(Next(s3, d), p) by { hide WellFormed, AllDead; }
    assert Takeover(h, p) == [a] + ([b] + ([c] + ([d] + [])));
    hide Next, Operating, Free;
    ExecCons(s, a, [b] + ([c] + ([d] + [])));
    ExecCons(s1, b, [c] + ([d] + []));
    ExecCons(s2, c, [d] + []);
    ExecCons(s3, d, []);
  }

  /** Nothing in the run takes a lease of p or breaks its record. */
  ghost predicate LeavesAlone(s: System, run: seq<Action>, p: Profile)
    decreases run
  {
    run != [] && Enabled(s, run[0]) ==>
      && (run[0].AcquireHostLease? ==> run[0].p != p)
      && (run[0].SupervisorAcquire? ==> s.procs[run[0].sup].profile != p)
      && run[0] != CorruptRecord(p)
      && LeavesAlone(Next(s, run[0]), run[1..], p)
  }

  ghost predicate Free(s: System, p: Profile) { p !in s.hostLease && p !in s.supLease }

  lemma FreeStep(s: System, a: Action, p: Profile)
    requires Enabled(s, a) && Free(s, p) && a != CorruptRecord(p)
    requires (a.AcquireHostLease? ==> a.p != p) && (a.SupervisorAcquire? ==> s.procs[a.sup].profile != p)
    ensures Free(Next(s, a), p)
    ensures p in Next(s, a).records <==> p in s.records
    ensures p in s.records ==> Next(s, a).records[p] == s.records[p]
  {
    hide Used, FreshIdent, Tears, Passes, RecordOf;
  }

  lemma {:induction false} FreeStaysFree(s: System, run: seq<Action>, p: Profile)
    requires Free(s, p) && Exec(s, run).Some? && LeavesAlone(s, run, p)
    ensures var t := Exec(s, run).value;
            && Free(t, p) && (p in t.records <==> p in s.records) && (p in s.records ==> t.records[p] == s.records[p])
    decreases run
  {
    if run != [] {
      FreeStep(s, run[0], p);
      hide Enabled, Next, Free;
      FreeStaysFree(Next(s, run[0]), run[1..], p);
    }
  }

  /** What a refusal leaves to others. A launch of h is refused because of the record; whatever happens then that
      leaves the leases and the record of p alone, any live Host can take p over exactly when the record is strictly
      valid and every process it names is dead by then. */
  lemma RefusedThenTakenOver(s: System, h: Ident, p: Profile, run: seq<Action>, other: Ident)
    requires Inv(s) && h in s.procs && s.procs[h] == Host && Free(s, p) && !TakesOver(s, h, p)
    ensures p in s.records && Exec(s, Takeover(h, p)).Some?
    ensures var t := Exec(s, Takeover(h, p)).value;
            && Free(t, p)
            && (Exec(t, run).Some? && LeavesAlone(t, run, p) ==>
                  var u := Exec(t, run).value;
                  other in u.procs && u.procs[other] == Host ==>
                    (TakesOver(u, other, p) <==> WellFormed(s.records[p]) && AllDead(u, s.records[p])))
  {
    RefusedLaunchIsUndone(s, h, p);
    TakeoverIff(s, h, p);
    hide Inv, Enabled, Next, WellFormed, AllDead, TakesOver;
    if Exec(s, run).Some? && LeavesAlone(s, run, p) {
      var u := Exec(s, run).value;
      FreeStaysFree(s, run, p);
      ExecKeepsInv(s, run);
      if other in u.procs && u.procs[other] == Host { TakenOverIff(u, other, p); }
    }
  }

  /** `TakeoverIff` for free leases. */
  lemma TakenOverIff(s: System, h: Ident, p: Profile)
    requires Inv(s) && h in s.procs && s.procs[h] == Host && Free(s, p)
    ensures TakesOver(s, h, p) <==> (p in s.records ==> WellFormed(s.records[p]) && AllDead(s, s.records[p]))
  {
    TakeoverIff(s, h, p);
    hide Inv, WellFormed, AllDead;
  }

  /** A session whose exit is confirmed gives its profile back: unless a supervisor still has it, every live Host can
      take the profile over then and after anything that leaves it alone. */
  lemma ExitedThenTakenOver(s: System, p: Profile, run: seq<Action>, other: Ident)
    requires Inv(s) && Enabled(s, ConfirmExited(p)) && p !in s.supLease
    requires Exec(Next(s, ConfirmExited(p)), run).Some? && LeavesAlone(Next(s, ConfirmExited(p)), run, p)
    requires var u := Exec(Next(s, ConfirmExited(p)), run).value; other in u.procs && u.procs[other] == Host
    ensures TakesOver(Exec(Next(s, ConfirmExited(p)), run).value, other, p)
  {
    var t := Next(s, ConfirmExited(p));
    assert SessionOk(s, p);
    assert Free(t, p) && p !in t.records;
    InvStep(s, ConfirmExited(p));
    FreeStaysFree(t, run, p);
    ExecKeepsInv(t, run);
    TakenOverIff(Exec(t, run).value, other, p);
  }

  // ---- the Host lease ----------------------------------------------------

  /** Once the Host knows its browser, the Host lease is not given up before both roots are dead:
      as long as the Host lives, the profile is either still leased to it or rid of both. */
  lemma {:induction false} LeaseOutlivesRoots(s: System, run: seq<Action>, p: Profile)
    requires Inv(s) && p in s.hostLease && s.hostLease[p].known.Some? && Exec(s, run).Some?
    requires forall i | 0 <= i < |run| :: run[i] != HostDies(s.hostLease[p].host)
    ensures var l := s.hostLease[p];
            var t := Exec(s, run).value;
            || (p in t.hostLease && t.hostLease[p].host == l.host && t.hostLease[p].supervisor == l.supervisor)
            || (l.supervisor.value !in t.procs && l.known.value !in t.procs)
    decreases run
  {
    assert SessionOk(s, p);
    if run != [] {
      var l := s.hostLease[p];
      var t := Next(s, run[0]);
      InvStep(s, run[0]);
      LeaseStep(s, run[0], p);
      if p in t.hostLease && t.hostLease[p].host == l.host && t.hostLease[p].supervisor == l.supervisor {
        hide Inv, Next, Enabled;
        LeaseOutlivesRoots(t, run[1..], p);
      } else {
        UsedGrows(s, run[0], l.supervisor.value);
        UsedGrows(s, run[0], l.known.value);
        DeadStaysDead(t, run[1..], l.supervisor.value);
        DeadStaysDead(t, run[1..], l.known.value);
      }
    }
  }

  lemma GroupKillsBrowser(s: System, sup: Ident)
    requires Inv(s) && Enabled(s, GroupKill(sup))
    ensures var b := s.procs[sup].phase.browser;
            b in s.procs ==> s.procs[b].Browser?
  {
    assert ProcessOk(s, sup);
  }

  lemma DieSpares(s: System, id: Ident, p: Profile)
    requires p in s.hostLease && s.hostLease[p].host != id
    ensures p in Die(s, id).hostLease && Die(s, id).hostLease[p] == s.hostLease[p]
  {
  }

  lemma GroupKillSpares(s: System, sup: Ident, p: Profile)
    requires Inv(s) && Enabled(s, GroupKill(sup)) && p in s.hostLease
    ensures p in Next(s, GroupKill(sup)).hostLease && Next(s, GroupKill(sup)).hostLease[p] == s.hostLease[p]
  {
    GroupKillsBrowser(s, sup);
    assert SessionOk(s, p);
    hide Die, Inv, SessionOk;
    DieSpares(s, s.procs[sup].phase.browser, p);
    DieSpares(Die(s, s.procs[sup].phase.browser), sup, p);
  }

  lemma HostKillSpares(s: System, q: Profile, p: Profile)
    requires Inv(s) && Enabled(s, HostKillsSupervisor(q)) && p in s.hostLease
    ensures p in Next(s, HostKillsSupervisor(q)).hostLease
    ensures Next(s, HostKillsSupervisor(q)).hostLease[p] == s.hostLease[p]
  {
    assert SessionOk(s, p) && SessionOk(s, q);
    hide Die, Inv, SessionOk;
    DieSpares(s, s.hostLease[q].supervisor.value, p);
  }

  lemma KillSparesSession(s: System, a: Action, p: Profile)
    requires Inv(s) && Enabled(s, a) && p in s.hostLease && Kills(a) && a != HostDies(s.hostLease[p].host)
    ensures p in Next(s, a).hostLease && Next(s, a).hostLease[p] == s.hostLease[p]
  {
    if a.GroupKill? {
      hide Inv, Enabled, Next;
      GroupKillSpares(s, a.sup, p);
    } else if a.HostKillsSupervisor? {
      hide Inv, Enabled, Next;
      HostKillSpares(s, a.p, p);
    } else {
      hide Inv, Enabled, Next;
      OneDeathSpares(s, a, p);
    }
  }

  lemma OneDeathSpares(s: System, a: Action, p: Profile)
    requires Inv(s) && Enabled(s, a) && p in s.hostLease && a != HostDies(s.hostLease[p].host)
    requires a.BrowserExit? || a.SupervisorExit? || a.SupervisorAcquire? || a.HostDies?
    ensures p in Next(s, a).hostLease && Next(s, a).hostLease[p] == s.hostLease[p]
  {
    assert SessionOk(s, p);
    hide Inv, SessionOk, Tears, RecordOf, Passes, Blocks, AllDead, WellFormed, Used, FreshIdent, Spawn, Release, AtStage;
    if a.BrowserExit? || a.HostDies? { DieSpares(s, a.id, p); }
    if a.SupervisorExit? || a.SupervisorAcquire? { DieSpares(s, a.sup, p); }
  }

  /** A session that has been launched is left as it is by every step but three. */
  lemma SessionUntouched(s: System, a: Action, p: Profile)
    requires Inv(s) && Enabled(s, a) && p in s.hostLease && s.hostLease[p].stage in {Launched, Quarantined}
    requires a != HostDies(s.hostLease[p].host) && a != ConfirmExited(p)
    ensures p in Next(s, a).hostLease
    ensures Next(s, a).hostLease[p] == s.hostLease[p]
            || (a == ReadMetadata(p) && s.hostLease[p].stage == Launched
                && Next(s, a).hostLease[p] == s.hostLease[p].(known := Some(s.metadata[s.hostLease[p].supervisor.value])))
            || (a.QuarantineSession? && a.p == p && Next(s, a).hostLease[p] == s.hostLease[p].(stage := Quarantined))
  {
    if Kills(a) {
      KillSparesSession(s, a, p);
    } else {
      OtherSteps(s, a, p);
    }
  }

  lemma OtherSteps(s: System, a: Action, p: Profile)
    requires Enabled(s, a) && p in s.hostLease && s.hostLease[p].stage in {Launched, Quarantined}
    requires !Kills(a) && a != ConfirmExited(p)
    ensures p in Next(s, a).hostLease
    ensures Next(s, a).hostLease[p] == s.hostLease[p]
            || (a == ReadMetadata(p) && s.hostLease[p].stage == Launched
                && Next(s, a).hostLease[p] == s.hostLease[p].(known := Some(s.metadata[s.hostLease[p].supervisor.value])))
            || (a.QuarantineSession? && a.p == p && Next(s, a).hostLease[p] == s.hostLease[p].(stage := Quarantined))
  {
    hide Die, Used, FreshIdent, Passes, RecordOf, Tears, Blocks, AllDead, WellFormed, NoBrowserLeft;
  }

  lemma LeaseStep(s: System, a: Action, p: Profile)
    requires Inv(s) && Enabled(s, a) && p in s.hostLease && s.hostLease[p].known.Some?
    requires a != HostDies(s.hostLease[p].host)
    ensures var l := s.hostLease[p];
            var t := Next(s, a);
            && l.supervisor.Some?
            && (|| (p in t.hostLease && t.hostLease[p].host == l.host && t.hostLease[p].supervisor == l.supervisor
                    && t.hostLease[p].known == l.known)
                || (a == ConfirmExited(p) && l.supervisor.value !in t.procs && l.known.value !in t.procs))
  {
    assert SessionOk(s, p);
    if a != ConfirmExited(p) { SessionUntouched(s, a, p); }
  }

  /** A quarantined session keeps its lease for the rest of its Host's life. */
  lemma {:induction false} QuarantineKeepsLease(s: System, run: seq<Action>, p: Profile)
    requires Inv(s) && AtStage(s, p, Quarantined) && Exec(s, run).Some?
    requires forall i | 0 <= i < |run| :: run[i] != HostDies(s.hostLease[p].host)
    ensures p in Exec(s, run).value.hostLease && Exec(s, run).value.hostLease[p] == s.hostLease[p]
    decreases run
  {
    if run != [] {
      InvStep(s, run[0]);
      QuarantinedStep(s, run[0], p);
      hide Inv, Next, Enabled;
      QuarantineKeepsLease(Next(s, run[0]), run[1..], p);
    }
  }

  lemma QuarantinedStep(s: System, a: Action, p: Profile)
    requires Inv(s) && Enabled(s, a) && AtStage(s, p, Quarantined) && a != HostDies(s.hostLease[p].host)
    ensures p in Next(s, a).hostLease && Next(s, a).hostLease[p] == s.hostLease[p]
  {
    assert SessionOk(s, p);
    if a != ConfirmExited(p) { SessionUntouched(s, a, p); }
  }
}
