/** Three lawful machines on which `terminate_managed_tree` does not do what its documentation says, with the calls
    that show it. */
module ManagedTreeMachines {
  import opened Commons
  import opened ManagedTree

  /** An enumeration from one base that has no children captures the process that has its PID then. */
  lemma HaulOfOne(w: World, base: Identity, h: Haul)
    requires HaulOk(w, [base], [], h) && ChildrenAt(w, h.from, base.pid) == []
    ensures h.to == h.from + 2 && TargetsOf(h.catches) == [ReadId(w, base.pid, h.from + 1)]
  {
    hide Enumeration;
    var s := h.sweeps[0];
    assert h.sweeps == [s] && s.from == h.from && s.base == base;
    LoneSweep(w, s);
    assert [][..] == h.sweeps[..0];
    assert Swept(h.sweeps) == 1;
    assert s.pids[0] in s.pids && base.pid in PidsOf([] + TargetsOf(h.catches));
    OneCatch(w, base.pid, [], h);
    assert h.catches[0] in h.catches;
  }

  lemma LoneSweep(w: World, s: Sweep)
    requires SweepOk(w, s) && ChildrenAt(w, s.from, s.base.pid) == []
    ensures s.pids == [s.base.pid as nat]
  {
    if |s.pids| > 1 { NobodyListed(w, s.pids[..1], s.from, s.pids[1]); }
  }

  lemma NobodyListed(w: World, pids: seq<nat>, from: nat, x: nat)
    requires |pids| == 1 && ChildrenAt(w, from, pids[0]) == []
    ensures !Listed(w, pids, from, x)
  {
  }

  /** All catches are of one PID: then there is one. */
  lemma OneCatch(w: World, pid: int, known: seq<Identity>, h: Haul)
    requires CatchesOk(w, known, h.sweeps, h.catches, h.to) && pid !in PidsOf(known)
    requires pid in PidsOf(known + TargetsOf(h.catches)) && forall c | c in h.catches :: c.target.pid == pid
    ensures |h.catches| == 1
  {
    DistinctCatches(w, known, h);
    var x :| x in known + TargetsOf(h.catches) && x.pid == pid;
    assert x in known ==> x.pid in PidsOf(known);
    assert x in TargetsOf(h.catches);
    forall i | 0 <= i < |h.catches|
      ensures h.catches[i].target.pid == pid
    {
      assert h.catches[i] in h.catches;
    }
  }

  lemma DistinctCatches(w: World, known: seq<Identity>, h: Haul)
    requires CatchesOk(w, known, h.sweeps, h.catches, h.to)
    ensures |h.catches| > 1 ==> h.catches[0].target.pid != h.catches[1].target.pid
  {
  }

  // ---- the PID of a root is given out again --------------------------------

  /** A machine on which PID 7 is given to another process right after the first instant. */
  function Reused(t: nat): Snapshot {
    Snapshot(map[7 := Proc(if t == 0 then 10 else 20, false, [])], t)
  }

  const RECORDED := Identity(7, Some(10))
  const STRANGER := Identity(7, Some(20))

  lemma ReusedIsLawful()
    ensures Lawful(Reused)
  {
    ReusedKeepsPids();
    hide Reused;
    forall t: nat, u: nat, pid | t <= u && pid in Reused(t).procs && pid in Reused(u).procs
      ensures Reused(t).procs[pid].start <= Reused(u).procs[pid].start && !Reused(t).procs[pid].zombie
    {
      ReusedTable(t);
      ReusedTable(u);
    }
    forall t: nat, u: nat | t <= u
      ensures Reused(t).clock <= Reused(u).clock
    {
      ReusedTable(t);
      ReusedTable(u);
    }
    forall t: nat, pid | pid in Reused(t).procs
      ensures Reused(t).procs[pid].children == []
    {
      ReusedTable(t);
    }
  }

  lemma ReusedKeepsPids()
    ensures forall t: nat, v: nat, u: nat, pid {:trigger Reused(t).procs, Reused(v).procs, pid in Reused(u).procs} |
              t <= v <= u && pid in Reused(t).procs && pid in Reused(u).procs :: pid in Reused(v).procs
  {
    hide Reused;
    forall t: nat, v: nat, u: nat, pid | t <= v <= u && pid in Reused(t).procs && pid in Reused(u).procs
      ensures pid in Reused(v).procs
    {
      ReusedTable(t);
      ReusedTable(v);
    }
  }

  lemma ReusedTable(t: nat)
    ensures Reused(t).procs.Keys == {7} && Reused(t).procs[7] == Proc(if t == 0 then 10 else 20, false, [])
    ensures Reused(t).clock == t
  {
  }

  lemma ReusedReads()
    ensures forall t: nat :: Exists(Reused, t, RECORDED) <==> t == 0
    ensures forall t: nat :: Exists(Reused, t, STRANGER) <==> t > 0
    ensures forall t: nat :: ChildrenAt(Reused, t, 7) == []
  {
    var w: World := Reused;
    forall t: nat
      ensures w(t) == Reused(t)
    {
    }
  }

  /** Every call for the recorded process on that machine sends SIGTERM to the stranger: the start time is read
      afresh for the bare PID, and from then on every check finds the stranger again. */
  lemma StrangerIsSignalled(wake: nat -> nat, timeout: nat, outcome: Outcome, tr: Trace)
    requires Ran(Reused, wake, 0, [RECORDED], timeout, outcome, tr)
    ensures exists s :: s in tr.term && s.target == STRANGER && Exists(Reused, s.at, STRANGER)
    ensures !Exists(Reused, 1, RECORDED) && Lawful(Reused)
  {
    ReusedIsLawful();
    ReusedReads();
    hide Lawful, Exists, HaulOk, Ended, ChildrenAt, Sends;
    StrangerRoots();
    HaulOfOne(Reused, RECORDED, tr.first);
    assert ReadId(Reused, 7, tr.first.from + 1) == STRANGER by { StrangerIsRead(tr.first.from + 1); }
    assert Reversed(Initial(tr)) == [STRANGER];
    SendsToTheLiving(Reused, tr.first.to, [STRANGER], Term, STRANGER);
  }

  lemma StrangerIsRead(t: nat)
    requires t > 0
    ensures ReadId(Reused, 7, t) == STRANGER
  {
  }

  lemma StrangerRoots()
    ensures AliveAmong(Reused, 0, [RECORDED]) == [RECORDED] && AfterPoll(Reused, 0, [RECORDED]) == 2
  {
    var w: World := Reused;
    assert w(0) == Reused(0) && w(1) == Reused(1);
    assert AliveRead(w, 0, RECORDED) && AliveCost(w, 0, RECORDED) == 2;
    assert [RECORDED][1..] == [];
  }

  function Tick(t: nat): nat { t + 50 }

  /** And such calls happen: the method, on that machine. */
  method CallOnReused(timeout: nat) returns (outcome: Outcome, ghost tr: Trace)
    ensures Ran(Reused, Tick, 0, [RECORDED], timeout, outcome, tr)
    ensures exists s :: s in tr.term && s.target == STRANGER && Exists(Reused, s.at, STRANGER)
  {
    var k := new Kernel(Reused, Tick, 7);
    assert k.Valid() by { ReusedIsLawful(); ReusedIsValid(k); }
    outcome, tr := TerminateManagedTree(k, [RECORDED], timeout);
    StrangerIsSignalled(k.wake, timeout, outcome, tr);
  }

  lemma ReusedIsValid(k: Kernel)
    requires k.world == Reused && k.wake == Tick && k.pidMax == 7 && Lawful(Reused)
    ensures k.Valid()
  {
    hide Lawful;
  }

  // ---- a child outlives its parent -----------------------------------------

  /** PID 7 has the child 8 from instant 3 to 13 and is gone after that; the child lives on. The clock stands still
      until then. */
  function Late(t: nat): Snapshot {
    Snapshot(
      if t < 3 then map[7 := Proc(10, false, [])]
      else if t <= 13 then map[7 := Proc(10, false, [8]), 8 := Proc(11, false, [])]
      else map[8 := Proc(11, false, [])],
      if t <= 13 then 0 else 10_000 + 50 * (t - 13))
  }

  function LateWake(t: nat): nat { if t < 14 then 14 else t + 1 }

  const CHILD := Identity(8, Some(11))

  lemma LateTable(t: nat)
    ensures forall pid :: pid in Late(t).procs <==> (pid == 7 && t <= 13) || (pid == 8 && 3 <= t)
    ensures t <= 13 ==> Late(t).procs[7] == Proc(10, false, if t < 3 then [] else [8])
    ensures 3 <= t ==> Late(t).procs[8] == Proc(11, false, [])
    ensures Late(t).clock == if t <= 13 then 0 else 10_000 + 50 * (t - 13)
  {
  }

  lemma LateIsLawful()
    ensures Lawful(Late)
  {
    LateKeepsPids();
    hide Late;
    forall t: nat, u: nat, pid | t <= u && pid in Late(t).procs && pid in Late(u).procs
      ensures Late(t).procs[pid].start == Late(u).procs[pid].start && !Late(t).procs[pid].zombie
    {
      LateTable(t);
      LateTable(u);
    }
    forall t: nat, u: nat | t <= u
      ensures Late(t).clock <= Late(u).clock
    {
      LateTable(t);
      LateTable(u);
    }
    forall t: nat, pid, c | pid in Late(t).procs && c in Late(t).procs[pid].children
      ensures c in Late(t).procs
    {
      LateTable(t);
    }
  }

  lemma LateKeepsPids()
    ensures forall t: nat, v: nat, u: nat, pid {:trigger Late(t).procs, Late(v).procs, pid in Late(u).procs} |
              t <= v <= u && pid in Late(t).procs && pid in Late(u).procs :: pid in Late(v).procs
  {
    hide Late;
    forall t: nat, v: nat, u: nat, pid | t <= v <= u && pid in Late(t).procs && pid in Late(u).procs
      ensures pid in Late(v).procs
    {
      LateTable(t);
      LateTable(v);
      LateTable(u);
    }
  }

  lemma LatePolls(t: nat)
    requires t <= 12
    ensures AliveAmong(Late, t, [RECORDED]) == [RECORDED] && AfterPoll(Late, t, [RECORDED]) == t + 2
    ensures AfterSends(Late, t, [RECORDED]) == t + 2
  {
    var w: World := Late;
    assert w(t) == Late(t) && w(t + 1) == Late(t + 1);
    assert [RECORDED][1..] == [];
    assert AfterSends(w, t + 2, []) == t + 2;
  }

  lemma LateReads()
    ensures forall t: nat :: ChildrenAt(Late, t, 7) == if 3 <= t <= 13 then [8] else []
    ensures forall t: nat :: ChildrenAt(Late, t, 8) == []
    ensures forall t: nat :: ReadId(Late, 7, t) == if t <= 13 then RECORDED else Identity(7, None)
    ensures forall t: nat | 3 <= t :: ReadId(Late, 8, t) == CHILD && Alive(Late, t, CHILD)
    ensures forall t: nat :: Late(t).clock == if t <= 13 then 0 else 10_000 + 50 * (t - 13)
  {
    var w: World := Late;
    forall t: nat
      ensures ChildrenAt(Late, t, 7) == (if 3 <= t <= 13 then [8] else []) && ChildrenAt(Late, t, 8) == []
      ensures ReadId(Late, 7, t) == if t <= 13 then RECORDED else Identity(7, None)
      ensures 3 <= t ==> ReadId(Late, 8, t) == CHILD && Alive(Late, t, CHILD)
    {
      assert w(t) == Late(t);
      LateTable(t);
    }
  }

  /** The turn in which the child is captured. */
  lemma LateHaul(h: Haul)
    requires HaulOk(Late, [RECORDED], [RECORDED], h) && h.from == 10
    ensures h.to == 13 && TargetsOf(h.catches) == [CHILD]
  {
    LateReads();
    var s := h.sweeps[0];
    assert h.sweeps == [s] && s.from == 10 && s.base == RECORDED;
    PairSweep(Late, s);
    assert h.sweeps[..0] == [];
    assert Swept(h.sweeps) == 2;
    assert 8 in s.pids;
    forall c | c in h.catches
      ensures c.target.pid == 8
    {
      assert c.sweep == s && c.target.pid in s.pids && RECORDED in [RECORDED] && c.target.pid != 7;
    }
    OneCatch(Late, 8, [RECORDED], h);
    assert h.catches[0] in h.catches;
  }

  /** An enumeration of PID 7 and its only child. */
  lemma PairSweep(w: World, s: Sweep)
    requires SweepOk(w, s) && s.base.pid == 7
    requires ChildrenAt(w, s.from, 7) == [8] && ChildrenAt(w, s.from + 1, 8) == []
    ensures s.pids == [7, 8]
  {
    hide ChildrenAt;
    assert s.pids[0] == 7;
    assert 8 in Children(w, s.pids, s.from, 0);
    assert 8 in s.pids;
    assert |s.pids| > 1;
    assert Listed(w, s.pids[..1], s.from, s.pids[1]);
    assert s.pids[1] == 8;
    ThirdIsTheChild(w, s);
    assert Distinct(s.pids);
  }

  lemma ThirdIsTheChild(w: World, s: Sweep)
    requires SweepOk(w, s) && |s.pids| > 1 && s.pids[..2] == [7, 8]
    requires ChildrenAt(w, s.from, 7) == [8] && ChildrenAt(w, s.from + 1, 8) == []
    ensures |s.pids| > 2 ==> s.pids[2] == 8
  {
    hide Distinct, ChildrenAt;
    if |s.pids| > 2 && s.pids[2] != 8 { OnlyTheChild(w, s.from, s.pids[..2], s.pids[2]); }
  }

  lemma OnlyTheChild(w: World, from: nat, pids: seq<nat>, x: nat)
    requires pids == [7, 8] && x != 8 && ChildrenAt(w, from, 7) == [8] && ChildrenAt(w, from + 1, 8) == []
    ensures !Listed(w, pids, from, x)
  {
    hide ChildrenAt;
    assert Children(w, pids, from, 0) == [8] && Children(w, pids, from, 1) == [];
  }

  lemma FirstRound(w: World, wake: nat -> nat, deadline: nat, start: nat, initial: seq<Identity>, rounds: seq<Round>, n: nat)
    requires RoundsOk(w, wake, deadline, start, initial, rounds) && n < |rounds|
    ensures RoundsOk(w, wake, deadline, start, initial, rounds[..n])
    ensures RoundOk(w, deadline, NextAt(wake, start, rounds[..n]), Grown(initial, rounds[..n]), rounds[n])
    decreases |rounds|
  {
    hide RoundOk;
    var front := rounds[..|rounds| - 1];
    if n < |front| {
      FirstRound(w, wake, deadline, start, initial, front, n);
      assert front[..n] == rounds[..n];
    }
  }

  /** The grace period takes exactly one turn. */
  lemma LateRounds(timeout: nat, rounds: seq<Round>)
    requires timeout <= 10_000 && RoundsOk(Late, LateWake, timeout, 7, [RECORDED], rounds) && rounds != []
    ensures |rounds| == 1 && rounds[0].alive == [RECORDED] && NextAt(LateWake, 7, rounds) == 14
    ensures Grown([RECORDED], rounds) == [RECORDED, CHILD]
  {
    hide HaulOk, AliveAmong, AfterPoll;
    FirstRound(Late, LateWake, timeout, 7, [RECORDED], rounds, 0);
    assert rounds[..0] == [];
    var r := rounds[0];
    LatePolls(8);
    LateHaul(r.haul);
    var one := [r];
    assert one[..0] == [];
    SecondRound(timeout, rounds);
    LateReads();
    assert rounds == one;
  }

  lemma SecondRound(timeout: nat, rounds: seq<Round>)
    requires RoundsOk(Late, LateWake, timeout, 7, [RECORDED], rounds) && rounds != [] && rounds[0].haul.to == 13
    ensures |rounds| > 1 ==> Late(14).clock < timeout
  {
    hide Late;
    if |rounds| > 1 {
      FirstRound(Late, LateWake, timeout, 7, [RECORDED], rounds, 1);
      assert rounds[..1] == [rounds[0]];
    }
  }

  /** Every call for PID 7 on that machine reports exited, although the child it captured lives on: the child is
      captured after the last poll, and gone from the list of PID 7 when SIGKILL enumerates again. */
  lemma LateChildEscapes(timeout: nat, outcome: Outcome, tr: Trace)
    requires 50 < timeout <= 10_000 && Ran(Late, LateWake, 0, [RECORDED], timeout, outcome, tr)
    ensures outcome.Receipt? && outcome.exited && outcome.sigkill && outcome.remaining == []
    ensures CHILD in Captured(tr) && forall t: nat | 3 <= t :: Alive(Late, t, CHILD)
  {
    hide Lawful, HaulOk, AliveAmong, AfterPoll, Sends, AfterSends, RoundsOk;
    LateReads();
    LatePolls(0);
    LatePolls(4);
    LatePolls(8);
    HaulOfOne(Late, RECORDED, tr.first);
    assert Initial(tr) == [RECORDED] && Reversed(Initial(tr)) == [RECORDED];
    assert Ended(Late, LateWake, 6, timeout, outcome, tr);
    LateEnds(timeout, outcome, tr);
  }

  lemma LateEnds(timeout: nat, outcome: Outcome, tr: Trace)
    requires 50 < timeout <= 10_000 && Initial(tr) == [RECORDED] && Ended(Late, LateWake, 6, timeout, outcome, tr)
    ensures outcome.Receipt? && outcome.exited && outcome.sigkill && CHILD in Captured(tr)
  {
    hide HaulOk, AliveAmong, AfterPoll, Sends, AfterSends, RoundsOk;
    LateReads();
    LatePolls(8);
    assert Late(6).clock == 0 && Late(7).clock == 0;
    NoRounds(Late, LateWake, timeout, 7, [RECORDED]);
    if tr.rounds != [] {
      LateRounds(timeout, tr.rounds);
      assert Late(14).clock == 10_050;
      LateForced(timeout, tr.forced.value, tr.kill);
      FirstLookEnds(Late, LateWake, tr.forced.value, timeout, tr.checks, outcome.exited, outcome.remaining);
    }
  }

  lemma LateForced(timeout: nat, h: Haul, kill: seq<Sent>)
    requires 50 < timeout && ForcedFrom(Late, [RECORDED], 15, h, kill)
    ensures AliveAmong(Late, AfterSends(Late, h.to, TargetsOf(h.catches)) + 2, TargetsOf(h.catches)) == []
    ensures !FirstCheckLate(Late, AfterSends(Late, h.to, TargetsOf(h.catches)), timeout)
  {
    hide HaulOk;
    LateReads();
    HaulOfOne(Late, RECORDED, h);
    var nobody := [Identity(7, None)];
    assert nobody[1..] == [];
    assert AfterSends(Late, 17, nobody) == 17;
    assert Late(17).clock == 10_200 && Late(18).clock == 10_250;
  }

  /** And such calls happen: the method, on that machine, with the six seconds of a failed launch. */
  method CallOnLate() returns (outcome: Outcome, ghost tr: Trace)
    ensures outcome.Receipt? && outcome.exited && CHILD in Captured(tr) && forall t: nat | 3 <= t :: Alive(Late, t, CHILD)
  {
    var k := new Kernel(Late, LateWake, 8);
    assert k.Valid() by { LateIsLawful(); LateIsValid(k); }
    outcome, tr := TerminateManagedTree(k, [RECORDED], 6000);
    LateChildEscapes(6000, outcome, tr);
  }

  lemma LateIsValid(k: Kernel)
    requires k.world == Late && k.wake == LateWake && k.pidMax == 8 && Lawful(Late)
    ensures k.Valid()
  {
    hide Lawful;
    forall t: nat { LateTable(t); }
    hide Late;
    forall t: nat
      ensures k.wake(t) > t && k.world(k.wake(t)).clock >= k.world(t).clock + 50
    {
      LateTable(t);
      LateTable(LateWake(t));
    }
  }

  // ---- the PID of a captured child is given out again ---------------------

  /** PID 8 is a child of 7 throughout, but another process from instant 9 on; 7 is gone from instant 18. */
  function Recycled(t: nat): Snapshot {
    var child := Proc(if t <= 8 then 11 else 21, false, []);
    Snapshot(if t <= 17 then map[7 := Proc(10, false, [8]), 8 := child] else map[8 := child],
             if t <= 17 then 0 else 50 * (t - 17))
  }

  function RecycledWake(t: nat): nat { if t < 18 then 18 else t + 1 }

  const SECOND := Identity(8, Some(21))

  lemma RecycledTable(t: nat)
    ensures forall pid :: pid in Recycled(t).procs <==> (pid == 7 && t <= 17) || pid == 8
    ensures t <= 17 ==> Recycled(t).procs[7] == Proc(10, false, [8])
    ensures Recycled(t).procs[8] == Proc(if t <= 8 then 11 else 21, false, [])
    ensures Recycled(t).clock == if t <= 17 then 0 else 50 * (t - 17)
  {
  }

  lemma RecycledIsLawful()
    ensures Lawful(Recycled)
  {
    RecycledKeepsPids();
    hide Recycled;
    forall t: nat, u: nat, pid | t <= u && pid in Recycled(t).procs && pid in Recycled(u).procs
      ensures Recycled(t).procs[pid].start <= Recycled(u).procs[pid].start && !Recycled(t).procs[pid].zombie
    {
      RecycledTable(t);
      RecycledTable(u);
    }
    forall t: nat, u: nat | t <= u
      ensures Recycled(t).clock <= Recycled(u).clock
    {
      RecycledTable(t);
      RecycledTable(u);
    }
    forall t: nat, pid, c | pid in Recycled(t).procs && c in Recycled(t).procs[pid].children
      ensures c in Recycled(t).procs
    {
      RecycledTable(t);
    }
  }

  lemma RecycledKeepsPids()
    ensures forall t: nat, v: nat, u: nat, pid {:trigger Recycled(t).procs, Recycled(v).procs, pid in Recycled(u).procs} |
              t <= v <= u && pid in Recycled(t).procs && pid in Recycled(u).procs :: pid in Recycled(v).procs
  {
    hide Recycled;
    forall t: nat, v: nat, u: nat, pid | t <= v <= u && pid in Recycled(t).procs && pid in Recycled(u).procs
      ensures pid in Recycled(v).procs
    {
      RecycledTable(v);
      RecycledTable(u);
    }
  }

  lemma RecycledReads()
    ensures forall t: nat | t <= 17 :: ChildrenAt(Recycled, t, 7) == [8]
    ensures forall t: nat :: ChildrenAt(Recycled, t, 8) == []
    ensures forall t: nat | t <= 17 :: ReadId(Recycled, 7, t) == RECORDED
    ensures forall t: nat :: ReadId(Recycled, 8, t) == if t <= 8 then CHILD else SECOND
    ensures forall t: nat | 9 <= t :: Alive(Recycled, t, SECOND)
    ensures forall t: nat :: Exists(Recycled, t, RECORDED) <==> t <= 17
    ensures forall t: nat :: AliveRead(Recycled, t, RECORDED) <==> t <= 16
    ensures forall t: nat :: Exists(Recycled, t, CHILD) <==> t <= 8
    ensures forall t: nat :: Recycled(t).clock == if t <= 17 then 0 else 50 * (t - 17)
  {
    var w: World := Recycled;
    forall t: nat
      ensures w(t) == Recycled(t)
    {
    }
    forall t: nat { RecycledTable(t); }
  }

  predicate TheTwo(ids: seq<Identity>) { ids == [RECORDED, CHILD] || ids == [CHILD, RECORDED] }

  /** One enumeration from PID 7 while it lives. */
  lemma RecycledSweeps(known: seq<Identity>, h: Haul)
    requires HaulOk(Recycled, [RECORDED], known, h) && h.from <= 16
    ensures h.to == h.from + 2 + |h.catches| && 7 in PidsOf(known + TargetsOf(h.catches)) && 8 in PidsOf(known + TargetsOf(h.catches))
    ensures forall c | c in h.catches ::
              (c.target.pid == 7 || c.target.pid == 8) && h.from + 2 <= c.read < h.to && c.target == ReadId(Recycled, c.target.pid, c.read)
  {
    RecycledReads();
    hide Exists, AliveRead, Alive, ReadId;
    HaulIsSound(Recycled, [RECORDED], known, h);
    var s := h.sweeps[0];
    assert h.sweeps == [s] && s.from == h.from && s.base == RECORDED;
    PairSweep(Recycled, s);
    assert h.sweeps[..0] == [];
    assert Swept(h.sweeps) == 2;
    assert 7 in s.pids && 8 in s.pids;
  }

  /** The first enumeration captures both, in some order. */
  lemma RecycledFirst(h: Haul)
    requires HaulOk(Recycled, [RECORDED], [], h) && h.from == 2
    ensures h.to == 6 && TheTwo(TargetsOf(h.catches))
  {
    hide Recycled, HaulOk, ReadId, PidsOf, TheTwo;
    var targets := TargetsOf(h.catches);
    RecycledTargets(h, targets);
    TwoDistinct(targets);
    RecycledReads();
    forall i | 0 <= i < |targets|
      ensures targets[i] == if targets[i].pid == 7 then RECORDED else CHILD
    {
      assert targets[i] == ReadId(Recycled, targets[i].pid, h.catches[i].read);
    }
    InSomeOrder(targets);
  }

  lemma InSomeOrder(targets: seq<Identity>)
    requires |targets| == 2 && targets[0].pid != targets[1].pid
    requires forall i | 0 <= i < 2 :: targets[i] == RECORDED || targets[i] == CHILD
    ensures TheTwo(targets)
  {
    assert targets == [targets[0], targets[1]];
  }

  lemma RecycledTargets(h: Haul, targets: seq<Identity>)
    requires HaulOk(Recycled, [RECORDED], [], h) && h.from == 2 && targets == TargetsOf(h.catches)
    ensures 7 in PidsOf(targets) && 8 in PidsOf(targets) && h.to == 4 + |targets|
    ensures forall i | 0 <= i < |targets| ::
              && (targets[i].pid == 7 || targets[i].pid == 8)
              && 4 <= h.catches[i].read < h.to && targets[i] == ReadId(Recycled, targets[i].pid, h.catches[i].read)
    ensures forall i, j | 0 <= i < j < |targets| :: targets[i].pid != targets[j].pid
  {
    hide Recycled, ReadId, PidsOf, SweepsOk;
    RecycledSweeps([], h);
    assert [] + targets == targets;
    forall i | 0 <= i < |targets|
      ensures targets[i].pid == 7 || targets[i].pid == 8
      ensures 4 <= h.catches[i].read < h.to && targets[i] == ReadId(Recycled, targets[i].pid, h.catches[i].read)
    {
      assert h.catches[i] in h.catches;
    }
    CatchesDiffer(Recycled, [], h);
  }

  lemma CatchesDiffer(w: World, known: seq<Identity>, h: Haul)
    requires CatchesOk(w, known, h.sweeps, h.catches, h.to)
    ensures forall i, j | 0 <= i < j < |h.catches| :: h.catches[i].target.pid != h.catches[j].target.pid
  {
  }

  lemma TwoDistinct(targets: seq<Identity>)
    requires 7 in PidsOf(targets) && 8 in PidsOf(targets)
    requires forall i | 0 <= i < |targets| :: targets[i].pid == 7 || targets[i].pid == 8
    requires forall i, j | 0 <= i < j < |targets| :: targets[i].pid != targets[j].pid
    ensures |targets| == 2
  {
    var a :| a in targets && a.pid == 7;
    var b :| b in targets && b.pid == 8;
    Pigeonhole(targets);
  }

  lemma Pigeonhole(targets: seq<Identity>)
    requires forall i | 0 <= i < |targets| :: targets[i].pid == 7 || targets[i].pid == 8
    ensures |targets| > 2 ==>
              targets[0].pid == targets[1].pid || targets[0].pid == targets[2].pid || targets[1].pid == targets[2].pid
  {
  }

  /** The polls and signals of such a call, whichever of the two comes first. */
  lemma RecycledPolls(targets: seq<Identity>)
    requires TheTwo(targets)
    ensures AfterSends(Recycled, 6, Reversed(targets)) == 10
    ensures AliveAmong(Recycled, 12, targets) == [RECORDED] && AfterPoll(Recycled, 12, targets) == 15
    ensures AliveAmong(Recycled, 19, targets) == []
  {
    RecycledReads();
    assert forall t: nat | t > 8 :: !AliveRead(Recycled, t, CHILD);
    hide Exists, AliveRead, Alive, ReadId;
    var w: World := Recycled;
    var a, b := targets[0], targets[1];
    assert targets == [a, b] && targets[1..] == [b] && [b][1..] == [];
    assert Reversed(targets) == [b, a] && [b, a][1..] == [a] && [a][1..] == [];
    SendsNothing(w, 10, Term);
    PollNothing(w, 15);
    PollNext(w, 12, targets);
    PollNext(w, 12 + AliveCost(w, 12, a), [b]);
    PollNext(w, 19, targets);
    PollNext(w, 19 + AliveCost(w, 19, a), [b]);
    PollNothing(w, 19 + AliveCost(w, 19, a) + AliveCost(w, 19 + AliveCost(w, 19, a), b));
  }

  /** Every call for PID 7 on that machine reports exited without SIGKILL, although the process that took the
      child's PID was listed while the call polled and lives on: its PID counts as seen, so it is never captured. */
  lemma SkippedPidEscapes(timeout: nat, outcome: Outcome, tr: Trace)
    requires 50 < timeout && Ran(Recycled, RecycledWake, 0, [RECORDED], timeout, outcome, tr)
    ensures outcome.Receipt? && outcome.exited && !outcome.sigkill
    ensures exists r, s :: r in tr.rounds && s in r.haul.sweeps && 8 in s.pids && s.from >= 9
    ensures SECOND !in Captured(tr) && forall t: nat | 9 <= t :: Alive(Recycled, t, SECOND)
  {
    hide HaulOk, AliveAmong, AfterPoll, Sends, AfterSends, RoundsOk, AliveRead, Exists;
    RecycledReads();
    RecycledRoots();
    RecycledFirst(tr.first);
    RecycledPolls(Initial(tr));
    assert Ended(Recycled, RecycledWake, 10, timeout, outcome, tr);
    RecycledEnds(timeout, outcome, tr);
  }

  lemma RecycledRoots()
    ensures AliveAmong(Recycled, 0, [RECORDED]) == [RECORDED] && AfterPoll(Recycled, 0, [RECORDED]) == 2
  {
    RecycledReads();
    hide Recycled;
    PollNext(Recycled, 0, [RECORDED]);
    PollNothing(Recycled, 2);
    assert [RECORDED][1..] == [];
  }

  lemma RecycledEnds(timeout: nat, outcome: Outcome, tr: Trace)
    requires 50 < timeout && TheTwo(Initial(tr)) && Ended(Recycled, RecycledWake, 10, timeout, outcome, tr)
    ensures outcome.Receipt? && outcome.exited && !outcome.sigkill && Captured(tr) == Initial(tr)
    ensures exists r, s :: r in tr.rounds && s in r.haul.sweeps && 8 in s.pids && s.from >= 9
  {
    hide HaulOk, AliveAmong, AfterPoll, Sends, AfterSends, RoundsOk;
    RecycledReads();
    RecycledPolls(Initial(tr));
    assert Recycled(10).clock == 0 && Recycled(11).clock == 0 && Recycled(18).clock == 50;
    NoRounds(Recycled, RecycledWake, timeout, 11, Initial(tr));
    if tr.rounds != [] {
      RecycledRounds(timeout, Initial(tr), tr.rounds);
    }
  }

  lemma RecycledRounds(timeout: nat, initial: seq<Identity>, rounds: seq<Round>)
    requires 50 < timeout && TheTwo(initial) && RoundsOk(Recycled, RecycledWake, timeout, 11, initial, rounds) && rounds != []
    ensures NextAt(RecycledWake, 11, rounds) == 18 && Grown(initial, rounds) == initial
    ensures exists r, s :: r in rounds && s in r.haul.sweeps && 8 in s.pids && s.from >= 9
  {
    hide HaulOk, AliveAmong, AfterPoll;
    FirstRound(Recycled, RecycledWake, timeout, 11, initial, rounds, 0);
    assert rounds[..0] == [];
    var r := rounds[0];
    RecycledPolls(initial);
    RecycledHaul(initial, r.haul);
    var one := [r];
    assert one[..0] == [];
    assert Grown(initial, one) == initial;
    NoSecondRound(timeout, initial, rounds);
    assert rounds == one;
    var s :| s in r.haul.sweeps && 8 in s.pids && s.from >= 9;
    assert r in rounds && s in r.haul.sweeps;
  }

  lemma NoSecondRound(timeout: nat, initial: seq<Identity>, rounds: seq<Round>)
    requires RoundsOk(Recycled, RecycledWake, timeout, 11, initial, rounds) && rounds != []
    requires rounds[0].haul.to == 17 && TargetsOf(rounds[0].haul.catches) == [] && AliveAmong(Recycled, 19, initial) == []
    ensures |rounds| == 1
  {
    hide Recycled, HaulOk, AliveAmong, AfterPoll;
    var one := [rounds[0]];
    assert one[..0] == [];
    assert Grown(initial, one) == initial;
    assert |rounds| > 1 ==> rounds[..1] == one;
    if |rounds| > 1 { FirstRound(Recycled, RecycledWake, timeout, 11, initial, rounds, 1); }
  }

  /** The turn that lists PID 8 again and captures nothing. */
  lemma RecycledHaul(known: seq<Identity>, h: Haul)
    requires TheTwo(known) && HaulOk(Recycled, [RECORDED], known, h) && h.from == 15
    ensures h.to == 17 && TargetsOf(h.catches) == []
    ensures exists s :: s in h.sweeps && 8 in s.pids && s.from >= 9
  {
    RecycledSweeps(known, h);
    RecycledReads();
    assert RECORDED in known && CHILD in known;
    assert 7 in PidsOf(known) && 8 in PidsOf(known);
    HasFirst(h.catches);
    var s := h.sweeps[0];
    PairSweep(Recycled, s);
    assert 8 in s.pids;
  }

  lemma HasFirst<T>(s: seq<T>)
    ensures s != [] ==> s[0] in s
  {
  }

  /** And such calls happen. */
  method CallOnRecycled() returns (outcome: Outcome, ghost tr: Trace)
    ensures outcome.Receipt? && outcome.exited && !outcome.sigkill
    ensures exists r, s :: r in tr.rounds && s in r.haul.sweeps && 8 in s.pids && s.from >= 9
    ensures SECOND !in Captured(tr) && forall t: nat | 9 <= t :: Alive(Recycled, t, SECOND)
  {
    var k := new Kernel(Recycled, RecycledWake, 8);
    assert k.Valid() by { RecycledIsLawful(); RecycledIsValid(k); }
    outcome, tr := TerminateManagedTree(k, [RECORDED], 6000);
    SkippedPidEscapes(6000, outcome, tr);
  }

  lemma RecycledIsValid(k: Kernel)
    requires k.world == Recycled && k.wake == RecycledWake && k.pidMax == 8 && Lawful(Recycled)
    ensures k.Valid()
  {
    hide Lawful;
    forall t: nat { RecycledTable(t); }
    hide Recycled;
    forall t: nat
      ensures k.wake(t) > t && k.world(k.wake(t)).clock >= k.world(t).clock + 50
    {
      RecycledTable(t);
      RecycledTable(RecycledWake(t));
    }
  }

  // ---- the clock jumps -------------------------------------------------------

  /** PID 7 stays; the clock stands still until instant 6 and is ten seconds later at the next. */
  function Jumping(t: nat): Snapshot {
    Snapshot(map[7 := Proc(10, false, [])], if t <= 6 then 0 else 10_000 + 50 * (t - 7))
  }

  function JumpingWake(t: nat): nat { if t < 7 then 7 else t + 1 }

  lemma JumpingIsLawful()
    ensures Lawful(Jumping)
  {
    forall t: nat, v: nat, u: nat, pid {:trigger Jumping(t).procs, Jumping(v).procs, pid in Jumping(u).procs} |
      t <= v <= u && pid in Jumping(t).procs && pid in Jumping(u).procs
      ensures pid in Jumping(v).procs
    {
    }
  }

  lemma JumpingReads()
    ensures forall t: nat :: ChildrenAt(Jumping, t, 7) == [] && ReadId(Jumping, 7, t) == RECORDED && AliveRead(Jumping, t, RECORDED)
    ensures forall t: nat :: Exists(Jumping, t, RECORDED)
    ensures forall t: nat :: Jumping(t).clock == if t <= 6 then 0 else 10_000 + 50 * (t - 7)
  {
    var w: World := Jumping;
    forall t: nat
      ensures w(t) == Jumping(t)
    {
    }
  }

  /** Every call for PID 7 on that machine ends in the unbound variable, up to a timeout of ten seconds. */
  lemma ClockJumpsOverTheGrace(timeout: nat, outcome: Outcome, tr: Trace)
    requires timeout <= 10_000 && Ran(Jumping, JumpingWake, 0, [RECORDED], timeout, outcome, tr)
    ensures outcome.UnboundTargets?
  {
    hide HaulOk, AliveAmong, AfterPoll, Sends, AfterSends, Jumping, Ended, Reversed, ChildrenAt, ReadId;
    JumpingPolls();
    JumpingReads();
    HaulOfOne(Jumping, RECORDED, tr.first);
    assert Initial(tr) == [RECORDED];
    UnboundIff(Jumping, JumpingWake, 0, [RECORDED], timeout, outcome, tr);
  }

  lemma JumpingPolls()
    ensures AliveAmong(Jumping, 0, [RECORDED]) == [RECORDED] && AfterPoll(Jumping, 0, [RECORDED]) == 2
    ensures Reversed([RECORDED]) == [RECORDED] && AfterSends(Jumping, 4, [RECORDED]) == 6
  {
    JumpingReads();
    hide Jumping, AliveRead, Exists;
    PollNext(Jumping, 0, [RECORDED]);
    PollNothing(Jumping, 2);
    assert [RECORDED][1..] == [];
    SendsNext(Jumping, 4, [RECORDED], Term);
    SendsNothing(Jumping, 6, Term);
  }

  /** And such calls happen, with the timeout of a close. */
  method CallOnJumping() returns (outcome: Outcome, ghost tr: Trace)
    ensures outcome.UnboundTargets?
  {
    var k := new Kernel(Jumping, JumpingWake, 7);
    assert k.Valid() by { JumpingIsLawful(); JumpingIsValid(k); }
    outcome, tr := TerminateManagedTree(k, [RECORDED], 8000);
    ClockJumpsOverTheGrace(8000, outcome, tr);
  }

  lemma JumpingIsValid(k: Kernel)
    requires k.world == Jumping && k.wake == JumpingWake && k.pidMax == 7 && Lawful(Jumping)
    ensures k.Valid()
  {
    hide Lawful;
    JumpingReads();
    forall t: nat
      ensures k.wake(t) > t && k.world(k.wake(t)).clock >= k.world(t).clock + 50
    {
      assert Jumping(JumpingWake(t)).clock >= Jumping(t).clock + 50;
    }
  }

  // ---- SIGKILL takes the parent first ----------------------------------------

  /** PID 7 has the child 8 from instant 3 on. Both ignore SIGTERM; SIGKILL, sent by instant 22, takes 7 first, at
      instant 24, and 8 right after. The clock stands still while the call polls. */
  function Killed(t: nat): Snapshot {
    Snapshot(
      if t < 3 then map[7 := Proc(10, false, [])]
      else if t <= 23 then map[7 := Proc(10, false, [8]), 8 := Proc(11, false, [])]
      else if t == 24 then map[8 := Proc(11, false, [])]
      else map[],
      if t <= 13 then 0 else 10_000 + 50 * (t - 13))
  }

  lemma KilledTable(t: nat)
    ensures forall pid :: pid in Killed(t).procs <==> (pid == 7 && t <= 23) || (pid == 8 && 3 <= t <= 24)
    ensures t <= 23 ==> Killed(t).procs[7] == Proc(10, false, if t < 3 then [] else [8])
    ensures 3 <= t <= 24 ==> Killed(t).procs[8] == Proc(11, false, [])
    ensures Killed(t).clock == if t <= 13 then 0 else 10_000 + 50 * (t - 13)
  {
  }

  lemma KilledKeepsPids()
    ensures forall t: nat, v: nat, u: nat, pid {:trigger Killed(t).procs, Killed(v).procs, pid in Killed(u).procs} |
              t <= v <= u && pid in Killed(t).procs && pid in Killed(u).procs :: pid in Killed(v).procs
  {
    hide Killed;
    forall t: nat, v: nat, u: nat, pid | t <= v <= u && pid in Killed(t).procs && pid in Killed(u).procs
      ensures pid in Killed(v).procs
    {
      KilledTable(t);
      KilledTable(v);
      KilledTable(u);
    }
  }

  lemma KilledIsLawful()
    ensures Lawful(Killed)
  {
    KilledKeepsPids();
    hide Killed;
    forall t: nat, u: nat, pid | t <= u && pid in Killed(t).procs && pid in Killed(u).procs
      ensures Killed(t).procs[pid].start == Killed(u).procs[pid].start && !Killed(t).procs[pid].zombie
    {
      KilledTable(t);
      KilledTable(u);
    }
    forall t: nat, u: nat | t <= u
      ensures Killed(t).clock <= Killed(u).clock
    {
      KilledTable(t);
      KilledTable(u);
    }
    forall t: nat, pid, c | pid in Killed(t).procs && c in Killed(t).procs[pid].children
      ensures c in Killed(t).procs
    {
      KilledTable(t);
    }
  }

  lemma KilledReads()
    ensures forall t: nat :: ChildrenAt(Killed, t, 7) == (if 3 <= t <= 23 then [8] else []) && ChildrenAt(Killed, t, 8) == []
    ensures forall t: nat | t <= 23 :: ReadId(Killed, 7, t) == RECORDED
    ensures forall t: nat | 3 <= t <= 24 :: ReadId(Killed, 8, t) == CHILD
    ensures forall t: nat :: Exists(Killed, t, RECORDED) <==> t <= 23
    ensures forall t: nat :: Exists(Killed, t, CHILD) <==> 3 <= t <= 24
    ensures forall t: nat :: AliveRead(Killed, t, RECORDED) <==> t <= 22
    ensures forall t: nat :: Killed(t).clock == if t <= 13 then 0 else 10_000 + 50 * (t - 13)
  {
    var w: World := Killed;
    forall t: nat
      ensures w(t) == Killed(t)
    {
    }
    forall t: nat { KilledTable(t); }
  }

  lemma KilledPolls(t: nat)
    requires t <= 12
    ensures AliveAmong(Killed, t, [RECORDED]) == [RECORDED] && AfterPoll(Killed, t, [RECORDED]) == t + 2
    ensures AfterSends(Killed, t, [RECORDED]) == t + 2 && Reversed([RECORDED]) == [RECORDED]
  {
    KilledReads();
    hide Killed, AliveRead, Exists;
    PollNext(Killed, t, [RECORDED]);
    PollNothing(Killed, t + 2);
    assert [RECORDED][1..] == [];
    SendsNext(Killed, t, [RECORDED], Term);
    SendsNothing(Killed, t + 2, Term);
  }

  /** An enumeration from PID 7 with its child. */
  lemma KilledSweeps(known: seq<Identity>, h: Haul)
    requires HaulOk(Killed, [RECORDED], known, h) && 3 <= h.from <= 16
    ensures h.to == h.from + 2 + |h.catches| && 7 in PidsOf(known + TargetsOf(h.catches)) && 8 in PidsOf(known + TargetsOf(h.catches))
    ensures forall c | c in h.catches ::
              (c.target.pid == 7 || c.target.pid == 8) && h.from + 2 <= c.read < h.to && c.target == ReadId(Killed, c.target.pid, c.read)
  {
    KilledReads();
    hide Killed, Exists, AliveRead, ReadId;
    HaulIsSound(Killed, [RECORDED], known, h);
    var s := h.sweeps[0];
    assert h.sweeps == [s] && s.from == h.from && s.base == RECORDED;
    PairSweep(Killed, s);
    assert h.sweeps[..0] == [];
    assert Swept(h.sweeps) == 2;
    assert 7 in s.pids && 8 in s.pids;
  }

  /** The turn in which the child is captured. */
  lemma KilledTurn(h: Haul)
    requires HaulOk(Killed, [RECORDED], [RECORDED], h) && h.from == 10
    ensures h.to == 13 && TargetsOf(h.catches) == [CHILD]
  {
    hide Killed;
    KilledSweeps([RECORDED], h);
    forall c | c in h.catches
      ensures c.target.pid == 8
    {
      assert RECORDED in [RECORDED] && c.target.pid != 7;
    }
    OneCatch(Killed, 8, [RECORDED], h);
    KilledReads();
    assert h.catches[0] in h.catches;
  }

  /** SIGKILL's enumeration finds both, in some order. */
  lemma KilledForce(h: Haul)
    requires HaulOk(Killed, [RECORDED], [], h) && h.from == 15
    ensures h.to == 19 && TheTwo(TargetsOf(h.catches))
  {
    hide Killed, ReadId, PidsOf, SweepsOk, TheTwo;
    KilledSweeps([], h);
    var targets := TargetsOf(h.catches);
    assert [] + targets == targets;
    forall i | 0 <= i < |targets|
      ensures targets[i].pid == 7 || targets[i].pid == 8
      ensures 17 <= h.catches[i].read < h.to && targets[i] == ReadId(Killed, targets[i].pid, h.catches[i].read)
    {
      assert h.catches[i] in h.catches;
    }
    CatchesDiffer(Killed, [], h);
    TwoDistinct(targets);
    KilledReads();
    forall i | 0 <= i < |targets|
      ensures targets[i] == if targets[i].pid == 7 then RECORDED else CHILD
    {
      assert targets[i] == ReadId(Killed, targets[i].pid, h.catches[i].read);
    }
    InSomeOrder(targets);
  }

  /** Both are signalled, and both are gone when the wait first looks. */
  lemma KilledWait(targets: seq<Identity>)
    requires TheTwo(targets)
    ensures AfterSends(Killed, 19, targets) == 23 && AliveAmong(Killed, 25, targets) == []
  {
    KilledReads();
    assert !AliveRead(Killed, 25, RECORDED) && !AliveRead(Killed, 25, CHILD);
    assert AliveCost(Killed, 25, RECORDED) == 1 && AliveCost(Killed, 25, CHILD) == 1;
    assert !AliveRead(Killed, 26, RECORDED) && !AliveRead(Killed, 26, CHILD);
    hide Killed, AliveRead, Exists;
    var a, b := targets[0], targets[1];
    assert targets == [a, b] && targets[1..] == [b] && [b][1..] == [];
    SendsNext(Killed, 19, targets, Kill);
    SendsNext(Killed, 21, [b], Kill);
    SendsNothing(Killed, 23, Kill);
    PollNext(Killed, 25, targets);
    PollNext(Killed, 26, [b]);
    PollNothing(Killed, 26 + AliveCost(Killed, 26, b));
  }

  lemma KilledRounds(timeout: nat, rounds: seq<Round>)
    requires timeout <= 10_000 && RoundsOk(Killed, LateWake, timeout, 7, [RECORDED], rounds) && rounds != []
    ensures |rounds| == 1 && rounds[0].alive == [RECORDED] && NextAt(LateWake, 7, rounds) == 14 && rounds[0].haul.from == 10
    ensures Grown([RECORDED], rounds) == [RECORDED, CHILD]
  {
    hide HaulOk, AliveAmong, AfterPoll, Killed;
    FirstRound(Killed, LateWake, timeout, 7, [RECORDED], rounds, 0);
    assert rounds[..0] == [];
    var r := rounds[0];
    KilledPolls(8);
    KilledTurn(r.haul);
    var one := [r];
    assert one[..0] == [];
    NoThirdPoll(timeout, rounds);
    KilledReads();
    assert rounds == one;
  }

  lemma NoThirdPoll(timeout: nat, rounds: seq<Round>)
    requires RoundsOk(Killed, LateWake, timeout, 7, [RECORDED], rounds) && rounds != [] && rounds[0].haul.to == 13
    ensures |rounds| > 1 ==> Killed(14).clock < timeout
  {
    hide Killed;
    if |rounds| > 1 {
      FirstRound(Killed, LateWake, timeout, 7, [RECORDED], rounds, 1);
      assert rounds[..1] == [rounds[0]];
    }
  }

  lemma KilledEnds(timeout: nat, outcome: Outcome, tr: Trace)
    requires 50 < timeout <= 10_000 && Initial(tr) == [RECORDED] && Ended(Killed, LateWake, 6, timeout, outcome, tr)
    ensures outcome.Receipt? && outcome.exited && outcome.sigkill && outcome.remaining == [] && CHILD in Captured(tr)
    ensures tr.forced.Some? && |tr.rounds| == 1 && tr.rounds[0].haul.from == 10 && tr.forced.value.to == 19
  {
    hide HaulOk, AliveAmong, AfterPoll, Sends, AfterSends, RoundsOk, Killed;
    KilledReads();
    KilledPolls(8);
    NoRounds(Killed, LateWake, timeout, 7, [RECORDED]);
    if tr.rounds != [] {
      KilledRounds(timeout, tr.rounds);
      KilledForce(tr.forced.value);
      KilledWait(TargetsOf(tr.forced.value.catches));
      FirstLookEnds(Killed, LateWake, tr.forced.value, timeout, tr.checks, outcome.exited, outcome.remaining);
    }
  }

  /** The condition of `ExitedMeansAllDead` is met by a SIGKILL that does what it must: on this machine every call kills
      the parent while its child is still there, reports exited, and it is quiet between the last two enumerations,
      although over the whole call somebody is left without a parent. */
  lemma KilledParentIsQuiet(timeout: nat, outcome: Outcome, tr: Trace)
    requires 50 < timeout <= 10_000 && Ran(Killed, LateWake, 0, [RECORDED], timeout, outcome, tr)
    ensures outcome.Receipt? && outcome.exited && outcome.sigkill && CHILD in Captured(tr)
    ensures QuietForKill(Killed, tr) && OnePidOneProcess(Killed, 0, Lasted(tr)) && !NoReparenting(Killed, 0, 25)
  {
    hide HaulOk, AliveAmong, AfterPoll, Sends, AfterSends, Ended, Killed, QuietForKill, OnePidOneProcess, NoReparenting;
    KilledReads();
    KilledPolls(0);
    KilledPolls(4);
    HaulOfOne(Killed, RECORDED, tr.first);
    assert Initial(tr) == [RECORDED];
    KilledEnds(timeout, outcome, tr);
    KilledIsQuiet(tr);
  }

  lemma KilledIsQuiet(tr: Trace)
    requires tr.forced.Some? && |tr.rounds| == 1 && tr.rounds[0].haul.from == 10 && tr.forced.value.to == 19
    ensures QuietForKill(Killed, tr) && OnePidOneProcess(Killed, 0, 19) && !NoReparenting(Killed, 0, 25)
  {
    hide Killed;
    forall t: nat { KilledTable(t); }
    var w: World := Killed;
    forall t: nat
      ensures w(t) == Killed(t)
    {
    }
    assert 8 in ChildrenAt(Killed, 23, 7) && 8 in w(24).procs && 8 !in ChildrenAt(Killed, 24, 7);
  }

  /** And such a call finds every captured target dead. */
  method CallOnKilled() returns (outcome: Outcome, ghost tr: Trace, ghost end: nat)
    ensures outcome.Receipt? && outcome.exited && outcome.sigkill && CHILD in Captured(tr) && AllDead(Killed, Captured(tr), end)
  {
    var k := new Kernel(Killed, LateWake, 8);
    assert k.Valid() by { KilledIsLawful(); KilledIsValid(k); }
    outcome, tr := TerminateManagedTree(k, [RECORDED], 6000);
    end := k.now;
    KilledParentIsQuiet(6000, outcome, tr);
    KilledRoots(tr, outcome);
    CapturedIsDead(Killed, LateWake, 0, [RECORDED], 6000, outcome, tr, end);
  }

  lemma KilledRoots(tr: Trace, outcome: Outcome)
    requires Ran(Killed, LateWake, 0, [RECORDED], 6000, outcome, tr)
    ensures tr.roots != []
  {
    KilledPolls(0);
    hide AliveAmong;
  }

  lemma KilledIsValid(k: Kernel)
    requires k.world == Killed && k.wake == LateWake && k.pidMax == 8 && Lawful(Killed)
    ensures k.Valid()
  {
    hide Lawful;
    forall t: nat { KilledTable(t); }
    hide Killed;
    forall t: nat
      ensures k.wake(t) > t && k.world(k.wake(t)).clock >= k.world(t).clock + 50
    {
      KilledTable(t);
      KilledTable(LateWake(t));
    }
  }
}
