/** `terminate_managed_tree` on Linux, against an operating system that may do anything it is
    allowed to between any two system calls: fork, exit, reap, ignore signals, reuse PIDs. */
module ManagedTree {
  import opened Commons

  datatype Proc = Proc(start: nat, zombie: bool, children: seq<nat>)

  /** The process table and the monotonic clock (milliseconds) at one instant. */
  datatype Snapshot = Snapshot(procs: map<nat, Proc>, clock: nat)

  /** One instant per system call; how much happens from one to the next is up to the world. */
  type World = nat -> Snapshot

  /** PID plus start time as recorded. A missing or non-positive start time is never verified. */
  datatype Identity = Identity(pid: int, start: Option<int>)

  predicate Verifiable(id: Identity) {
    id.pid > 0 && id.start.Some? && id.start.value > 0
  }

  predicate Exists(w: World, t: nat, id: Identity) {
    Verifiable(id) && id.pid in w(t).procs && w(t).procs[id.pid].start == id.start.value
  }

  predicate Alive(w: World, t: nat, id: Identity) {
    Exists(w, t, id) && !w(t).procs[id.pid].zombie
  }

  ghost predicate SeenBy(w: World, id: Identity, now: nat) {
    exists t: nat | t <= now :: Exists(w, t, id)
  }

  /** The identity names nothing, or a process that already existed. */
  ghost predicate Settled(w: World, id: Identity, now: nat) {
    !Verifiable(id) || SeenBy(w, id, now)
  }

  ghost predicate DeadFrom(w: World, id: Identity, now: nat) {
    forall t: nat | now <= t :: !Alive(w, t, id)
  }

  /** A PID's start times only grow, a process keeps its PID until it is reaped, a zombie stays one, and a child
      that is listed is in the process table. */
  ghost predicate Lawful(w: World) {
    && (forall t: nat, u: nat, pid | t <= u && pid in w(t).procs && pid in w(u).procs ::
          && w(t).procs[pid].start <= w(u).procs[pid].start
          && (w(t).procs[pid].start == w(u).procs[pid].start && w(t).procs[pid].zombie ==> w(u).procs[pid].zombie))
    && (forall t: nat, v: nat, u: nat, pid {:trigger w(t).procs, w(v).procs, pid in w(u).procs} |
          t <= v <= u && pid in w(t).procs && pid in w(u).procs
          && w(t).procs[pid].start == w(u).procs[pid].start :: pid in w(v).procs)
    && (forall t: nat, u: nat | t <= u :: w(t).clock <= w(u).clock)
    && (forall t: nat, pid, c | pid in w(t).procs && c in w(t).procs[pid].children :: c in w(t).procs)
  }

  /** Once seen not alive, an identity that has existed never is again. */
  lemma DeadStaysDead(w: World, id: Identity, seen: nat, t: nat)
    requires Lawful(w) && Settled(w, id, seen) && seen <= t && !Alive(w, t, id)
    ensures DeadFrom(w, id, t)
  {
    if Verifiable(id) {
      var e: nat :| e <= seen && Exists(w, e, id);
      forall u: nat | t <= u
        ensures !Alive(w, u, id)
      {
      }
    }
  }

  /** The identity a PID has at an instant. */
  function ReadId(w: World, pid: int, t: nat): Identity {
    Identity(pid, if pid >= 0 && pid in w(t).procs then Some(w(t).procs[pid].start) else None)
  }

  /** At instant t the machine gives the PID to a new process. */
  predicate Starts(w: World, pid: nat, t: nat) {
    && t > 0 && pid in w(t).procs
    && !(pid in w(t - 1).procs && w(t - 1).procs[pid].start == w(t).procs[pid].start)
  }

  /** It does so after instant t, up to instant u. */
  ghost predicate StartsIn(w: World, pid: nat, t: nat, u: nat) {
    exists v: nat | t < v <= u :: Starts(w, pid, v)
  }

  /** A process still answers to its PID as long as no other is started under it. */
  lemma {:induction false} SameUnlessStarted(w: World, id: Identity, t: nat, u: nat)
    requires Lawful(w) && Exists(w, t, id) && t <= u && id.pid in w(u).procs
    ensures Exists(w, u, id) <==> !StartsIn(w, id.pid, t, u)
    decreases u - t
  {
    if t < u {
      if Exists(w, u, id) {
        forall v: nat | t < v <= u
          ensures !Starts(w, id.pid, v)
        {
          assert id.pid in w(v).procs && id.pid in w(v - 1).procs;
          assert w(v - 1).procs[id.pid].start == w(v).procs[id.pid].start;
        }
      } else if !Starts(w, id.pid, u) {
        assert id.pid in w(u - 1).procs;
        SameUnlessStarted(w, id, t, u - 1);
        var v: nat :| t < v <= u - 1 && Starts(w, id.pid, v);
      }
    }
  }

  /** What a signal hits. Its target was read at `read` for the PID of a process `meant` that existed at `since`,
      and was found again at `checked`; the signal is sent at `at`. It hits the process meant exactly when the PID is
      still held then and the machine starts no process under it before the read or after the check. */
  lemma SignalHitsIff(w: World, meant: Identity, since: nat, target: Identity, read: nat, checked: nat, at: nat)
    requires Lawful(w) && Exists(w, since, meant) && target == ReadId(w, meant.pid, read)
    requires since <= read <= checked <= at && Exists(w, checked, target)
    ensures Exists(w, at, meant) <==>
              meant.pid in w(at).procs && !StartsIn(w, meant.pid, since, read) && !StartsIn(w, meant.pid, checked, at)
  {
    assert Exists(w, read, target);
    if meant.pid in w(at).procs {
      SameUnlessStarted(w, meant, since, read);
      SameUnlessStarted(w, target, checked, at);
      if Exists(w, read, meant) {
        assert meant == target;
      } else {
        assert w(since).procs[meant.pid].start < w(read).procs[meant.pid].start <= w(at).procs[meant.pid].start;
      }
    }
  }

  datatype Signal = Term | Kill

  /** One `os.kill`, with the instants of the check before it and of the call itself. */
  datatype Sent = Sent(signal: Signal, target: Identity, checked: nat, at: nat)

  /** What the two reads of `proc_identity_alive` begun at t tell, and how long they take. */
  predicate AliveRead(w: World, t: nat, id: Identity) {
    Exists(w, t, id) && id.pid in w(t + 1).procs && !w(t + 1).procs[id.pid].zombie
  }

  function AliveCost(w: World, t: nat, id: Identity): nat {
    if !Verifiable(id) then 0 else if Exists(w, t, id) then 2 else 1
  }

  /** An identity read as alive is alive at the second read exactly when no process is started under its PID between
      the two. */
  lemma ReadAliveIff(w: World, id: Identity, t: nat)
    requires AliveRead(w, t, id)
    ensures Alive(w, t + 1, id) <==> !Starts(w, id.pid, t + 1)
  {
    assert w(t + 1 - 1) == w(t);
  }

  /** An identity read as not alive is dead for good, if it ever existed. */
  lemma NotAliveIsDead(w: World, id: Identity, seen: nat, t: nat)
    requires Lawful(w) && Settled(w, id, seen) && seen <= t && !AliveRead(w, t, id)
    ensures DeadFrom(w, id, t + AliveCost(w, t, id))
  {
    if Exists(w, t, id) { DeadStaysDead(w, id, t, t + 1); } else { DeadStaysDead(w, id, seen, t); }
  }

  /** What a Host sees of its machine. `wake(t)` is the instant at which `time.sleep(0.05)`
      begun at t returns; PIDs are bounded, as on Linux. */
  class Kernel {
    const world: World
    const wake: nat -> nat
    const pidMax: nat
    var now: nat
    var sent: seq<Sent>

    constructor (world: World, wake: nat -> nat, pidMax: nat)
      ensures this.world == world && this.wake == wake && this.pidMax == pidMax && now == 0 && sent == []
    {
      this.world, this.wake, this.pidMax := world, wake, pidMax;
      now, sent := 0, [];
    }

    ghost predicate Valid()
    {
      && Lawful(world)
      && (forall t: nat :: wake(t) > t && world(wake(t)).clock >= world(t).clock + 50)
      && (forall t: nat, pid | pid in world(t).procs :: Pids(world(t).procs[pid].children))
    }

    ghost predicate Pids(pids: seq<nat>) {
      forall i | 0 <= i < |pids| :: 0 < pids[i] <= pidMax
    }

    /** `proc_starttime_ticks` */
    method StartTime(pid: int) returns (start: Option<int>)
      requires Valid()
      modifies this`now
      ensures now == old(now) + 1
      ensures start == if pid >= 0 && pid in world(old(now)).procs
                       then Some(world(old(now)).procs[pid].start) else None
    {
      var procs := world(now).procs;
      start := if pid >= 0 && pid in procs then Some(procs[pid].start) else None;
      now := now + 1;
    }

    /** `proc_identity_alive`: the start time and the state are two separate reads. */
    method IdentityAlive(id: Identity) returns (alive: bool)
      requires Valid()
      modifies this`now
      ensures now == old(now) + AliveCost(world, old(now), id)
      ensures alive <==> AliveRead(world, old(now), id)
    {
      if id.pid <= 0 || id.start.None? || id.start.value <= 0 { return false; }
      var actual := StartTime(id.pid);
      if actual != id.start { return false; }
      var procs := world(now).procs;
      alive := id.pid in procs && !procs[id.pid].zombie;
      now := now + 1;
    }

    /** `time.monotonic` */
    method Monotonic() returns (clock: nat)
      requires Valid()
      modifies this`now
      ensures now == old(now) + 1 && clock == world(old(now)).clock
    {
      clock := world(now).clock;
      now := now + 1;
    }

    /** `time.sleep(0.05)` */
    method Sleep()
      requires Valid()
      modifies this`now
      ensures now == wake(old(now)) && old(now) < now
      ensures forall t: nat | t <= old(now) :: world(t).clock + 50 <= world(now).clock
    {
      now := wake(now);
    }

    /** The children file of one process. */
    method Children(pid: nat) returns (children: seq<nat>)
      requires Valid()
      modifies this`now
      ensures now == old(now) + 1
      ensures children == ChildrenAt(world, old(now), pid)
      ensures forall x | x in children :: 0 < x <= pidMax
    {
      var procs := world(now).procs;
      children := if pid in procs then procs[pid].children else [];
      now := now + 1;
    }
  }

  // ---- enumerating descendants -------------------------------------------

  function ChildrenAt(w: World, t: nat, pid: nat): seq<nat> {
    if pid in w(t).procs then w(t).procs[pid].children else []
  }

  /** The children read at the i-th step of an enumeration begun at `from`. */
  function Children(w: World, pids: seq<nat>, from: nat, i: nat): seq<nat>
    requires i < |pids|
  {
    ChildrenAt(w, from + i, pids[i])
  }

  ghost predicate Distinct(pids: seq<nat>) {
    forall i, j | 0 <= i < j < |pids| :: pids[i] != pids[j]
  }

  /** x was listed as a child of one of these processes, whose children were read one instant after another. */
  ghost predicate Listed(w: World, pids: seq<nat>, from: nat, x: nat) {
    exists j | 0 <= j < |pids| :: x in Children(w, pids, from, j)
  }

  /** An enumeration of the tree under pid: it starts there, visits nothing twice, and everything else was listed
      before it was visited. The children of the i-th process are read at instant from + i. */
  ghost predicate Enumeration(w: World, pid: nat, pids: seq<nat>, from: nat) {
    && Distinct(pids) && (pids != [] ==> pids[0] == pid)
    && (forall i | 0 < i < |pids| :: Listed(w, pids[..i], from, pids[i]))
  }

  /** Every child that was read is in `found`. */
  ghost predicate ChildrenIn(w: World, pids: seq<nat>, from: nat, found: seq<nat>) {
    forall i, c | 0 <= i < |pids| && c in Children(w, pids, from, i) :: c in found
  }

  ghost predicate Walking(w: World, pid: nat, pids: seq<nat>, stack: seq<nat>, from: nat) {
    && Enumeration(w, pid, pids, from)
    && (pids == [] ==> stack == [pid])
    && (pids != [] ==> forall x | x in stack :: x == pid || Listed(w, pids, from, x))
    && ChildrenIn(w, pids, from, pids + stack)
  }

  lemma WalkSkips(w: World, pid: nat, pids: seq<nat>, stack: seq<nat>, from: nat)
    requires Walking(w, pid, pids, stack, from) && stack != [] && stack[|stack| - 1] in pids
    ensures Walking(w, pid, pids, stack[..|stack| - 1], from)
  {
    hide Children;
    forall i, c | 0 <= i < |pids| && c in Children(w, pids, from, i)
      ensures c in pids + stack[..|stack| - 1]
    {
      assert c in pids + stack;
    }
  }

  lemma ListedMore(w: World, pids: seq<nat>, from: nat, current: nat, x: nat)
    ensures Listed(w, pids, from, x) ==> Listed(w, pids + [current], from, x)
    ensures x in ChildrenAt(w, from + |pids|, current) ==> Listed(w, pids + [current], from, x)
  {
    hide ChildrenAt;
    var more := pids + [current];
    if Listed(w, pids, from, x) {
      var j :| 0 <= j < |pids| && x in Children(w, pids, from, j);
      assert x in Children(w, more, from, j);
    }
    if x in ChildrenAt(w, from + |pids|, current) {
      assert x in Children(w, more, from, |pids|);
    }
  }

  lemma EnumerationNext(w: World, pid: nat, pids: seq<nat>, current: nat, from: nat)
    requires Enumeration(w, pid, pids, from) && current !in pids
    requires if pids == [] then current == pid else Listed(w, pids, from, current)
    ensures Enumeration(w, pid, pids + [current], from)
  {
    hide Listed;
    var more := pids + [current];
    forall i | 0 < i < |more|
      ensures Listed(w, more[..i], from, more[i])
    {
      assert more[..i] == pids[..i];
    }
  }

  lemma ChildrenNext(w: World, pids: seq<nat>, stack: seq<nat>, from: nat)
    requires stack != [] && ChildrenIn(w, pids, from, pids + stack)
    ensures var current := stack[|stack| - 1];
            ChildrenIn(w, pids + [current], from,
              (pids + [current]) + (stack[..|stack| - 1] + ChildrenAt(w, from + |pids|, current)))
  {
    hide ChildrenAt;
    var current := stack[|stack| - 1];
    var more := pids + [current];
    var found := more + (stack[..|stack| - 1] + ChildrenAt(w, from + |pids|, current));
    forall i, c | 0 <= i < |more| && c in Children(w, more, from, i)
      ensures c in found
    {
      if i < |pids| {
        assert c in Children(w, pids, from, i);
        assert c in pids + stack && stack == stack[..|stack| - 1] + [current];
      }
    }
  }

  lemma WalkVisits(w: World, pid: nat, pids: seq<nat>, stack: seq<nat>, from: nat)
    requires Walking(w, pid, pids, stack, from) && stack != [] && stack[|stack| - 1] !in pids
    ensures var current := stack[|stack| - 1];
            Walking(w, pid, pids + [current], stack[..|stack| - 1] + ChildrenAt(w, from + |pids|, current), from)
  {
    hide Listed, ChildrenAt, ChildrenIn, Enumeration;
    var current := stack[|stack| - 1];
    assert current in stack;
    assert pids != [] ==> pids[0] == pid by { EnumerationStarts(w, pid, pids, from); }
    ChildrenNext(w, pids, stack, from);
    EnumerationNext(w, pid, pids, current, from);
    var stack' := stack[..|stack| - 1] + ChildrenAt(w, from + |pids|, current);
    forall x | x in stack'
      ensures x == pid || Listed(w, pids + [current], from, x)
    {
      ListedMore(w, pids, from, current, x);
      if x !in ChildrenAt(w, from + |pids|, current) { assert x in stack; }
    }
  }

  lemma EnumerationStarts(w: World, pid: nat, pids: seq<nat>, from: nat)
    requires Enumeration(w, pid, pids, from)
    ensures pids != [] ==> pids[0] == pid
  {
  }

  /** `process_descendants`: the tree under pid as far as the children files showed it, complete with respect
      to every read. */
  method ProcessDescendants(k: Kernel, pid: nat) returns (pids: seq<nat>)
    requires k.Valid() && pid > 0
    modifies k`now
    ensures k.now == old(k.now) + |pids|
    ensures forall x | x in pids :: x > 0
    ensures pids != [] && Enumeration(k.world, pid, pids, old(k.now)) && ChildrenIn(k.world, pids, old(k.now), pids)
  {
    hide Walking, Kernel.Valid, ChildrenAt, ChildrenIn, Enumeration, Listed, Visited, Unvisited;
    var seen: set<nat> := {};
    var stack := [pid];
    pids := [];
    EmptyWalk(k.world, pid, k.now, k.pidMax);
    while stack != []
      invariant k.Valid() && k.now == old(k.now) + |pids|
      invariant Walking(k.world, pid, pids, stack, old(k.now))
      invariant Visited(pid, k.pidMax, seen, stack, pids)
      decreases Unvisited(pid, k.pidMax, seen), |stack|
    {
      var current := stack[|stack| - 1];
      VisitedPops(pid, k.pidMax, seen, stack, pids);
      if current in seen {
        WalkSkips(k.world, pid, pids, stack, old(k.now));
        stack := stack[..|stack| - 1];
      } else {
        WalkVisits(k.world, pid, pids, stack, old(k.now));
        seen := seen + {current};
        pids := pids + [current];
        var children := k.Children(current);
        VisitedPushes(pid, k.pidMax, seen, stack[..|stack| - 1], pids, children);
        stack := stack[..|stack| - 1] + children;
      }
    }
    WalkEnds(k.world, pid, pids, old(k.now));
    VisitedIsPositive(pid, k.pidMax, seen, stack, pids);
  }

  function Universe(pid: nat, pidMax: nat): (pids: set<nat>)
    requires pid > 0
    ensures forall i: nat :: i in pids <==> 0 < i <= pidMax || i == pid
  {
    UpTo(pidMax + 1) - {0} + {pid}
  }

  ghost function Unvisited(pid: nat, pidMax: nat, seen: set<nat>): nat
    requires pid > 0
  {
    |Universe(pid, pidMax) - seen|
  }

  /** The `seen` set is the result so far, within the PIDs there can be. */
  ghost predicate Visited(pid: nat, pidMax: nat, seen: set<nat>, stack: seq<nat>, result: seq<nat>)
    requires pid > 0
  {
    && seen <= Universe(pid, pidMax)
    && (forall x | x in stack :: x in Universe(pid, pidMax))
    && (forall x: nat :: x in seen <==> x in result)
  }

  lemma VisitedPops(pid: nat, pidMax: nat, seen: set<nat>, stack: seq<nat>, result: seq<nat>)
    requires pid > 0 && Visited(pid, pidMax, seen, stack, result) && stack != []
    ensures var current := stack[|stack| - 1];
            && (current in seen <==> current in result)
            && Visited(pid, pidMax, seen, stack[..|stack| - 1], result)
            && Visited(pid, pidMax, seen + {current}, stack[..|stack| - 1], result + [current])
            && (current !in seen ==> Unvisited(pid, pidMax, seen + {current}) < Unvisited(pid, pidMax, seen))
  {
    hide Universe;
    var current := stack[|stack| - 1];
    assert current in stack;
    if current !in seen { Shrinks(Universe(pid, pidMax), seen, current); }
  }

  lemma VisitedPushes(pid: nat, pidMax: nat, seen: set<nat>, stack: seq<nat>, result: seq<nat>, children: seq<nat>)
    requires pid > 0 && Visited(pid, pidMax, seen, stack, result)
    requires forall x | x in children :: 0 < x <= pidMax
    ensures Visited(pid, pidMax, seen, stack + children, result)
  {
  }

  lemma VisitedIsPositive(pid: nat, pidMax: nat, seen: set<nat>, stack: seq<nat>, result: seq<nat>)
    requires pid > 0 && Visited(pid, pidMax, seen, stack, result)
    ensures forall x | x in result :: x > 0
  {
  }

  lemma WalkEnds(w: World, pid: nat, pids: seq<nat>, from: nat)
    requires Walking(w, pid, pids, [], from)
    ensures pids != [] && Enumeration(w, pid, pids, from) && ChildrenIn(w, pids, from, pids)
  {
    assert pids + [] == pids;
  }

  lemma EmptyWalk(w: World, pid: nat, now: nat, pidMax: nat)
    requires pid > 0
    ensures Walking(w, pid, [], [pid], now) && Visited(pid, pidMax, {}, [pid], [])
  {
  }

  lemma Shrinks<T>(universe: set<T>, seen: set<T>, x: T)
    requires x in universe && x !in seen
    ensures |universe - (seen + {x})| < |universe - seen|
  {
    assert universe - seen == (universe - (seen + {x})) + {x};
  }

  // ---- capturing identities ----------------------------------------------

  /** One enumeration, of the tree under a base identity. */
  datatype Sweep = Sweep(base: Identity, from: nat, pids: seq<nat>)

  function End(s: Sweep): nat { s.from + |s.pids| }

  ghost predicate SweepOk(w: World, s: Sweep) {
    && s.base.pid > 0 && s.pids != []
    && Enumeration(w, s.base.pid, s.pids, s.from) && ChildrenIn(w, s.pids, s.from, s.pids)
  }

  /** A target, the enumeration its PID comes from, and the instant its start time was read. */
  datatype Catch = Catch(target: Identity, sweep: Sweep, read: nat)

  ghost predicate CatchOk(w: World, c: Catch) {
    && 0 < c.target.pid && c.target.pid in c.sweep.pids && End(c.sweep) <= c.read
    && c.target == ReadId(w, c.target.pid, c.read)
  }

  function TargetsOf(catches: seq<Catch>): (targets: seq<Identity>)
    ensures |targets| == |catches| && forall i | 0 <= i < |catches| :: targets[i] == catches[i].target
  {
    seq(|catches|, i requires 0 <= i < |catches| => catches[i].target)
  }

  function PidsOf(ids: seq<Identity>): set<int> { set x | x in ids :: x.pid }

  /** What one run of the enumerate-and-record loops did. */
  datatype Haul = Haul(from: nat, sweeps: seq<Sweep>, catches: seq<Catch>, to: nat)

  ghost predicate SweepsOk(w: World, bases: seq<Identity>, sweeps: seq<Sweep>, from: nat, to: nat) {
    && |sweeps| == |bases| && (bases != [] ==> sweeps[0].from == from)
    && forall i | 0 <= i < |bases| ::
         SweepOk(w, sweeps[i]) && sweeps[i].base == bases[i] && from <= sweeps[i].from && End(sweeps[i]) <= to
  }

  /** Each catch is sound, and no PID is caught that is known already or caught before. */
  ghost predicate CatchesOk(w: World, known: seq<Identity>, sweeps: seq<Sweep>, catches: seq<Catch>, to: nat) {
    && (forall c | c in catches ::
          CatchOk(w, c) && c.sweep in sweeps && c.read < to && c.target.pid !in PidsOf(known))
    && forall i, j | 0 <= i < j < |catches| :: catches[i].target.pid != catches[j].target.pid
  }

  ghost predicate AllCaught(pids: seq<nat>, known: seq<Identity>, catches: seq<Catch>) {
    forall p | p in pids :: p in PidsOf(known + TargetsOf(catches))
  }

  function Swept(sweeps: seq<Sweep>): nat {
    if sweeps == [] then 0 else Swept(sweeps[..|sweeps| - 1]) + |sweeps[|sweeps| - 1].pids|
  }

  /** Sound and complete: every PID that was enumerated is that of a target, and every new target is the process
      an enumerated PID had when its start time was read. */
  ghost predicate HaulOk(w: World, bases: seq<Identity>, known: seq<Identity>, h: Haul) {
    && SweepsOk(w, bases, h.sweeps, h.from, h.to)
    && CatchesOk(w, known, h.sweeps, h.catches, h.to)
    && (forall s | s in h.sweeps :: AllCaught(s.pids, known, h.catches))
    && h.to == h.from + Swept(h.sweeps) + |h.catches|
  }

  lemma SweepAdded(w: World, bases: seq<Identity>, base: Identity, sweeps: seq<Sweep>, s: Sweep, from: nat, to: nat, later: nat)
    requires SweepsOk(w, bases, sweeps, from, to) && SweepOk(w, s) && s.base == base && to <= later
    requires from <= s.from && End(s) <= later && (bases == [] ==> s.from == from)
    ensures SweepsOk(w, bases + [base], sweeps + [s], from, later)
    ensures Swept(sweeps + [s]) == Swept(sweeps) + |s.pids|
  {
    hide SweepOk;
    assert (sweeps + [s])[..|sweeps|] == sweeps;
  }

  lemma SweepsLater(w: World, bases: seq<Identity>, sweeps: seq<Sweep>, from: nat, to: nat, later: nat)
    requires SweepsOk(w, bases, sweeps, from, to) && to <= later
    ensures SweepsOk(w, bases, sweeps, from, later)
  {
    hide SweepOk;
  }

  lemma CatchesWiden(w: World, known: seq<Identity>, sweeps: seq<Sweep>, s: Sweep, catches: seq<Catch>, to: nat, later: nat)
    requires CatchesOk(w, known, sweeps, catches, to) && to <= later
    ensures CatchesOk(w, known, sweeps + [s], catches, later)
  {
    hide CatchOk;
  }

  lemma CatchAdded(w: World, known: seq<Identity>, sweeps: seq<Sweep>, catches: seq<Catch>, c: Catch, to: nat, later: nat)
    requires CatchesOk(w, known, sweeps, catches, to) && CatchOk(w, c) && c.sweep in sweeps && to <= later
    requires c.read < later && c.target.pid !in PidsOf(known + TargetsOf(catches))
    ensures CatchesOk(w, known, sweeps, catches + [c], later)
    ensures known + TargetsOf(catches + [c]) == known + TargetsOf(catches) + [c.target]
    ensures forall pids | AllCaught(pids, known, catches) :: AllCaught(pids, known, catches + [c])
  {
    hide CatchOk;
    var before, after := known + TargetsOf(catches), known + TargetsOf(catches + [c]);
    assert after == before + [c.target];
    forall x | x in known || x in TargetsOf(catches)
      ensures x in before && x.pid in PidsOf(before)
    {
    }
    forall i | 0 <= i < |catches|
      ensures catches[i].target in TargetsOf(catches)
    {
      assert TargetsOf(catches)[i] == catches[i].target;
    }
    PidsGrow(before, after);
  }

  lemma PidsGrow(some: seq<Identity>, all: seq<Identity>)
    requires some <= all
    ensures PidsOf(some) <= PidsOf(all)
  {
    forall x | x in some
      ensures x in all
    {
      var i :| 0 <= i < |some| && some[i] == x;
      assert all[i] == x;
    }
  }

  ghost predicate Covered(w: World, targets: seq<Identity>, id: Identity, now: nat) {
    id in targets || DeadFrom(w, id, now)
  }

  /** Whatever process had this PID before `since` is a target or dead for good. */
  ghost predicate CoversPid(w: World, targets: seq<Identity>, pid: int, since: nat, now: nat) {
    forall id: Identity | id.pid == pid && Settled(w, id, since) :: Covered(w, targets, id, now)
  }

  predicate Positive(ids: seq<Identity>) {
    forall id | id in ids :: id.pid > 0
  }

  ghost predicate AllSettled(w: World, ids: seq<Identity>, now: nat) {
    forall id | id in ids :: Settled(w, id, now)
  }

  lemma SettledLater(w: World, ids: seq<Identity>, now: nat, later: nat)
    requires AllSettled(w, ids, now) && now <= later
    ensures AllSettled(w, ids, later)
  {
    forall id | id in ids
      ensures Settled(w, id, later)
    {
      assert Settled(w, id, now);
      if Verifiable(id) {
        var t: nat :| t <= now && Exists(w, t, id);
      }
    }
  }

  lemma CoversLater(w: World, targets: seq<Identity>, more: seq<Identity>, pid: int, since: nat, now: nat, later: nat)
    requires CoversPid(w, targets, pid, since, now) && now <= later
    ensures CoversPid(w, targets + more, pid, since, later)
  {
    forall id: Identity | id.pid == pid && Settled(w, id, since)
      ensures Covered(w, targets + more, id, later)
    {
      assert Covered(w, targets, id, now);
    }
  }

  /** Reading the start time of a PID captures the process that has it; any other that had it is dead. */
  lemma CaptureCovers(w: World, pid: nat, since: nat, t: nat)
    requires Lawful(w) && since <= t
    ensures Settled(w, ReadId(w, pid, t), t) && CoversPid(w, [ReadId(w, pid, t)], pid, since, t + 1)
  {
    var target := ReadId(w, pid, t);
    if Verifiable(target) {
      assert Exists(w, t, target);
    }
    forall id: Identity | id.pid == pid && Settled(w, id, since)
      ensures Covered(w, [target], id, t + 1)
    {
      if id != target {
        DeadStaysDead(w, id, since, t);
      }
    }
  }

  /** The enumerate-and-record loops: every process under a base whose PID is new becomes a target. */
  method Capture(k: Kernel, bases: seq<Identity>, known: seq<Identity>, knownPids: set<int>)
    returns (targets: seq<Identity>, seen: set<int>, ghost haul: Haul)
    requires k.Valid() && AllSettled(k.world, known, k.now) && Positive(known) && knownPids == PidsOf(known)
    requires forall b | b in bases :: Verifiable(b)
    modifies k`now
    ensures old(k.now) <= k.now && HaulOk(k.world, bases, known, haul) && haul.from == old(k.now) && haul.to == k.now
    ensures targets == known + TargetsOf(haul.catches) && seen == PidsOf(targets)
    ensures AllSettled(k.world, targets, k.now) && Positive(targets)
    ensures forall b | b in bases :: b.pid in seen
    ensures forall pid | pid in seen && pid !in knownPids :: CoversPid(k.world, targets, pid, old(k.now), k.now)
  {
    hide Lawful, Settled, Enumeration, ChildrenIn, CoversPid, SweepsOk, CatchesOk, AllCaught, SweepOk, CatchOk, Swept, PidsOf, ReadId;
    targets, seen := known, knownPids;
    ghost var sweeps: seq<Sweep>, catches: seq<Catch> := [], [];
    NothingCaught(k.world, known, k.now);
    var i := 0;
    while i < |bases|
      invariant 0 <= i <= |bases| && k.Valid() && k.now == old(k.now) + Swept(sweeps) + |catches|
      invariant i == 0 ==> k.now == old(k.now)
      invariant SweepsOk(k.world, bases[..i], sweeps, old(k.now), k.now)
      invariant CatchesOk(k.world, known, sweeps, catches, k.now)
      invariant forall s | s in sweeps :: AllCaught(s.pids, known, catches)
      invariant targets == known + TargetsOf(catches) && seen == PidsOf(targets)
      invariant AllSettled(k.world, targets, k.now) && Positive(targets)
      invariant forall b | b in bases[..i] :: b.pid in seen
      invariant forall pid | pid in seen && pid !in knownPids :: CoversPid(k.world, targets, pid, old(k.now), k.now)
    {
      assert bases[i] in bases;
      label enumerating:
      var pids := ProcessDescendants(k, bases[i].pid);
      KeepCovers(k.world, targets, [], seen, knownPids, old(k.now), old@enumerating(k.now), k.now);
      assert targets + [] == targets;
      ghost var sweep := Sweep(bases[i], old@enumerating(k.now), pids);
      SweepIs(k.world, sweep);
      SweepAdded(k.world, bases[..i], bases[i], sweeps, sweep, old(k.now), old@enumerating(k.now), k.now);
      CatchesWiden(k.world, known, sweeps, sweep, catches, old@enumerating(k.now), k.now);
      ghost var done := sweeps;
      sweeps := sweeps + [sweep];
      assert bases[..i + 1] == bases[..i] + [bases[i]];
      NothingEnumerated(known, catches);
      assert pids[..0] == [];
      var j := 0;
      while j < |pids|
        invariant 0 <= j <= |pids| && k.Valid() && k.now == old(k.now) + Swept(sweeps) + |catches|
        invariant End(sweep) <= k.now && forall b | b in bases[..i] :: b.pid in seen
        invariant SweepsOk(k.world, bases[..i + 1], sweeps, old(k.now), k.now)
        invariant CatchesOk(k.world, known, sweeps, catches, k.now)
        invariant (forall s | s in done :: AllCaught(s.pids, known, catches)) && AllCaught(pids[..j], known, catches)
        invariant targets == known + TargetsOf(catches) && seen == PidsOf(targets)
        invariant AllSettled(k.world, targets, k.now) && Positive(targets)
        invariant forall pid | pid in seen && pid !in knownPids :: CoversPid(k.world, targets, pid, old(k.now), k.now)
      {
        assert pids[j] in pids;
        assert pids[..j + 1] == pids[..j] + [pids[j]];
        if pids[j] !in seen {
          label capturing:
          CaptureCovers(k.world, pids[j], old(k.now), k.now);
          var start := k.StartTime(pids[j]);
          var target := Identity(pids[j], start);
          ghost var c := Catch(target, sweep, old@capturing(k.now));
          TargetIs(k.world, c);
          KeepCovers(k.world, targets, [target], seen, knownPids, old(k.now), old@capturing(k.now), k.now);
          CoversSuffix(k.world, targets, target, pids[j], old(k.now), k.now);
          CatchAdded(k.world, known, sweeps, catches, c, old@capturing(k.now), k.now);
          SweepsLater(k.world, bases[..i + 1], sweeps, old(k.now), old@capturing(k.now), k.now);
          PidsNext(targets, target);
          catches := catches + [c];
          seen, targets := seen + {pids[j] as int}, targets + [target];
        }
        CaughtNext(pids[..j], pids[j], known, catches);
        j := j + 1;
      }
      assert pids[..j] == pids;
      CaughtBase(pids, known, catches, bases[i].pid);
      i := i + 1;
    }
    assert bases[..i] == bases;
    haul := Haul(old(k.now), sweeps, catches, k.now);
  }

  lemma NothingCaught(w: World, known: seq<Identity>, now: nat)
    ensures SweepsOk(w, [], [], now, now) && CatchesOk(w, known, [], [], now) && Swept([]) == 0
    ensures known + TargetsOf([]) == known
  {
  }

  lemma NothingEnumerated(known: seq<Identity>, catches: seq<Catch>)
    ensures AllCaught([], known, catches)
  {
  }

  lemma SweepIs(w: World, s: Sweep)
    requires s.base.pid > 0 && s.pids != []
    requires Enumeration(w, s.base.pid, s.pids, s.from) && ChildrenIn(w, s.pids, s.from, s.pids)
    ensures SweepOk(w, s) && s.pids[0] == s.base.pid
  {
  }

  lemma TargetIs(w: World, c: Catch)
    requires 0 < c.target.pid && c.target.pid in c.sweep.pids && End(c.sweep) <= c.read
    requires c.target.start == if c.target.pid in w(c.read).procs then Some(w(c.read).procs[c.target.pid].start) else None
    ensures CatchOk(w, c) && c.target == ReadId(w, c.target.pid, c.read)
  {
  }

  lemma PidsNext(targets: seq<Identity>, target: Identity)
    ensures PidsOf(targets + [target]) == PidsOf(targets) + {target.pid}
  {
  }

  lemma CaughtNext(pids: seq<nat>, pid: nat, known: seq<Identity>, catches: seq<Catch>)
    requires AllCaught(pids, known, catches) && pid in PidsOf(known + TargetsOf(catches))
    ensures AllCaught(pids + [pid], known, catches)
  {
  }

  lemma CaughtBase(pids: seq<nat>, known: seq<Identity>, catches: seq<Catch>, pid: int)
    requires AllCaught(pids, known, catches) && pids != [] && pids[0] == pid
    ensures pid in PidsOf(known + TargetsOf(catches))
  {
    assert pids[0] in pids;
  }

  lemma KeepCovers(w: World, targets: seq<Identity>, more: seq<Identity>, seen: set<int>, knownPids: set<int>,
                   since: nat, now: nat, later: nat)
    requires forall pid | pid in seen && pid !in knownPids :: CoversPid(w, targets, pid, since, now)
    requires AllSettled(w, targets, now) && AllSettled(w, more, now) && now <= later
    ensures forall pid | pid in seen && pid !in knownPids :: CoversPid(w, targets + more, pid, since, later)
    ensures AllSettled(w, targets + more, later)
  {
    SettledLater(w, targets + more, now, later);
    forall pid | pid in seen && pid !in knownPids
      ensures CoversPid(w, targets + more, pid, since, later)
    {
      CoversLater(w, targets, more, pid, since, now, later);
    }
  }

  lemma CoversSuffix(w: World, targets: seq<Identity>, target: Identity, pid: int, since: nat, now: nat)
    requires CoversPid(w, [target], pid, since, now)
    ensures CoversPid(w, targets + [target], pid, since, now)
  {
    forall id: Identity | id.pid == pid && Settled(w, id, since)
      ensures Covered(w, targets + [target], id, now)
    {
      assert Covered(w, [target], id, now);
    }
  }

  // ---- watching and signalling -------------------------------------------

  /** `[target for target in targets if proc_identity_alive(target)]`, begun at t, and the instant it ends. */
  function AliveAmong(w: World, t: nat, targets: seq<Identity>): (alive: seq<Identity>)
    ensures forall x | x in alive :: x in targets && Verifiable(x)
    decreases |targets|
  {
    if targets == [] then []
    else (if AliveRead(w, t, targets[0]) then [targets[0]] else []) + AliveAmong(w, t + AliveCost(w, t, targets[0]), targets[1..])
  }

  function AfterPoll(w: World, t: nat, targets: seq<Identity>): (end: nat)
    ensures t <= end
    decreases |targets|
  {
    if targets == [] then t else AfterPoll(w, t + AliveCost(w, t, targets[0]), targets[1..])
  }

  method AliveOf(k: Kernel, targets: seq<Identity>) returns (alive: seq<Identity>)
    requires k.Valid()
    modifies k`now
    ensures alive == AliveAmong(k.world, old(k.now), targets) && k.now == AfterPoll(k.world, old(k.now), targets)
  {
    hide Lawful, AliveAmong, AfterPoll, AliveRead, AliveCost;
    alive := [];
    var i := 0;
    assert targets[0..] == targets;
    while i < |targets|
      invariant 0 <= i <= |targets| && k.Valid()
      invariant alive + AliveAmong(k.world, k.now, targets[i..]) == AliveAmong(k.world, old(k.now), targets)
      invariant AfterPoll(k.world, k.now, targets[i..]) == AfterPoll(k.world, old(k.now), targets)
    {
      PollNext(k.world, k.now, targets[i..]);
      assert targets[i..][1..] == targets[i + 1..];
      var isAlive := k.IdentityAlive(targets[i]);
      if isAlive { alive := alive + [targets[i]]; }
      i := i + 1;
    }
    assert targets[i..] == [];
    PollNothing(k.world, k.now);
  }

  lemma PollNext(w: World, t: nat, targets: seq<Identity>)
    requires targets != []
    ensures var next := t + AliveCost(w, t, targets[0]);
            && AliveAmong(w, t, targets) ==
                 (if AliveRead(w, t, targets[0]) then [targets[0]] else []) + AliveAmong(w, next, targets[1..])
            && AfterPoll(w, t, targets) == AfterPoll(w, next, targets[1..])
  {
    hide AliveRead, AliveCost;
  }

  lemma PollNothing(w: World, t: nat)
    ensures AliveAmong(w, t, []) == [] && AfterPoll(w, t, []) == t
  {
  }

  /** The poll finds dead only what is dead for good, and alive only what existed while it ran. */
  lemma {:induction false} PollIsSound(w: World, t: nat, targets: seq<Identity>, seen: nat)
    requires Lawful(w) && seen <= t
    ensures forall x | x in AliveAmong(w, t, targets) :: Settled(w, x, AfterPoll(w, t, targets))
    ensures forall x | x in targets && Settled(w, x, seen) ::
              x in AliveAmong(w, t, targets) || DeadFrom(w, x, AfterPoll(w, t, targets))
    decreases |targets|
  {
    hide Lawful, DeadFrom, Settled, AliveRead, AliveCost;
    if targets != [] {
      var x, next := targets[0], t + AliveCost(w, t, targets[0]);
      var end := AfterPoll(w, t, targets);
      assert targets == [x] + targets[1..];
      PollIsSound(w, next, targets[1..], seen);
      if AliveRead(w, t, x) { ReadIsSettled(w, x, t, end); }
      if Settled(w, x, seen) && !AliveRead(w, t, x) {
        NotAliveIsDead(w, x, seen, t);
        DeadLater(w, x, next, end);
      }
    }
  }

  lemma ReadIsSettled(w: World, id: Identity, t: nat, now: nat)
    requires AliveRead(w, t, id) && t <= now
    ensures Settled(w, id, now)
  {
    assert Exists(w, t, id);
  }

  lemma DeadLater(w: World, id: Identity, now: nat, later: nat)
    requires DeadFrom(w, id, now) && now <= later
    ensures DeadFrom(w, id, later)
  {
  }

  /** `_identity_matches_live` and `os.kill` for each target in turn, begun at t: the signals sent, and the end. */
  function Sends(w: World, t: nat, order: seq<Identity>, signal: Signal): (sent: seq<Sent>)
    ensures forall s | s in sent ::
              s.signal == signal && s.target in order && t <= s.checked && s.at == s.checked + 1 && Exists(w, s.checked, s.target)
    decreases |order|
  {
    if order == [] then []
    else if !Verifiable(order[0]) then Sends(w, t, order[1..], signal)
    else if Exists(w, t, order[0]) then [Sent(signal, order[0], t, t + 1)] + Sends(w, t + 2, order[1..], signal)
    else Sends(w, t + 1, order[1..], signal)
  }

  function AfterSends(w: World, t: nat, order: seq<Identity>): (end: nat)
    ensures t <= end
    decreases |order|
  {
    if order == [] then t
    else if !Verifiable(order[0]) then AfterSends(w, t, order[1..])
    else if Exists(w, t, order[0]) then AfterSends(w, t + 2, order[1..])
    else AfterSends(w, t + 1, order[1..])
  }

  /** A target that exists all along is signalled; one that is signalled existed when it was checked. */
  lemma {:induction false} SendsToTheLiving(w: World, t: nat, order: seq<Identity>, signal: Signal, x: Identity)
    requires x in order
    requires forall u: nat | t <= u <= AfterSends(w, t, order) :: Exists(w, u, x)
    ensures exists s :: s in Sends(w, t, order, signal) && s.target == x
    decreases |order|
  {
    hide Exists, Verifiable;
    assert Exists(w, t, x);
    assert Verifiable(x) by { ExistsVerifiable(w, t, x); }
    if order[0] == x {
      assert Sent(signal, x, t, t + 1) in Sends(w, t, order, signal);
    } else {
      var next := if !Verifiable(order[0]) then t else if Exists(w, t, order[0]) then t + 2 else t + 1;
      SendsToTheLiving(w, next, order[1..], signal, x);
      var s :| s in Sends(w, next, order[1..], signal) && s.target == x;
      assert s in Sends(w, t, order, signal);
    }
  }

  lemma ExistsVerifiable(w: World, t: nat, x: Identity)
    requires Exists(w, t, x)
    ensures Verifiable(x)
  {
  }

  method SignalAll(k: Kernel, order: seq<Identity>, signal: Signal)
    requires k.Valid() && Positive(order)
    modifies k
    ensures k.sent == old(k.sent) + Sends(k.world, old(k.now), order, signal)
    ensures k.now == AfterSends(k.world, old(k.now), order)
  {
    hide Lawful, Exists, Sends, AfterSends;
    var i := 0;
    assert order[0..] == order;
    while i < |order|
      invariant 0 <= i <= |order| && k.Valid()
      invariant k.sent + Sends(k.world, k.now, order[i..], signal) == old(k.sent) + Sends(k.world, old(k.now), order, signal)
      invariant AfterSends(k.world, k.now, order[i..]) == AfterSends(k.world, old(k.now), order)
    {
      var target := order[i];
      assert target in order && order[i..][1..] == order[i + 1..];
      SendsNext(k.world, k.now, order[i..], signal);
      if target.start.Some? && target.start.value > 0 {
        label checking:
        var start := k.StartTime(target.pid);
        MatchIs(k.world, old@checking(k.now), target, start);
        if start == target.start {
          Regroup(k.sent, Sent(signal, target, k.now - 1, k.now), Sends(k.world, k.now + 1, order[i + 1..], signal));
          k.sent := k.sent + [Sent(signal, target, k.now - 1, k.now)];
          k.now := k.now + 1;
        }
      }
      i := i + 1;
    }
    SendsNothing(k.world, k.now, signal);
    assert order[i..] == [];
  }

  lemma Regroup<T>(front: seq<T>, x: T, rest: seq<T>)
    ensures front + ([x] + rest) == front + [x] + rest
  {
  }

  lemma SendsNext(w: World, t: nat, order: seq<Identity>, signal: Signal)
    requires order != []
    ensures Sends(w, t, order, signal) ==
              if !Verifiable(order[0]) then Sends(w, t, order[1..], signal)
              else if Exists(w, t, order[0]) then [Sent(signal, order[0], t, t + 1)] + Sends(w, t + 2, order[1..], signal)
              else Sends(w, t + 1, order[1..], signal)
    ensures AfterSends(w, t, order) ==
              if !Verifiable(order[0]) then AfterSends(w, t, order[1..])
              else if Exists(w, t, order[0]) then AfterSends(w, t + 2, order[1..])
              else AfterSends(w, t + 1, order[1..])
  {
  }

  lemma SendsNothing(w: World, t: nat, signal: Signal)
    ensures Sends(w, t, [], signal) == [] && AfterSends(w, t, []) == t
  {
  }

  lemma MatchIs(w: World, t: nat, target: Identity, start: Option<int>)
    requires Verifiable(target) && start == ReadId(w, target.pid, t).start
    ensures start == target.start <==> Exists(w, t, target)
  {
  }

  ghost predicate AllDead(w: World, ids: seq<Identity>, now: nat) {
    forall id | id in ids :: DeadFrom(w, id, now)
  }

  /** Every one of the ids is in `among` or dead for good. */
  ghost predicate Accounted(w: World, ids: seq<Identity>, among: seq<Identity>, now: nat) {
    forall id | id in ids :: Covered(w, among, id, now)
  }

  // ---- the grace period --------------------------------------------------

  /** One turn of the grace period: when it began, what its poll found alive, and what it captured from there. */
  datatype Round = Round(at: nat, alive: seq<Identity>, haul: Haul)

  function Grown(initial: seq<Identity>, rounds: seq<Round>): (targets: seq<Identity>)
    ensures initial <= targets
  {
    if rounds == [] then initial
    else Grown(initial, rounds[..|rounds| - 1]) + TargetsOf(rounds[|rounds| - 1].haul.catches)
  }

  function NextAt(wake: nat -> nat, start: nat, rounds: seq<Round>): nat {
    if rounds == [] then start else wake(rounds[|rounds| - 1].haul.to)
  }

  ghost predicate RoundOk(w: World, deadline: nat, at: nat, targets: seq<Identity>, r: Round) {
    && r.at == at && w(at).clock < deadline
    && r.alive == AliveAmong(w, at + 1, targets) && r.alive != []
    && r.haul.from == AfterPoll(w, at + 1, targets) && HaulOk(w, r.alive, targets, r.haul)
  }

  ghost predicate RoundsOk(w: World, wake: nat -> nat, deadline: nat, start: nat, initial: seq<Identity>, rounds: seq<Round>) {
    rounds != [] ==>
      var front, last := rounds[..|rounds| - 1], rounds[|rounds| - 1];
      && RoundsOk(w, wake, deadline, start, initial, front)
      && RoundOk(w, deadline, NextAt(wake, start, front), Grown(initial, front), last)
  }

  lemma RoundAdded(w: World, wake: nat -> nat, deadline: nat, start: nat, initial: seq<Identity>, rounds: seq<Round>, r: Round)
    requires RoundsOk(w, wake, deadline, start, initial, rounds)
    requires RoundOk(w, deadline, NextAt(wake, start, rounds), Grown(initial, rounds), r)
    ensures RoundsOk(w, wake, deadline, start, initial, rounds + [r])
    ensures Grown(initial, rounds + [r]) == Grown(initial, rounds) + TargetsOf(r.haul.catches)
    ensures NextAt(wake, start, rounds + [r]) == wake(r.haul.to)
  {
    hide RoundOk;
    assert (rounds + [r])[..|rounds|] == rounds;
  }

  /** The clock read that guards the first poll is already past the deadline. */
  predicate FirstCheckLate(w: World, t: nat, timeout: nat) {
    w(t + 1).clock >= w(t).clock + timeout
  }

  datatype Polled = Gone | TimedOut | NeverPolled

  /** How the grace period begun at t ends, and when. */
  ghost predicate GraceEnds(w: World, wake: nat -> nat, t: nat, timeout: nat, initial: seq<Identity>, rounds: seq<Round>,
                            outcome: Polled, now: nat) {
    var deadline, end := w(t).clock + timeout, NextAt(wake, t + 1, rounds);
    && RoundsOk(w, wake, deadline, t + 1, initial, rounds)
    && match outcome
       case Gone => && w(end).clock < deadline && AliveAmong(w, end + 1, Grown(initial, rounds)) == []
                    && now == AfterPoll(w, end + 1, Grown(initial, rounds))
       case TimedOut => rounds != [] && w(end).clock >= deadline && now == end + 1
       case NeverPolled => rounds == [] && FirstCheckLate(w, t, timeout) && now == end + 1
  }

  /** The targets the last poll looked at. */
  function Watched(initial: seq<Identity>, rounds: seq<Round>, outcome: Polled): (watched: seq<Identity>)
    ensures watched <= Grown(initial, rounds)
    ensures initial <= watched
  {
    if outcome.TimedOut? && rounds != [] then Grown(initial, rounds[..|rounds| - 1]) else Grown(initial, rounds)
  }

  /** The grace period: watch the targets, and add what they spawn, until all are gone or the deadline passes.
      When the deadline has passed before the first poll, `alive_targets` is unbound and the caller gets a
      NameError instead. */
  method Grace(k: Kernel, initial: seq<Identity>, initialPids: set<int>, timeout: nat)
    returns (outcome: Polled, targets: seq<Identity>, alive: seq<Identity>, ghost rounds: seq<Round>)
    requires k.Valid() && AllSettled(k.world, initial, k.now) && Positive(initial) && initialPids == PidsOf(initial)
    modifies k`now
    ensures old(k.now) < k.now && targets == Grown(initial, rounds)
    ensures rounds != [] ==> rounds[|rounds| - 1].haul.to <= k.now
    ensures GraceEnds(k.world, k.wake, old(k.now), timeout, initial, rounds, outcome, k.now)
    ensures AllSettled(k.world, targets, k.now) && Positive(targets)
    ensures outcome == Gone ==> AllDead(k.world, targets, k.now)
    ensures outcome == TimedOut ==>
              && rounds != [] && alive == rounds[|rounds| - 1].alive
              && Accounted(k.world, Watched(initial, rounds, outcome), alive, k.now)
              && AllSettled(k.world, alive, k.now) && (forall x | x in alive :: Verifiable(x))
  {
    hide Lawful, Settled, AllSettled, AllDead, Accounted, DeadFrom, RoundsOk, RoundOk, HaulOk, AliveAmong, AfterPoll, Grown, PidsOf,
         NextAt, TimeLeft;
    targets, alive, rounds := initial, [], [];
    outcome := NeverPolled;
    var seen := initialPids;
    var started := k.Monotonic();
    NoRounds(k.world, k.wake, started + timeout, k.now, initial);
    SettledLater(k.world, targets, old(k.now), k.now);
    while true
      invariant k.Valid() && old(k.now) < k.now && outcome != Gone && k.now == NextAt(k.wake, old(k.now) + 1, rounds)
      invariant RoundsOk(k.world, k.wake, started + timeout, old(k.now) + 1, initial, rounds)
      invariant targets == Grown(initial, rounds) && seen == PidsOf(targets)
      invariant AllSettled(k.world, targets, k.now) && Positive(targets)
      invariant (outcome == NeverPolled <==> rounds == []) && (rounds != [] ==> rounds[|rounds| - 1].haul.to <= k.now)
      invariant outcome == TimedOut ==>
                  && alive == rounds[|rounds| - 1].alive
                  && Accounted(k.world, Grown(initial, rounds[..|rounds| - 1]), alive, k.now)
                  && AllSettled(k.world, alive, k.now) && (forall x | x in alive :: Verifiable(x))
      decreases TimeLeft(k.world, started + timeout, k.now)
    {
      label top:
      ghost var at := k.now;
      var clock := k.Monotonic();
      SettledLater(k.world, targets, at, k.now);
      if clock >= started + timeout {
        if outcome == TimedOut { AccountedLater(k.world, Grown(initial, rounds[..|rounds| - 1]), alive, at, k.now); }
        break;
      }
      alive := AliveOf(k, targets);
      PollSettles(k.world, at + 1, targets, k.now);
      if alive == [] {
        outcome := Gone;
        return;
      }
      ghost var polled := targets;
      label capturing:
      ghost var haul;
      targets, seen, haul := Capture(k, alive, targets, seen);
      ghost var round := Round(at, alive, haul);
      RoundIs(k.world, started + timeout, at, polled, round);
      RoundAdded(k.world, k.wake, started + timeout, old(k.now) + 1, initial, rounds, round);
      assert (rounds + [round])[..|rounds|] == rounds;
      outcome, rounds := TimedOut, rounds + [round];
      label sleeping:
      k.Sleep();
      SettledLater(k.world, targets, old@sleeping(k.now), k.now);
      AccountedLater(k.world, polled, alive, old@capturing(k.now), k.now);
      TimePasses(k.world, started + timeout, old@top(k.now), k.now);
    }
  }

  lemma NoRounds(w: World, wake: nat -> nat, deadline: nat, start: nat, initial: seq<Identity>)
    ensures RoundsOk(w, wake, deadline, start, initial, []) && Grown(initial, []) == initial && NextAt(wake, start, []) == start
  {
  }

  lemma RoundIs(w: World, deadline: nat, at: nat, targets: seq<Identity>, r: Round)
    requires r.at == at && w(at).clock < deadline && r.alive == AliveAmong(w, at + 1, targets) && r.alive != []
    requires r.haul.from == AfterPoll(w, at + 1, targets) && HaulOk(w, r.alive, targets, r.haul)
    ensures RoundOk(w, deadline, at, targets, r)
  {
  }

  /** What a poll of settled targets tells. */
  lemma PollSettles(w: World, t: nat, targets: seq<Identity>, now: nat)
    requires Lawful(w) && AllSettled(w, targets, t) && Positive(targets) && now == AfterPoll(w, t, targets)
    ensures AllSettled(w, targets, now)
    ensures var alive := AliveAmong(w, t, targets);
            && Accounted(w, targets, alive, now) && AllSettled(w, alive, now) && Positive(alive)
            && (alive == [] ==> AllDead(w, targets, now))
  {
    hide Lawful, AliveAmong, AfterPoll, Settled;
    PollIsSound(w, t, targets, t);
    SettledLater(w, targets, t, now);
    PollAccounts(w, targets, AliveAmong(w, t, targets), t, now);
  }

  function TimeLeft(w: World, deadline: nat, t: nat): nat {
    if w(t).clock < deadline then deadline - w(t).clock else 0
  }

  lemma TimePasses(w: World, deadline: nat, t: nat, u: nat)
    requires w(t).clock < deadline && w(t).clock < w(u).clock
    ensures TimeLeft(w, deadline, u) < TimeLeft(w, deadline, t)
  {
  }

  lemma AccountedLater(w: World, ids: seq<Identity>, among: seq<Identity>, now: nat, later: nat)
    requires Accounted(w, ids, among, now) && AllSettled(w, among, now) && now <= later
    ensures Accounted(w, ids, among, later) && AllSettled(w, among, later)
  {
    SettledLater(w, among, now, later);
    forall id | id in ids
      ensures Covered(w, among, id, later)
    {
      assert Covered(w, among, id, now);
    }
  }

  lemma PollAccounts(w: World, targets: seq<Identity>, alive: seq<Identity>, since: nat, now: nat)
    requires AllSettled(w, targets, since)
    requires forall x | x in alive :: x in targets && Verifiable(x) && Settled(w, x, now)
    requires forall x | x in targets && Settled(w, x, since) :: x in alive || DeadFrom(w, x, now)
    ensures Accounted(w, targets, alive, now) && AllSettled(w, alive, now) && Positive(alive)
    ensures alive == [] ==> AllDead(w, targets, now)
  {
    forall id | id in targets
      ensures Covered(w, alive, id, now)
    {
      assert Settled(w, id, since);
    }
    if alive == [] {
      forall id | id in targets
        ensures DeadFrom(w, id, now)
      {
        assert Covered(w, alive, id, now);
      }
    }
  }

  /** One turn of the wait: the clock read at `check` is in time, the poll after it finds somebody, and the next clock
      read comes after a sleep. */
  ghost predicate StillWaiting(w: World, wake: nat -> nat, deadline: nat, targets: seq<Identity>, check: nat, next: nat) {
    && w(check).clock < deadline && AliveAmong(w, check + 1, targets) != []
    && next == wake(AfterPoll(w, check + 1, targets))
  }

  /** The course of the wait begun at t: `checks` are the instants of its clock reads. It ends with the first poll that
      finds nobody, or with the first clock read past the deadline. */
  ghost predicate WaitRuns(w: World, wake: nat -> nat, t: nat, timeout: nat, targets: seq<Identity>, checks: seq<nat>,
                           gone: bool, now: nat) {
    var deadline := w(t).clock + timeout;
    && checks != [] && checks[0] == t + 1
    && (forall i | 0 <= i < |checks| - 1 :: StillWaiting(w, wake, deadline, targets, checks[i], checks[i + 1]))
    && var last := checks[|checks| - 1];
       if gone then
         w(last).clock < deadline && AliveAmong(w, last + 1, targets) == [] && now == AfterPoll(w, last + 1, targets)
       else w(last).clock >= deadline && now == last + 1
  }

  lemma TurnAdded(w: World, wake: nat -> nat, deadline: nat, targets: seq<Identity>, checks: seq<nat>, next: nat)
    requires checks != [] && StillWaiting(w, wake, deadline, targets, checks[|checks| - 1], next)
    requires forall i | 0 <= i < |checks| - 1 :: StillWaiting(w, wake, deadline, targets, checks[i], checks[i + 1])
    ensures var more := checks + [next];
            forall i | 0 <= i < |more| - 1 :: StillWaiting(w, wake, deadline, targets, more[i], more[i + 1])
  {
    hide StillWaiting;
    var more := checks + [next];
    forall i | 0 <= i < |more| - 1
      ensures StillWaiting(w, wake, deadline, targets, more[i], more[i + 1])
    {
      if i < |checks| - 1 { assert more[i] == checks[i] && more[i + 1] == checks[i + 1]; }
    }
  }

  /** The wait has one course on one machine: what it returns, and when, is determined. */
  lemma WaitIsDetermined(w: World, wake: nat -> nat, t: nat, timeout: nat, targets: seq<Identity>,
                         checks: seq<nat>, gone: bool, now: nat, checks': seq<nat>, gone': bool, now': nat)
    requires WaitRuns(w, wake, t, timeout, targets, checks, gone, now)
    requires WaitRuns(w, wake, t, timeout, targets, checks', gone', now')
    ensures checks == checks' && gone == gone' && now == now'
  {
    hide AliveAmong, AfterPoll;
    SameChecks(w, wake, t, timeout, targets, checks, gone, now, checks', gone', now',
               (if |checks| < |checks'| then |checks| else |checks'|) - 1);
    if |checks| < |checks'| { TurnAt(w, wake, t, timeout, targets, checks', gone', now', |checks| - 1); }
    if |checks'| < |checks| { TurnAt(w, wake, t, timeout, targets, checks, gone, now, |checks'| - 1); }
  }

  lemma TurnAt(w: World, wake: nat -> nat, t: nat, timeout: nat, targets: seq<Identity>, checks: seq<nat>, gone: bool, now: nat,
               i: nat)
    requires WaitRuns(w, wake, t, timeout, targets, checks, gone, now) && i < |checks| - 1
    ensures w(checks[i]).clock < w(t).clock + timeout && AliveAmong(w, checks[i] + 1, targets) != []
  {
    hide AliveAmong, AfterPoll;
    assert StillWaiting(w, wake, w(t).clock + timeout, targets, checks[i], checks[i + 1]);
  }

  lemma {:induction false} SameChecks(w: World, wake: nat -> nat, t: nat, timeout: nat, targets: seq<Identity>,
                                      checks: seq<nat>, gone: bool, now: nat, checks': seq<nat>, gone': bool, now': nat, n: nat)
    requires WaitRuns(w, wake, t, timeout, targets, checks, gone, now)
    requires WaitRuns(w, wake, t, timeout, targets, checks', gone', now')
    requires n < |checks| && n < |checks'|
    ensures forall i | 0 <= i <= n :: checks[i] == checks'[i]
  {
    hide AliveAmong, AfterPoll;
    if n > 0 {
      SameChecks(w, wake, t, timeout, targets, checks, gone, now, checks', gone', now', n - 1);
      var deadline := w(t).clock + timeout;
      assert StillWaiting(w, wake, deadline, targets, checks[n - 1], checks[n - 1 + 1]);
      assert StillWaiting(w, wake, deadline, targets, checks'[n - 1], checks'[n - 1 + 1]);
    }
  }

  /** A wait that looks in time and finds nobody is over. */
  lemma LookEnds(w: World, wake: nat -> nat, t: nat, timeout: nat, targets: seq<Identity>, checks: seq<nat>, gone: bool, now: nat,
                 i: nat)
    requires WaitRuns(w, wake, t, timeout, targets, checks, gone, now)
    requires i < |checks| && AliveAmong(w, checks[i] + 1, targets) == [] && w(checks[i]).clock < w(t).clock + timeout
    ensures gone
  {
    hide AliveAmong, AfterPoll;
    assert i < |checks| - 1 ==> StillWaiting(w, wake, w(t).clock + timeout, targets, checks[i], checks[i + 1]);
  }

  /** The second wait, after SIGKILL. */
  method WaitGone(k: Kernel, targets: seq<Identity>, timeout: nat) returns (gone: bool, ghost checks: seq<nat>)
    requires k.Valid() && AllSettled(k.world, targets, k.now) && Positive(targets)
    modifies k`now
    ensures old(k.now) <= k.now && AllSettled(k.world, targets, k.now)
    ensures gone ==> AllDead(k.world, targets, k.now)
    ensures WaitRuns(k.world, k.wake, old(k.now), timeout, targets, checks, gone, k.now)
  {
    hide Lawful, Settled, AllSettled, AllDead, Accounted, DeadFrom, AliveAmong, AfterPoll;
    var started := k.Monotonic();
    SettledLater(k.world, targets, old(k.now), k.now);
    checks := [k.now];
    while true
      invariant k.Valid() && old(k.now) < k.now && AllSettled(k.world, targets, k.now)
      invariant checks != [] && checks[0] == old(k.now) + 1 && checks[|checks| - 1] == k.now
      invariant forall i | 0 <= i < |checks| - 1 ::
                  StillWaiting(k.world, k.wake, started + timeout, targets, checks[i], checks[i + 1])
      decreases TimeLeft(k.world, started + timeout, k.now)
    {
      label top:
      var clock := k.Monotonic();
      SettledLater(k.world, targets, old@top(k.now), k.now);
      if clock >= started + timeout { return false, checks; }
      label polling:
      var alive := AliveOf(k, targets);
      PollSettles(k.world, old@polling(k.now), targets, k.now);
      if alive == [] { return true, checks; }
      label sleeping:
      k.Sleep();
      SettledLater(k.world, targets, old@sleeping(k.now), k.now);
      TimePasses(k.world, started + timeout, old@top(k.now), k.now);
      TurnAdded(k.world, k.wake, started + timeout, targets, checks, k.now);
      checks := checks + [k.now];
    }
  }

  function Reversed<T>(s: seq<T>): (r: seq<T>)
    ensures |r| == |s| && forall i | 0 <= i < |s| :: r[i] == s[|s| - 1 - i]
  {
    if s == [] then [] else Reversed(s[1..]) + [s[0]]
  }

  /** What the caller gets: the receipt, or the exception of a grace period that never polled. */
  datatype Outcome =
    | Receipt(exited: bool, roots: seq<Identity>, remaining: seq<Identity>, sigterm: bool, sigkill: bool)
    | UnboundTargets

  /** What happened on the way. `forced` is the enumeration for SIGKILL, if it came to that, and `checks` the clock
      reads of the wait after it. */
  datatype Trace = Trace(
    roots: seq<Identity>, first: Haul, term: seq<Sent>, rounds: seq<Round>, forced: Option<Haul>, kill: seq<Sent>,
    checks: seq<nat>)

  function Initial(tr: Trace): seq<Identity> { TargetsOf(tr.first.catches) }

  /** Every target captured before SIGKILL. */
  function Captured(tr: Trace): seq<Identity> { Grown(Initial(tr), tr.rounds) }

  /** Those of them that the last poll looked at. */
  function LastWatched(tr: Trace): seq<Identity> {
    Watched(Initial(tr), tr.rounds, if tr.forced.Some? then TimedOut else Gone)
  }

  /** Those of the ids that name nothing or a process that existed. */
  ghost function SettledOf(w: World, ids: seq<Identity>, now: nat): (r: seq<Identity>)
    ensures forall id :: id in r <==> id in ids && Settled(w, id, now)
  {
    if ids == [] then []
    else (if Settled(w, ids[0], now) then [ids[0]] else []) + SettledOf(w, ids[1..], now)
  }

  ghost function WithPidIn(ids: seq<Identity>, pids: set<int>): (r: seq<Identity>)
    ensures forall id :: id in r <==> id in ids && id.pid in pids
  {
    if ids == [] then [] else (if ids[0].pid in pids then [ids[0]] else []) + WithPidIn(ids[1..], pids)
  }

  lemma AccountedThrough(w: World, ids: seq<Identity>, mid: seq<Identity>, t: nat, among: seq<Identity>, now: nat)
    requires Accounted(w, ids, mid, t) && Accounted(w, mid, among, now) && t <= now
    ensures Accounted(w, ids, among, now)
  {
    forall id | id in ids
      ensures Covered(w, among, id, now)
    {
      assert Covered(w, mid, id, t);
      if id in mid { assert Covered(w, among, id, now); }
    }
  }

  lemma DeadAreAccounted(w: World, ids: seq<Identity>, now: nat)
    requires AllDead(w, ids, now)
    ensures Accounted(w, ids, [], now)
  {
  }

  /** Re-enumerating from the processes that matter keeps them accounted for. */
  lemma RecaptureAccounts(w: World, ids: seq<Identity>, targets: seq<Identity>, pids: set<int>, since: nat, now: nat)
    requires AllSettled(w, ids, since) && forall id | id in ids :: id.pid in pids
    requires forall pid | pid in pids :: CoversPid(w, targets, pid, since, now)
    ensures Accounted(w, ids, targets, now)
  {
    forall id | id in ids
      ensures Covered(w, targets, id, now)
    {
      assert CoversPid(w, targets, id.pid, since, now) && Settled(w, id, since);
    }
  }

  ghost predicate ForcedFrom(w: World, alive: seq<Identity>, from: nat, h: Haul, kill: seq<Sent>) {
    && h.from == from && HaulOk(w, alive, [], h)
    && kill == Sends(w, h.to, TargetsOf(h.catches), Kill)
  }

  /** The wait for what SIGKILL was sent to; what remains is what one more poll finds alive. */
  ghost predicate WaitedFor(w: World, wake: nat -> nat, h: Haul, timeout: nat, checks: seq<nat>, gone: bool, remaining: seq<Identity>) {
    exists end: nat ::
      && WaitRuns(w, wake, AfterSends(w, h.to, TargetsOf(h.catches)), timeout, TargetsOf(h.catches), checks, gone, end)
      && remaining == if gone then [] else AliveAmong(w, end, TargetsOf(h.catches))
  }

  /** When the very first look is in time and finds nobody, the wait ends well. */
  lemma FirstLookEnds(w: World, wake: nat -> nat, h: Haul, timeout: nat, checks: seq<nat>, gone: bool, remaining: seq<Identity>)
    requires WaitedFor(w, wake, h, timeout, checks, gone, remaining)
    requires var begun := AfterSends(w, h.to, TargetsOf(h.catches));
             AliveAmong(w, begun + 2, TargetsOf(h.catches)) == [] && !FirstCheckLate(w, begun, timeout)
    ensures gone && remaining == []
  {
    hide AliveAmong, AfterPoll, AfterSends;
    var begun := AfterSends(w, h.to, TargetsOf(h.catches));
    var end: nat :| WaitRuns(w, wake, begun, timeout, TargetsOf(h.catches), checks, gone, end)
                    && remaining == if gone then [] else AliveAmong(w, end, TargetsOf(h.catches));
    LookEnds(w, wake, begun, timeout, TargetsOf(h.catches), checks, gone, end, 0);
  }

  /** The SIGKILL half: re-enumerate from what is alive, kill, wait, report. */
  method Force(k: Kernel, alive: seq<Identity>, ghost captured: seq<Identity>, timeout: nat)
    returns (gone: bool, remaining: seq<Identity>, ghost haul: Haul, ghost kill: seq<Sent>, ghost checks: seq<nat>)
    requires k.Valid() && AllSettled(k.world, alive, k.now) && AllSettled(k.world, captured, k.now)
    requires forall x | x in alive :: Verifiable(x)
    modifies k
    ensures old(k.now) <= k.now && (gone ==> remaining == [])
    ensures ForcedFrom(k.world, alive, old(k.now), haul, kill) && k.sent == old(k.sent) + kill
    ensures Accounted(k.world, alive, remaining, k.now)
    ensures Accounted(k.world, WithPidIn(captured, PidsOf(TargetsOf(haul.catches))), remaining, k.now)
    ensures Accounted(k.world, TargetsOf(haul.catches), remaining, k.now) && haul.to <= k.now
    ensures WaitedFor(k.world, k.wake, haul, timeout, checks, gone, remaining)
  {
    hide Lawful, Settled, AllSettled, AllDead, Accounted, DeadFrom, CoversPid, Covered, HaulOk, AliveAmong, AfterPoll, Sends, AfterSends, PidsOf;
    NoneSettled(k.world, k.now);
    var targets, pids;
    targets, pids, haul := Capture(k, alive, [], {});
    assert [] + TargetsOf(haul.catches) == TargetsOf(haul.catches);
    RecaptureAccounts(k.world, alive, targets, pids, old(k.now), k.now);
    WithPidSettled(k.world, captured, pids, old(k.now));
    RecaptureAccounts(k.world, WithPidIn(captured, pids), targets, pids, old(k.now), k.now);
    ghost var enumerated := k.now;
    SignalAll(k, targets, Kill);
    kill := Sends(k.world, enumerated, targets, Kill);
    SettledLater(k.world, targets, enumerated, k.now);
    label killed:
    gone, checks := WaitGone(k, targets, timeout);
    ghost var ended := k.now;
    assert WaitRuns(k.world, k.wake, old@killed(k.now), timeout, targets, checks, gone, ended);
    if gone {
      remaining := [];
      DeadAreAccounted(k.world, targets, k.now);
    } else {
      label waited:
      remaining := AliveOf(k, targets);
      PollSettles(k.world, old@waited(k.now), targets, k.now);
    }
    AccountedThrough(k.world, alive, targets, enumerated, remaining, k.now);
    AccountedThrough(k.world, WithPidIn(captured, pids), targets, enumerated, remaining, k.now);
  }

  lemma WithPidSettled(w: World, ids: seq<Identity>, pids: set<int>, now: nat)
    requires AllSettled(w, ids, now)
    ensures AllSettled(w, WithPidIn(ids, pids), now)
    ensures forall id | id in WithPidIn(ids, pids) :: id.pid in pids
  {
  }

  /** The end of the last enumeration. */
  function Lasted(tr: Trace): nat {
    if tr.forced.Some? then tr.forced.value.to
    else if tr.rounds != [] then tr.rounds[|tr.rounds| - 1].haul.to
    else tr.first.to
  }

  /** The course of the whole call, begun at t, and what it returns. */
  ghost predicate Ran(w: World, wake: nat -> nat, t: nat, managed: seq<Identity>, timeout: nat, outcome: Outcome, tr: Trace) {
    && tr.roots == AliveAmong(w, t, managed)
    && if tr.roots == [] then outcome == Receipt(true, [], [], false, false) && tr.term + tr.kill == []
       else
         && tr.first.from == AfterPoll(w, t, managed) && HaulOk(w, tr.roots, [], tr.first)
         && tr.term == Sends(w, tr.first.to, Reversed(Initial(tr)), Term)
         && Ended(w, wake, AfterSends(w, tr.first.to, Reversed(Initial(tr))), timeout, outcome, tr)
  }

  ghost predicate Ended(w: World, wake: nat -> nat, t: nat, timeout: nat, outcome: Outcome, tr: Trace) {
    match outcome
    case UnboundTargets =>
      (exists now :: GraceEnds(w, wake, t, timeout, Initial(tr), tr.rounds, NeverPolled, now)) && tr.forced.None? && tr.kill == []
    case Receipt(exited, roots, remaining, sigterm, sigkill) =>
      && roots == tr.roots && sigterm && (sigkill <==> tr.forced.Some?) && (!sigkill ==> exited) && (exited ==> remaining == [])
      && if !sigkill then
           (exists now :: GraceEnds(w, wake, t, timeout, Initial(tr), tr.rounds, Gone, now)) && tr.kill == []
         else exists now ::
           && GraceEnds(w, wake, t, timeout, Initial(tr), tr.rounds, TimedOut, now) && tr.rounds != []
           && ForcedFrom(w, tr.rounds[|tr.rounds| - 1].alive, now, tr.forced.value, tr.kill)
           && WaitedFor(w, wake, tr.forced.value, timeout, tr.checks, exited, remaining)
  }

  /** The identities the caller may rely on: the recorded ones that were real, the targets of the last poll,
      the targets found again for SIGKILL, and those found only then. */
  ghost function Subjects(w: World, managed: seq<Identity>, since: nat, tr: Trace): seq<Identity> {
    SettledOf(w, managed, since)
    + (if tr.roots == [] then [] else LastWatched(tr))
    + (if tr.forced.None? then [] else WithPidIn(Captured(tr), PidsOf(TargetsOf(tr.forced.value.catches))))
    + (if tr.forced.None? then [] else TargetsOf(tr.forced.value.catches))
  }

  /** The whole call. Whatever the machine does, it takes the course described by Ran, and each of the Subjects is
      dead for good or reported as remaining; so `exited` means that all of them are dead for good. */
  method TerminateManagedTree(k: Kernel, managed: seq<Identity>, timeout: nat)
    returns (outcome: Outcome, ghost tr: Trace)
    requires k.Valid()
    modifies k
    ensures old(k.now) <= k.now && k.sent == old(k.sent) + tr.term + tr.kill
    ensures Ran(k.world, k.wake, old(k.now), managed, timeout, outcome, tr)
    ensures tr.roots != [] ==> Lasted(tr) <= k.now
    ensures outcome.Receipt? ==>
              && (outcome.exited ==> outcome.remaining == [])
              && Accounted(k.world, Subjects(k.world, managed, old(k.now), tr), outcome.remaining, k.now)
  {
    hide Lawful, Settled, AllSettled, AllDead, Accounted, DeadFrom, CoversPid, Covered, Reversed, HaulOk, AliveAmong, AfterPoll,
         Sends, AfterSends, PidsOf, Grown, GraceEnds, ForcedFrom, WithPidIn, SettledOf, FirstCheckLate, WaitedFor;
    ghost var whom := SettledOf(k.world, managed, k.now);
    var roots := AliveOf(k, managed);
    ghost var since := k.now;
    PollIsSound(k.world, old(k.now), managed, old(k.now));
    RootsAccounted(k.world, managed, roots, old(k.now), since);
    if roots == [] {
      var nothing := Haul(0, [], [], 0);
      tr := Trace([], nothing, [], [], None, [], []);
      assert Subjects(k.world, managed, old(k.now), tr) == whom;
      outcome := Receipt(true, [], [], false, false);
      return;
    }
    NoneSettled(k.world, k.now);
    var targets, seen;
    ghost var haul;
    targets, seen, haul := Capture(k, roots, [], {});
    ghost var initial := targets;
    assert [] + TargetsOf(haul.catches) == TargetsOf(haul.catches);
    RecaptureAccounts(k.world, roots, targets, seen, since, k.now);
    AccountedThrough(k.world, whom, roots, since, targets, k.now);
    ghost var enumerated := k.now;
    PositiveReversed(targets);
    SignalAll(k, Reversed(targets), Term);
    ghost var term := Sends(k.world, enumerated, Reversed(initial), Term);
    SettledLater(k.world, targets, enumerated, k.now);
    ghost var begun := k.now;
    var polled: Polled;
    var alive: seq<Identity>;
    ghost var rounds: seq<Round>;
    polled, targets, alive, rounds := Grace(k, targets, seen, timeout);
    ghost var graced := k.now;
    match polled
    case NeverPolled =>
      tr := Trace(roots, haul, term, rounds, None, [], []);
      assert Initial(tr) == initial;
      assert GraceEnds(k.world, k.wake, begun, timeout, Initial(tr), tr.rounds, NeverPolled, graced);
      outcome := UnboundTargets;
    case Gone =>
      tr := Trace(roots, haul, term, rounds, None, [], []);
      assert Initial(tr) == initial;
      assert GraceEnds(k.world, k.wake, begun, timeout, Initial(tr), tr.rounds, Gone, graced);
      DeadAreAccounted(k.world, targets, k.now);
      Within(k.world, whom, initial, enumerated, targets, [], k.now);
      SubjectsAccounted(k.world, managed, old(k.now), tr, [], k.now);
      outcome := Receipt(true, roots, [], true, false);
    case TimedOut =>
      Within(k.world, whom, initial, enumerated, Watched(initial, rounds, TimedOut), alive, k.now);
      var gone, remaining;
      ghost var forced, kill, checks;
      gone, remaining, forced, kill, checks := Force(k, alive, targets, timeout);
      tr := Trace(roots, haul, term, rounds, Some(forced), kill, checks);
      assert Initial(tr) == initial;
      assert GraceEnds(k.world, k.wake, begun, timeout, Initial(tr), tr.rounds, TimedOut, graced);
      AccountedThrough(k.world, whom, alive, graced, remaining, k.now);
      AccountedThrough(k.world, Watched(initial, rounds, TimedOut), alive, graced, remaining, k.now);
      SubjectsAccounted(k.world, managed, old(k.now), tr, remaining, k.now);
      outcome := Receipt(gone, roots, remaining, true, true);
  }

  lemma PositiveReversed(ids: seq<Identity>)
    requires Positive(ids)
    ensures Positive(Reversed(ids))
  {
  }

  /** Accounted for by a list that is contained in one that is accounted for. */
  lemma Within(w: World, ids: seq<Identity>, first: seq<Identity>, t: nat, all: seq<Identity>, among: seq<Identity>, now: nat)
    requires Accounted(w, ids, first, t) && Accounted(w, all, among, now) && t <= now
    requires |first| <= |all| && all[..|first|] == first
    ensures Accounted(w, ids, among, now)
  {
    forall id | id in first
      ensures id in all
    {
      var i :| 0 <= i < |first| && first[i] == id;
      assert all[i] == id;
    }
    AccountedThrough(w, ids, first, t, among, now);
  }

  lemma SubjectsAccounted(w: World, managed: seq<Identity>, since: nat, tr: Trace, among: seq<Identity>, now: nat)
    requires Accounted(w, SettledOf(w, managed, since), among, now)
    requires Accounted(w, LastWatched(tr), among, now)
    requires tr.forced.Some? ==>
               && Accounted(w, WithPidIn(Captured(tr), PidsOf(TargetsOf(tr.forced.value.catches))), among, now)
               && Accounted(w, TargetsOf(tr.forced.value.catches), among, now)
    ensures Accounted(w, Subjects(w, managed, since, tr), among, now)
  {
    hide LastWatched, Captured, SettledOf, WithPidIn, Covered;
  }

  lemma NoneSettled(w: World, now: nat)
    ensures AllSettled(w, [], now) && PidsOf([]) == {}
  {
  }

  lemma RootsAccounted(w: World, managed: seq<Identity>, roots: seq<Identity>, since: nat, now: nat)
    requires forall x | x in roots :: x in managed && Verifiable(x) && Settled(w, x, now)
    requires forall x | x in managed && Settled(w, x, since) :: x in roots || DeadFrom(w, x, now)
    ensures Accounted(w, SettledOf(w, managed, since), roots, now) && AllSettled(w, roots, now) && Positive(roots)
  {
  }

  // ---- the end without a receipt -----------------------------------------

  lemma {:induction false} FirstTurn(w: World, wake: nat -> nat, deadline: nat, start: nat, initial: seq<Identity>, rounds: seq<Round>)
    requires RoundsOk(w, wake, deadline, start, initial, rounds) && rounds != []
    ensures w(start).clock < deadline
    decreases |rounds|
  {
    hide HaulOk, AliveAmong, AfterPoll;
    var front := rounds[..|rounds| - 1];
    if front != [] { FirstTurn(w, wake, deadline, start, initial, front); }
  }

  /** The call ends in the unbound variable exactly when there was something to terminate and, right after the SIGTERMs,
      the clock read that guards the first poll is already past the deadline just computed. */
  lemma UnboundIff(w: World, wake: nat -> nat, t: nat, managed: seq<Identity>, timeout: nat, outcome: Outcome, tr: Trace)
    requires Ran(w, wake, t, managed, timeout, outcome, tr)
    ensures outcome.UnboundTargets? <==>
              tr.roots != [] && FirstCheckLate(w, AfterSends(w, tr.first.to, Reversed(Initial(tr))), timeout)
  {
    hide HaulOk, AliveAmong, AfterPoll, Sends, AfterSends, RoundsOk, ForcedFrom;
    if tr.roots != [] {
      var start := AfterSends(w, tr.first.to, Reversed(Initial(tr)));
      if outcome.Receipt? && tr.rounds != [] {
        ReceiptGrace(w, wake, start, timeout, outcome, tr);
        FirstTurn(w, wake, w(start).clock + timeout, start + 1, Initial(tr), tr.rounds);
      }
    }
  }

  // ---- the wait after SIGKILL ----------------------------------------------

  /** A call that does not report exited has waited: it looked again after every sleep until a clock read was past the
      deadline, found somebody alive each time, and reports whom one last poll finds alive then. */
  lemma NotExitedMeansWaited(w: World, wake: nat -> nat, t: nat, managed: seq<Identity>, timeout: nat, outcome: Outcome, tr: Trace)
    requires Ran(w, wake, t, managed, timeout, outcome, tr) && outcome.Receipt? && !outcome.exited
    ensures tr.forced.Some? && tr.checks != []
    ensures var begun, targets, last :=
              AfterSends(w, tr.forced.value.to, TargetsOf(tr.forced.value.catches)), TargetsOf(tr.forced.value.catches),
              tr.checks[|tr.checks| - 1];
            && tr.checks[0] == begun + 1 && w(last).clock >= w(begun).clock + timeout
            && (forall i | 0 <= i < |tr.checks| - 1 ::
                  StillWaiting(w, wake, w(begun).clock + timeout, targets, tr.checks[i], tr.checks[i + 1]))
            && outcome.remaining == AliveAmong(w, last + 1, targets)
  {
    hide HaulOk, AliveAmong, AfterPoll, Sends, AfterSends, GraceEnds, ForcedFrom, StillWaiting;
  }

  /** So it reports exited as soon as any look in time, whenever it comes, finds nobody alive. */
  lemma ExitedOnceGone(w: World, wake: nat -> nat, t: nat, managed: seq<Identity>, timeout: nat, outcome: Outcome, tr: Trace, i: nat)
    requires Ran(w, wake, t, managed, timeout, outcome, tr) && outcome.Receipt? && outcome.sigkill
    requires i < |tr.checks| && AliveAmong(w, tr.checks[i] + 1, TargetsOf(tr.forced.value.catches)) == []
    requires w(tr.checks[i]).clock
             < w(AfterSends(w, tr.forced.value.to, TargetsOf(tr.forced.value.catches))).clock + timeout
    ensures outcome.exited
  {
    hide HaulOk, AliveAmong, AfterPoll, Sends, AfterSends, GraceEnds, ForcedFrom, WaitRuns;
    var targets := TargetsOf(tr.forced.value.catches);
    var begun := AfterSends(w, tr.forced.value.to, targets);
    var end: nat :| WaitRuns(w, wake, begun, timeout, targets, tr.checks, outcome.exited, end);
    LookEnds(w, wake, begun, timeout, targets, tr.checks, outcome.exited, end, i);
  }

  // ---- what the signals hit ----------------------------------------------

  /** The captures of the call. */
  ghost predicate Caught(tr: Trace, c: Catch) {
    || c in tr.first.catches
    || (exists r | r in tr.rounds :: c in r.haul.catches)
    || (tr.forced.Some? && c in tr.forced.value.catches)
  }

  /** The process a capture was meant for, at an instant it existed: the base of the enumeration, or a child
      listed in it. */
  ghost predicate MeantBy(w: World, c: Catch, meant: Identity, since: nat) {
    && meant.pid == c.target.pid && Exists(w, since, meant) && since <= c.read
    && (|| (meant == c.sweep.base && since <= c.sweep.from)
        || (exists j | 0 <= j < |c.sweep.pids| :: since == c.sweep.from + j && meant.pid in Children(w, c.sweep.pids, c.sweep.from, j)))
  }

  /** The signal goes to the identity captured by c, which was found again right before. */
  predicate Aims(w: World, s: Sent, c: Catch) {
    s.target == c.target && c.read < s.checked && s.at == s.checked + 1 && Exists(w, s.checked, s.target)
  }

  lemma SendsAim(w: World, t: nat, order: seq<Identity>, signal: Signal, h: Haul, s: Sent)
    requires (forall x | x in order :: x in TargetsOf(h.catches)) && (forall c | c in h.catches :: c.read < h.to) && h.to <= t
    requires s in Sends(w, t, order, signal)
    ensures exists c :: c in h.catches && Aims(w, s, c)
  {
    hide Sends;
    var i :| 0 <= i < |h.catches| && TargetsOf(h.catches)[i] == s.target;
    assert h.catches[i] in h.catches && Aims(w, s, h.catches[i]);
  }

  lemma HaulIsSound(w: World, bases: seq<Identity>, known: seq<Identity>, h: Haul)
    requires HaulOk(w, bases, known, h)
    ensures forall c | c in h.catches :: CatchOk(w, c) && c.sweep in h.sweeps && c.read < h.to
    ensures forall s | s in h.sweeps :: SweepOk(w, s) && s.base in bases && h.from <= s.from && End(s) <= h.to
    ensures h.from <= h.to
  {
    hide CatchOk, SweepOk;
    forall s | s in h.sweeps
      ensures SweepOk(w, s) && s.base in bases && h.from <= s.from && End(s) <= h.to
    {
      var i :| 0 <= i < |h.sweeps| && h.sweeps[i] == s;
    }
  }

  /** Every signal of the call goes to a captured identity; SIGKILL to those of its own enumeration. */
  lemma SignalsAreAimed(w: World, wake: nat -> nat, t: nat, managed: seq<Identity>, timeout: nat, outcome: Outcome, tr: Trace, s: Sent)
    requires Ran(w, wake, t, managed, timeout, outcome, tr) && s in tr.term + tr.kill
    ensures exists c :: Caught(tr, c) && CatchOk(w, c) && SweepOk(w, c.sweep) && Aims(w, s, c)
  {
    hide HaulOk, CatchOk, SweepOk, GraceEnds, Sends, Aims;
    assert tr.roots != [];
    HaulIsSound(w, tr.roots, [], tr.first);
    if s in tr.term {
      ReversedMembers(Initial(tr));
      SendsAim(w, tr.first.to, Reversed(Initial(tr)), Term, tr.first, s);
      var c :| c in tr.first.catches && Aims(w, s, c);
      assert Caught(tr, c);
    } else {
      var alive, h := tr.rounds[|tr.rounds| - 1].alive, tr.forced.value;
      HaulIsSound(w, alive, [], h);
      SendsAim(w, h.to, TargetsOf(h.catches), Kill, h, s);
      var c :| c in h.catches && Aims(w, s, c);
      assert Caught(tr, c);
    }
  }

  lemma ReversedMembers<T>(s: seq<T>)
    ensures forall x :: x in Reversed(s) <==> x in s
  {
    var r := Reversed(s);
    forall x | x in s
      ensures x in r
    {
      var i :| 0 <= i < |s| && s[i] == x;
      assert r[|s| - 1 - i] == x;
    }
  }

  /** What a signal hits, for any process its capture was meant for: that process exactly when its PID is still held at
      the call and the machine started no process under it between its listing and the read of the start time, nor
      between the last check and the call. */
  lemma SignalHitsMeantIff(w: World, s: Sent, c: Catch, meant: Identity, since: nat)
    requires Lawful(w) && CatchOk(w, c) && Aims(w, s, c) && MeantBy(w, c, meant, since)
    ensures Exists(w, s.at, meant) <==>
              && meant.pid in w(s.at).procs
              && !StartsIn(w, meant.pid, since, c.read) && !StartsIn(w, meant.pid, s.checked, s.at)
  {
    hide Lawful, Exists, Children;
    SignalHitsIff(w, meant, since, c.target, c.read, s.checked, s.at);
  }

  /** Every captured PID is the base's or was listed, so there is a process it was meant for. */
  lemma CaughtWasListed(w: World, c: Catch)
    requires CatchOk(w, c) && SweepOk(w, c.sweep)
    ensures c.target.pid == c.sweep.base.pid
            || exists j | 0 <= j < |c.sweep.pids| :: c.target.pid in Children(w, c.sweep.pids, c.sweep.from, j)
  {
    hide Children;
    var i :| 0 <= i < |c.sweep.pids| && c.sweep.pids[i] == c.target.pid;
    if i > 0 {
      assert Listed(w, c.sweep.pids[..i], c.sweep.from, c.sweep.pids[i]);
      var j :| 0 <= j < i && c.sweep.pids[i] in Children(w, c.sweep.pids[..i], c.sweep.from, j);
      ListedEarlier(w, c.sweep.pids, i, c.sweep.from, j);
    }
  }

  lemma ListedEarlier(w: World, pids: seq<nat>, i: nat, from: nat, j: nat)
    requires j < i <= |pids|
    ensures Children(w, pids[..i], from, j) == Children(w, pids, from, j)
  {
  }

  // ---- when exited means everything is dead ------------------------------

  /** No PID is given out twice between these instants. */
  ghost predicate OnePidOneProcess(w: World, from: nat, to: nat) {
    forall t: nat, u: nat, pid | from <= t <= u <= to && pid in w(t).procs && pid in w(u).procs ::
      w(t).procs[pid].start == w(u).procs[pid].start
  }

  /** No process outlives the one that listed it as a child, or is taken off its list while it lives. */
  ghost predicate NoReparenting(w: World, from: nat, to: nat) {
    forall t: nat, u: nat, p, c | from <= t <= u <= to && c in ChildrenAt(w, t, p) && c in w(u).procs ::
      c in ChildrenAt(w, u, p)
  }

  lemma PresentBetween(w: World, pid: nat, t: nat, v: nat, u: nat, from: nat, to: nat)
    requires Lawful(w) && OnePidOneProcess(w, from, to) && from <= t <= v <= u <= to
    requires pid in w(t).procs && pid in w(u).procs
    ensures pid in w(v).procs
  {
  }

  lemma ListedIsPresent(w: World, t: nat, p: nat, c: nat)
    requires Lawful(w) && c in ChildrenAt(w, t, p)
    ensures c in w(t).procs && p in w(t).procs
  {
  }

  lemma StaysListed(w: World, t: nat, u: nat, p: nat, c: nat, from: nat, to: nat)
    requires NoReparenting(w, from, to) && from <= t <= u <= to && c in ChildrenAt(w, t, p) && c in w(u).procs
    ensures c in ChildrenAt(w, u, p)
  {
  }

  lemma SweepStarts(w: World, s: Sweep)
    requires SweepOk(w, s)
    ensures s.pids[0] == s.base.pid && s.pids[0] in s.pids
  {
  }

  lemma SweepHas(w: World, s: Sweep, m: nat, c: nat)
    requires SweepOk(w, s) && m < |s.pids| && c in ChildrenAt(w, s.from + m, s.pids[m])
    ensures c in s.pids
  {
    assert c in Children(w, s.pids, s.from, m);
  }

  /** Who listed the i-th process of an enumeration. */
  lemma ListedBy(w: World, s: Sweep, i: nat) returns (j: nat)
    requires SweepOk(w, s) && 0 < i < |s.pids|
    ensures j < i && s.pids[i] in ChildrenAt(w, s.from + j, s.pids[j])
  {
    hide ChildrenAt, Distinct;
    assert Listed(w, s.pids[..i], s.from, s.pids[i]);
    j :| 0 <= j < i && s.pids[i] in Children(w, s.pids[..i], s.from, j);
  }

  /** Without reparenting, what one enumeration reached and still exists is reached by the next from the same base. */
  lemma {:induction false} StillReached(w: World, old_: Sweep, new_: Sweep, i: nat, from: nat, to: nat)
    requires Lawful(w) && SweepOk(w, old_) && SweepOk(w, new_) && old_.base.pid == new_.base.pid
    requires from <= old_.from && End(old_) <= new_.from && End(new_) <= to
    requires OnePidOneProcess(w, from, to) && NoReparenting(w, from, to)
    requires i < |old_.pids| && old_.pids[i] in w(End(new_)).procs
    ensures old_.pids[i] in new_.pids
    decreases i
  {
    hide Lawful, OnePidOneProcess, NoReparenting, ChildrenAt, SweepOk;
    if i == 0 {
      SweepStarts(w, old_);
      SweepStarts(w, new_);
    } else {
      var c := old_.pids[i];
      var j := ListedBy(w, old_, i);
      var p, u, end := old_.pids[j], old_.from + j, End(new_);
      ListedIsPresent(w, u, p, c);
      StaysListed(w, u, end, p, c, from, to);
      ListedIsPresent(w, end, p, c);
      StillReached(w, old_, new_, j, from, to);
      var m :| 0 <= m < |new_.pids| && new_.pids[m] == p;
      PresentBetween(w, c, u, new_.from + m, end, from, to);
      StaysListed(w, u, new_.from + m, p, c, from, to);
      SweepHas(w, new_, m, c);
    }
  }

  /** A target that was read at some instant, for a PID that was held at some instant before. */
  ghost predicate WellCaught(w: World, x: Identity, from: nat, to: nat) {
    exists u: nat, r: nat :: from <= u <= r <= to && x.pid in w(u).procs && x == ReadId(w, x.pid, r)
  }

  ghost predicate Existed(w: World, x: Identity, from: nat, to: nat) {
    exists v: nat | from <= v <= to :: Exists(w, v, x)
  }

  lemma {:induction false} PolledExisted(w: World, t: nat, targets: seq<Identity>)
    ensures forall x | x in AliveAmong(w, t, targets) :: Existed(w, x, t, AfterPoll(w, t, targets))
    decreases |targets|
  {
    hide Exists, Existed, AliveRead, AliveCost;
    if targets != [] {
      var next := t + AliveCost(w, t, targets[0]);
      PolledExisted(w, next, targets[1..]);
      PollNext(w, t, targets);
      forall x | x in AliveAmong(w, t, targets)
        ensures Existed(w, x, t, AfterPoll(w, t, targets))
      {
        if x in AliveAmong(w, next, targets[1..]) {
          ExistedFrom(w, x, t, next, AfterPoll(w, next, targets[1..]));
        } else {
          ReadExisted(w, x, t, AfterPoll(w, t, targets));
        }
      }
    }
  }

  lemma ExistedFrom(w: World, x: Identity, from: nat, later: nat, to: nat)
    requires Existed(w, x, later, to) && from <= later
    ensures Existed(w, x, from, to)
  {
    var v: nat :| later <= v <= to && Exists(w, v, x);
  }

  lemma ReadExisted(w: World, x: Identity, t: nat, to: nat)
    requires AliveRead(w, t, x) && t <= to
    ensures Existed(w, x, t, to)
  {
    assert Exists(w, t, x);
  }

  /** A run of the enumerate-and-record loops within the call, from bases that existed. */
  ghost predicate Grounded(w: World, bases: seq<Identity>, known: seq<Identity>, h: Haul, from: nat, to: nat) {
    && HaulOk(w, bases, known, h) && from <= h.from && h.to <= to
    && forall b | b in bases :: Existed(w, b, from, h.from)
  }

  lemma CatchesAreWell(w: World, bases: seq<Identity>, known: seq<Identity>, h: Haul, from: nat, to: nat)
    requires Lawful(w) && Grounded(w, bases, known, h, from, to)
    ensures forall x | x in TargetsOf(h.catches) :: WellCaught(w, x, from, to)
  {
    hide HaulOk, Lawful;
    HaulIsSound(w, bases, known, h);
    forall x | x in TargetsOf(h.catches)
      ensures WellCaught(w, x, from, to)
    {
      var i :| 0 <= i < |h.catches| && TargetsOf(h.catches)[i] == x;
      assert h.catches[i] in h.catches;
      CatchIsWell(w, h, h.catches[i], from, to);
    }
  }

  lemma CatchIsWell(w: World, h: Haul, c: Catch, from: nat, to: nat)
    requires Lawful(w) && CatchOk(w, c) && SweepOk(w, c.sweep) && Existed(w, c.sweep.base, from, h.from)
    requires from <= h.from <= c.sweep.from && End(c.sweep) <= h.to && c.read < h.to <= to
    ensures WellCaught(w, c.target, from, to)
  {
    hide Lawful, SweepOk;
    CaughtWasListed(w, c);
    if c.target.pid == c.sweep.base.pid {
      var v: nat :| from <= v <= h.from && Exists(w, v, c.sweep.base);
      assert c.target.pid in w(v).procs;
    } else {
      var j :| 0 <= j < |c.sweep.pids| && c.target.pid in Children(w, c.sweep.pids, c.sweep.from, j);
      ListedIsPresent(w, c.sweep.from + j, c.sweep.pids[j], c.target.pid);
    }
  }

  /** If every target is dead, so is every process that was listed. */
  lemma ListedIsDead(w: World, bases: seq<Identity>, known: seq<Identity>, h: Haul, from: nat, to: nat, now: nat,
                     s: Sweep, j: nat, c: nat)
    requires Lawful(w) && Grounded(w, bases, known, h, from, to) && OnePidOneProcess(w, from, to) && to <= now
    requires forall x | x in known + TargetsOf(h.catches) :: WellCaught(w, x, from, to) && DeadFrom(w, x, now)
    requires s in h.sweeps && j < |s.pids| && c in Children(w, s.pids, s.from, j)
    ensures DeadFrom(w, ReadId(w, c, s.from + j), now)
  {
    hide Lawful, OnePidOneProcess, DeadFrom, Grounded, HaulOk, WellCaught, Children;
    ListedIsCaught(w, bases, known, h, from, to, s, j, c);
    var x :| x in known + TargetsOf(h.catches) && x.pid == c;
    SamePidDead(w, x, c, s.from + j, from, to, now);
  }

  lemma ListedIsCaught(w: World, bases: seq<Identity>, known: seq<Identity>, h: Haul, from: nat, to: nat, s: Sweep, j: nat, c: nat)
    requires Lawful(w) && Grounded(w, bases, known, h, from, to)
    requires s in h.sweeps && j < |s.pids| && c in Children(w, s.pids, s.from, j)
    ensures exists x :: x in known + TargetsOf(h.catches) && x.pid == c
    ensures from <= s.from + j <= to && c in w(s.from + j).procs
  {
    hide Lawful, SweepsOk, CatchesOk, Existed, SweepOk, Children, AllCaught;
    HaulIsSound(w, bases, known, h);
    SweepLists(w, s, j, c);
    CaughtTarget(s.pids, known, h.catches, c);
  }

  lemma SweepLists(w: World, s: Sweep, j: nat, c: nat)
    requires Lawful(w) && SweepOk(w, s) && j < |s.pids| && c in Children(w, s.pids, s.from, j)
    ensures c in s.pids && c in w(s.from + j).procs
  {
    hide Lawful;
    ListedIsPresent(w, s.from + j, s.pids[j], c);
  }

  lemma CaughtTarget(pids: seq<nat>, known: seq<Identity>, catches: seq<Catch>, c: nat)
    requires AllCaught(pids, known, catches) && c in pids
    ensures exists x :: x in known + TargetsOf(catches) && x.pid == c
  {
  }

  lemma SamePidDead(w: World, x: Identity, c: nat, u: nat, from: nat, to: nat, now: nat)
    requires Lawful(w) && OnePidOneProcess(w, from, to) && WellCaught(w, x, from, to) && DeadFrom(w, x, now)
    requires from <= u <= to <= now && x.pid == c && c in w(u).procs
    ensures DeadFrom(w, ReadId(w, c, u), now)
  {
    hide Lawful;
    var id := ReadId(w, c, u);
    var v: nat, r: nat :| from <= v <= r <= to && c in w(v).procs && x == ReadId(w, c, r);
    if c in w(r).procs {
      assert x == id;
    } else if u <= r {
      if Verifiable(id) {
        assert Exists(w, u, id);
        DeadStaysDead(w, id, u, r);
        DeadLater(w, id, r, now);
      }
    } else {
      PresentBetween(w, c, v, r, u, from, to);
      assert false;
    }
  }

  // ---- the whole call ----------------------------------------------------

  lemma {:induction false} RoundsAreTimely(w: World, wake: nat -> nat, deadline: nat, start: nat, initial: seq<Identity>, rounds: seq<Round>)
    requires (forall u: nat :: wake(u) > u) && RoundsOk(w, wake, deadline, start, initial, rounds)
    ensures start <= NextAt(wake, start, rounds)
    ensures forall r | r in rounds :: start <= r.at <= r.haul.from <= r.haul.to < NextAt(wake, start, rounds)
    ensures forall r | r in rounds :: r.haul.to <= rounds[|rounds| - 1].haul.to
    decreases |rounds|
  {
    hide RoundOk, Grown;
    if rounds != [] {
      var front, last := rounds[..|rounds| - 1], rounds[|rounds| - 1];
      RoundsAreTimely(w, wake, deadline, start, initial, front);
      RoundIsTimely(w, deadline, NextAt(wake, start, front), Grown(initial, front), last);
      assert rounds == front + [last] && wake(last.haul.to) > last.haul.to;
      forall r | r in rounds
        ensures start <= r.at <= r.haul.from <= r.haul.to <= last.haul.to
      {
        if r in front { assert r.haul.to < NextAt(wake, start, front); }
      }
    }
  }

  lemma RoundIsTimely(w: World, deadline: nat, at: nat, targets: seq<Identity>, r: Round)
    requires RoundOk(w, deadline, at, targets, r)
    ensures at == r.at <= r.haul.from <= r.haul.to
  {
    hide HaulOk, AliveAmong;
    HaulIsSound(w, r.alive, targets, r.haul);
  }

  /** Every turn of the grace period is grounded, and everything captured up to it is well caught. */
  lemma {:induction false} RoundsAreGrounded(w: World, wake: nat -> nat, deadline: nat, start: nat, initial: seq<Identity>,
                                             rounds: seq<Round>, from: nat, to: nat)
    requires Lawful(w) && (forall u: nat :: wake(u) > u) && RoundsOk(w, wake, deadline, start, initial, rounds)
    requires from <= start && forall x | x in initial :: WellCaught(w, x, from, to)
    requires rounds != [] ==> rounds[|rounds| - 1].haul.to <= to
    ensures forall i | 0 <= i < |rounds| :: Grounded(w, rounds[i].alive, Grown(initial, rounds[..i]), rounds[i].haul, from, to)
    ensures forall x | x in Grown(initial, rounds) :: WellCaught(w, x, from, to)
    decreases |rounds|
  {
    hide Lawful, Grounded, WellCaught, RoundOk, Grown;
    if rounds == [] {
      GrownNothing(initial);
    } else {
      var front, last := rounds[..|rounds| - 1], rounds[|rounds| - 1];
      RoundsAreTimely(w, wake, deadline, start, initial, rounds);
      RoundsAreTimely(w, wake, deadline, start, initial, front);
      FrontIsEarlier(rounds);
      RoundsAreGrounded(w, wake, deadline, start, initial, front, from, to);
      RoundIsGrounded(w, deadline, NextAt(wake, start, front), Grown(initial, front), last, from, to);
      GrownLast(initial, rounds);
      forall i | 0 <= i < |rounds|
        ensures Grounded(w, rounds[i].alive, Grown(initial, rounds[..i]), rounds[i].haul, from, to)
      {
        if i < |front| {
          assert front[i] == rounds[i] && front[..i] == rounds[..i];
        } else {
          assert rounds[..i] == front;
        }
      }
    }
  }

  lemma GrownNothing(initial: seq<Identity>)
    ensures Grown(initial, []) == initial
  {
  }

  lemma GrownLast(initial: seq<Identity>, rounds: seq<Round>)
    requires rounds != []
    ensures Grown(initial, rounds) == Grown(initial, rounds[..|rounds| - 1]) + TargetsOf(rounds[|rounds| - 1].haul.catches)
  {
  }

  lemma FrontIsEarlier(rounds: seq<Round>)
    requires rounds != []
    ensures var front := rounds[..|rounds| - 1];
            front != [] ==> front[|front| - 1] in rounds
  {
    var front := rounds[..|rounds| - 1];
    if front != [] { assert rounds[|front| - 1] == front[|front| - 1]; }
  }

  lemma RoundIsGrounded(w: World, deadline: nat, at: nat, targets: seq<Identity>, r: Round, from: nat, to: nat)
    requires Lawful(w) && RoundOk(w, deadline, at, targets, r) && from <= at && r.haul.to <= to
    ensures Grounded(w, r.alive, targets, r.haul, from, to)
    ensures forall x | x in TargetsOf(r.haul.catches) :: WellCaught(w, x, from, to)
  {
    hide Lawful, HaulOk, AliveAmong, AfterPoll, WellCaught, Existed;
    PolledExisted(w, at + 1, targets);
    ExistedEarlier(w, r.alive, from, at + 1, r.haul.from);
    CatchesAreWell(w, r.alive, targets, r.haul, from, to);
  }

  lemma ExistedEarlier(w: World, ids: seq<Identity>, from: nat, start: nat, to: nat)
    requires (forall x | x in ids :: Existed(w, x, start, to)) && from <= start
    ensures forall x | x in ids :: Existed(w, x, from, to)
  {
    forall x | x in ids
      ensures Existed(w, x, from, to)
    {
      var v: nat :| start <= v <= to && Exists(w, v, x);
    }
  }

  /** The enumerations of the call. */
  ghost predicate IsSweep(tr: Trace, s: Sweep) {
    || s in tr.first.sweeps
    || (exists r | r in tr.rounds :: s in r.haul.sweeps)
    || (tr.forced.Some? && s in tr.forced.value.sweeps)
  }

  /** A child that an enumeration of the call listed is dead for good. */
  ghost predicate ListedDead(w: World, s: Sweep, now: nat) {
    forall j, c | 0 <= j < |s.pids| && c in Children(w, s.pids, s.from, j) :: DeadFrom(w, ReadId(w, c, s.from + j), now)
  }

  lemma HaulListedDead(w: World, bases: seq<Identity>, known: seq<Identity>, h: Haul, from: nat, to: nat, now: nat)
    requires Lawful(w) && Grounded(w, bases, known, h, from, to) && OnePidOneProcess(w, from, to) && to <= now
    requires forall x | x in known + TargetsOf(h.catches) :: WellCaught(w, x, from, to) && DeadFrom(w, x, now)
    ensures forall s | s in h.sweeps :: ListedDead(w, s, now)
  {
    hide Lawful, Grounded, OnePidOneProcess, WellCaught, DeadFrom, Children;
    forall s, j, c | s in h.sweeps && 0 <= j < |s.pids| && c in Children(w, s.pids, s.from, j)
      ensures DeadFrom(w, ReadId(w, c, s.from + j), now)
    {
      ListedIsDead(w, bases, known, h, from, to, now, s, j, c);
    }
  }

  /** The grace period of a call that gave a receipt, and when SIGKILL enumerated. */
  lemma ReceiptGrace(w: World, wake: nat -> nat, t: nat, timeout: nat, outcome: Outcome, tr: Trace)
    requires Ended(w, wake, t, timeout, outcome, tr) && outcome.Receipt?
    ensures RoundsOk(w, wake, w(t).clock + timeout, t + 1, Initial(tr), tr.rounds)
    ensures tr.forced.Some? ==>
              && tr.rounds != [] && tr.forced.value.from >= NextAt(wake, t + 1, tr.rounds)
              && HaulOk(w, tr.rounds[|tr.rounds| - 1].alive, [], tr.forced.value)
  {
    hide HaulOk, RoundsOk, AliveAmong, AfterPoll;
  }

  /** Every enumeration of such a call is grounded, and every target well caught. */
  lemma RunIsGrounded(w: World, wake: nat -> nat, t: nat, managed: seq<Identity>, timeout: nat, outcome: Outcome, tr: Trace, now: nat)
    requires Lawful(w) && (forall u: nat :: wake(u) > u) && Ran(w, wake, t, managed, timeout, outcome, tr)
    requires outcome.Receipt? && tr.roots != [] && Lasted(tr) <= now
    ensures Grounded(w, tr.roots, [], tr.first, t, now) && (forall x | x in Captured(tr) :: WellCaught(w, x, t, now))
    ensures forall i | 0 <= i < |tr.rounds| ::
              Grounded(w, tr.rounds[i].alive, Grown(Initial(tr), tr.rounds[..i]), tr.rounds[i].haul, t, now)
    ensures tr.forced.Some? ==>
              && tr.rounds != [] && tr.rounds[|tr.rounds| - 1].haul.to <= tr.forced.value.from
              && Grounded(w, tr.rounds[|tr.rounds| - 1].alive, [], tr.forced.value, t, now)
              && forall x | x in TargetsOf(tr.forced.value.catches) :: WellCaught(w, x, t, now)
  {
    hide Lawful, HaulOk, AliveAmong, AfterPoll, Sends, AfterSends, WellCaught, RoundsOk, Existed, Ended;
    var start := AfterSends(w, tr.first.to, Reversed(Initial(tr)));
    HaulIsSound(w, tr.roots, [], tr.first);
    ReceiptGrace(w, wake, start, timeout, outcome, tr);
    var deadline := w(start).clock + timeout;
    RoundsAreTimely(w, wake, deadline, start + 1, Initial(tr), tr.rounds);
    var last := if tr.rounds == [] then start + 1 else tr.rounds[|tr.rounds| - 1].haul.to;
    assert tr.rounds != [] ==> tr.rounds[|tr.rounds| - 1] in tr.rounds;
    if tr.forced.Some? { HaulIsSound(w, tr.rounds[|tr.rounds| - 1].alive, [], tr.forced.value); }
    PolledExisted(w, t, managed);
    assert Grounded(w, tr.roots, [], tr.first, t, now);
    CatchesAreWell(w, tr.roots, [], tr.first, t, now);
    RoundsAreGrounded(w, wake, deadline, start + 1, Initial(tr), tr.rounds, t, now);
    if tr.forced.Some? {
      var round := tr.rounds[|tr.rounds| - 1];
      assert Grounded(w, round.alive, Grown(Initial(tr), tr.rounds[..|tr.rounds| - 1]), round.haul, t, now);
      ExistedLater(w, round.alive, t, round.haul.from, tr.forced.value.from);
      CatchesAreWell(w, round.alive, [], tr.forced.value, t, now);
    }
  }

  lemma ExistedLater(w: World, ids: seq<Identity>, from: nat, to: nat, later: nat)
    requires (forall x | x in ids :: Existed(w, x, from, to)) && to <= later
    ensures forall x | x in ids :: Existed(w, x, from, later)
  {
    forall x | x in ids
      ensures Existed(w, x, from, later)
    {
      var v: nat :| from <= v <= to && Exists(w, v, x);
    }
  }

  /** A target captured after the last poll is dead, or found again for SIGKILL: without reparenting between the two
      enumerations it would be listed again. */
  lemma LateCatchIsFoundOrDead(w: World, late: Haul, forced: Haul, bases: seq<Identity>, known: seq<Identity>, c: Catch, now: nat)
    requires Lawful(w) && OnePidOneProcess(w, late.from, forced.to) && NoReparenting(w, late.from, forced.to)
    requires HaulOk(w, bases, known, late) && HaulOk(w, bases, [], forced) && late.to <= forced.from && forced.to <= now
    requires c in late.catches
    ensures c.target.pid in PidsOf(TargetsOf(forced.catches)) || DeadFrom(w, c.target, now)
  {
    hide Lawful, OnePidOneProcess, NoReparenting, Existed, SweepOk, CatchOk, AllCaught, PidsOf, DeadFrom, SweepsOk, CatchesOk;
    HaulIsSound(w, bases, known, late);
    HaulIsSound(w, bases, [], forced);
    var again := SameBase(w, bases, late, forced, c.sweep);
    CatchFoundOrDead(w, c, again, forced.catches, late.from, forced.to, now);
  }

  lemma SameBase(w: World, bases: seq<Identity>, late: Haul, forced: Haul, s: Sweep) returns (again: Sweep)
    requires SweepsOk(w, bases, late.sweeps, late.from, late.to) && SweepsOk(w, bases, forced.sweeps, forced.from, forced.to)
    requires s in late.sweeps
    ensures again in forced.sweeps && again.base == s.base
  {
    hide SweepOk;
    var b :| 0 <= b < |late.sweeps| && late.sweeps[b] == s;
    again := forced.sweeps[b];
  }

  lemma CatchFoundOrDead(w: World, c: Catch, again: Sweep, catches: seq<Catch>, from: nat, to: nat, now: nat)
    requires Lawful(w) && OnePidOneProcess(w, from, to) && NoReparenting(w, from, to)
    requires CatchOk(w, c) && SweepOk(w, c.sweep) && SweepOk(w, again) && again.base == c.sweep.base
    requires from <= c.sweep.from && c.read < again.from && End(again) <= to <= now
    requires AllCaught(again.pids, [], catches)
    ensures c.target.pid in PidsOf(TargetsOf(catches)) || DeadFrom(w, c.target, now)
  {
    hide Lawful, OnePidOneProcess, NoReparenting, SweepOk;
    var end := End(again);
    var i :| 0 <= i < |c.sweep.pids| && c.sweep.pids[i] == c.target.pid;
    if c.sweep.pids[i] in w(end).procs {
      StillReached(w, c.sweep, again, i, from, to);
      assert [] + TargetsOf(catches) == TargetsOf(catches);
    } else if Verifiable(c.target) {
      assert Exists(w, c.read, c.target);
      DeadStaysDead(w, c.target, c.read, end);
      DeadLater(w, c.target, end, now);
    }
  }

  lemma SubjectsAreDead(w: World, managed: seq<Identity>, t: nat, tr: Trace, now: nat)
    requires Accounted(w, Subjects(w, managed, t, tr), [], now) && tr.roots != []
    ensures forall x | x in LastWatched(tr) :: DeadFrom(w, x, now)
    ensures tr.forced.Some? ==>
              && (forall x | x in TargetsOf(tr.forced.value.catches) :: DeadFrom(w, x, now))
              && forall x | x in Captured(tr) && x.pid in PidsOf(TargetsOf(tr.forced.value.catches)) :: DeadFrom(w, x, now)
  {
    hide DeadFrom, LastWatched, Captured, PidsOf;
    forall x | x in Subjects(w, managed, t, tr)
      ensures DeadFrom(w, x, now)
    {
      assert Covered(w, [], x, now);
    }
  }

  /** Captured after the last poll, and not found again under its PID when SIGKILL enumerated. */
  ghost predicate Missed(tr: Trace, x: Identity) {
    && tr.forced.Some? && tr.rounds != []
    && x in TargetsOf(tr.rounds[|tr.rounds| - 1].haul.catches)
    && x.pid !in PidsOf(TargetsOf(tr.forced.value.catches))
  }

  /** What exited is short of, on any machine: every captured target is dead for good exactly when those are that were
      missed between the last poll and SIGKILL. */
  lemma CapturedDeadIff(w: World, wake: nat -> nat, t: nat, managed: seq<Identity>, timeout: nat, outcome: Outcome, tr: Trace, now: nat)
    requires Ran(w, wake, t, managed, timeout, outcome, tr) && outcome.Receipt? && outcome.exited && tr.roots != []
    requires Accounted(w, Subjects(w, managed, t, tr), outcome.remaining, now)
    ensures AllDead(w, Captured(tr), now) <==> forall x | Missed(tr, x) :: DeadFrom(w, x, now)
  {
    ExitedRemaining(w, wake, t, managed, timeout, outcome, tr);
    hide Ran, DeadFrom, Subjects, Accounted, PidsOf;
    SubjectsAreDead(w, managed, t, tr, now);
    forall x | Missed(tr, x)
      ensures x in Captured(tr)
    {
      GrownLast(Initial(tr), tr.rounds);
    }
  }

  /** No PID is given out twice and nobody is reparented between the last turn of the grace period and the end of
      SIGKILL's enumeration. Nothing is asked of what happens after a signal of SIGKILL. */
  ghost predicate QuietForKill(w: World, tr: Trace) {
    tr.forced.Some? && tr.rounds != [] ==>
      && OnePidOneProcess(w, tr.rounds[|tr.rounds| - 1].haul.from, tr.forced.value.to)
      && NoReparenting(w, tr.rounds[|tr.rounds| - 1].haul.from, tr.forced.value.to)
  }

  /** So exited means it of every captured target when nothing of the kind happens between the last two
      enumerations. */
  lemma CapturedIsDead(w: World, wake: nat -> nat, t: nat, managed: seq<Identity>, timeout: nat, outcome: Outcome, tr: Trace, now: nat)
    requires Lawful(w) && (forall u: nat :: wake(u) > u) && Ran(w, wake, t, managed, timeout, outcome, tr)
    requires outcome.Receipt? && outcome.exited && tr.roots != [] && Lasted(tr) <= now
    requires Accounted(w, Subjects(w, managed, t, tr), outcome.remaining, now) && QuietForKill(w, tr)
    ensures AllDead(w, Captured(tr), now)
  {
    hide Lawful, OnePidOneProcess, NoReparenting, Ran, Grounded, WellCaught, DeadFrom, Subjects, Accounted, PidsOf, HaulOk;
    RunIsGrounded(w, wake, t, managed, timeout, outcome, tr, now);
    CapturedDeadIff(w, wake, t, managed, timeout, outcome, tr, now);
    forall x | Missed(tr, x)
      ensures DeadFrom(w, x, now)
    {
      var last := tr.rounds[|tr.rounds| - 1];
      var known := Grown(Initial(tr), tr.rounds[..|tr.rounds| - 1]);
      var i :| 0 <= i < |last.haul.catches| && TargetsOf(last.haul.catches)[i] == x;
      assert last.haul.catches[i] in last.haul.catches;
      GroundedHaul(w, last.alive, known, last.haul, t, now);
      GroundedHaul(w, last.alive, [], tr.forced.value, t, now);
      LateCatchIsFoundOrDead(w, last.haul, tr.forced.value, last.alive, known, last.haul.catches[i], now);
    }
  }

  lemma GroundedHaul(w: World, bases: seq<Identity>, known: seq<Identity>, h: Haul, from: nat, to: nat)
    requires Grounded(w, bases, known, h, from, to)
    ensures HaulOk(w, bases, known, h) && from <= h.from && h.to <= to
  {
    hide HaulOk;
  }

  lemma FewerPids(w: World, from: nat, to: nat, tr: Trace)
    requires OnePidOneProcess(w, from, to)
    requires tr.forced.Some? && tr.rounds != [] ==> from <= tr.rounds[|tr.rounds| - 1].haul.from && tr.forced.value.to <= to
    requires tr.forced.Some? && tr.rounds != [] ==> NoReparenting(w, tr.rounds[|tr.rounds| - 1].haul.from, tr.forced.value.to)
    ensures QuietForKill(w, tr)
  {
  }

  /** What the whole call gives, when it reports exited, on a machine that gives no PID out twice until the last
      enumeration has ended and, if it came to SIGKILL, reparents nobody between the last poll and the end of SIGKILL's
      enumeration: every captured target and every process any enumeration listed is dead for good. */
  lemma ExitedMeansAllDead(w: World, wake: nat -> nat, t: nat, managed: seq<Identity>, timeout: nat, outcome: Outcome, tr: Trace,
                           now: nat)
    requires Lawful(w) && (forall u: nat :: wake(u) > u) && Ran(w, wake, t, managed, timeout, outcome, tr)
    requires outcome.Receipt? && outcome.exited && tr.roots != [] && Lasted(tr) <= now
    requires Accounted(w, Subjects(w, managed, t, tr), outcome.remaining, now)
    requires OnePidOneProcess(w, t, Lasted(tr))
    requires tr.forced.Some? && tr.rounds != [] ==> NoReparenting(w, tr.rounds[|tr.rounds| - 1].haul.from, tr.forced.value.to)
    ensures AllDead(w, Captured(tr), now)
    ensures forall s | IsSweep(tr, s) :: ListedDead(w, s, now)
  {
    ExitedRemaining(w, wake, t, managed, timeout, outcome, tr);
    hide Lawful, OnePidOneProcess, NoReparenting, Ran, Grounded, WellCaught, DeadFrom, Subjects, Accounted, PidsOf, ListedDead,
         Captured, HaulOk, QuietForKill;
    var to := Lasted(tr);
    RunIsGrounded(w, wake, t, managed, timeout, outcome, tr, to);
    if tr.forced.Some? {
      var last := tr.rounds[|tr.rounds| - 1];
      GroundedHaul(w, last.alive, Grown(Initial(tr), tr.rounds[..|tr.rounds| - 1]), last.haul, t, to);
    }
    FewerPids(w, t, to, tr);
    CapturedIsDead(w, wake, t, managed, timeout, outcome, tr, now);
    SubjectsAreDead(w, managed, t, tr, now);
    AllListedDead(w, tr, t, to, now);
  }

  lemma AllListedDead(w: World, tr: Trace, from: nat, to: nat, now: nat)
    requires Lawful(w) && OnePidOneProcess(w, from, to) && Grounded(w, tr.roots, [], tr.first, from, to) && to <= now
    requires forall i | 0 <= i < |tr.rounds| ::
               Grounded(w, tr.rounds[i].alive, Grown(Initial(tr), tr.rounds[..i]), tr.rounds[i].haul, from, to)
    requires tr.forced.Some? ==>
               && tr.rounds != [] && Grounded(w, tr.rounds[|tr.rounds| - 1].alive, [], tr.forced.value, from, to)
               && forall x | x in TargetsOf(tr.forced.value.catches) :: WellCaught(w, x, from, to) && DeadFrom(w, x, now)
    requires (forall x | x in Captured(tr) :: WellCaught(w, x, from, to)) && AllDead(w, Captured(tr), now)
    ensures forall s | IsSweep(tr, s) :: ListedDead(w, s, now)
  {
    hide Lawful, OnePidOneProcess, Grounded, WellCaught, DeadFrom, ListedDead, Captured, HaulOk, TargetsOf, AllDead, Grown;
    FirstListedDead(w, tr, from, to, now);
    forall i | 0 <= i < |tr.rounds|
      ensures forall s | s in tr.rounds[i].haul.sweeps :: ListedDead(w, s, now)
    {
      RoundListedDead(w, tr, i, from, to, now);
    }
    if tr.forced.Some? {
      var targets := TargetsOf(tr.forced.value.catches);
      assert [] + targets == targets;
      HaulListedDead(w, tr.rounds[|tr.rounds| - 1].alive, [], tr.forced.value, from, to, now);
    }
  }

  lemma ExitedRemaining(w: World, wake: nat -> nat, t: nat, managed: seq<Identity>, timeout: nat, outcome: Outcome, tr: Trace)
    requires Ran(w, wake, t, managed, timeout, outcome, tr) && outcome.Receipt? && outcome.exited && tr.roots != []
    ensures outcome.remaining == [] && (outcome.sigkill <==> tr.forced.Some?)
  {
    hide HaulOk, GraceEnds, ForcedFrom, AliveAmong, Sends;
  }

  lemma FirstListedDead(w: World, tr: Trace, from: nat, to: nat, now: nat)
    requires Lawful(w) && Grounded(w, tr.roots, [], tr.first, from, to) && OnePidOneProcess(w, from, to) && to <= now
    requires (forall x | x in Captured(tr) :: WellCaught(w, x, from, to)) && AllDead(w, Captured(tr), now)
    ensures forall s | s in tr.first.sweeps :: ListedDead(w, s, now)
  {
    hide Lawful, Grounded, OnePidOneProcess, WellCaught, DeadFrom, ListedDead;
    assert [] + Initial(tr) == Initial(tr) <= Captured(tr);
    forall x | x in Initial(tr)
      ensures x in Captured(tr)
    {
      var i :| 0 <= i < |Initial(tr)| && Initial(tr)[i] == x;
      assert Captured(tr)[i] == x;
    }
    HaulListedDead(w, tr.roots, [], tr.first, from, to, now);
  }

  lemma RoundListedDead(w: World, tr: Trace, i: nat, from: nat, to: nat, now: nat)
    requires Lawful(w) && OnePidOneProcess(w, from, to) && i < |tr.rounds| && to <= now
    requires Grounded(w, tr.rounds[i].alive, Grown(Initial(tr), tr.rounds[..i]), tr.rounds[i].haul, from, to)
    requires (forall x | x in Captured(tr) :: WellCaught(w, x, from, to)) && AllDead(w, Captured(tr), now)
    ensures forall s | s in tr.rounds[i].haul.sweeps :: ListedDead(w, s, now)
  {
    hide Lawful, Grounded, OnePidOneProcess, WellCaught, DeadFrom, ListedDead, Grown;
    GrownIsCaptured(Initial(tr), tr.rounds, i);
    HaulListedDead(w, tr.rounds[i].alive, Grown(Initial(tr), tr.rounds[..i]), tr.rounds[i].haul, from, to, now);
  }

  lemma {:induction false} GrownIsCaptured(initial: seq<Identity>, rounds: seq<Round>, i: nat)
    requires i < |rounds|
    ensures forall x | x in Grown(initial, rounds[..i]) + TargetsOf(rounds[i].haul.catches) :: x in Grown(initial, rounds)
    decreases |rounds|
  {
    var front := rounds[..|rounds| - 1];
    if i < |front| {
      GrownIsCaptured(initial, front, i);
      assert front[..i] == rounds[..i];
    }
  }
}
