/** One Host's sessions under asyncio: the command loop, one monitor task per session, and every way
    they can interleave at an `await` (host_v1.py `launch`, `_monitor_session`, `_fail_session_impl`,
    `_close_active_session`, `_quarantine_session`). Code between two awaits is one step. */
module SessionLifecycle {
  import opened Commons

  // ---- receipts ----------------------------------------------------------

  datatype CloseStatus = NotPresent | ContextClosed | ContextTimeout | ContextException

  /** The part of `terminate_managed_tree`'s result the callers look at (Linux: no Job Object). */
  datatype TreeExit = TreeExit(exited: bool, sigkill: bool)

  datatype ProcessStatus = ProcessSuccess | ProcessForced | ProcessFailed
  datatype ForcedStatus = NotNeeded | Performed | CleanupFailed

  datatype Receipt = Receipt(clean: bool, page: CloseStatus, ctx: CloseStatus, process: ProcessStatus, forced: ForcedStatus)

  /** `_graceful_process_exit_status` */
  function GracefulProcessExit(tree: TreeExit, exitFileObserved: bool, exitStatus: Option<int>): ProcessStatus {
    if !tree.exited then ProcessFailed
    else if tree.sigkill then ProcessForced
    else if exitFileObserved && exitStatus == Some(0) then ProcessSuccess
    else ProcessFailed
  }

  /** `_forced_job_cleanup_status` */
  function ForcedJobCleanup(tree: TreeExit): ForcedStatus {
    if !tree.exited then CleanupFailed else if tree.sigkill then Performed else NotNeeded
  }

  predicate CloseOk(status: CloseStatus) {
    status == ContextClosed || status == NotPresent
  }

  /** `_close_receipt` */
  function CloseReceipt(page: CloseStatus, ctx: CloseStatus, process: ProcessStatus, forced: ForcedStatus,
                        forceFailed: bool): Receipt {
    var clean := !forceFailed && CloseOk(page) && CloseOk(ctx) && process == ProcessSuccess && forced == NotNeeded;
    Receipt(clean, page, ctx, process, forced)
  }

  // ---- sessions and tasks ------------------------------------------------

  datatype State = Starting | Active | Closing | Failed | Exited | Quarantined

  /** The monitor task: not created, scheduled or asleep, inside `_fail_session`, or over. */
  datatype Monitor = NoMonitor | Watching | Failing | Over

  datatype Session = Session(
    profile: string,
    state: State,
    lockHeld: bool,
    stopMonitor: bool,
    monitor: Monitor,
    tree: Option<TreeExit>,
    receipt: Option<Receipt>,
    exitStatus: Option<int>)

  datatype Kind = Fail | Close

  /** Where the one command in progress is suspended. It always works on the current session. */
  datatype Command = Idle | Launching | AwaitMonitor(kind: Kind) | CloseContext(kind: Kind)

  /** `sessions` in creation order; the last one is `host.session`. */
  datatype Host = Host(sessions: seq<Session>, command: Command)

  /** What the world answers once the context is closed: `tree` is None when
      `terminate_managed_tree` raised instead of returning. */
  datatype Teardown = Teardown(
    page: CloseStatus, ctx: CloseStatus, tree: Option<TreeExit>, exitFileObserved: bool, exitStatus: Option<int>)

  datatype Action =
    | BeginLaunch(profile: string)
    | LaunchSucceeds
    | LaunchFails(afterRunning: bool)
    | BeginClose
    | MonitorJoined
    | MonitorCancelled
    | CommandFinishes(end: Teardown)
    | MonitorRuns(i: nat, processFailure: bool)
    | MonitorFinishes(i: nat, end: Teardown)

  predicate Busy(state: State) { state.Starting? || state.Active? || state.Closing? }

  function Current(h: Host): Session
    requires h.sessions != []
  {
    h.sessions[|h.sessions| - 1]
  }

  function SetCurrent(h: Host, s: Session): Host
    requires h.sessions != []
  {
    h.(sessions := h.sessions[|h.sessions| - 1 := s])
  }

  /** The synchronous end of `_fail_session_impl`: terminate, then release or quarantine. */
  function FailEnd(s: Session, end: Teardown): Session {
    if end.tree.None? then s
    else
      var tree := end.tree.value;
      var receipt := CloseReceipt(end.page, end.ctx, ProcessFailed, ForcedJobCleanup(tree), true);
      if tree.exited then s.(lockHeld := false, tree := end.tree, receipt := Some(receipt), exitStatus := end.exitStatus)
      else s.(state := Quarantined, tree := end.tree, receipt := Some(receipt))
  }

  /** The synchronous end of `_close_active_session`. */
  function CloseEnd(s: Session, end: Teardown): Session {
    if end.tree.None? then s
    else
      var tree := end.tree.value;
      var process := GracefulProcessExit(tree, end.exitFileObserved, end.exitStatus);
      var receipt := CloseReceipt(end.page, end.ctx, process, ForcedJobCleanup(tree), !tree.exited);
      var closed := s.(tree := end.tree, receipt := Some(receipt), exitStatus := end.exitStatus);
      if !tree.exited then closed.(state := Quarantined)
      else closed.(state := if receipt.clean then Exited else Failed, lockHeld := false)
  }

  /** Where the teardown goes after the state is set: joining the monitor if there ever was one. */
  function AfterStop(s: Session, kind: Kind): Command {
    if s.monitor.NoMonitor? then CloseContext(kind) else AwaitMonitor(kind)
  }

  predicate Enabled(h: Host, a: Action) {
    match a
    case BeginLaunch(profile) =>
      && h.command.Idle?
      && (h.sessions != [] ==> !Busy(Current(h).state))
      && (forall s | s in h.sessions :: s.lockHeld ==> s.profile != profile)
    case LaunchSucceeds => h.command.Launching? && h.sessions != []
    case LaunchFails(_) => h.command.Launching? && h.sessions != []
    case BeginClose => h.command.Idle? && h.sessions != [] && Busy(Current(h).state)
    case MonitorJoined => h.command.AwaitMonitor? && h.sessions != [] && Current(h).monitor.Over?
    case MonitorCancelled => h.command.AwaitMonitor? && h.sessions != []
    case CommandFinishes(_) => h.command.CloseContext? && h.sessions != []
    case MonitorRuns(i, _) => i < |h.sessions| && h.sessions[i].monitor.Watching?
    case MonitorFinishes(i, _) => i < |h.sessions| && h.sessions[i].monitor.Failing?
  }

  function Next(h: Host, a: Action): Host
    requires Enabled(h, a)
  {
    match a
    case BeginLaunch(profile) =>
      Host(h.sessions + [Session(profile, Starting, true, false, NoMonitor, None, None, None)], Launching)
    case LaunchSucceeds =>
      SetCurrent(h, Current(h).(state := Active, monitor := Watching)).(command := Idle)
    case LaunchFails(afterRunning) =>
      // The state file is written after the monitor was created, and that write can fail too.
      var s := if afterRunning then Current(h).(monitor := Watching) else Current(h);
      SetCurrent(h, s.(state := Failed, stopMonitor := true)).(command := AfterStop(s, Fail))
    case BeginClose =>
      SetCurrent(h, Current(h).(state := Closing, stopMonitor := true)).(command := AfterStop(Current(h), Close))
    case MonitorJoined => h.(command := CloseContext(h.command.kind))
    case MonitorCancelled =>
      SetCurrent(h, Current(h).(monitor := Over)).(command := CloseContext(h.command.kind))
    case CommandFinishes(end) =>
      SetCurrent(h, if h.command.kind.Fail? then FailEnd(Current(h), end) else CloseEnd(Current(h), end)).(command := Idle)
    case MonitorRuns(i, processFailure) =>
      var s := h.sessions[i];
      h.(sessions := h.sessions[i :=
        if s.stopMonitor then s.(monitor := Over)
        else if processFailure then s.(state := Failed, stopMonitor := true, monitor := Failing)
        else s])
    case MonitorFinishes(i, end) =>
      h.(sessions := h.sessions[i := FailEnd(h.sessions[i], end).(monitor := Over)])
  }

  // ---- invariant ---------------------------------------------------------

  /** The command is tearing this session down, or about to. */
  predicate CommandOwns(h: Host, i: nat) {
    i + 1 == |h.sessions| && (h.command.AwaitMonitor? || h.command.CloseContext?)
  }

  predicate SessionOk(h: Host, i: nat)
    requires i < |h.sessions|
  {
    var s := h.sessions[i];
    // The lease is held exactly until the tree was reported gone.
    && (s.lockHeld <==> !(s.tree.Some? && s.tree.value.exited))
    && (s.receipt.Some? <==> s.tree.Some?)
    // One task at a time tears a session down, and none after it is done.
    && (s.monitor.Failing? ==> s.state.Failed? && s.stopMonitor && s.tree.None? && !CommandOwns(h, i))
    && (CommandOwns(h, i) ==> s.stopMonitor && s.tree.None?)
    && (CommandOwns(h, i) ==> s.state == (if h.command.kind.Fail? then Failed else Closing))
    && (CommandOwns(h, i) && h.command.CloseContext? ==> s.monitor.NoMonitor? || s.monitor.Over?)
    && (s.tree.Some? ==> !Busy(s.state) && (s.monitor.NoMonitor? || s.monitor.Over?))
    && (s.stopMonitor <== s.state != Starting && s.state != Active)
    && (s.state.Starting? <==> i + 1 == |h.sessions| && h.command.Launching?)
    && (s.state.Starting? ==> s.monitor.NoMonitor? && !s.stopMonitor)
    && (s.state.Active? ==> s.monitor.Watching? && !s.stopMonitor)
    && (i + 1 < |h.sessions| ==> !Busy(s.state))
    // What the terminal states mean.
    && (s.state.Quarantined? <==> s.tree.Some? && !s.tree.value.exited)
    && (s.state.Exited? <==> s.receipt.Some? && s.receipt.value.clean)
    && (s.receipt.Some? && s.receipt.value.clean ==>
          && s.tree == Some(TreeExit(true, false)) && s.exitStatus == Some(0)
          && CloseOk(s.receipt.value.page) && CloseOk(s.receipt.value.ctx))
  }

  ghost predicate Inv(h: Host) {
    && (h.command != Idle ==> h.sessions != [])
    && (forall i | 0 <= i < |h.sessions| :: SessionOk(h, i))
    && (forall i, j | 0 <= i < j < |h.sessions| && h.sessions[i].lockHeld && h.sessions[j].lockHeld ::
          h.sessions[i].profile != h.sessions[j].profile)
  }

  const NEW_HOST := Host([], Idle)

  lemma NewHostInv()
    ensures Inv(NEW_HOST)
  {
  }

  lemma InvStep(h: Host, a: Action)
    requires Inv(h) && Enabled(h, a)
    ensures Inv(Next(h, a))
  {
    if a.CommandFinishes? || a.MonitorFinishes? {
      FinishKeepsInv(h, a);
    } else {
      StepKeepsInv(h, a);
    }
  }

  lemma FinishKeepsInv(h: Host, a: Action)
    requires Inv(h) && Enabled(h, a) && (a.CommandFinishes? || a.MonitorFinishes?)
    ensures Inv(Next(h, a))
  {
    var t := Next(h, a);
    forall i | 0 <= i < |t.sessions|
      ensures SessionOk(t, i)
    {
      assert SessionOk(h, i);
      if i + 1 < |h.sessions| { assert SessionOk(h, |h.sessions| - 1); }
    }
  }

  lemma StepKeepsInv(h: Host, a: Action)
    requires Inv(h) && Enabled(h, a) && !a.CommandFinishes? && !a.MonitorFinishes?
    ensures Inv(Next(h, a))
  {
    hide FailEnd, CloseEnd;
    var t := Next(h, a);
    forall i | 0 <= i < |t.sessions|
      ensures SessionOk(t, i)
    {
      if i < |h.sessions| {
        assert SessionOk(h, i);
        if i + 1 < |h.sessions| { assert SessionOk(h, |h.sessions| - 1); }
      } else {
        assert h.sessions != [] ==> SessionOk(h, |h.sessions| - 1);
      }
    }
  }

  // ---- all interleavings -------------------------------------------------

  function Exec(h: Host, run: seq<Action>): Option<Host>
    decreases run
  {
    if run == [] then Some(h)
    else if Enabled(h, run[0]) then Exec(Next(h, run[0]), run[1..])
    else None
  }

  lemma {:induction false} ExecKeepsInv(h: Host, run: seq<Action>)
    requires Inv(h) && Exec(h, run).Some?
    ensures Inv(Exec(h, run).value)
    decreases run
  {
    hide Inv, Enabled, Next;
    if run != [] {
      InvStep(h, run[0]);
      ExecKeepsInv(Next(h, run[0]), run[1..]);
    }
  }

  /** In every reachable state a session holds its profile lease exactly while its process tree has not
      been reported gone; it is `exited` exactly with a clean receipt, which needs an unforced exit, an
      observed exit status of 0 and both contexts closed; it is `quarantined` exactly when the tree was
      reported not gone, and then the lease is held. */
  lemma ReachableSessions(run: seq<Action>, i: nat)
    requires Exec(NEW_HOST, run).Some? && i < |Exec(NEW_HOST, run).value.sessions|
    ensures var s := Exec(NEW_HOST, run).value.sessions[i];
            && (s.lockHeld <==> !(s.tree.Some? && s.tree.value.exited))
            && (s.state.Quarantined? <==> s.tree.Some? && !s.tree.value.exited)
            && (s.state.Quarantined? ==> s.lockHeld)
            && (s.state.Exited? <==> s.receipt.Some? && s.receipt.value.clean)
            && (s.state.Exited? ==>
                  && s.tree == Some(TreeExit(true, false)) && s.exitStatus == Some(0) && !s.lockHeld
                  && CloseOk(s.receipt.value.page) && CloseOk(s.receipt.value.ctx))
  {
    NewHostInv();
    ExecKeepsInv(NEW_HOST, run);
    assert SessionOk(Exec(NEW_HOST, run).value, i);
  }

  // ---- what a receipt says -------------------------------------------------

  predicate Finishes(h: Host, a: Action, i: nat) {
    (a.MonitorFinishes? && a.i == i) || (a.CommandFinishes? && i + 1 == |h.sessions| && h.command.CloseContext?)
  }

  function KindOf(h: Host, a: Action): Kind {
    if a.CommandFinishes? && h.command.CloseContext? then h.command.kind else Fail
  }

  /** The receipt is of this teardown: the contexts as they were observed, the tree as it ended, and whether it took a
      SIGKILL. A failed session never reports a graceful exit. */
  predicate Tells(s: Session, end: Teardown, kind: Kind) {
    && s.receipt.Some? && end.tree.Some? && s.tree == end.tree
    && var r, tree := s.receipt.value, end.tree.value;
       && r.page == end.page && r.ctx == end.ctx
       && (r.forced == Performed <==> tree.exited && tree.sigkill)
       && (r.forced == NotNeeded <==> tree.exited && !tree.sigkill)
       && (r.forced == CleanupFailed <==> !tree.exited)
       && (r.process == ProcessForced <==> kind.Close? && tree.exited && tree.sigkill)
       && (r.process == ProcessSuccess <==>
             kind.Close? && tree.exited && !tree.sigkill && end.exitFileObserved && end.exitStatus == Some(0))
       && (kind.Close? || tree.exited ==> s.exitStatus == end.exitStatus)
  }

  /** A step that gives a session its receipt is the end of its teardown, and the receipt is of it. */
  lemma ReceiptStep(h: Host, a: Action, i: nat)
    requires Inv(h) && Enabled(h, a) && i < |Next(h, a).sessions| && Next(h, a).sessions[i].receipt.Some?
    requires i < |h.sessions| ==> h.sessions[i].receipt.None?
    ensures Finishes(h, a, i) && Tells(Next(h, a).sessions[i], if a.CommandFinishes? || a.MonitorFinishes? then a.end else NO_END, KindOf(h, a))
  {
    if i < |h.sessions| { assert SessionOk(h, i); }
  }

  const NO_END := Teardown(NotPresent, NotPresent, None, false, None)

  lemma KeptStep(h: Host, a: Action, i: nat)
    requires Inv(h) && Enabled(h, a) && i < |h.sessions| && h.sessions[i].receipt.Some?
    ensures i < |Next(h, a).sessions| && Next(h, a).sessions[i] == h.sessions[i]
  {
    assert SessionOk(h, i);
  }

  lemma {:induction false} ExecLast(h: Host, run: seq<Action>)
    requires run != []
    ensures var front, last := Exec(h, run[..|run| - 1]), run[|run| - 1];
            Exec(h, run) == if front.Some? && Enabled(front.value, last) then Some(Next(front.value, last)) else None
    decreases run
  {
    var front, last := run[..|run| - 1], run[|run| - 1];
    hide Enabled, Next;
    if |run| == 1 {
      assert front == [] && run[1..] == [];
    } else if Enabled(h, run[0]) {
      ExecLast(Next(h, run[0]), run[1..]);
      assert run[1..][..|run[1..]| - 1] == front[1..] && front[0] == run[0];
    }
  }

  /** The step of a run that ended the session's teardown, and told its receipt. */
  ghost predicate ToldAt(run: seq<Action>, k: nat, i: nat, s: Session)
    requires k < |run|
  {
    var before := Exec(NEW_HOST, run[..k]);
    && before.Some? && (run[k].CommandFinishes? || run[k].MonitorFinishes?)
    && Finishes(before.value, run[k], i) && Tells(s, run[k].end, KindOf(before.value, run[k]))
  }

  /** In every reachable state a receipt is of a teardown that ended in the run. */
  lemma {:induction false} ReceiptIsOfTeardown(run: seq<Action>, i: nat)
    requires Exec(NEW_HOST, run).Some? && i < |Exec(NEW_HOST, run).value.sessions|
    requires Exec(NEW_HOST, run).value.sessions[i].receipt.Some?
    ensures exists k | 0 <= k < |run| :: ToldAt(run, k, i, Exec(NEW_HOST, run).value.sessions[i])
  {
    assert run != [];
    var front, last := run[..|run| - 1], run[|run| - 1];
    ExecLast(NEW_HOST, run);
    var h := Exec(NEW_HOST, front).value;
    var s := Next(h, last).sessions[i];
    NewHostInv();
    ExecKeepsInv(NEW_HOST, front);
    if i < |h.sessions| && h.sessions[i].receipt.Some? {
      KeptStep(h, last, i);
      ReceiptIsOfTeardown(front, i);
      var k :| 0 <= k < |front| && ToldAt(front, k, i, s);
      assert front[..k] == run[..k] && front[k] == run[k];
      assert ToldAt(run, k, i, s);
    } else {
      ReceiptStep(h, last, i);
      assert Finishes(h, last, i);
      assert run[..|run| - 1] == front;
      assert ToldAt(run, |run| - 1, i, s);
    }
  }

  /** So in every reachable state the forced cleanup of a receipt is `performed` exactly when the tree exited with a
      SIGKILL, `not_needed` exactly when it exited without, and `failed` exactly when it did not exit; a process exit
      is never called a success otherwise, nor forced without a SIGKILL. */
  lemma ReachableReceipts(run: seq<Action>, i: nat)
    requires Exec(NEW_HOST, run).Some? && i < |Exec(NEW_HOST, run).value.sessions|
    requires Exec(NEW_HOST, run).value.sessions[i].receipt.Some?
    ensures var s := Exec(NEW_HOST, run).value.sessions[i];
            && s.tree.Some?
            && (s.receipt.value.forced == Performed <==> s.tree.value == TreeExit(true, true))
            && (s.receipt.value.forced == NotNeeded <==> s.tree.value == TreeExit(true, false))
            && (s.receipt.value.forced == CleanupFailed <==> !s.tree.value.exited)
            && (s.receipt.value.process == ProcessForced ==> s.receipt.value.forced == Performed)
            && (s.receipt.value.process == ProcessSuccess ==> s.receipt.value.forced == NotNeeded)
  {
    ReceiptIsOfTeardown(run, i);
    var s := Exec(NEW_HOST, run).value.sessions[i];
    var k :| 0 <= k < |run| && ToldAt(run, k, i, s);
  }

  /** When the exit is unforced and observed with status 0 and the contexts closed, close says so. */
  lemma CleanCloseIsExited(h: Host, end: Teardown)
    requires Inv(h) && Enabled(h, CommandFinishes(end)) && h.command.kind.Close?
    requires end.tree.Some?
    ensures Current(Next(h, CommandFinishes(end))).state.Exited? <==>
              && end.tree.value == TreeExit(true, false) && end.exitFileObserved && end.exitStatus == Some(0)
              && CloseOk(end.page) && CloseOk(end.ctx)
  {
  }

  /** The tasks able to run a teardown of session i right now. */
  function TeardownTasks(h: Host, i: nat): nat
    requires i < |h.sessions|
  {
    (if h.sessions[i].monitor.Failing? then 1 else 0) + (if CommandOwns(h, i) then 1 else 0)
  }

  /** Monitor and command never tear the same session down at once, a session whose tree was reported is
      torn down by nobody, and a cancelled monitor is never one that was in the middle of a teardown. */
  lemma OneTeardown(run: seq<Action>, i: nat)
    requires Exec(NEW_HOST, run).Some? && i < |Exec(NEW_HOST, run).value.sessions|
    ensures var h := Exec(NEW_HOST, run).value;
            && TeardownTasks(h, i) <= 1
            && (h.sessions[i].tree.Some? ==> TeardownTasks(h, i) == 0)
            && (Enabled(h, MonitorCancelled) ==> !Current(h).monitor.Failing?)
  {
    NewHostInv();
    ExecKeepsInv(NEW_HOST, run);
    var h := Exec(NEW_HOST, run).value;
    assert SessionOk(h, i) && SessionOk(h, |h.sessions| - 1);
  }

  /** Once the fate of the process tree is known the session never changes again: its lease is not
      retaken, a quarantine is not lifted and an exit is not revised, whatever is launched or closed later. */
  lemma {:induction false} ReportedIsFinal(h: Host, run: seq<Action>, i: nat)
    requires Inv(h) && i < |h.sessions| && h.sessions[i].tree.Some? && Exec(h, run).Some?
    ensures i < |Exec(h, run).value.sessions| && Exec(h, run).value.sessions[i] == h.sessions[i]
    decreases run
  {
    if run != [] {
      assert SessionOk(h, i);
      InvStep(h, run[0]);
      assert Next(h, run[0]).sessions[i] == h.sessions[i];
      hide Inv, Enabled, Next;
      ReportedIsFinal(Next(h, run[0]), run[1..], i);
    }
  }

  /** So the lease, once taken by the launch, is held without a gap until the tree is reported gone. */
  lemma LeaseIsContinuous(h: Host, run: seq<Action>, i: nat)
    requires Inv(h) && i < |h.sessions| && Exec(h, run).Some?
    requires i < |Exec(h, run).value.sessions| && Exec(h, run).value.sessions[i].lockHeld
    ensures h.sessions[i].lockHeld
  {
    assert SessionOk(h, i);
    if !h.sessions[i].lockHeld { ReportedIsFinal(h, run, i); }
  }

  /** `run_host` leaves its loop between commands and first closes a busy session. */
  predicate CanQuit(h: Host) {
    h.command.Idle? && (h.sessions != [] ==> !Busy(Current(h).state))
  }

  /** Then every session has ended, and every lease still held belongs to a session that was quarantined or whose
      teardown has no result: it raised, or the monitor's is still under way. */
  lemma QuitLeavesNothingBusy(run: seq<Action>, i: nat)
    requires Exec(NEW_HOST, run).Some? && CanQuit(Exec(NEW_HOST, run).value)
    requires i < |Exec(NEW_HOST, run).value.sessions|
    ensures var s := Exec(NEW_HOST, run).value.sessions[i];
            && !Busy(s.state)
            && (s.lockHeld <==> s.state.Quarantined? || (s.state.Failed? && s.tree.None?))
  {
    NewHostInv();
    ExecKeepsInv(NEW_HOST, run);
    assert SessionOk(Exec(NEW_HOST, run).value, i);
  }

  /** The last of these happens: a monitor can be tearing its session down when the Host quits. */
  lemma MonitorStillBusyAtQuit(profile: string)
    ensures var h := Exec(NEW_HOST, [BeginLaunch(profile), LaunchSucceeds, MonitorRuns(0, true)]);
            && h.Some? && CanQuit(h.value) && |h.value.sessions| == 1
            && h.value.sessions[0].lockHeld && h.value.sessions[0].monitor.Failing?
  {
    var launch, succeed, fail := BeginLaunch(profile), LaunchSucceeds, MonitorRuns(0, true);
    var run := [launch, succeed, fail];
    var one := Next(NEW_HOST, launch);
    var two := Next(one, succeed);
    assert run[1..] == [succeed, fail] && [succeed, fail][1..] == [fail] && [fail][1..] == [];
    assert Exec(two, [fail]) == Exec(Next(two, fail), []);
    assert Exec(one, [succeed, fail]) == Exec(two, [fail]);
  }
}
