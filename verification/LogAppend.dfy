/**
 Appending to a log stream while the stream goes offline, comes online and changes role.

 Appenders load the proposal id before they take the handler's lock, so an appender may hold an id
 from long ago. The palf replica underneath changes on its own; its proposal id never goes back.
 */
module LogAppend {
  import opened Common

  datatype Role = Leader | Follower

  const INVALID_PROPOSAL_ID: int := 0x7FFF_FFFF_FFFF_FFFF

  datatype Palf = Palf(leaderActive: bool, proposalId: int, modeAllows: bool)

  datatype Handler = Handler(inited: bool, stopped: bool, offline: bool, role: Role, proposalId: int)

  /** What the environment answers during one attempt. */
  datatype Answers = Answers(diskEnough: bool, window: Code, push: Code)

  predicate CanAppend(palf: Palf, id: int) {
    palf.leaderActive && id == palf.proposalId && palf.modeAllows
  }

  /** The outcome of one attempt under the lock, and whether palf took the log. */
  function Attempt(h: Handler, palf: Palf, id: int, env: Answers): (Code, bool) {
    if !h.inited then (NotInit, false)
    else if h.stopped || h.offline then (NotRunning, false)
    else if h.role != Leader then (NotMaster, false)
    else if !env.diskEnough then (LogOutOfDiskSpace, false)
    else if !CanAppend(palf, id) then (NotMaster, false)
    else if env.window != Success then (env.window, false)
    else (env.push, true)
  }

  function Offlined(h: Handler): Handler {
    h.(proposalId := INVALID_PROPOSAL_ID, offline := true)
  }

  function Onlined(h: Handler): Handler {
    h.(proposalId := INVALID_PROPOSAL_ID, offline := false, role := Follower)
  }

  function Switched(h: Handler, role: Role, id: int): Handler {
    h.(role := role, proposalId := id)
  }

  /** The handler's critical sections, with the early exits before them. */
  class LogHandler {
    var inited: bool
    var stopped: bool
    var offline: bool
    var role: Role
    var proposalId: int

    function View(): Handler
      reads this
    {
      Handler(inited, stopped, offline, role, proposalId)
    }

    method SwitchRole(newRole: Role, id: int)
      modifies this
      ensures View() == Switched(old(View()), newRole, id)
    {
      role := newRole;
      proposalId := id;
    }

    method TakeOffline(disableReplay: Code, disableSync: Code, onRoleChange: Code)
      returns (code: Code, ghost done: bool)
      modifies this
      ensures done <==> old(inited) && disableReplay == Success && disableSync in {Success, NotInit}
      ensures View() == if done then Offlined(old(View())) else old(View())
      ensures code == Success <==> !old(inited) || (done && onRoleChange == Success)
    {
      code, done := Success, false;
      if !inited {
        return;
      }
      code := disableReplay;
      if code != Success {
        return;
      }
      code := disableSync;
      if code != Success && code != NotInit {
        return;
      }
      proposalId := INVALID_PROPOSAL_ID;
      offline := true;
      done := true;
      code := onRoleChange;
    }

    method BringOnline(enableReplay: Code, enableSync: Code, onRoleChange: Code)
      returns (code: Code, ghost done: bool)
      modifies this
      ensures done <==> old(inited) && !old(stopped) && enableReplay == Success && enableSync == Success
      ensures View() == if done then Onlined(old(View())) else old(View())
      ensures code == Success <==> done && onRoleChange == Success
    {
      code, done := Success, false;
      if !inited {
        return NotInit, false;
      } else if stopped {
        return NotRunning, false;
      } else if enableReplay != Success {
        return enableReplay, false;
      } else if enableSync != Success {
        return enableSync, false;
      }
      proposalId := INVALID_PROPOSAL_ID;
      offline := false;
      role := Follower;
      done := true;
      code := onRoleChange;
    }

    /** The role callers see: never leader unless palf is leader under the handler's own id. */
    method GetRole(palfRole: Role, palfId: int, palfCode: Code) returns (code: Code, r: Role, id: int)
      ensures !inited ==> code == NotInit
      ensures inited && stopped ==> code == NotRunning
      ensures inited && !stopped ==> code == if role == Leader then palfCode else Success
      ensures code == Success ==> id == proposalId
      ensures code == Success ==>
                (r == Leader <==> role == Leader && palfCode == Success && palfRole == Leader && palfId == proposalId)
    {
      code, r, id := Success, Follower, proposalId;
      if !inited {
        code := NotInit;
      } else if stopped {
        code := NotRunning;
      } else if role == Follower {
        r := Follower;
      } else if palfCode != Success {
        code := palfCode;
      } else if palfId != proposalId {
        r := Follower;
      } else {
        r := palfRole;
      }
    }

    /** One pass of the append loop inside the lock. */
    method AppendLocked(id: int, palf: Palf, env: Answers) returns (code: Code, taken: bool)
      ensures (code, taken) == Attempt(View(), palf, id, env)
      ensures taken <==>
                && inited && !stopped && !offline && role == Leader && env.diskEnough
                && palf.leaderActive && palf.proposalId == id && palf.modeAllows && env.window == Success
      ensures taken ==> code == env.push
      ensures !taken ==> code != Success
    {
      code, taken := Success, false;
      if !inited {
        code := NotInit;
      } else if stopped || offline {
        code := NotRunning;
      } else if role != Leader {
        code := NotMaster;
      } else if !env.diskEnough {
        code := LogOutOfDiskSpace;
      } else if !CanAppend(palf, id) {
        code := NotMaster;
      } else if env.window != Success {
        code := env.window;
      } else {
        code, taken := env.push, true;
      }
    }
  }

  // ---------- all interleavings ----------

  type Thread = nat

  datatype Local =
    | Idle
    | Looping(nonblock: bool)                  // about to load the proposal id
    | Loaded(nonblock: bool, id: int)          // id loaded, lock not yet taken
    | Returned(code: Code)

  datatype Event =
    | WentOffline
    | CameOnline
    | SetRole(role: Role, id: int, palfId: int)
    | Stopped
    | Appended(thread: Thread, id: int, palf: Palf)

  datatype State = State(handler: Handler, palf: Palf, threads: map<Thread, Local>, log: seq<Event>)

  datatype Step =
    | Begin(t: Thread, nonblock: bool)
    | Load(t: Thread)
    | Try(t: Thread, env: Answers)
    | GoOffline
    | GoOnline
    | ChangeRole(role: Role, id: int)
    | Stop
    | PalfMoves(palf: Palf)

  function Of(s: State, t: Thread): Local {
    if t in s.threads then s.threads[t] else Idle
  }

  predicate Init(s: State) {
    && s.handler.offline && s.handler.role == Follower && s.handler.proposalId == INVALID_PROPOSAL_ID
    && s.threads == map[] && s.log == []
    && s.palf.proposalId < INVALID_PROPOSAL_ID
  }

  predicate PalfMayMove(a: Palf, b: Palf) {
    a.proposalId <= b.proposalId < INVALID_PROPOSAL_ID
  }

  predicate Enabled(s: State, step: Step) {
    match step
    case Begin(t, _) => Of(s, t).Idle? || Of(s, t).Returned?
    case Load(t) => Of(s, t).Looping?
    case Try(t, _) => Of(s, t).Loaded?
    case GoOffline => s.handler.inited
    case GoOnline => s.handler.inited && !s.handler.stopped
    case ChangeRole(_, _) => true
    case Stop => true
    case PalfMoves(p) => PalfMayMove(s.palf, p)
  }

  function Next(s: State, step: Step): State
    requires Enabled(s, step)
  {
    match step
    case Begin(t, nonblock) => s.(threads := s.threads[t := Looping(nonblock)])
    case Load(t) => s.(threads := s.threads[t := Loaded(Of(s, t).nonblock, s.handler.proposalId)])
    case Try(t, env) =>
      var me := Of(s, t);
      var (code, taken) := Attempt(s.handler, s.palf, me.id, env);
      s.(threads := s.threads[t := if !me.nonblock && code == Eagain then Looping(false) else Returned(code)],
         log := if taken then s.log + [Appended(t, me.id, s.palf)] else s.log)
    case GoOffline => s.(handler := Offlined(s.handler), log := s.log + [WentOffline])
    case GoOnline => s.(handler := Onlined(s.handler), log := s.log + [CameOnline])
    case ChangeRole(role, id) =>
      s.(handler := Switched(s.handler, role, id), log := s.log + [SetRole(role, id, s.palf.proposalId)])
    case Stop => s.(handler := s.handler.(stopped := true), log := s.log + [Stopped])
    case PalfMoves(p) => s.(palf := p)
  }

  ghost predicate IsRun(run: seq<State>) {
    && 0 < |run| && Init(run[0])
    && forall i :: 0 <= i < |run| - 1 ==> Follows(run[i], run[i + 1])
  }

  ghost predicate Follows(a: State, b: State) {
    exists step :: Enabled(a, step) && b == Next(a, step)
  }

  // ---------- reading the handler off its history ----------

  predicate OfflineBy(log: seq<Event>) {
    if log == [] then true
    else match log[|log| - 1]
      case WentOffline => true
      case CameOnline => false
      case _ => OfflineBy(log[..|log| - 1])
  }

  function RoleBy(log: seq<Event>): Role {
    if log == [] then Follower
    else match log[|log| - 1]
      case CameOnline => Follower
      case SetRole(role, _, _) => role
      case _ => RoleBy(log[..|log| - 1])
  }

  function IdBy(log: seq<Event>): int {
    if log == [] then INVALID_PROPOSAL_ID
    else match log[|log| - 1]
      case WentOffline => INVALID_PROPOSAL_ID
      case CameOnline => INVALID_PROPOSAL_ID
      case SetRole(_, id, _) => id
      case _ => IdBy(log[..|log| - 1])
  }

  predicate StoppedBy(log: seq<Event>) {
    Stopped in log
  }

  /** The append at i found the handler online, running and leader, and palf leading under its id. */
  ghost predicate Sound(log: seq<Event>, i: nat)
    requires i < |log|
  {
    log[i].Appended? ==>
      && !OfflineBy(log[..i]) && RoleBy(log[..i]) == Leader && !StoppedBy(log[..i])
      && log[i].palf.leaderActive && log[i].palf.proposalId == log[i].id && log[i].palf.modeAllows
  }

  ghost predicate AllSound(log: seq<Event>) {
    forall i: nat :: i < |log| ==> Sound(log, i)
  }

  ghost predicate PalfIdsBelow(log: seq<Event>, bound: int) {
    forall i :: 0 <= i < |log| ==> (log[i].SetRole? ==> log[i].palfId <= bound)
  }

  /** An id that the handler had at some point of this history. */
  ghost predicate Held(log: seq<Event>, id: int) {
    exists k: nat :: k <= |log| && IdBy(log[..k]) == id
  }

  ghost predicate Inv(s: State) {
    && s.handler.offline == OfflineBy(s.log)
    && s.handler.role == RoleBy(s.log)
    && s.handler.proposalId == IdBy(s.log)
    && (StoppedBy(s.log) ==> s.handler.stopped)
    && s.palf.proposalId < INVALID_PROPOSAL_ID
    && AllSound(s.log)
    && PalfIdsBelow(s.log, s.palf.proposalId)
    && forall t :: Of(s, t).Loaded? ==> Held(s.log, Of(s, t).id)
  }

  lemma HeldGrows(log: seq<Event>, e: Event, id: int)
    requires Held(log, id)
    ensures Held(log + [e], id)
  {
    var k: nat :| k <= |log| && IdBy(log[..k]) == id;
    assert (log + [e])[..k] == log[..k];
  }

  lemma SoundGrows(log: seq<Event>, e: Event)
    requires AllSound(log) && Sound(log + [e], |log|)
    ensures AllSound(log + [e])
  {
    forall i: nat | i < |log + [e]| ensures Sound(log + [e], i) {
      if i < |log| {
        assert Sound(log, i);
        assert (log + [e])[..i] == log[..i];
      }
    }
  }

  lemma LogStep(s: State, step: Step, e: Event)
    requires Inv(s) && Enabled(s, step)
    requires Next(s, step).log == s.log + [e]
    requires Sound(s.log + [e], |s.log|)
    ensures Inv(Next(s, step))
  {
    var n := Next(s, step);
    assert n.log[..|n.log| - 1] == s.log;
    SoundGrows(s.log, e);
    assert |n.log| != |s.log| && !step.Load?;
    forall t | Of(n, t).Loaded? ensures Held(n.log, Of(n, t).id) {
      assert Of(n, t) == Of(s, t);
      HeldGrows(s.log, e, Of(n, t).id);
    }
  }

  lemma QuietStep(s: State, n: State)
    requires Inv(s)
    requires n.log == s.log && n.handler == s.handler
    requires s.palf.proposalId <= n.palf.proposalId < INVALID_PROPOSAL_ID
    requires forall t :: Of(n, t).Loaded? ==> Of(n, t) == Of(s, t) || Of(n, t).id == s.handler.proposalId
    ensures Inv(n)
  {
    assert Held(s.log, s.handler.proposalId) by {
      assert s.log[..|s.log|] == s.log;
    }
    forall t | Of(n, t).Loaded? ensures Held(n.log, Of(n, t).id) {
      assert Of(s, t).Loaded? ==> Held(s.log, Of(s, t).id);
    }
  }

  lemma StepKeepsInv(s: State, step: Step)
    requires Inv(s) && Enabled(s, step)
    ensures Inv(Next(s, step))
  {
    match step {
      case Try(t, env) =>
        if Attempt(s.handler, s.palf, Of(s, t).id, env).1 {
          var e := Appended(t, Of(s, t).id, s.palf);
          assert (s.log + [e])[..|s.log|] == s.log;
          LogStep(s, step, e);
        } else {
          QuietStep(s, Next(s, step));
        }
      case GoOffline =>
        LogStep(s, step, WentOffline);
      case GoOnline =>
        LogStep(s, step, CameOnline);
      case ChangeRole(role, id) =>
        LogStep(s, step, SetRole(role, id, s.palf.proposalId));
      case Stop =>
        LogStep(s, step, Stopped);
      case _ =>
        QuietStep(s, Next(s, step));
    }
  }

  lemma {:induction false} RunKeepsInv(run: seq<State>, i: nat)
    requires IsRun(run) && i < |run|
    ensures Inv(run[i])
  {
    if i > 0 {
      RunKeepsInv(run, i - 1);
      assert Follows(run[i - 1], run[i - 1 + 1]);
      var step :| Enabled(run[i - 1], step) && run[i] == Next(run[i - 1], step);
      StepKeepsInv(run[i - 1], step);
    }
  }

  // ---------- what callers rely on ----------

  /** Online after o with nothing taking it offline again. */
  ghost predicate OnlineSince(log: seq<Event>, o: nat, i: nat) {
    o < i <= |log| && log[o] == CameOnline && forall m :: o < m < i ==> log[m] != WentOffline
  }

  /** Leader since j with nothing setting the role again. */
  ghost predicate LeaderSince(log: seq<Event>, j: nat, i: nat) {
    j < i <= |log| && log[j].SetRole? && log[j].role == Leader
    && forall m :: j < m < i ==> !log[m].SetRole? && log[m] != CameOnline
  }

  lemma {:induction false} FindOnline(log: seq<Event>) returns (o: nat)
    requires !OfflineBy(log)
    ensures OnlineSince(log, o, |log|)
  {
    if log[|log| - 1] == CameOnline {
      o := |log| - 1;
    } else {
      var front := log[..|log| - 1];
      o := FindOnline(front);
      assert forall m :: o < m < |front| ==> log[m] == front[m];
    }
  }

  lemma {:induction false} FindLeader(log: seq<Event>) returns (j: nat)
    requires RoleBy(log) == Leader
    ensures LeaderSince(log, j, |log|)
  {
    if log[|log| - 1].SetRole? {
      j := |log| - 1;
    } else {
      var front := log[..|log| - 1];
      j := FindLeader(front);
      assert forall m :: j < m < |front| ==> log[m] == front[m];
    }
  }

  /**
   In every run, an append succeeds only after the handler came online and was then made leader,
   with no offline in between, and only under the proposal id under which palf leads at that moment,
   in an access mode that allows appending.
   */
  lemma AppendNeedsOnlineThenLeader(run: seq<State>, n: nat, i: nat) returns (o: nat, j: nat)
    requires IsRun(run) && n < |run|
    requires i < |run[n].log| && run[n].log[i].Appended?
    ensures o < j < i
    ensures OnlineSince(run[n].log, o, i) && LeaderSince(run[n].log, j, i)
    ensures run[n].log[i].palf.leaderActive && run[n].log[i].palf.proposalId == run[n].log[i].id
    ensures run[n].log[i].palf.modeAllows
  {
    var log := run[n].log;
    RunKeepsInv(run, n);
    assert Sound(log, i);
    o := FindOnline(log[..i]);
    j := FindLeader(log[..i]);
    assert forall m :: 0 <= m < i ==> log[..i][m] == log[m];
    assert !(j < o);
  }

  /**
   After an offline at k nothing is appended until a later online followed by a switch to leader,
   whatever ids appenders loaded before.
   */
  lemma NoAppendAfterOffline(run: seq<State>, n: nat, k: nat, i: nat) returns (o: nat, j: nat)
    requires IsRun(run) && n < |run|
    requires k < i < |run[n].log| && run[n].log[k] == WentOffline && run[n].log[i].Appended?
    ensures k < o < j < i
    ensures run[n].log[o] == CameOnline && run[n].log[j].SetRole? && run[n].log[j].role == Leader
  {
    o, j := AppendNeedsOnlineThenLeader(run, n, i);
    assert !(o < k);
  }

  /** Nothing is appended after a stop. */
  lemma NoAppendAfterStop(run: seq<State>, n: nat, k: nat, i: nat)
    requires IsRun(run) && n < |run|
    requires k < |run[n].log| && run[n].log[k] == Stopped
    requires i < |run[n].log| && run[n].log[i].Appended?
    ensures i < k
  {
    RunKeepsInv(run, n);
    assert Sound(run[n].log, i);
    assert forall m :: 0 <= m < i ==> run[n].log[m] in run[n].log[..i];
  }

  /** Roles are set in order: ids never go back and are never ahead of palf. */
  ghost predicate InOrder(log: seq<Event>) {
    && (forall i :: 0 <= i < |log| ==> (log[i].SetRole? ==> log[i].id <= log[i].palfId))
    && (forall i, j :: 0 <= i < j < |log| && log[i].SetRole? && log[j].SetRole? ==> log[i].id <= log[j].id)
  }

  lemma {:induction false} FindId(log: seq<Event>) returns (j: nat)
    requires IdBy(log) != INVALID_PROPOSAL_ID
    ensures j < |log| && log[j].SetRole? && log[j].id == IdBy(log)
  {
    if log[|log| - 1].SetRole? {
      j := |log| - 1;
    } else {
      j := FindId(log[..|log| - 1]);
    }
  }

  lemma {:induction false} OnlineLeaderIdBy(log: seq<Event>, o: nat, j: nat)
    requires OnlineSince(log, o, |log|) && LeaderSince(log, j, |log|) && o < j
    ensures IdBy(log) == log[j].id
  {
    if j < |log| - 1 {
      var front := log[..|log| - 1];
      assert forall m :: o < m < |front| ==> front[m] == log[m];
      OnlineLeaderIdBy(front, o, j);
    }
  }

  /**
   When role changes are applied in order, an append never succeeds with an outdated id, although
   the id was loaded before the lock: the id used is the handler's own id at that moment.
   */
  lemma LoadedIdIsStillCurrent(run: seq<State>, n: nat, t: Thread, env: Answers)
    requires IsRun(run) && n < |run| && InOrder(run[n].log)
    requires Of(run[n], t).Loaded? && Attempt(run[n].handler, run[n].palf, Of(run[n], t).id, env).1
    ensures Of(run[n], t).id == run[n].handler.proposalId
  {
    RunKeepsInv(run, n);
    var s := run[n];
    var id := Of(s, t).id;
    var k: nat :| k <= |s.log| && IdBy(s.log[..k]) == id;
    var a := FindId(s.log[..k]);
    var o := FindOnline(s.log);
    var j := FindLeader(s.log);
    assert !(j < o);
    OnlineLeaderIdBy(s.log, o, j);
    assert s.log[a] == s.log[..k][a];
    assert a <= j;
    assert s.log[a].id <= s.log[j].id <= s.log[j].palfId <= s.palf.proposalId == id;
  }
}
