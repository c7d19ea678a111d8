/**
 The persisted garbage-collection state of a log stream and what GC logs do to it.
 */
module GcState {
  import opened Common

  type Scn = nat

  datatype LSGCState = InvalidState | Normal | LsBlocked | WaitOffline | LsOffline | WaitGc {
    function Rank(): nat {
      match this
      case InvalidState => 0
      case Normal => 1
      case LsBlocked => 2
      case WaitOffline => 3
      case LsOffline => 4
      case WaitGc => 5
    }

    predicate IsValid() {
      0 < Rank() < 6
    }
  }

  datatype LogType = BlockTabletTransferIn | OfflineLs | UnknownType

  datatype Body = Plain | Gc(kind: LogType)

  datatype Entry = Entry(scn: Scn, body: Body)

  /** The part of the log stream's meta that GC persists. */
  datatype Meta = Meta(state: LSGCState, offlineScn: Option<Scn>)

  const FRESH := Meta(Normal, None)

  /** The effect of one GC log once its state change is persisted; duplicates are filtered. */
  function ApplyGc(m: Meta, kind: LogType, scn: Scn): Meta {
    if !m.state.IsValid() then m
    else
      match kind
      case BlockTabletTransferIn => if LsBlocked.Rank() <= m.state.Rank() then m else m.(state := LsBlocked)
      case OfflineLs => if LsOffline.Rank() <= m.state.Rank() then m else Meta(LsOffline, Some(scn))
      case UnknownType => m
  }

  /** A block log blocks a normal stream; an offline log takes one offline that is not. */
  lemma ApplyGcByState(m: Meta, scn: Scn)
    ensures ApplyGc(m, BlockTabletTransferIn, scn) == if m.state == Normal then m.(state := LsBlocked) else m
    ensures ApplyGc(m, OfflineLs, scn) ==
              if m.state in {Normal, LsBlocked, WaitOffline} then Meta(LsOffline, Some(scn)) else m
    ensures ApplyGc(m, UnknownType, scn) == m
  {}

  function ApplyEntry(m: Meta, e: Entry): Meta {
    if e.body.Gc? then ApplyGc(m, e.body.kind, e.scn) else m
  }

  function ReplayLog(m: Meta, log: seq<Entry>): Meta {
    if log == [] then m else ApplyEntry(ReplayLog(m, log[..|log| - 1]), log[|log| - 1])
  }

  predicate IsOffline(e: Entry) {
    e.body == Gc(OfflineLs)
  }

  predicate IsBlock(e: Entry) {
    e.body == Gc(BlockTabletTransferIn)
  }

  /** The state never moves back, and the offline point is written at most once. */
  predicate Advances(m: Meta, n: Meta) {
    && m.state.Rank() <= n.state.Rank()
    && (m.offlineScn.Some? ==> n.offlineScn == m.offlineScn)
  }

  /** The offline point exists exactly from LS_OFFLINE on. */
  predicate WellFormed(m: Meta) {
    && m.state.IsValid()
    && (m.offlineScn.Some? <==> LsOffline.Rank() <= m.state.Rank())
  }

  lemma {:induction false} ReplayAdvances(m: Meta, log: seq<Entry>)
    requires WellFormed(m)
    ensures WellFormed(ReplayLog(m, log)) && Advances(m, ReplayLog(m, log))
  {
    if log != [] { ReplayAdvances(m, log[..|log| - 1]); }
  }

  lemma {:induction false} ReplayConcat(m: Meta, a: seq<Entry>, b: seq<Entry>)
    ensures ReplayLog(m, a + b) == ReplayLog(ReplayLog(m, a), b)
  {
    if b == [] {
      assert a + b == a;
    } else {
      ReplayConcat(m, a, b[..|b| - 1]);
      assert (a + b)[..|a + b| - 1] == a + b[..|b| - 1];
    }
  }

  ghost predicate FirstOffline(log: seq<Entry>, i: nat) {
    i < |log| && IsOffline(log[i]) && forall j :: 0 <= j < i ==> !IsOffline(log[j])
  }

  /**
   The state a replica has after a prefix of the log is a function of that prefix: offline
   at the scn of the first OFFLINE_LS log if there is one, blocked if there is only a
   block log, normal otherwise.
   */
  lemma {:induction false} ReplayExact(log: seq<Entry>)
    ensures (exists i :: 0 <= i < |log| && IsOffline(log[i])) <==> ReplayLog(FRESH, log).state == LsOffline
    ensures forall i: nat :: FirstOffline(log, i) ==> ReplayLog(FRESH, log) == Meta(LsOffline, Some(log[i].scn))
    ensures (forall i :: 0 <= i < |log| ==> !IsOffline(log[i])) ==>
              ReplayLog(FRESH, log) ==
                if exists i :: 0 <= i < |log| && IsBlock(log[i]) then Meta(LsBlocked, None) else FRESH
  {
    if log != [] {
      var front, last := log[..|log| - 1], log[|log| - 1];
      ReplayExact(front);
      assert forall i :: 0 <= i < |front| ==> front[i] == log[i];
      if i: nat :| FirstOffline(log, i) && i < |front| {
        assert FirstOffline(front, i);
      }
      if exists i :: 0 <= i < |front| && IsOffline(front[i]) {
        var i := FirstOfflineExists(front);
        assert FirstOffline(log, i);
        assert forall j: nat :: FirstOffline(log, j) ==> j == i;
      }
      if k :| 0 <= k < |front| && IsBlock(front[k]) {
        assert IsBlock(log[k]);
      }
      if k :| 0 <= k < |log| && IsBlock(log[k]) && k < |front| {
        assert IsBlock(front[k]);
      }
    }
  }

  lemma {:induction false} FirstOfflineExists(log: seq<Entry>) returns (i: nat)
    requires exists k :: 0 <= k < |log| && IsOffline(log[k])
    ensures FirstOffline(log, i)
  {
    i := 0;
    while !IsOffline(log[i])
      invariant i < |log|
      invariant forall j :: 0 <= j < i ==> !IsOffline(log[j])
      invariant exists k :: i <= k < |log| && IsOffline(log[k])
      decreases |log| - i
    {
      var k :| i <= k < |log| && IsOffline(log[k]);
      assert k != i;
      i := i + 1;
    }
  }

  /** A state that has taken in an entry is not changed by that entry again. */
  predicate HasTaken(m: Meta, e: Entry) {
    && m.state.IsValid()
    && (IsBlock(e) ==> LsBlocked.Rank() <= m.state.Rank())
    && (IsOffline(e) ==> LsOffline.Rank() <= m.state.Rank())
  }

  lemma {:induction false} ReplayTakesAll(m: Meta, log: seq<Entry>, i: nat)
    requires m.state.IsValid() && i < |log|
    ensures HasTaken(ReplayLog(m, log), log[i])
  {
    var front := log[..|log| - 1];
    ReplayKeepsValid(m, front);
    if i < |front| {
      ReplayTakesAll(m, front, i);
      assert front[i] == log[i];
    }
  }

  lemma {:induction false} ReplayKeepsValid(m: Meta, log: seq<Entry>)
    requires m.state.IsValid()
    ensures ReplayLog(m, log).state.IsValid()
  {
    if log != [] { ReplayKeepsValid(m, log[..|log| - 1]); }
  }

  lemma {:induction false} TakenEntriesDoNothing(m: Meta, part: seq<Entry>)
    requires forall e :: e in part ==> HasTaken(m, e)
    ensures ReplayLog(m, part) == m
  {
    if part != [] {
      var front, last := part[..|part| - 1], part[|part| - 1];
      assert forall e :: e in front ==> e in part;
      TakenEntriesDoNothing(m, front);
      assert last in part;
      assert HasTaken(m, last);
    }
  }

  /** Replaying any part of the log again, after a restart from anywhere, changes nothing. */
  lemma ReplayAgainChangesNothing(m: Meta, log: seq<Entry>, i: nat, j: nat)
    requires m.state.IsValid() && i <= j <= |log|
    ensures ReplayLog(ReplayLog(m, log), log[i..j]) == ReplayLog(m, log)
  {
    forall e | e in log[i..j] ensures HasTaken(ReplayLog(m, log), e) {
      var k :| i <= k < j && log[k] == e;
      ReplayTakesAll(m, log, k);
    }
    TakenEntriesDoNothing(ReplayLog(m, log), log[i..j]);
  }

  // ---------- the offline check ----------

  /** What handling an offline request observes outside the handler. */
  datatype Observation = Observation(
    leader: bool,
    submitted: Option<Scn>,      // an OFFLINE_LS log was submitted, committed and applied at this scn
    readable: Option<Scn>,       // the tenant's readable scn, if it could be read
    delayRecycle: bool,
    dropping: Option<bool>,      // tenant dropping or dropped, if that could be read
    restoreOrClone: bool,
    configValid: bool,
    delayUs: int,
    nowUs: int,
    persistOk: bool)

  /** SCNs are nanoseconds. */
  function ToTs(scn: Scn): int {
    scn / 1000
  }

  predicate Waived(o: Observation) {
    o.dropping == Some(true) || o.restoreOrClone
  }

  predicate DelayElapsed(scn: Scn, o: Observation) {
    o.configValid && o.delayUs <= o.nowUs - ToTs(scn)
  }

  /** The check that allows the status entry to be deleted. */
  predicate CheckPasses(m: Meta, o: Observation) {
    && m.offlineScn.Some? && o.readable.Some?
    && m.offlineScn.value <= o.readable.value
    && !o.delayRecycle
    && o.dropping.Some?
    && (Waived(o) || DelayElapsed(m.offlineScn.value, o))
  }

  datatype Outcome = Outcome(meta: Meta, needDelete: bool)

  /** The state right before the check: an OFFLINE_LS log of this leader may have been applied. */
  function OfflineFirst(m: Meta, o: Observation): Meta {
    if o.leader && LsBlocked.Rank() <= m.state.Rank() < LsOffline.Rank() && o.submitted.Some?
    then ApplyGc(m, OfflineLs, o.submitted.value)
    else m
  }

  /** The verdict is given whether or not WAIT_GC could be persisted. */
  function CheckOutcome(m: Meta, o: Observation): Outcome {
    if !CheckPasses(m, o) then Outcome(m, false)
    else Outcome(if o.persistOk then m.(state := WaitGc) else m, true)
  }

  function HandleOffline(m: Meta, o: Observation): Outcome {
    if !o.leader || !m.state.IsValid() || m.state.Rank() < LsBlocked.Rank() then Outcome(m, false)
    else if m.state == WaitGc then Outcome(m, true)
    else
      var n := OfflineFirst(m, o);
      if n.state == LsOffline then CheckOutcome(n, o) else Outcome(n, false)
  }

  /** One handling is its submission followed by a handling that has nothing to submit. */
  lemma HandleOfflineInTwoSteps(m: Meta, o: Observation)
    ensures var n := OfflineFirst(m, o); OfflineFirst(n, o) == n && HandleOffline(m, o) == HandleOffline(n, o)
  {}
}
