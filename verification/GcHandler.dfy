/**
 The garbage-collection handler of one log stream replica: its methods run under the handler's
 write lock and are proved against the functions of `GcState`.
 */
module GcHandler {
  import opened Common
  import opened GcState

  // ---------- blocking transactions before a replica is removed ----------

  /** In-memory only: lost when the process restarts. */
  datatype Volatile = Volatile(blockTxTs: Option<int>, blocked: bool)

  const RESTARTED := Volatile(None, false)

  /** `set_block_tx_if_necessary_`: notes a time, blocks nothing. */
  function NoteBlockTime(v: Volatile, now: int): Volatile {
    if v.blockTxTs.None? then v.(blockTxTs := Some(now)) else v
  }

  /** `block_all` followed by noting the time. */
  function BlockAll(v: Volatile, now: int): Volatile {
    NoteBlockTime(v.(blocked := true), now)
  }

  datatype RemoveEnv = RemoveEnv(
    dropping: Option<bool>,     // tenant dropping or dropped, if that could be read
    blockOk: bool,
    readonlyTx: Code,           // check_all_readonly_tx_clean_up
    configValid: bool,
    waitUs: int,
    nowUs: int)

  function PreRemoveState(v: Volatile, e: RemoveEnv): Volatile {
    if e.dropping == Some(true) || v.blockTxTs.Some? || !e.blockOk then v else BlockAll(v, e.nowUs)
  }

  function PreRemoveCode(v: Volatile, e: RemoveEnv): Code {
    if e.dropping == Some(true) then Success
    else if v.blockTxTs.None? && !e.blockOk then OtherError(1)
    else if e.readonlyTx != Eagain then e.readonlyTx
    else if !e.configValid then InvalidArgument
    else if PreRemoveState(v, e).blockTxTs.value + e.waitUs < e.nowUs then Success
    else Eagain
  }

  /**
   What happens to a replica's memory between two restarts. Taking the stream offline blocks it
   without noting a time; bringing it online lifts any block and keeps the noted time.
   */
  datatype VolatileAction = Note(now: int) | Block(now: int) | Offline | Online

  predicate Blocks(act: VolatileAction) {
    act.Block? || act.Offline?
  }

  predicate Notes(act: VolatileAction) {
    act.Note? || act.Block?
  }

  function ApplyVolatile(v: Volatile, act: VolatileAction): Volatile {
    match act
    case Note(now) => NoteBlockTime(v, now)
    case Block(now) => BlockAll(v, now)
    case Offline => v.(blocked := true)
    case Online => v.(blocked := false)
  }

  function RunVolatile(acts: seq<VolatileAction>): Volatile {
    if acts == [] then RESTARTED else ApplyVolatile(RunVolatile(acts[..|acts| - 1]), acts[|acts| - 1])
  }

  lemma OneMoreAction(acts: seq<VolatileAction>, act: VolatileAction)
    ensures RunVolatile(acts + [act]) == ApplyVolatile(RunVolatile(acts), act)
  {
    assert (acts + [act])[..|acts|] == acts;
  }

  /** Something blocked the replica and it was not brought online since. */
  ghost predicate BlockedSinceOnline(acts: seq<VolatileAction>) {
    exists k :: 0 <= k < |acts| && Blocks(acts[k]) && NoOnlineFrom(acts, k)
  }

  ghost predicate NoOnlineFrom(acts: seq<VolatileAction>, k: int) {
    forall m :: 0 <= k < m < |acts| ==> !acts[m].Online?
  }

  /** Nothing since the restart has noted a block time. */
  ghost predicate NothingNoted(acts: seq<VolatileAction>) {
    forall k :: 0 <= k < |acts| ==> !Notes(acts[k])
  }

  /** The first action that carries a time is at k. */
  ghost predicate FirstNoted(acts: seq<VolatileAction>, k: nat) {
    k < |acts| && Notes(acts[k]) && NothingNoted(acts[..k])
  }

  /** Blocked exactly if blocked since the last online. */
  lemma {:induction false} BlockedExact(acts: seq<VolatileAction>)
    ensures RunVolatile(acts).blocked <==> BlockedSinceOnline(acts)
  {
    if acts != [] {
      var front, last := acts[..|acts| - 1], acts[|acts| - 1];
      BlockedExact(front);
      BlockedOneMore(front, last);
      assert acts == front + [last];
    }
  }

  lemma {:induction false} NotedExact(acts: seq<VolatileAction>)
    ensures RunVolatile(acts).blockTxTs.None? <==> NothingNoted(acts)
  {
    if acts != [] {
      var front := acts[..|acts| - 1];
      NotedExact(front);
      assert forall k :: 0 <= k < |front| ==> front[k] == acts[k];
    }
  }

  /** The time kept is that of the first action that noted one: later ones change nothing. */
  lemma {:induction false} FirstTimeStays(acts: seq<VolatileAction>, k: nat)
    requires FirstNoted(acts, k)
    ensures RunVolatile(acts).blockTxTs == Some(acts[k].now)
  {
    var front := acts[..|acts| - 1];
    if k < |front| {
      assert front[..k] == acts[..k] && front[k] == acts[k];
      FirstTimeStays(front, k);
    } else {
      assert acts[..k] == front;
      NotedExact(front);
    }
  }

  lemma VolatileExact(acts: seq<VolatileAction>)
    ensures RunVolatile(acts).blocked <==> BlockedSinceOnline(acts)
    ensures RunVolatile(acts).blockTxTs.None? <==> NothingNoted(acts)
  {
    BlockedExact(acts);
    NotedExact(acts);
  }

  lemma BlockedOneMore(front: seq<VolatileAction>, last: VolatileAction)
    ensures BlockedSinceOnline(front + [last]) <==> Blocks(last) || (BlockedSinceOnline(front) && !last.Online?)
  {
    var acts := front + [last];
    if BlockedSinceOnline(acts) {
      var k :| 0 <= k < |acts| && Blocks(acts[k]) && NoOnlineFrom(acts, k);
      if k < |front| {
        assert !acts[|front|].Online?;
        assert forall m :: 0 <= m < |front| ==> front[m] == acts[m];
        assert Blocks(front[k]) && NoOnlineFrom(front, k);
      }
    }
    if Blocks(last) {
      assert Blocks(acts[|front|]) && NoOnlineFrom(acts, |front|);
    } else if BlockedSinceOnline(front) && !last.Online? {
      var k :| 0 <= k < |front| && Blocks(front[k]) && NoOnlineFrom(front, k);
      assert Blocks(acts[k]) && NoOnlineFrom(acts, k);
    }
  }

  /**
   A replica of a living tenant that passes `execute_pre_remove` is blocked exactly when nothing
   had noted a time since the restart, or a GC log or an offline blocked it after it was last
   brought online: a noted time makes the step skip `block_all`.
   */
  lemma PreRemoveBlocksIff(acts: seq<VolatileAction>, e: RemoveEnv)
    requires e.dropping != Some(true) && PreRemoveCode(RunVolatile(acts), e) == Success
    ensures PreRemoveState(RunVolatile(acts), e).blocked <==> NothingNoted(acts) || BlockedSinceOnline(acts)
  {
    VolatileExact(acts);
  }

  /** A restarted follower that sees the stream in WAIT_OFFLINE is later removed without being blocked. */
  lemma RestartedFollowerRemovedUnblocked()
    ensures var v := RunVolatile([Note(10)]);
            var e := RemoveEnv(Some(false), true, Success, true, 0, 20);
            PreRemoveCode(v, e) == Success && !PreRemoveState(v, e).blocked
  {
    OneMoreAction([], Note(10));
    assert [] + [Note(10)] == [Note(10)];
  }

  /** So is a replica that was blocked by a log and then taken offline and brought online again. */
  lemma OnlineAgainRemovedUnblocked()
    ensures var v := RunVolatile([Block(5), Online]);
            var e := RemoveEnv(Some(false), true, Success, true, 0, 20);
            PreRemoveCode(v, e) == Success && !PreRemoveState(v, e).blocked
  {
    OneMoreAction([], Block(5));
    OneMoreAction([Block(5)], Online);
    assert [] + [Block(5)] == [Block(5)] && [Block(5)] + [Online] == [Block(5), Online];
  }

  // ---------- the handler ----------

  class Handler {
    // persisted with the log stream's meta
    var state: LSGCState
    var offlineScn: Option<Scn>
    // in memory
    var recScn: Option<Scn>              // None stands for the maximum scn
    var blockTxTs: Option<int>
    var blocked: bool
    ghost var acts: seq<VolatileAction>  // what happened to the memory since the restart

    constructor ()
      ensures Valid() && acts == []
      ensures Persisted() == FRESH && recScn == None && InMemory() == RESTARTED
    {
      state := Normal;
      offlineScn := None;
      recScn := None;
      blockTxTs := None;
      blocked := false;
      acts := [];
    }

    ghost predicate Valid()
      reads this
    {
      InMemory() == RunVolatile(acts)
    }

    ghost function Persisted(): Meta
      reads this
    {
      Meta(state, offlineScn)
    }

    ghost function InMemory(): Volatile
      reads this
    {
      Volatile(blockTxTs, blocked)
    }

    /** All or nothing; only LS_OFFLINE comes with an scn. */
    method SetGcState(target: LSGCState, scn: Option<Scn>, ok: bool) returns (code: Code)
      modifies this`state, this`offlineScn
      ensures ok ==> code == Success && state == target && offlineScn == (if scn.Some? then scn else old(offlineScn))
      ensures !ok ==> code == Eagain && Persisted() == old(Persisted())
    {
      if ok {
        state := target;
        if scn.Some? { offlineScn := scn; }
        code := Success;
      } else {
        code := Eagain;
      }
    }

    /** The first time noted since the restart stays; nothing is blocked. */
    method SetBlockTxIfNecessary(now: int)
      requires Valid()
      modifies this`blockTxTs, this`acts
      ensures Valid() && acts == old(acts) + [Note(now)]
      ensures blockTxTs == if NothingNoted(old(acts)) then Some(now) else old(blockTxTs)
    {
      VolatileExact(acts);
      OneMoreAction(acts, Note(now));
      acts := acts + [Note(now)];
      if blockTxTs.None? { blockTxTs := Some(now); }
    }

    /** `block_all`, and the time noted with it. */
    method BlockAllNow(now: int)
      requires Valid()
      modifies this`blockTxTs, this`blocked, this`acts
      ensures Valid() && acts == old(acts) + [Block(now)]
      ensures blocked && blockTxTs.Some?
      ensures InMemory() == BlockAll(old(InMemory()), now)
    {
      OneMoreAction(acts, Block(now));
      acts := acts + [Block(now)];
      blocked := true;
      if blockTxTs.None? { blockTxTs := Some(now); }
    }

    /** The stream is taken offline: transactions may not start, no time is noted. */
    method TakeOffline()
      requires Valid()
      modifies this`blocked, this`acts
      ensures Valid() && acts == old(acts) + [Offline]
      ensures blocked && BlockedSinceOnline(acts)
    {
      OneMoreAction(acts, Offline);
      acts := acts + [Offline];
      blocked := true;
      VolatileExact(acts);
    }

    /** The stream is brought online: transactions may start again, the noted time stays. */
    method BringOnline()
      requires Valid()
      modifies this`blocked, this`acts
      ensures Valid() && acts == old(acts) + [Online]
      ensures !blocked && !BlockedSinceOnline(acts)
    {
      OneMoreAction(acts, Online);
      acts := acts + [Online];
      blocked := false;
      VolatileExact(acts);
    }

    method BlockLsTransferIn(scn: Scn, now: int, blockOk: bool, persistOk: bool) returns (code: Code)
      requires Valid()
      modifies this`state, this`offlineScn, this`blockTxTs, this`blocked, this`acts
      ensures Valid() && old(acts) <= acts
      ensures Persisted() ==
                if code == Success then ApplyGc(old(Persisted()), BlockTabletTransferIn, scn) else old(Persisted())
      ensures code == Success && old(state).IsValid() ==> LsBlocked.Rank() <= state.Rank()
      ensures code == Success && old(state).Rank() < LsBlocked.Rank() ==> blocked && blockTxTs.Some?
      ensures code == Success <==> old(state) != InvalidState && (old(state) != Normal || (blockOk && persistOk))
      ensures code == Success ==>
                offlineScn == old(offlineScn) && state == if old(state) == Normal then LsBlocked else old(state)
      ensures old(state) == InvalidState ==> code == Unexpected
    {
      ApplyGcByState(Persisted(), scn);
      if !state.IsValid() {
        code := Unexpected;
      } else if LsBlocked.Rank() <= state.Rank() {
        code := Success;
      } else if !blockOk {
        code := OtherError(2);
      } else {
        BlockAllNow(now);
        code := SetGcState(LsBlocked, None, persistOk);
      }
    }

    method OfflineLs(scn: Scn, persistOk: bool) returns (code: Code)
      modifies this`state, this`offlineScn
      ensures Persisted() ==
                if code == Success then ApplyGc(old(Persisted()), LogType.OfflineLs, scn) else old(Persisted())
      ensures code == Success <==> old(state) != InvalidState && (old(state) in {LsOffline, WaitGc} || persistOk)
      ensures code == Success && old(state) in {Normal, LsBlocked, WaitOffline} ==>
                state == LsOffline && offlineScn == Some(scn)
      ensures code == Success && old(state) in {LsOffline, WaitGc} ==> Persisted() == old(Persisted())
      ensures old(state) == InvalidState ==> code == Unexpected
    {
      ApplyGcByState(Persisted(), scn);
      if !state.IsValid() {
        code := Unexpected;
      } else if LsOffline.Rank() <= state.Rank() {
        code := Success;
      } else {
        code := SetGcState(LsOffline, Some(scn), persistOk);
      }
    }

    /** The recovery bound is lifted only after the state change is persisted. */
    method UpdateAfterSubmitLog(kind: LogType, scn: Scn, now: int, blockOk: bool, persistOk: bool)
      returns (code: Code)
      requires Valid()
      modifies this`state, this`offlineScn, this`blockTxTs, this`blocked, this`acts, this`recScn
      ensures Valid() && old(acts) <= acts
      ensures Persisted() == if code == Success then ApplyGc(old(Persisted()), kind, scn) else old(Persisted())
      ensures recScn == if code == Success then None else old(recScn)
      ensures kind != BlockTabletTransferIn ==> acts == old(acts)
      ensures kind == UnknownType || !old(state).IsValid() ==> code == Unexpected
      ensures code == Success && kind == BlockTabletTransferIn && old(state) == Normal ==> blocked && blockTxTs.Some?
      ensures blockOk && persistOk && kind != UnknownType && old(state).IsValid() ==> code == Success
    {
      match kind {
        case BlockTabletTransferIn => code := BlockLsTransferIn(scn, now, blockOk, persistOk);
        case OfflineLs => code := this.OfflineLs(scn, persistOk);
        case UnknownType => code := Unexpected;
      }
      if code == Success { recScn := None; }
    }

    /**
     Replay of a GC log. In a tenant that is not known to be primary, a block log waits until
     the readable scn has passed everything decided on the stream.
     */
    method Replay(kind: LogType, scn: Scn, primary: bool, decided: Option<Scn>, readable: Option<Scn>,
                  now: int, blockOk: bool, persistOk: bool) returns (code: Code)
      requires Valid()
      modifies this`state, this`offlineScn, this`blockTxTs, this`blocked, this`acts, this`recScn
      ensures Valid() && old(acts) <= acts
      ensures Persisted() == if code == Success then ApplyGc(old(Persisted()), kind, scn) else old(Persisted())
      ensures recScn == if code == Success then None else old(recScn)
      ensures code == Success && kind == BlockTabletTransferIn && !primary ==>
                decided.Some? && readable.Some? && decided.value <= readable.value
      ensures code == Success && kind == BlockTabletTransferIn && old(state) == Normal ==> blocked && blockTxTs.Some?
      ensures blockOk && persistOk && kind != UnknownType && old(state).IsValid() ==>
                code == if kind == BlockTabletTransferIn && !primary
                           && (decided.None? || readable.None? || readable.value < decided.value)
                        then Eagain else Success
    {
      if kind == BlockTabletTransferIn && !primary
         && !(decided.Some? && readable.Some? && decided.value <= readable.value)
      {
        return Eagain;
      }
      code := UpdateAfterSubmitLog(kind, scn, now, blockOk, persistOk);
    }

    /**
     Submit a GC log and wait for it. `committed` is the scn under which the callback reports
     success, if it does; persisting then fails up to `failures` times first. `seen` is what another
     thread could see after each of these tries: the recovery bound still at the log's scn, the
     state untouched.
     */
    method SubmitLog(kind: LogType, committed: Option<Scn>, now: int, failures: nat)
      returns (success: bool, ghost seen: seq<(Option<Scn>, Meta)>)
      requires Valid() && kind != UnknownType && state.IsValid()
      modifies this`state, this`offlineScn, this`blockTxTs, this`blocked, this`acts, this`recScn
      ensures Valid() && old(acts) <= acts
      ensures success == committed.Some?
      ensures Persisted() == if success then ApplyGc(old(Persisted()), kind, committed.value) else old(Persisted())
      ensures recScn == if success then None else old(recScn)
      ensures kind == LogType.OfflineLs ==> acts == old(acts)
      ensures |seen| <= failures
      ensures forall i :: 0 <= i < |seen| ==> seen[i] == (committed, old(Persisted()))
    {
      success, seen := false, [];
      if committed.None? { return; }
      recScn := committed;                      // handle_on_success_cb
      var left := failures;
      while !success
        invariant Valid() && old(acts) <= acts
        invariant |seen| + left == failures
        invariant success ==>
                    recScn == None && Persisted() == ApplyGc(old(Persisted()), kind, committed.value)
        invariant !success ==> recScn == committed && Persisted() == old(Persisted())
        invariant kind == LogType.OfflineLs ==> acts == old(acts)
        invariant forall i :: 0 <= i < |seen| ==> seen[i] == (committed, old(Persisted()))
        decreases !success, left
      {
        var fails, blockFails: bool := left != 0, *;
        var code := UpdateAfterSubmitLog(kind, committed.value, now, !(fails && blockFails), !fails);
        if code == Success {
          success := true;
        } else {
          seen, left := seen + [(recScn, Persisted())], left - 1;
        }
      }
    }

    /**
     The offline check. LS_NEED_DELETE_ENTRY is returned exactly when the readable scn has reached
     the offline point and either the delay has elapsed since the point's time or it is waived, even
     if WAIT_GC could not be persisted.
     */
    method TryCheckAndSetWaitGc(o: Observation) returns (needDelete: bool)
      modifies this`state, this`offlineScn
      ensures Outcome(Persisted(), needDelete) == CheckOutcome(old(Persisted()), o)
      ensures needDelete <==>
                && old(offlineScn).Some? && o.readable.Some? && old(offlineScn).value <= o.readable.value
                && !o.delayRecycle && o.dropping.Some?
                && (|| o.dropping == Some(true) || o.restoreOrClone
                    || (o.configValid && o.delayUs <= o.nowUs - old(offlineScn).value / 1000))
      ensures offlineScn == old(offlineScn)
      ensures state == if needDelete && o.persistOk then WaitGc else old(state)
    {
      needDelete := false;
      if o.readable.None? || offlineScn.None? {
      } else if o.readable.value < offlineScn.value {
      } else if o.delayRecycle {
      } else if o.dropping.None? {
      } else if o.dropping.value || o.restoreOrClone {
        var code := SetGcState(WaitGc, None, o.persistOk);
        needDelete := true;
      } else if !o.configValid {
      } else if o.delayUs <= o.nowUs - ToTs(offlineScn.value) {
        var code := SetGcState(WaitGc, None, o.persistOk);
        needDelete := true;
      }
    }

    method HandleGcLsOffline(o: Observation, failures: nat) returns (needDelete: bool)
      requires Valid()
      modifies this`state, this`offlineScn, this`blockTxTs, this`blocked, this`acts, this`recScn
      ensures Valid() && acts == old(acts) + [Note(o.nowUs)]
      ensures Outcome(Persisted(), needDelete) == HandleOffline(old(Persisted()), o)
      ensures blocked == old(blocked) && blockTxTs.Some?
      ensures !o.leader ==> !needDelete && Persisted() == old(Persisted())
      ensures o.leader && old(state) == WaitGc ==> needDelete && Persisted() == old(Persisted())
      ensures o.leader && old(state) in {LsBlocked, WaitOffline} ==>
                offlineScn == if o.submitted.Some? then o.submitted else old(offlineScn)
      ensures needDelete <==>
                && o.leader
                && (|| old(state) == WaitGc
                    || (&& (old(state) == LsOffline || (old(state) in {LsBlocked, WaitOffline} && o.submitted.Some?))
                        && offlineScn.Some? && o.readable.Some? && offlineScn.value <= o.readable.value
                        && !o.delayRecycle && o.dropping.Some?
                        && (|| o.dropping == Some(true) || o.restoreOrClone
                            || (o.configValid && o.delayUs <= o.nowUs - offlineScn.value / 1000))))
      ensures state == if needDelete && o.persistOk then WaitGc
                       else if o.leader && old(state) in {LsBlocked, WaitOffline} && o.submitted.Some? then LsOffline
                       else old(state)
    {
      SetBlockTxIfNecessary(o.nowUs);
      needDelete := OfflineIfBlocked(o, failures);
    }

    /** What a leader does once the block time is noted: submit, or check, or answer again. */
    method OfflineIfBlocked(o: Observation, failures: nat) returns (needDelete: bool)
      requires Valid()
      modifies this`state, this`offlineScn, this`blockTxTs, this`blocked, this`acts, this`recScn
      ensures Valid() && acts == old(acts)
      ensures Outcome(Persisted(), needDelete) == HandleOffline(old(Persisted()), o)
    {
      needDelete := false;
      if !o.leader {
      } else if !state.IsValid() {
      } else if state.Rank() < LsBlocked.Rank() {
      } else if state == WaitGc {
        needDelete := true;
      } else if state == LsOffline {
        needDelete := TryCheckAndSetWaitGc(o);
      } else {
        ghost var seen;
        var success;
        success, seen := SubmitLog(LogType.OfflineLs, o.submitted, o.nowUs, failures);
        if success {
          needDelete := TryCheckAndSetWaitGc(o);
        }
      }
    }

    /**
     Before a replica is removed. For a living tenant success means that a block time is known and
     that read-only transactions are gone, or were given their time since it. Whether new ones were
     kept out depends on what happened since the restart.
     */
    method ExecutePreRemove(e: RemoveEnv) returns (code: Code)
      requires Valid()
      modifies this`blockTxTs, this`blocked, this`acts
      ensures Valid() && code == PreRemoveCode(old(InMemory()), e)
      ensures InMemory() == PreRemoveState(old(InMemory()), e)
      ensures e.dropping == Some(true) ==> code == Success && acts == old(acts)
      ensures e.dropping != Some(true) && code == Success ==>
                && blockTxTs.Some?
                && (e.readonlyTx == Success || (e.readonlyTx == Eagain && blockTxTs.value + e.waitUs < e.nowUs))
                && (blocked <==> NothingNoted(old(acts)) || BlockedSinceOnline(old(acts)))
      ensures code == Eagain ==> e.readonlyTx == Eagain && e.nowUs <= blockTxTs.value + e.waitUs
      ensures code == Success <==>
                || e.dropping == Some(true)
                || (&& (old(blockTxTs).Some? || e.blockOk)
                    && (|| e.readonlyTx == Success
                        || (e.readonlyTx == Eagain && e.configValid && blockTxTs.value + e.waitUs < e.nowUs)))
      ensures e.dropping != Some(true) && old(blockTxTs).None? && e.blockOk ==>
                blocked && blockTxTs == Some(e.nowUs)
      ensures e.dropping != Some(true) && (old(blockTxTs).Some? || e.blockOk) && e.readonlyTx != Eagain ==>
                code == e.readonlyTx
    {
      VolatileExact(acts);
      if e.dropping == Some(true) {
        return Success;
      }
      if blockTxTs.None? {
        if !e.blockOk { return OtherError(1); }
        BlockAllNow(e.nowUs);
      }
      code := e.readonlyTx;
      if code == Eagain {
        if !e.configValid {
          code := InvalidArgument;
        } else if blockTxTs.value + e.waitUs < e.nowUs {
          code := Success;
        }
      }
    }
  }
}
