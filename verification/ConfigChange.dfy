/**
 The retry loop that carries a membership change to whichever server leads the log stream.
 */
module ConfigChange {
  import opened Common

  type Server = int

  const RENEW_LEADER_INTERVAL_US := 500_000

  datatype CmdType =
    | ForceSingleMember | ForceSetMemberList | ChangeReplicaNum
    | AddMember | RemoveMember | ReplaceMember
    | AddLearner | RemoveLearner | SwitchToAcceptor | SwitchToLearner
    | TryLock | Unlock | GetLockStat
    | ReplaceLearners | ReplaceMemberWithLearner

  datatype Cmd = Cmd(kind: CmdType, added: Server, removed: Server, timeoutUs: int, fieldsValid: bool)

  predicate IsAdd(req: Cmd) {
    req.kind in {AddMember, ReplaceMember, SwitchToAcceptor, ReplaceMemberWithLearner}
  }

  predicate IsRemove(req: Cmd) {
    req.kind in {RemoveMember, ReplaceMember, SwitchToLearner, ReplaceMemberWithLearner}
  }

  predicate IsValid(req: Cmd) {
    req.fieldsValid && 0 < req.timeoutUs
  }

  /** What the loop does to the outside world. */
  datatype Event =
    | Unlisted(server: Server)                          // taken off the election blacklist
    | Sent(leader: Server, reply: Option<Code>)         // the command, and the reply if one came
    | Blacklisted(server: Server)
    | Renewed(at: int, code: Code)                      // asked the location cache for the leader

  /** No command that adds a server goes out before that server is off the blacklist. */
  ghost predicate UnlistedBeforeSent(req: Cmd, tr: seq<Event>) {
    IsAdd(req) ==> forall i :: 0 <= i < |tr| ==> (tr[i].Sent? ==> Unlisted(req.added) in tr[..i])
  }

  /** Only a command that adds a server takes that server off the blacklist. */
  ghost predicate UnlistedRightly(req: Cmd, tr: seq<Event>) {
    forall i :: 0 <= i < |tr| ==> (tr[i].Unlisted? ==> IsAdd(req) && tr[i].server == req.added)
  }

  /** Only the removed member is blacklisted, straight after it refused as the leader. */
  ghost predicate BlacklistedRightly(req: Cmd, tr: seq<Event>) {
    forall i: nat :: i < |tr| ==> RightAt(req, tr, i)
  }

  ghost predicate RightAt(req: Cmd, tr: seq<Event>, i: nat)
    requires i < |tr|
  {
    tr[i].Blacklisted? ==>
      && IsRemove(req) && tr[i].server == req.removed
      && 0 < i && tr[i - 1] == Sent(req.removed, Some(NotAllowRemovingLeader))
  }

  ghost predicate BlacklistedOnce(tr: seq<Event>) {
    forall i, j :: 0 <= i < j < |tr| ==> !(tr[i].Blacklisted? && tr[j].Blacklisted?)
  }

  ghost predicate RenewalsSpaced(tr: seq<Event>) {
    forall i, j :: 0 <= i < j < |tr| && tr[i].Renewed? && tr[j].Renewed? ==>
      RENEW_LEADER_INTERVAL_US < tr[j].at - tr[i].at
  }

  ghost predicate Safe(req: Cmd, tr: seq<Event>) {
    && UnlistedBeforeSent(req, tr) && UnlistedRightly(req, tr) && BlacklistedRightly(req, tr)
    && BlacklistedOnce(tr) && RenewalsSpaced(tr)
  }

  /** Replies after which the loop tries again. */
  predicate Retryable(req: Cmd, leader: Server, code: Code) {
    || code == Eagain || code == NotMaster
    || (code == NotAllowRemovingLeader && IsRemove(req) && req.removed == leader)
  }

  /** The last thing done gave a code that ends the loop: a final reply, or a failed renewal. */
  ghost predicate EndsWith(req: Cmd, tr: seq<Event>, code: Code) {
    && 0 < |tr|
    && var last := tr[|tr| - 1];
       || (last.Sent? && last.reply == Some(code) && !Retryable(req, last.leader, code))
       || (last.Renewed? && last.code == code)
  }

  predicate Accepted(e: Event) {
    e.Sent? && e.reply == Some(Success)
  }

  /** The command was accepted and nothing was done after that. */
  ghost predicate EndsAccepted(tr: seq<Event>) {
    0 < |tr| && Accepted(tr[|tr| - 1])
  }

  ghost predicate NeverAccepted(tr: seq<Event>) {
    forall i :: 0 <= i < |tr| ==> !Accepted(tr[i])
  }

  ghost predicate NeverBlacklisted(tr: seq<Event>) {
    forall i :: 0 <= i < |tr| ==> !tr[i].Blacklisted?
  }

  ghost predicate RenewedBefore(tr: seq<Event>, t: int) {
    forall i :: 0 <= i < |tr| ==> (tr[i].Renewed? ==> tr[i].at <= t)
  }

  /** One event more; which clause it can break depends on what it is. */
  lemma SafeGrows(req: Cmd, tr: seq<Event>, e: Event)
    requires Safe(req, tr)
    requires e.Sent? && IsAdd(req) ==> Unlisted(req.added) in tr
    requires e.Unlisted? ==> IsAdd(req) && e.server == req.added
    requires e.Blacklisted? ==>
               && IsRemove(req) && e.server == req.removed && NeverBlacklisted(tr)
               && 0 < |tr| && tr[|tr| - 1] == Sent(req.removed, Some(NotAllowRemovingLeader))
    requires e.Renewed? ==> forall i :: 0 <= i < |tr| ==> (tr[i].Renewed? ==>
              RENEW_LEADER_INTERVAL_US < e.at - tr[i].at)
    ensures Safe(req, tr + [e])
  {
    forall i | 0 <= i < |tr + [e]| && (tr + [e])[i].Sent? && IsAdd(req)
      ensures Unlisted(req.added) in (tr + [e])[..i]
    {
      assert (tr + [e])[..i] == tr[..i];
      assert i == |tr| ==> tr[..i] == tr;
    }
    forall i: nat | i < |tr + [e]| ensures RightAt(req, tr + [e], i) {
      assert i < |tr| ==> RightAt(req, tr, i);
    }
  }

  lemma SafeSpelledOut(req: Cmd, tr: seq<Event>)
    requires Safe(req, tr)
    ensures req.kind in {AddMember, ReplaceMember, SwitchToAcceptor, ReplaceMemberWithLearner} ==>
              forall i :: 0 <= i < |tr| ==> (tr[i].Sent? ==> Unlisted(req.added) in tr[..i])
    ensures forall i :: 0 <= i < |tr| ==> (tr[i].Unlisted? ==>
              && req.kind in {AddMember, ReplaceMember, SwitchToAcceptor, ReplaceMemberWithLearner}
              && tr[i].server == req.added)
    ensures forall i {:trigger tr[i].Blacklisted?} :: 0 <= i < |tr| ==> (tr[i].Blacklisted? ==>
              && req.kind in {RemoveMember, ReplaceMember, SwitchToLearner, ReplaceMemberWithLearner}
              && tr[i].server == req.removed
              && 0 < i && tr[i - 1] == Sent(req.removed, Some(NotAllowRemovingLeader)))
    ensures forall i, j :: 0 <= i < j < |tr| && tr[i].Renewed? && tr[j].Renewed? ==>
              500_000 < tr[j].at - tr[i].at
  {
    forall i | 0 <= i < |tr| && tr[i].Blacklisted?
      ensures
        && req.kind in {RemoveMember, ReplaceMember, SwitchToLearner, ReplaceMemberWithLearner}
        && tr[i].server == req.removed
        && 0 < i && tr[i - 1] == Sent(req.removed, Some(NotAllowRemovingLeader))
    {
      assert RightAt(req, tr, i);
    }
  }

  class LogHandler {
    const self: Server
    var inited: bool
    var stopped: bool
    var clock: int
    ghost var trace: seq<Event>

    constructor (me: Server, ready: bool)
      ensures trace == [] && clock == 0
    {
      self, inited, stopped, clock, trace := me, ready, false, 0, [];
    }

    method Note(ghost e: Event)
      modifies this`trace
      ensures trace == old(trace) + [e]
    {
      trace := trace + [e];
    }

    /** Time passes between two passes of the loop; the handler may be stopped meanwhile. */
    method Tick()
      modifies this`clock, this`stopped, this`inited
      ensures old(clock) < clock
    {
      var d: nat :| true;
      var s: bool :| true;
      var n: bool :| true;
      clock, stopped, inited := clock + 1 + d, s, n;
    }

    method ReadClock() returns (t: int)
      modifies this`clock
      ensures old(clock) <= t == clock
    {
      var d: nat :| true;
      clock := clock + d;
      t := clock;
    }

    /** Ask the leader, found through the location cache, to run the command. */
    method SendToLeader(req: Cmd, leader: Server) returns (reply: Option<Code>)
      modifies this`trace
      ensures trace == old(trace) + [Sent(leader, reply)]
      ensures leader == self ==> reply.Some?
    {
      var answer: Code :| true;
      var lost: bool :| true;
      reply := if leader != self && lost then None else Some(answer);
      Note(Sent(leader, reply));
    }

    /** Before a command that adds a server: that server must be off the election blacklist. */
    method EnsureUnlisted(req: Cmd, hasRemoved: bool) returns (ok: bool)
      requires Safe(req, trace) && NeverAccepted(trace)
      requires hasRemoved ==> Unlisted(req.added) in trace
      modifies this`trace
      ensures Safe(req, trace) && NeverAccepted(trace) && (NeverBlacklisted(old(trace)) ==> NeverBlacklisted(trace))
      ensures ok && IsAdd(req) ==> Unlisted(req.added) in trace
      ensures hasRemoved ==> ok && Unlisted(req.added) in trace
      ensures forall t :: RenewedBefore(old(trace), t) ==> RenewedBefore(trace, t)
      ensures old(trace) <= trace
    {
      ok := true;
      if IsAdd(req) && !hasRemoved {
        ok :| true;
        if ok {
          SafeGrows(req, trace, Unlisted(req.added));
          Note(Unlisted(req.added));
        }
      }
    }

    /** One command attempt; `done` when the reply holds success. */
    method AttemptOnce(req: Cmd, hasAdded: bool) returns (code: Code, done: bool, needRenew: bool, added: bool)
      requires Safe(req, trace) && NeverAccepted(trace)
      requires IsAdd(req) ==> Unlisted(req.added) in trace
      requires !hasAdded ==> NeverBlacklisted(trace)
      modifies this`trace
      ensures Safe(req, trace) && old(trace) <= trace
      ensures done ==> code == Success && EndsAccepted(trace)
      ensures !done && code !in {Success, NotMaster} ==> EndsWith(req, trace, code) && !needRenew
      ensures NeverAccepted(if done then trace[..|trace| - 1] else trace)
      ensures hasAdded ==> added
      ensures !added ==> NeverBlacklisted(trace)
      ensures forall t :: RenewedBefore(old(trace), t) ==> RenewedBefore(trace, t)
    {
      code, done, needRenew, added := Success, false, false, hasAdded;
      var leader: Option<Server> :| true;
      if leader.None? {
        needRenew := true;
        return;
      }
      ghost var before := trace;
      var reply := SendToLeader(req, leader.value);
      SafeGrows(req, before, Sent(leader.value, reply));
      assert trace[..|trace| - 1] == before;
      if reply.None? {
        return;                             // the call failed: try again
      }
      code := reply.value;
      if code == Success {
        done := true;
      } else if code == Eagain {
        code := Success;
      } else if code == NotMaster {
        needRenew := true;
      } else if code == NotAllowRemovingLeader && IsRemove(req) && req.removed == leader.value {
        code := Success;
        if !hasAdded {
          var listed: bool :| true;
          if listed {
            SafeGrows(req, trace, Blacklisted(leader.value));
            Note(Blacklisted(leader.value));
            added, needRenew := true, true;
          }
        }
      }
    }

    /** Renew the cached leader, not more often than every half second. */
    method RenewLeader(req: Cmd, code0: Code, needRenew: bool, last0: int) returns (code: Code, last: int)
      requires Safe(req, trace) && NeverAccepted(trace) && RenewedBefore(trace, last0) && last0 <= clock
      modifies this`trace, this`clock
      ensures Safe(req, trace) && NeverAccepted(trace) && RenewedBefore(trace, last) && last <= clock
      ensures NeverBlacklisted(old(trace)) ==> NeverBlacklisted(trace)
      ensures old(trace) <= trace && old(clock) <= clock
      ensures (trace == old(trace) && code == code0) || EndsWith(req, trace, code)
      ensures !needRenew ==> trace == old(trace) && code == code0
    {
      code, last := code0, last0;
      if needRenew {
        var now := ReadClock();
        if RENEW_LEADER_INTERVAL_US < now - last0 {
          last := ReadClock();
          code :| true;
          SafeGrows(req, trace, Renewed(last, code));
          Note(Renewed(last, code));
        }
      }
    }

    /** The retry loop. */
    method Retry(req: Cmd) returns (code: Code)
      requires trace == []
      requires 0 <= clock
      modifies this
      ensures Safe(req, trace)
      ensures code == Success <==> EndsAccepted(trace)
      ensures NeverAccepted(if code == Success then trace[..|trace| - 1] else trace)
      ensures !IsValid(req) ==> code == InvalidArgument && trace == []
      ensures IsValid(req) ==> code != NotMaster
      ensures IsValid(req) && code !in {Success, NotInit, NotRunning} ==>
                (code == Timeout && req.timeoutUs <= clock - old(clock)) || EndsWith(req, trace, code)
    {
      code := Success;
      if !IsValid(req) {
        return InvalidArgument;
      }
      var start := clock;
      var last := -1;                       // OB_INVALID_TIMESTAMP
      var hasAdded, hasRemoved, done := false, false, false;
      while code == Success || code == NotMaster
        invariant Safe(req, trace) && NeverAccepted(trace)
        invariant RenewedBefore(trace, last) && last <= clock && start <= clock
        invariant !hasAdded ==> NeverBlacklisted(trace)
        invariant hasRemoved ==> Unlisted(req.added) in trace
        invariant code in {Success, NotMaster} || EndsWith(req, trace, code)
        decreases if clock - start < req.timeoutUs then req.timeoutUs - (clock - start) else 0
      {
        if !inited {
          return NotInit;
        } else if stopped {
          return NotRunning;
        } else if req.timeoutUs <= clock - start {
          return Timeout;
        }
        var ok := EnsureUnlisted(req, hasRemoved);
        if !ok {
          Tick();
          continue;
        }
        hasRemoved := hasRemoved || IsAdd(req);
        var needRenew;
        code, done, needRenew, hasAdded := AttemptOnce(req, hasAdded);
        if done {
          return;
        }
        code, last := RenewLeader(req, code, needRenew, last);
        Tick();
      }
    }

    /**
     Success is answered exactly when the last thing done was a command attempt whose reply holds
     success, and no earlier reply did. On the way no command adds a server that may still be on
     the blacklist, and at most one leader is blacklisted: the member being removed.
     */
    method SubmitConfigChange(req: Cmd) returns (code: Code)
      requires trace == []
      requires 0 <= clock
      modifies this
      ensures Safe(req, trace)
      ensures req.kind in {AddMember, ReplaceMember, SwitchToAcceptor, ReplaceMemberWithLearner} ==>
                forall i :: 0 <= i < |trace| ==> (trace[i].Sent? ==> Unlisted(req.added) in trace[..i])
      ensures forall i :: 0 <= i < |trace| ==> (trace[i].Unlisted? ==>
                && req.kind in {AddMember, ReplaceMember, SwitchToAcceptor, ReplaceMemberWithLearner}
                && trace[i].server == req.added)
      ensures forall i {:trigger trace[i].Blacklisted?} :: 0 <= i < |trace| ==> (trace[i].Blacklisted? ==>
                && req.kind in {RemoveMember, ReplaceMember, SwitchToLearner, ReplaceMemberWithLearner}
                && trace[i].server == req.removed
                && 0 < i && trace[i - 1] == Sent(req.removed, Some(NotAllowRemovingLeader)))
      ensures forall i, j :: 0 <= i < j < |trace| && trace[i].Renewed? && trace[j].Renewed? ==>
                500_000 < trace[j].at - trace[i].at
      ensures code == Success <==> EndsAccepted(trace)
      ensures NeverAccepted(if code == Success then trace[..|trace| - 1] else trace)
      ensures !IsValid(req) ==> code == InvalidArgument && trace == []
      ensures IsValid(req) ==> code != NotMaster
      ensures IsValid(req) && code !in {Success, NotInit, NotRunning} ==>
                (code == Timeout && req.timeoutUs <= clock - old(clock)) || EndsWith(req, trace, code)
      ensures IsValid(req) && code !in {Success, NotInit, NotRunning, Timeout} && trace[|trace| - 1].Sent? ==>
                && trace[|trace| - 1].reply == Some(code) && code != Eagain && code != NotMaster
                && !(&& code == NotAllowRemovingLeader && trace[|trace| - 1].leader == req.removed
                     && req.kind in {RemoveMember, ReplaceMember, SwitchToLearner, ReplaceMemberWithLearner})
    {
      code := Retry(req);
      SafeSpelledOut(req, trace);
    }
  }
}
