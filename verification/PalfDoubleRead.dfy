/**
 Reading something off the leader without a lock: read the role, read the data, read the role again.

 Palf changes on its own between any two reads, and also between the separate reads that make up
 one role query. What is assumed of it is that proposal ids never go back and that a replica which
 stopped leading leads again only under a larger id.
 */
module PalfDoubleRead {
  import opened Common

  type Server = int
  type ConfigVersion = int

  const MAX_PROPOSAL_ID: nat := 0x7FFF_FFFF_FFFF_FFFF

  datatype Role = Leader | Follower

  datatype Instant = Instant(
    leading: bool,                       // role LEADER in state ACTIVE
    waiting: bool,                       // state RECONFIRM or PENDING
    modePending: bool,
    proposalId: nat,
    electionAgrees: bool,                // the election layer still has the leader's epoch
    members: set<Server>,
    learners: map<Server, bool>,         // each learner and whether it is migrating
    config: ConfigVersion)

  predicate IdGrows(h: seq<Instant>, i: nat, j: nat)
    requires i <= j < |h|
  {
    h[i].proposalId <= h[j].proposalId <= MAX_PROPOSAL_ID
  }

  predicate LeadsAgainHigher(h: seq<Instant>, i: nat, j: nat, k: nat)
    requires i < j < k < |h|
  {
    h[i].leading && !h[j].leading && h[k].leading ==> h[i].proposalId < h[k].proposalId
  }

  /** The instants palf went through: ids grow, and leading again takes a larger id. */
  predicate WellFormed(h: seq<Instant>) {
    && (forall i: nat, j: nat :: i <= j < |h| ==> IdGrows(h, i, j))
    && (forall i: nat, j: nat, k: nat :: i < j < k < |h| ==> LeadsAgainHigher(h, i, j, k))
  }

  ghost predicate LeadsAt(h: seq<Instant>, i: nat, id: nat) {
    i < |h| && h[i].leading && h[i].proposalId == id
  }

  /** Leader under one unchanged id from lo to hi. */
  ghost predicate LeadsThroughout(h: seq<Instant>, lo: nat, hi: nat, id: nat) {
    lo <= hi < |h| && forall i :: lo <= i <= hi ==> LeadsAt(h, i, id)
  }

  /** From lo on palf leads under this id with nothing unsettled. */
  ghost predicate Steady(h: seq<Instant>, lo: nat, id: nat) {
    forall i :: lo <= i < |h| ==> Settled(h[i], id)
  }

  predicate Settled(x: Instant, id: nat) {
    x.leading && !x.waiting && !x.modePending && x.electionAgrees && x.proposalId == id
  }

  /** What holds of a whole call holds of its first part, and of its rest. */
  lemma SteadyParts(h: seq<Instant>, g: seq<Instant>, lo: nat, mid: nat, id: nat)
    requires h <= g && lo <= mid
    ensures Steady(g, lo, id) ==> Steady(h, lo, id) && Steady(g, mid, id)
  {
    if Steady(g, lo, id) {
      forall i | lo <= i < |h| ensures Settled(h[i], id) {
        assert Settled(g[i], id);
      }
    }
  }

  function FirstFailure(a: Code, b: Code, c: Code): Code {
    if a != Success then a else if b != Success then b else c
  }

  /** Two sightings of the same leadership prove it for the whole time between them. */
  lemma NoAba(h: seq<Instant>, lo: nat, hi: nat, id: nat)
    requires WellFormed(h) && lo <= hi
    requires LeadsAt(h, lo, id) && LeadsAt(h, hi, id)
    ensures LeadsThroughout(h, lo, hi, id)
  {
    forall i | lo <= i <= hi ensures LeadsAt(h, i, id) {
      assert IdGrows(h, lo, i) && IdGrows(h, i, hi);
      if lo < i < hi {
        assert LeadsAgainHigher(h, lo, i, hi);
      }
    }
  }

  /** One sighting is not enough: a list read later may not be the leader's. */
  lemma OneReadIsNotEnough(led: Instant)
    requires led.leading && led.proposalId <= MAX_PROPOSAL_ID
    ensures exists h: seq<Instant> :: WellFormed(h) && LeadsAt(h, 0, led.proposalId) && |h| == 2 && !h[1].leading
                        && h[1].members != led.members
  {
    var lost := led.(leading := false, members := if led.members == {} then {1} else {});
    var h := [led, lost];
    assert WellFormed(h) && LeadsAt(h, 0, led.proposalId) && !h[1].leading && h[1].members != led.members;
  }

  /** How a double read ended. */
  datatype Sight = LostLead | ReadFailed | SecondFailed | Stable

  /** The handler's double reads over a palf that keeps moving. */
  class LogHandler {
    var inited: bool
    var stopped: bool
    var history: seq<Instant>            // what palf went through so far; the last one is current

    ghost predicate Valid()
      reads this
    {
      WellFormed(history) && 0 < |history|
    }

    function Now(): Instant
      requires 0 < |history|
      reads this
    {
      history[|history| - 1]
    }

    /** Time passes: palf goes through any number of further instants. */
    method Drift()
      requires Valid()
      modifies this`history
      ensures Valid() && old(history) <= history
    {
      assert history + [] == history;
      var more: seq<Instant> :| WellFormed(history + more);
      history := history + more;
    }

    /**
     Palf's own role query: separate reads of the pending flag, the id, the epoch, the role and
     state, repeated while the id changes under it. Leader is answered only if at one instant
     within the call palf led under the id that is answered; while palf leads undisturbed, leader
     is what is answered.
     */
    method GetRole() returns (role: Role, id: nat, pending: bool, ghost calm: nat, ghost at: nat)
      requires Valid()
      modifies this`history
      ensures Valid() && old(history) <= history
      ensures |old(history)| - 1 <= calm <= at < |history|
      ensures history[at].proposalId == id
      ensures role == Leader ==> LeadsAt(history, at, id) && pending == history[calm].modePending
      ensures Steady(history, |old(history)| - 1, old(Now().proposalId)) ==>
                role == Leader && !pending && id == old(Now().proposalId)
    {
      pending, id, role, at := Now().modePending, Now().proposalId, Follower, |history| - 1;
      calm := at;
      ghost var since := at;
      while true
        invariant Valid() && old(history) <= history
        invariant |old(history)| - 1 <= since < |history|
        invariant since == |history| - 1
        decreases MAX_PROPOSAL_ID - Now().proposalId
      {
        pending, calm := Now().modePending, |history| - 1;
        Drift();
        id := Now().proposalId;
        ghost var idAt := |history| - 1;
        Drift();
        at := |history| - 1;
        role := Follower;
        if !Now().leading {
          if Now().waiting {
            pending := true;
          }
        } else {
          Drift();
          if !Now().electionAgrees {
            pending := true;
          } else {
            role := Leader;
          }
        }
        Drift();
        assert IdGrows(history, idAt, at) && IdGrows(history, at, |history| - 1);
        assert IdGrows(history, since, idAt);
        if id == Now().proposalId {
          break;
        }
        since := |history| - 1;
      }
    }

    /** The first look: whether palf is seen to lead, and nothing is pending if that matters. */
    method SeenLeading(calmNeeded: bool) returns (led: bool, id: nat, ghost calm: nat, ghost at: nat)
      requires Valid()
      modifies this`history
      ensures Valid() && old(history) <= history
      ensures |old(history)| - 1 <= calm <= at < |history|
      ensures led ==> LeadsAt(history, at, id) && (calmNeeded ==> !history[calm].modePending)
      ensures Steady(history, |old(history)| - 1, old(Now().proposalId)) ==> led && id == old(Now().proposalId)
    {
      var role, pending;
      role, id, pending, calm, at := GetRole();
      led := role == Leader && !(calmNeeded && pending);
    }

    /** The second look: whether palf is seen to lead under this id again. */
    method SeenAgain(id: nat) returns (same: bool, ghost at: nat)
      requires Valid()
      modifies this`history
      ensures Valid() && old(history) <= history
      ensures |old(history)| - 1 <= at < |history|
      ensures same ==> LeadsAt(history, at, id)
      ensures Steady(history, |old(history)| - 1, id) ==> same
    {
      ghost var before := |history| - 1;
      var role, newId, pending;
      ghost var calm;
      role, newId, pending, calm, at := GetRole();
      same := role == Leader && newId == id;
      assert Steady(history, before, id) ==> Settled(history[before], id);
    }

    /** Time passes, and what held since `start` held before. */
    method Pass(ghost start: nat, ghost id: nat)
      requires Valid() && start < |history|
      modifies this`history
      ensures Valid() && old(history) <= history
      ensures Steady(history, start, id) ==> Steady(old(history), start, id)
    {
      Drift();
      SteadyParts(old(history), history, start, start, id);
    }

    /**
     Read the role, read the data, read the role again. What was read at k counts only if palf led
     under one unchanged id from lo to hi, around k; while palf leads undisturbed it does count,
     unless one of the reads fails.
     */
    method ReadTwice(calmNeeded: bool, read: Code, role2: Code)
      returns (sight: Sight, data: Instant, ghost calm: nat, ghost lo: nat, ghost k: nat, ghost hi: nat, ghost id: nat)
      requires Valid()
      modifies this`history
      ensures Valid() && old(history) <= history
      ensures sight == Stable ==>
                && |old(history)| - 1 <= calm <= lo <= k <= hi
                && LeadsThroughout(history, lo, hi, id) && data == history[k]
                && (calmNeeded ==> !history[calm].modePending)
      ensures sight == ReadFailed ==> read != Success
      ensures sight == SecondFailed ==> read == Success && role2 != Success
      ensures Steady(history, |old(history)| - 1, old(Now().proposalId)) ==>
                sight == if read != Success then ReadFailed else if role2 != Success then SecondFailed else Stable
    {
      ghost var start, now := |history| - 1, Now().proposalId;
      data, k, hi := Now(), 0, 0;
      var led, proposalId, settled, first := SeenLeading(calmNeeded);
      calm, lo, id := settled, first, proposalId;
      if !led {
        return LostLead, data, calm, lo, k, hi, id;
      }
      Pass(start, now);
      if read != Success {
        return ReadFailed, data, calm, lo, k, hi, id;
      }
      data, k := Now(), |history| - 1;
      Pass(start, now);
      if role2 != Success {
        return SecondFailed, data, calm, lo, k, hi, id;
      }
      ghost var h := history;
      var same, second := SeenAgain(proposalId);
      hi := second;
      SteadyParts(h, history, start, |h| - 1, now);
      if !same {
        return LostLead, data, calm, lo, k, hi, id;
      }
      NoAba(history, lo, hi, id);
      sight := Stable;
    }

    /** A config version is answered only if it was read while palf led under one unchanged id. */
    method GetLeaderConfigVersion(role1: Code, read: Code, role2: Code)
      returns (code: Code, config: Option<ConfigVersion>,
               ghost calm: nat, ghost lo: nat, ghost k: nat, ghost hi: nat, ghost id: nat)
      requires Valid()
      modifies this`history
      ensures Valid() && old(history) <= history
      ensures code == Success ==>
                && |old(history)| - 1 <= calm <= lo <= k <= hi
                && LeadsThroughout(history, lo, hi, id)
                && config == Some(history[k].config)
                && !history[calm].modePending
      ensures !inited ==> code == NotInit
      ensures inited && stopped ==> code == NotRunning
      ensures inited && !stopped && Steady(history, |old(history)| - 1, old(Now().proposalId)) ==>
                code == FirstFailure(role1, read, role2)
    {
      code, config, calm, lo, k, hi, id := Success, None, 0, 0, 0, 0, 0;
      if !inited {
        code := NotInit;
        return;
      }
      if stopped {
        code := NotRunning;
        return;
      }
      if role1 != Success {
        code := role1;
        return;
      }
      var sight, data;
      sight, data, calm, lo, k, hi, id := ReadTwice(true, read, role2);
      match sight {
        case LostLead => code := NotMaster;
        case ReadFailed => code := read;
        case SecondFailed => code := role2;
        case Stable => config := Some(data.config);
      }
    }

    /**
     A server is called an invalid member only by lists read while palf led under one unchanged
     id, and then it is in neither list.
     */
    method GetMemberGcStat(addr: Server, addrValid: bool, role1: Code, read: Code, role2: Code)
      returns (code: Code, validMember: bool, migrating: bool,
               ghost lo: nat, ghost k: nat, ghost hi: nat, ghost id: nat)
      requires Valid()
      modifies this`history
      ensures Valid() && old(history) <= history
      ensures !validMember ==> code == Success
      ensures code == Success ==>
                && |old(history)| - 1 <= lo <= k <= hi
                && LeadsThroughout(history, lo, hi, id)
                && (validMember <==> addr in history[k].members || addr in history[k].learners)
                && (migrating <==> addr in history[k].learners && history[k].learners[addr])
      ensures !inited ==> code == NotInit
      ensures inited && stopped ==> code == NotRunning
      ensures inited && !stopped && !addrValid ==> code == InvalidArgument
      ensures inited && !stopped && addrValid && Steady(history, |old(history)| - 1, old(Now().proposalId)) ==>
                code == if FirstFailure(role1, read, role2) == Success then Success else Unexpected
    {
      code, validMember, migrating, lo, k, hi, id := Success, true, false, 0, 0, 0, 0;
      if !inited {
        code := NotInit;
        return;
      }
      if stopped {
        code := NotRunning;
        return;
      }
      if !addrValid {
        code := InvalidArgument;
        return;
      }
      if role1 != Success {
        code := Unexpected;
        return;
      }
      var sight, data;
      ghost var calm;
      sight, data, calm, lo, k, hi, id := ReadTwice(false, read, role2);
      match sight {
        case LostLead => code := NotMaster;
        case ReadFailed => code := Unexpected;
        case SecondFailed => code := Unexpected;
        case Stable =>
          validMember := addr in data.members || addr in data.learners;
          if addr in data.learners {
            migrating := data.learners[addr];
          }
      }
    }
  }
}
