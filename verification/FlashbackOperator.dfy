/**
 The per-stream operators of a tenant flashback and the network they talk to.
 */
module FlashbackOperator {
  import opened Common
  import opened FlashbackTrace

  /**
   Replicas, leaders, the location cache and the clock. Every answer is arbitrary; the ghost trace
   records what was answered and sent.
   */
  class Network {
    ghost var trace: seq<Event>
    var clock: int

    constructor ()
      ensures trace == []
    {
      trace := [];
      clock := 0;
    }

    method GetLeader(ls: LsId) returns (leader: Option<Addr>)
    {
      leader :| true;
    }

    method LeaderPalfStat(ls: LsId, leader: Addr) returns (reply: Option<PalfStat>)
      modifies this
      ensures old(clock) <= clock
      ensures reply.None? ==> trace == old(trace)
      ensures reply.Some? ==> trace == old(trace) + [LeaderStat(ls, reply.value)]
    {
      reply :| true;
      if reply.Some? {
        trace := trace + [LeaderStat(ls, reply.value)];
      }
      Spend();
    }

    method ReplicaPalfStat(ls: LsId, server: Addr) returns (reply: Option<PalfStat>)
      modifies this
      ensures old(clock) <= clock
      ensures trace == old(trace) + [if reply.Some?
                                     then ReplicaStat(ls, server, reply.value.endScn, reply.value.maxScn)
                                     else ReplicaSilent(ls, server)]
    {
      reply :| true;
      trace := trace + [if reply.Some?
                        then ReplicaStat(ls, server, reply.value.endScn, reply.value.maxScn)
                        else ReplicaSilent(ls, server)];
      Spend();
    }

    method Send(e: Event)
      modifies this
      ensures old(clock) <= clock && trace == old(trace) + [e]
    {
      trace := trace + [e];
      Spend();
    }

    method Spend()
      modifies this`clock
      ensures old(clock) <= clock
    {
      var spent: nat :| true;
      clock := clock + spent;
    }

    /** Between two passes of a retry loop the clock moves on. */
    method Tick()
      modifies this`clock
      ensures old(clock) < clock
    {
      var spent: nat :| true;
      clock := clock + spent + 1;
    }
  }

  /** The event is the reply, or the silence, of a listed server of the stream. */
  predicate AboutServer(e: Event, ls: LsId, list: seq<Addr>) {
    (e.ReplicaStat? || e.ReplicaSilent?) && e.ls == ls && e.server in list
  }

  ghost predicate AboutServers(t: seq<Event>, lo: nat, hi: nat, ls: LsId, list: seq<Addr>) {
    forall i :: lo <= i < hi <= |t| ==> AboutServer(t[i], ls, list)
  }

  lemma RepliesGrow(t: seq<Event>, u: seq<Event>, lo: nat, ls: LsId, scn: Scn)
    requires t <= u
    ensures forall s :: SyncedIn(t, lo, |t|, ls, scn, s) ==> SyncedIn(u, lo, |u|, ls, scn, s)
    ensures forall s :: ShortIn(t, lo, |t|, ls, scn, s) ==> ShortIn(u, lo, |u|, ls, scn, s)
  {
    forall s | SyncedIn(t, lo, |t|, ls, scn, s) ensures SyncedIn(u, lo, |u|, ls, scn, s) {
      SyncedGrows(t, u, lo, |t|, ls, scn, s);
    }
    forall s | ShortIn(t, lo, |t|, ls, scn, s) ensures ShortIn(u, lo, |u|, ls, scn, s) {
      var i :| lo <= i < |t| && ReplicaShort(t[i], ls, scn, s);
      assert ReplicaShort(u[i], ls, scn, s);
    }
  }

  /** Every server asked since lo has answered. */
  ghost predicate NoSilence(t: seq<Event>, lo: nat) {
    forall i :: lo <= i < |t| ==> !t[i].ReplicaSilent?
  }

  /** Where a round of status queries over `list` stands, with what came of it since lo. */
  ghost predicate ListChecked(t: seq<Event>, lo: nat, ls: LsId, scn: Scn, list: seq<Addr>, sync0: set<Addr>,
                              sync: set<Addr>, short: nat, code: Code)
  {
    && lo <= |t| && OnlyReplicaStats(t, lo, |t|) && AboutServers(t, lo, |t|, ls, list)
    && sync0 <= sync && (forall s :: s in sync - sync0 ==> SyncedIn(t, lo, |t|, ls, scn, s))
    && (code == Success || code == Eagain) && (code == Eagain <==> LagsIn(t, lo, |t|, scn))
    && (code == Success ==> forall s :: s in list ==> s in sync)
    && short == ShortCount(t, lo, scn) && short <= |list|
    && (short == |list| ==> forall s :: s in list ==> ShortIn(t, lo, |t|, ls, scn, s))
  }

  /** A server known to be synced is not asked again. */
  lemma ListCheckedSkip(t: seq<Event>, lo: nat, ls: LsId, scn: Scn, list: seq<Addr>, sync0: set<Addr>,
                        sync: set<Addr>, short: nat, code: Code, server: Addr)
    requires ListChecked(t, lo, ls, scn, list, sync0, sync, short, code) && server in sync
    ensures ListChecked(t, lo, ls, scn, list + [server], sync0, sync, short, code)
  {
    AboutMore(t, lo, ls, list, server);
  }

  lemma AboutMore(t: seq<Event>, lo: nat, ls: LsId, list: seq<Addr>, server: Addr)
    requires AboutServers(t, lo, |t|, ls, list)
    ensures AboutServers(t, lo, |t|, ls, list + [server])
  {
    forall i | lo <= i < |t| ensures AboutServer(t[i], ls, list + [server]) {
      assert AboutServer(t[i], ls, list);
    }
  }

  /** One more server has answered with e, or was silent. */
  lemma ListCheckedStep(t: seq<Event>, e: Event, lo: nat, ls: LsId, scn: Scn, list: seq<Addr>, sync0: set<Addr>,
                        sync: set<Addr>, short: nat, code: Code, server: Addr)
    requires ListChecked(t, lo, ls, scn, list, sync0, sync, short, code)
    requires AboutServer(e, ls, [server])
    ensures ListChecked(t + [e], lo, ls, scn, list + [server], sync0,
                        if Lags(e, scn) then sync else sync + {server},
                        if e.ReplicaStat? && e.maxScn <= e.endScn < scn then short + 1 else short,
                        if Lags(e, scn) then Eagain else code)
  {
    var u := t + [e];
    assert u[..|t|] == t && u[|t|] == e && e.server == server;
    LagsMore(t, u, lo, scn);
    RepliesGrow(t, u, lo, ls, scn);
    AboutMore(t, lo, ls, list, server);
    if !Lags(e, scn) {
      assert ReplicaSynced(u[|t|], ls, scn, server);
    }
    if e.ReplicaStat? && e.maxScn <= e.endScn < scn {
      assert ReplicaShort(u[|t|], ls, scn, server);
    }
  }

  /** What makes a round retry is the reply, or silence, of one of the listed servers. */
  lemma LaggingServer(t: seq<Event>, lo: nat, ls: LsId, scn: Scn, list: seq<Addr>)
    requires AboutServers(t, lo, |t|, ls, list)
    ensures LagsIn(t, lo, |t|, scn) ==>
              exists k, i :: 0 <= k < |list| && lo <= i < |t| && ReplicaLagging(t[i], ls, scn, list[k])
  {
    if LagsIn(t, lo, |t|, scn) {
      var i :| lo <= i < |t| && Lags(t[i], scn);
      assert AboutServer(t[i], ls, list);
      var k :| 0 <= k < |list| && list[k] == t[i].server;
      assert ReplicaLagging(t[i], ls, scn, list[k]);
    }
  }

  lemma LagsMore(t: seq<Event>, u: seq<Event>, lo: nat, scn: Scn)
    requires t < u && |u| == |t| + 1 && lo <= |t|
    ensures LagsIn(u, lo, |u|, scn) <==> LagsIn(t, lo, |t|, scn) || Lags(u[|t|], scn)
  {
    if i :| lo <= i < |t| && Lags(t[i], scn) {
      assert Lags(u[i], scn);
    }
  }

  lemma LagsSplit(t: seq<Event>, u: seq<Event>, lo: nat, scn: Scn)
    requires t <= u && lo <= |t|
    ensures LagsIn(u, lo, |u|, scn) <==> LagsIn(t, lo, |t|, scn) || LagsIn(u, |t|, |u|, scn)
  {
    if i :| lo <= i < |t| && Lags(t[i], scn) {
      assert Lags(u[i], scn);
    }
    if i :| lo <= i < |t| && Lags(u[i], scn) {
      assert Lags(t[i], scn);
    }
  }

  /** What was added after t1 was added after t0, and is still there later. */
  lemma AskedGrows(t0: seq<Event>, t1: seq<Event>, t2: seq<Event>, t3: seq<Event>)
    requires t0 <= t1 <= t2 <= t3
    ensures forall e :: e in t2[|t1|..] || e in t3[|t2|..] ==> e in t3[|t0|..]
  {
    assert t3[|t0|..] == t1[|t0|..] + t2[|t1|..] + t3[|t2|..];
  }

  datatype Fetch = NoLeader | SawFlashback | HaveLists

  /** Replies of replicas do not show the leader's mode. */
  lemma StatsShowNoFlashback(t: seq<Event>, u: seq<Event>, lo: nat, ls: LsId)
    requires t <= u && OnlyReplicaStats(u, |t|, |u|)
    ensures InFlashbackIn(u, lo, |u|, ls) <==> InFlashbackIn(t, lo, |t|, ls)
  {
    if i :| lo <= i < |u| && InFlashback(u[i], ls) {
      assert i < |t| && InFlashback(t[i], ls);
    }
    if i :| lo <= i < |t| && InFlashback(t[i], ls) {
      assert InFlashback(u[i], ls);
    }
  }

  datatype Answer = NoReply | Uncommitted | ShortOfPoint | InSync

  /** A reply, or its absence, that keeps the check from passing. */
  predicate Lags(e: Event, scn: Scn) {
    e.ReplicaSilent? || (e.ReplicaStat? && (e.endScn < e.maxScn || e.endScn < scn))
  }

  ghost predicate LagsIn(t: seq<Event>, lo: nat, hi: nat, scn: Scn) {
    exists i :: lo <= i < hi <= |t| && Lags(t[i], scn)
  }

  /** How many replies in [lo, |t|) were fully committed but short of the flashback point. */
  function ShortCount(t: seq<Event>, lo: nat, scn: Scn): nat {
    if |t| <= lo then 0
    else
      var e := t[|t| - 1];
      ShortCount(t[..|t| - 1], lo, scn) + if e.ReplicaStat? && e.maxScn <= e.endScn < scn then 1 else 0
  }

  const INVALID_LS_ID: LsId := -1

  datatype Kind = ChangeMode | CheckSync | Execute

  /** What an operator is after, as a value. */
  datatype OperatorGoal = OperatorGoal(kind: Kind, ls: LsId, scn: Scn, dst: AccessMode, version: int, once: bool)

  /** The evidence an operator's success leaves in the stretch [lo, hi) of the trace. */
  ghost predicate Passed(g: OperatorGoal, t: seq<Event>, start: nat, lo: nat, hi: nat) {
    match g.kind
    case ChangeMode => ModeSeenIn(t, lo, hi, g.ls, g.dst, g.version)
    case CheckSync => SyncPass(t, start, lo, hi, g.ls, g.scn, g.once)
    case Execute => ExecutePass(t, start, hi, g.ls, g.version)
  }

  lemma PassedGrows(g: OperatorGoal, t: seq<Event>, u: seq<Event>, start: nat, lo: nat, hi: nat)
    requires t <= u && hi <= |t| && Passed(g, t, start, lo, hi)
    ensures Passed(g, u, start, lo, hi)
  {
    match g.kind
    case ChangeMode => ModeSeenGrows(t, u, lo, hi, g.ls, g.dst, g.version);
    case CheckSync => SyncPassGrows(t, u, start, lo, hi, g.ls, g.scn, g.once);
    case Execute => ExecutePassGrows(t, u, start, hi, g.ls, g.version);
  }

  lemma PassedWidens(g: OperatorGoal, t: seq<Event>, start: nat, lo: nat, mid: nat, hi: nat)
    requires lo <= mid && hi <= |t| && Passed(g, t, start, mid, hi)
    ensures Passed(g, t, start, lo, hi)
  {
    match g.kind
    case ChangeMode => ModeSeenGrows(t, t, mid, hi, g.ls, g.dst, g.version);
    case CheckSync => SyncPassWidens(t, start, lo, mid, hi, g.ls, g.scn, g.once);
    case Execute =>
  }

  /** What `handle_flashback_resp` sees of an execute operator. */
  datatype Confirmation = Confirmation(
    hasList: bool,
    members: seq<Addr>,
    learners: seq<Addr>,
    doneMembers: set<Addr>,
    doneLearners: set<Addr>)

  /** A response confirms its sender in the first of the two lists that holds it. */
  function Confirm(c: Confirmation, r: Response): (c': Confirmation)
    ensures c'.hasList == c.hasList && c'.members == c.members && c'.learners == c.learners
    ensures c.doneMembers <= c'.doneMembers && c.doneLearners <= c'.doneLearners
    ensures c'.doneMembers <= c.doneMembers + {r.src} && c'.doneLearners <= c.doneLearners + {r.src}
  {
    if !c.hasList || !r.valid then c
    else if r.src in c.members then c.(doneMembers := c.doneMembers + {r.src})
    else if r.src in c.learners then c.(doneLearners := c.doneLearners + {r.src})
    else c
  }

  /** Confirmed servers are always listed servers. */
  predicate Listed(c: Confirmation) {
    && (forall s :: s in c.doneMembers ==> s in c.members)
    && (forall s :: s in c.doneLearners ==> s in c.learners)
    && (!c.hasList ==> c.doneMembers == {} && c.doneLearners == {})
  }

  /** The stage is complete for a stream when nothing is left to confirm. */
  predicate Complete(c: Confirmation) {
    && c.hasList
    && (forall s :: s in c.members ==> s in c.doneMembers)
    && (forall s :: s in c.learners ==> s in c.doneLearners)
  }

  /**
   One log stream's operator. The three operator classes share their base fields and are driven
   through the same virtual `switch_state`; `kind` says which one this is. For a check
   operator the done sets are the replicas known to be synced, for an execute
   operator those that confirmed the flashback.
   */
  class LSOperator {
    const kind: Kind
    const ls: LsId
    const scn: Scn
    const dstMode: AccessMode    // of a change-mode operator
    const castVersion: int       // of an execute operator, the version it was cast with
    ghost const once: bool       // no other operator of the array stands for the same stream
    var leader: Option<Addr>
    var ret: Code
    var hasList: bool
    var members: seq<Addr>
    var learners: seq<Addr>
    var doneMembers: set<Addr>
    var doneLearners: set<Addr>
    var modeVersion: int         // of a change-mode operator, as last reported by the leader

    constructor (kind: Kind, ls: LsId, scn: Scn, dstMode: AccessMode, castVersion: int, ghost once: bool)
      ensures this.kind == kind && this.ls == ls && this.scn == scn
      ensures this.dstMode == dstMode && this.castVersion == castVersion && this.once == once
      ensures !hasList && leader == None && ret == NotInit
      ensures members == [] && learners == [] && doneMembers == {} && doneLearners == {}
    {
      this.kind := kind;
      this.ls := ls;
      this.scn := scn;
      this.dstMode := dstMode;
      this.castVersion := castVersion;
      this.once := once;
      modeVersion := 0;
      leader := None;
      ret := NotInit;
      hasList := false;
      members := [];
      learners := [];
      doneMembers := {};
      doneLearners := {};
    }

    /** Only the stream id of an operator can be invalid: every other part is checked before. */
    predicate IsValid() {
      ls != INVALID_LS_ID
    }

    ghost function View(): Confirmation
      reads this
    {
      Confirmation(hasList, members, learners, doneMembers, doneLearners)
    }

    /** What the trace has to hold for the operator's lists and done sets since `start`. */
    ghost predicate Inv(t: seq<Event>, start: nat)
      reads this
    {
      && start <= |t|
      && (kind == CheckSync ==>
            && (hasList ==> ListsLastIn(t, start, |t|, ls, once, members, learners))
            && (forall s :: s in doneMembers + doneLearners ==> SyncedIn(t, start, |t|, ls, scn, s)))
      && (kind == Execute ==>
            && Listed(View())
            && (hasList ==> leader.Some? && ListsSeenIn(t, start, |t|, ls, members, learners))
            && (forall s :: s in doneMembers + doneLearners ==> AnsweredIn(t, start, |t|, ls, castVersion, s)))
    }

    ghost function Goal(): OperatorGoal
      reads this
    {
      OperatorGoal(kind, ls, scn, dstMode, if kind == Execute then castVersion else modeVersion, once)
    }

    /** The only messages an operator may have sent, and status replies it may have got, in [lo, |t|). */
    ghost predicate SendsOnly(t: seq<Event>, lo: nat)
      reads this
    {
      && (forall i :: lo <= i < |t| && t[i].LeaderStat? ==> t[i].ls == ls)
      && forall i :: lo <= i < |t| && t[i].FlashbackReq? ==>
        && kind == Execute
        && t[i] == FlashbackReq(ls, t[i].server, castVersion, scn)
        && (t[i].server in members || t[i].server in learners)
    }

    /** Responses only ever add to the done sets. */
    twostate predicate OnlyConfirmed()
      reads this
    {
      && hasList == old(hasList) && members == old(members) && learners == old(learners)
      && modeVersion == old(modeVersion) && leader == old(leader) && ret == old(ret)
      && old(doneMembers) <= doneMembers && old(doneLearners) <= doneLearners
    }

    lemma InvGrows(t: seq<Event>, u: seq<Event>, start: nat)
      requires t <= u && Inv(t, start)
      requires kind == CheckSync && once && hasList ==> NoStatIn(u, |t|, |u|, ls)
      ensures Inv(u, start)
    {
      if hasList && kind == CheckSync {
        ListsLastStay(t, u, start, |t|, |u|, ls, once, members, learners);
      } else if hasList && kind == Execute {
        ListsSeenGrows(t, u, start, |t|, ls, members, learners);
      }
      if kind == CheckSync {
        forall s | s in doneMembers + doneLearners ensures SyncedIn(u, start, |u|, ls, scn, s) {
          SyncedGrows(t, u, start, |t|, ls, scn, s);
        }
      } else if kind == Execute {
        forall s | s in doneMembers + doneLearners ensures AnsweredIn(u, start, |u|, ls, castVersion, s) {
          AnsweredGrows(t, u, start, |t|, ls, castVersion, s);
        }
      }
    }

    method UpdateLeader(net: Network) returns (ok: bool)
      modifies this`leader
      ensures ok == leader.Some?
    {
      leader := None;
      var found := net.GetLeader(ls);
      leader := found;
      ok := found.Some?;
    }

    method GetLeaderPalfStat(net: Network) returns (code: Code, stat: Option<PalfStat>)
      modifies this`leader, net
      ensures old(net.clock) <= net.clock
      ensures code == Success || code == Eagain
      ensures code == Success <==> stat.Some?
      ensures code == Success <==> leader.Some?
      ensures net.trace == old(net.trace) + (if stat.Some? then [LeaderStat(ls, stat.value)] else [])
    {
      stat := None;
      if leader.None? {
        var ok := UpdateLeader(net);
        if !ok { return Eagain, None; }
      }
      stat := net.LeaderPalfStat(ls, leader.value);
      if stat.None? {
        leader := None;
        code := Eagain;
      } else {
        code := Success;
      }
    }

    /** One status query, and what its answer means for the check. */
    method AskServer(net: Network, server: Addr) returns (answer: Answer, ghost e: Event)
      modifies net
      ensures old(net.clock) <= net.clock && net.trace == old(net.trace) + [e]
      ensures net.trace[..|net.trace| - 1] == old(net.trace)
      ensures AboutServer(e, ls, [server])
      ensures answer == NoReply <==> e.ReplicaSilent?
      ensures answer == Uncommitted <==> e.ReplicaStat? && e.endScn < e.maxScn
      ensures answer == ShortOfPoint <==> e.ReplicaStat? && e.maxScn <= e.endScn < scn
      ensures answer == InSync <==> e.ReplicaStat? && e.maxScn <= e.endScn && scn <= e.endScn
    {
      var reply := net.ReplicaPalfStat(ls, server);
      e := net.trace[|net.trace| - 1];
      if reply.None? {
        answer := NoReply;
      } else if reply.value.endScn < reply.value.maxScn {
        answer := Uncommitted;
      } else if reply.value.endScn < scn {
        answer := ShortOfPoint;
      } else {
        answer := InSync;
      }
    }

    /**
     One round of status queries over a list. Servers found synced join `sync`; an
     unreachable one makes the next pass refetch the lists.
     */
    method CheckListLogSync(net: Network, list: seq<Addr>, sync: set<Addr>)
      returns (code: Code, sync': set<Addr>, short: nat)
      modifies this`hasList, net
      ensures old(net.clock) <= net.clock && old(net.trace) <= net.trace
      ensures OnlyReplicaStats(net.trace, |old(net.trace)|, |net.trace|)
      ensures AboutServers(net.trace, |old(net.trace)|, |net.trace|, ls, list)
      ensures hasList <==> old(hasList) && NoSilence(net.trace, |old(net.trace)|)
      ensures sync <= sync' && forall s :: s in sync' - sync ==>
                SyncedIn(net.trace, |old(net.trace)|, |net.trace|, ls, scn, s)
      ensures code == Success || code == Eagain
      ensures code == Eagain <==> LagsIn(net.trace, |old(net.trace)|, |net.trace|, scn)
      ensures short == ShortCount(net.trace, |old(net.trace)|, scn)
      ensures code == Success ==> forall s :: s in list ==> s in sync'
      ensures code == Eagain ==>
                exists k, i :: 0 <= k < |list| && |old(net.trace)| <= i < |net.trace|
                               && ReplicaLagging(net.trace[i], ls, scn, list[k])
      ensures short <= |list|
      ensures short == |list| ==>
                forall s :: s in list ==> ShortIn(net.trace, |old(net.trace)|, |net.trace|, ls, scn, s)
    {
      code, sync', short := Success, sync, 0;
      ghost var lo := |net.trace|;
      for k := 0 to |list|
        invariant old(net.clock) <= net.clock && old(net.trace) <= net.trace
        invariant hasList <==> old(hasList) && NoSilence(net.trace, lo)
        invariant ListChecked(net.trace, lo, ls, scn, list[..k], sync, sync', short, code)
      {
        var server := list[k];
        assert list[..k + 1] == list[..k] + [server];
        if server in sync' {
          ListCheckedSkip(net.trace, lo, ls, scn, list[..k], sync, sync', short, code, server);
        } else {
          var answer, e := AskServer(net, server);
          ListCheckedStep(net.trace[..|net.trace| - 1], e, lo, ls, scn, list[..k], sync, sync', short, code, server);
          if answer == InSync {
            sync' := sync' + {server};
          } else {
            code := Eagain;
            if answer == NoReply {
              hasList := false;
            } else if answer == ShortOfPoint {
              short := short + 1;
            }
          }
        }
      }
      assert list[..|list|] == list;
      LaggingServer(net.trace, lo, ls, scn, list);
    }

    /** Ask every unconfirmed server of the list to flash back; retry while any was left. */
    method FlashbackList(net: Network, list: seq<Addr>, done: set<Addr>) returns (code: Code)
      modifies net
      ensures old(net.clock) <= net.clock && old(net.trace) <= net.trace
      ensures code == Success || code == Eagain
      ensures code == Success <==> forall s :: s in list ==> s in done
      ensures forall i :: |old(net.trace)| <= i < |net.trace| ==>
                && net.trace[i].FlashbackReq?
                && net.trace[i] == FlashbackReq(ls, net.trace[i].server, castVersion, scn)
                && net.trace[i].server in list && net.trace[i].server !in done
      ensures forall s :: s in list && s !in done ==>
                FlashbackReq(ls, s, castVersion, scn) in net.trace[|old(net.trace)|..]
    {
      code := Success;
      ghost var lo := |net.trace|;
      for k := 0 to |list|
        invariant old(net.clock) <= net.clock && old(net.trace) <= net.trace
        invariant code == Success || code == Eagain
        invariant code == Success <==> forall j :: 0 <= j < k ==> list[j] in done
        invariant forall i :: lo <= i < |net.trace| ==>
                    && net.trace[i].FlashbackReq?
                    && net.trace[i] == FlashbackReq(ls, net.trace[i].server, castVersion, scn)
                    && net.trace[i].server in list && net.trace[i].server !in done
        invariant forall j :: 0 <= j < k && list[j] !in done ==>
                    FlashbackReq(ls, list[j], castVersion, scn) in net.trace[lo..]
      {
        var server := list[k];
        if server !in done {
          ghost var before := net.trace;
          net.Send(FlashbackReq(ls, server, castVersion, scn));
          assert net.trace[lo..] == before[lo..] + [FlashbackReq(ls, server, castVersion, scn)];
          code := Eagain;
        }
      }
    }

    /** From lo on: the leader's status, then the command to change under the version it showed. */
    ghost predicate AskedToChange(t: seq<Event>, lo: nat)
      reads this
    {
      && |t| == lo + 2
      && t[lo].LeaderStat? && t[lo].ls == ls && t[lo].stat.version == modeVersion
      && t[lo].stat.mode != dstMode && t[lo].stat.mode != Flashback
      && t[lo + 1] == ChangeModeCmd(ls, modeVersion, dstMode)
    }

    method SwitchChangeMode(net: Network, ghost start: nat) returns (code: Code)
      requires kind == ChangeMode && IsValid() && start <= |net.trace|
      modifies this`leader, this`modeVersion, net
      ensures old(net.clock) <= net.clock && old(net.trace) <= net.trace
      ensures SendsOnly(net.trace, |old(net.trace)|)
      ensures code == Success || code == Eagain
      ensures code == Success ==> Passed(Goal(), net.trace, start, |old(net.trace)|, |net.trace|)
      ensures code == Eagain ==> !InFlashbackIn(net.trace, |old(net.trace)|, |net.trace|, ls)
      ensures code == Eagain && net.trace != old(net.trace) ==> AskedToChange(net.trace, |old(net.trace)|)
    {
      if leader.None? {
        var ok := UpdateLeader(net);
        if !ok { return Eagain; }
      }
      var reply := net.LeaderPalfStat(ls, leader.value);
      if reply.None? {
        leader := None;
        return Eagain;
      }
      modeVersion := reply.value.version;
      ghost var here := |net.trace| - 1;
      if dstMode == reply.value.mode || reply.value.mode == Flashback {
        code := Success;
        assert ModeSeen(net.trace[here], ls, dstMode, modeVersion);
      } else {
        net.Send(ChangeModeCmd(ls, modeVersion, dstMode));
        code := Eagain;
        assert net.trace[here] == LeaderStat(ls, reply.value);
      }
    }

    /** The first half of a check pass: the lists, fetched from the leader unless they are known. */
    method FetchLists(net: Network, ghost start: nat) returns (fetched: Fetch)
      requires kind == CheckSync && Inv(net.trace, start)
      modifies this`leader, this`hasList, this`members, this`learners, net
      ensures old(net.clock) <= net.clock && old(net.trace) <= net.trace
      ensures Inv(net.trace, start) && SendsOnly(net.trace, |old(net.trace)|)
      ensures fetched == SawFlashback <==> InFlashbackIn(net.trace, |old(net.trace)|, |net.trace|, ls)
      ensures fetched == HaveLists ==> hasList
    {
      ghost var t0 := net.trace;
      if leader.None? {
        var ok := UpdateLeader(net);
        if !ok { return NoLeader; }
      }
      if !hasList {
        var code, stat := GetLeaderPalfStat(net);
        if code != Success { return NoLeader; }
        assert Inv(t0, start);
        InvGrows(t0, net.trace, start);
        ghost var here := |net.trace| - 1;
        assert net.trace[here] == LeaderStat(ls, stat.value);
        if stat.value.mode == Flashback {
          assert InFlashback(net.trace[here], ls);
          return SawFlashback;
        }
        assert ListsSeen(net.trace[here], ls, stat.value.members, stat.value.learners);
        members := stat.value.members;
        learners := stat.value.learners;
      }
      hasList := true;
      fetched := HaveLists;
    }

    method SwitchCheckSync(net: Network, ghost start: nat) returns (code: Code)
      requires kind == CheckSync && IsValid() && Inv(net.trace, start)
      modifies this`leader, this`hasList, this`members, this`learners, this`doneMembers, this`doneLearners, net
      ensures old(net.clock) <= net.clock && old(net.trace) <= net.trace
      ensures Inv(net.trace, start)
      ensures SendsOnly(net.trace, |old(net.trace)|)
      ensures code == Success || code == Eagain
      ensures code == Success ==> Passed(Goal(), net.trace, start, |old(net.trace)|, |net.trace|)
      ensures code == Eagain ==> !InFlashbackIn(net.trace, |old(net.trace)|, |net.trace|, ls)
    {
      ghost var t0 := net.trace;
      var fetched := FetchLists(net, start);
      match fetched {
        case NoLeader => code := Eagain;
        case SawFlashback => code := Success;
        case HaveLists =>
          ghost var t1, mid := net.trace, 0;
          code, mid := CheckLists(net, start, |t0|);
          StatsShowNoFlashback(t1, net.trace, |t0|, ls);
      }
    }

    /** Ask the members, then the learners, that are not known to be synced. */
    method QueryLists(net: Network, ghost start: nat) returns (ok: bool, short: nat, ghost mid: nat)
      requires kind == CheckSync && hasList && Inv(net.trace, start)
      modifies this`hasList, this`doneMembers, this`doneLearners, net
      ensures old(net.clock) <= net.clock && old(net.trace) <= net.trace
      ensures Inv(net.trace, start)
      ensures ListsLastIn(net.trace, start, |net.trace|, ls, once, members, learners)
      ensures OnlyReplicaStats(net.trace, |old(net.trace)|, |net.trace|)
      ensures |old(net.trace)| <= mid <= |net.trace|
      ensures AboutServers(net.trace, |old(net.trace)|, mid, ls, members)
      ensures AboutServers(net.trace, mid, |net.trace|, ls, learners)
      ensures ok <==> !LagsIn(net.trace, |old(net.trace)|, |net.trace|, scn)
      ensures ok ==> (forall s :: s in members ==> s in doneMembers) && forall s :: s in learners ==> s in doneLearners
      ensures short == ShortCount(net.trace[..mid], |old(net.trace)|, scn)
      ensures short == |members| ==>
                forall s :: s in members ==> ShortIn(net.trace, |old(net.trace)|, |net.trace|, ls, scn, s)
    {
      ghost var t0 := net.trace;
      var memberCode, learnerCode, unused;
      memberCode, doneMembers, short := CheckListLogSync(net, members, doneMembers);
      ghost var t1 := net.trace;
      MergeSynced(t0, t1, start);
      learnerCode, doneLearners, unused := CheckListLogSync(net, learners, doneLearners);
      MergeSynced(t1, net.trace, start);
      ListsLastStay(t0, net.trace, start, |t0|, |net.trace|, ls, once, members, learners);
      mid := |t1|;
      assert net.trace[..mid] == t1;
      LagsSplit(t1, net.trace, |t0|, scn);
      RepliesGrow(t1, net.trace, |t0|, ls, scn);
      ok := memberCode == Success && learnerCode == Success;
    }

    /** The second half of a check pass, once the lists are known. */
    method CheckLists(net: Network, ghost start: nat, ghost lo: nat) returns (code: Code, ghost mid: nat)
      requires kind == CheckSync && hasList && Inv(net.trace, start) && lo <= |net.trace|
      modifies this`hasList, this`doneMembers, this`doneLearners, net
      ensures old(net.clock) <= net.clock && old(net.trace) <= net.trace
      ensures Inv(net.trace, start)
      ensures OnlyReplicaStats(net.trace, |old(net.trace)|, |net.trace|)
      ensures code == Success || code == Eagain
      ensures |old(net.trace)| <= mid <= |net.trace|
      ensures AboutServers(net.trace, |old(net.trace)|, mid, ls, members)
      ensures AboutServers(net.trace, mid, |net.trace|, ls, learners)
      ensures code == Success <==>
                || !LagsIn(net.trace, |old(net.trace)|, |net.trace|, scn)
                || ShortCount(net.trace[..mid], |old(net.trace)|, scn) == |members|
      ensures code == Success ==> SyncPass(net.trace, start, lo, |net.trace|, ls, scn, once)
      ensures code == Success ==>
                && ListsLastIn(net.trace, start, |net.trace|, ls, once, members, learners)
                && SyncListsPass(net.trace, start, lo, |net.trace|, ls, scn, members, learners)
    {
      var ok, short;
      ok, short, mid := QueryLists(net, start);
      code := if ok then Success else Eagain;
      if short == |members| {
        code := Success;
        assert forall s :: ShortIn(net.trace, |old(net.trace)|, |net.trace|, ls, scn, s) ==>
            ShortIn(net.trace, lo, |net.trace|, ls, scn, s);
      }
      if code == Success {
        forall s | (s in members || s in learners) && short != |members|
          ensures SyncedIn(net.trace, start, |net.trace|, ls, scn, s)
        {
          assert s in doneMembers + doneLearners;
        }
        assert SyncListsPass(net.trace, start, lo, |net.trace|, ls, scn, members, learners);
      }
    }

    /** Servers synced before, or found synced in [|t|, |u|), are synced in u. */
    lemma MergeSynced(t: seq<Event>, u: seq<Event>, start: nat)
      requires t <= u && start <= |t|
      ensures forall s :: SyncedIn(t, start, |t|, ls, scn, s) || SyncedIn(u, |t|, |u|, ls, scn, s)
                          ==> SyncedIn(u, start, |u|, ls, scn, s)
    {
      forall s | SyncedIn(t, start, |t|, ls, scn, s) ensures SyncedIn(u, start, |u|, ls, scn, s) {
        SyncedGrows(t, u, start, |t|, ls, scn, s);
      }
    }

    /** Every server of the list that has not confirmed was sent a request since lo. */
    ghost predicate AllAsked(t: seq<Event>, lo: nat, list: seq<Addr>, done: set<Addr>)
      requires lo <= |t|
      reads this
    {
      forall s :: s in list && s !in done ==> FlashbackReq(ls, s, castVersion, scn) in t[lo..]
    }

    method SwitchExecute(net: Network, ghost start: nat) returns (code: Code)
      requires kind == Execute && IsValid() && Inv(net.trace, start)
      modifies this`leader, this`hasList, this`members, this`learners, net
      ensures old(net.clock) <= net.clock && old(net.trace) <= net.trace
      ensures Inv(net.trace, start)
      ensures old(hasList) ==> hasList && members == old(members) && learners == old(learners)
      ensures SendsOnly(net.trace, |old(net.trace)|)
      ensures code == Success || code == Eagain
      ensures code == Success <==> Complete(View())
      ensures old(hasList) && leader.Some? ==>
                && AllAsked(net.trace, |old(net.trace)|, members, doneMembers)
                && AllAsked(net.trace, |old(net.trace)|, learners, doneLearners)
      ensures code == Success ==> Passed(Goal(), net.trace, start, |old(net.trace)|, |net.trace|)
    {
      ghost var t0 := net.trace;
      if leader.None? {
        var ok := UpdateLeader(net);
        if !ok {
          return Eagain;
        }
      }
      if !hasList {
        var stat;
        code, stat := GetLeaderPalfStat(net);
        if code != Success { return; }
        ghost var here := |net.trace| - 1;
        assert ListsSeen(net.trace[here], ls, stat.value.members, stat.value.learners);
        members := stat.value.members;
        learners := stat.value.learners;
        hasList := true;
      }
      ghost var t1 := net.trace;
      code := AskLists(net, start);
      AskedGrows(t0, t1, t1, net.trace);
    }

    /** The second half of an execute pass, once the lists are frozen. */
    method AskLists(net: Network, ghost start: nat) returns (code: Code)
      requires kind == Execute && hasList && Inv(net.trace, start)
      modifies net
      ensures old(net.clock) <= net.clock && old(net.trace) <= net.trace
      ensures Inv(net.trace, start)
      ensures SendsOnly(net.trace, |old(net.trace)|)
      ensures code == Success || code == Eagain
      ensures code == Success <==> Complete(View())
      ensures AllAsked(net.trace, |old(net.trace)|, members, doneMembers)
      ensures AllAsked(net.trace, |old(net.trace)|, learners, doneLearners)
      ensures code == Success ==> ExecutePass(net.trace, start, |net.trace|, ls, castVersion)
    {
      ghost var t1 := net.trace;
      var memberCode := FlashbackList(net, members, doneMembers);
      ghost var t2 := net.trace;
      var learnerCode := FlashbackList(net, learners, doneLearners);
      AskedGrows(t1, t1, t2, net.trace);
      code := if memberCode == Success && learnerCode == Success then Success else Eagain;
      InvGrows(t1, net.trace, start);
      if code == Success {
        assert AllAnswered(net.trace, start, |net.trace|, ls, castVersion, members);
        assert AllAnswered(net.trace, start, |net.trace|, ls, castVersion, learners);
        assert ListsSeenIn(net.trace, start, |net.trace|, ls, members, learners);
      }
    }

    /** One virtual `switch_state` call; the code is kept in `ret`. */
    method SwitchState(net: Network, ghost start: nat) returns (code: Code)
      requires Inv(net.trace, start)
      modifies this, net
      ensures old(net.clock) <= net.clock && old(net.trace) <= net.trace
      ensures Inv(net.trace, start) && ret == code
      ensures SendsOnly(net.trace, |old(net.trace)|)
      ensures kind == Execute && old(hasList) ==> hasList && members == old(members) && learners == old(learners)
      ensures kind == Execute ==> doneMembers == old(doneMembers) && doneLearners == old(doneLearners)
      ensures code == Success ==> Passed(Goal(), net.trace, start, |old(net.trace)|, |net.trace|)
      ensures IsValid() <==> code == Success || code == Eagain
      ensures kind == Execute && IsValid() ==> (code == Success <==> Complete(View()))
    {
      if !IsValid() {
        code := Unexpected;
      } else {
        match kind
        case ChangeMode => code := SwitchChangeMode(net, start);
        case CheckSync => code := SwitchCheckSync(net, start);
        case Execute => code := SwitchExecute(net, start);
      }
      ret := code;
    }

    /** Take in the response that has just arrived, which is addressed to this operator. */
    method TakeResp(r: Response, ghost t: seq<Event>, ghost start: nat) returns (code: Code)
      requires kind == Execute && Inv(t, start) && start < |t| && t[|t| - 1] == FlashbackResp(r)
      requires r.ls == ls && r.version == castVersion
      modifies this`doneMembers, this`doneLearners
      ensures Inv(t, start)
      ensures View() == if ls != -1 then Confirm(old(View()), r) else old(View())
      ensures code == if ls != -1 && hasList && !r.valid then InvalidArgument else Success
    {
      code := HandleFlashbackResp(r);
      assert r.valid ==> AnsweredBy(t[|t| - 1], ls, castVersion, r.src);
    }

    /** Take in one response; a response is only looked at once the lists are frozen. */
    method HandleFlashbackResp(r: Response) returns (code: Code)
      modifies this`doneMembers, this`doneLearners
      ensures IsValid() ==> View() == Confirm(old(View()), r)
      ensures !IsValid() ==> View() == old(View())
      ensures code == (if IsValid() && hasList && !r.valid then InvalidArgument else Success)
    {
      code := Success;
      if !IsValid() || !hasList {
      } else if !r.valid {
        code := InvalidArgument;
      } else if r.src in members {
        doneMembers := doneMembers + {r.src};
      } else if r.src in learners {
        doneLearners := doneLearners + {r.src};
      }
    }
  }
}
