/**
 The tenant flashback service: operator arrays driven by retry loops, responses arriving
 concurrently, and the four stages in sequence.
 */
module FlashbackService {
  import opened Common
  import opened FlashbackTrace
  import opened FlashbackOperator
  import opened FlashbackConfirm

  /** The streams an operator can be built for, in order. */
  function ValidIds(ids: seq<LsId>): seq<LsId> {
    if ids == [] then []
    else
      var front, last := ValidIds(ids[..|ids| - 1]), ids[|ids| - 1];
      if last != INVALID_LS_ID then front + [last] else front
  }

  /** Exactly the valid ones remain, and all remain exactly if all are valid. */
  lemma {:induction false} ValidIdsExact(ids: seq<LsId>)
    ensures forall x :: x in ValidIds(ids) <==> x in ids && x != INVALID_LS_ID
    ensures |ValidIds(ids)| <= |ids|
    ensures |ValidIds(ids)| == |ids| <==> INVALID_LS_ID !in ids
  {
    if ids != [] {
      ValidIdsExact(ids[..|ids| - 1]);
      assert ids == ids[..|ids| - 1] + [ids[|ids| - 1]];
    }
  }

  /** Building the operators reports only what happened to the last stream. */
  function ConstructCode(ids: seq<LsId>): Code {
    if ids == [] || ids[|ids| - 1] != INVALID_LS_ID then Success else Unexpected
  }

  /**
   An earlier invalid stream is skipped silently: with ids [-1, 7] construction succeeds with
   one operator. Construction that succeeds covers every stream exactly when no id before the last
   is invalid.
   */
  lemma ConstructSuccessCoversAllIff(ids: seq<LsId>)
    ensures ConstructCode([INVALID_LS_ID, 7]) == Success && |ValidIds([INVALID_LS_ID, 7])| < 2
    ensures ConstructCode(ids) == Success ==>
              (|ValidIds(ids)| == |ids| <==> forall k :: 0 <= k < |ids| - 1 ==> ids[k] != INVALID_LS_ID)
    ensures (ConstructCode(ids) == Success && |ValidIds(ids)| == |ids|) <==> INVALID_LS_ID !in ids
  {
    ValidIdsExact(ids);
    ValidIdsExact([INVALID_LS_ID, 7]);
    assert [INVALID_LS_ID, 7][0] == INVALID_LS_ID;
  }

  /** What a read of the status table gives: valid ids, each once. */
  ghost predicate TableIds(ids: seq<LsId>) {
    INVALID_LS_ID !in ids && NoDup(ids)
  }

  lemma {:induction false} NoneInvalid(ids: seq<LsId>)
    requires INVALID_LS_ID !in ids
    ensures ValidIds(ids) == ids
  {
    if ids != [] {
      var front := ids[..|ids| - 1];
      NoneInvalid(front);
      assert ids[|ids| - 1] in ids && ids == front + [ids[|ids| - 1]];
    }
  }

  /** Every one of them is handled, and handled once. */
  lemma TableIdsAll(ids: seq<LsId>)
    requires TableIds(ids)
    ensures ValidIds(ids) == ids && forall ls :: Once(ids, ls)
  {
    NoneInvalid(ids);
  }

  /** Before position k every stream of the list went through all stages. */
  ghost predicate AllStagesBefore(t: seq<Event>, lo: nat, k: nat, ids: seq<LsId>, scn: Scn) {
    forall ls :: ls in ids ==> StagesBefore(t, lo, k, ls, scn, true)
  }

  lemma OneMoreId(ids: seq<LsId>, k: nat)
    requires k < |ids|
    ensures ValidIds(ids[..k + 1]) == ValidIds(ids[..k]) + if ids[k] != INVALID_LS_ID then [ids[k]] else []
    ensures ConstructCode(ids[..k + 1]) == if ids[k] != INVALID_LS_ID then Success else Unexpected
  {
    assert ids[..k + 1][..k] == ids[..k];
  }

  ghost predicate Distinct(ops: seq<LSOperator>) {
    forall i, j :: 0 <= i < j < |ops| ==> ops[i] != ops[j]
  }

  /** An operator marked as handling its stream alone does so. */
  ghost predicate OnceOk(ops: seq<LSOperator>) {
    forall i, j :: 0 <= i < |ops| && 0 <= j < |ops| && i != j && ops[i].kind == CheckSync && ops[i].once ==>
      ops[i].ls != ops[j].ls
  }

  /** Operators that have not been driven yet. */
  ghost predicate AllBlank(ops: seq<LSOperator>)
    reads ops
  {
    forall i :: 0 <= i < |ops| ==>
      !ops[i].hasList && ops[i].doneMembers == {} && ops[i].doneLearners == {}
  }

  lemma BlankInv(ops: seq<LSOperator>, t: seq<Event>)
    requires AllBlank(ops)
    ensures AllInv(ops, t, |t|)
  {}

  ghost predicate Aimed(ops: seq<LSOperator>, dst: AccessMode, valid: seq<LsId>) {
    forall i :: 0 <= i < |ops| ==> ops[i].dstMode == dst && ops[i].once == Once(valid, ops[i].ls)
  }

  lemma AimedOnce(ops: seq<LSOperator>, kind: Kind, ids: seq<LsId>, scn: Scn, dst: AccessMode)
    requires Ops(ops, kind, ids, scn) && Aimed(ops, dst, ids)
    ensures OnceOk(ops)
  {
    forall i, j | 0 <= i < |ops| && 0 <= j < |ops| && i != j && ops[i].once ensures ops[i].ls != ops[j].ls {
      assert Once(ids, ids[i]) && ops[i].ls == ids[i] && ops[j].ls == ids[j];
    }
  }

  ghost predicate AllInv(ops: seq<LSOperator>, t: seq<Event>, start: nat)
    reads ops
  {
    forall i :: 0 <= i < |ops| ==> ops[i].Inv(t, start)
  }

  /** The operators stand for these streams, all of one kind. */
  ghost predicate Ops(ops: seq<LSOperator>, kind: Kind, ids: seq<LsId>, scn: Scn) {
    && |ops| == |ids|
    && Distinct(ops)
    && forall i :: 0 <= i < |ops| ==> ops[i].kind == kind && ops[i].ls == ids[i] && ops[i].scn == scn
  }

  /** In one single pass, every goal was reached, each within its own stretch of the trace. */
  ghost predicate PassOver(goals: seq<OperatorGoal>, t: seq<Event>, start: nat, cuts: seq<nat>) {
    && |cuts| == |goals| + 1
    && start <= cuts[0]
    && cuts[|goals|] <= |t|
    && (forall i :: 0 <= i < |goals| ==> cuts[i] <= cuts[i + 1])
    && (forall i :: 0 <= i < |goals| ==> Passed(goals[i], t, start, cuts[i], cuts[i + 1]))
  }

  ghost predicate GoalsAre(ops: seq<LSOperator>, goals: seq<OperatorGoal>)
    reads ops
  {
    |goals| <= |ops| && forall i :: 0 <= i < |goals| ==> ops[i].Goal() == goals[i]
  }

  /** Every request in [lo, |t|) was sent by an execute operator of the array, under the version it was cast with. */
  ghost predicate RequestsServe(ops: seq<LSOperator>, t: seq<Event>, lo: nat) {
    forall k :: lo <= k < |t| && t[k].FlashbackReq? ==> RequestServes(ops, t[k])
  }

  ghost predicate RequestServes(ops: seq<LSOperator>, e: Event) {
    e.FlashbackReq? && exists i :: 0 <= i < |ops| && ops[i].kind == Execute
                                   && e == FlashbackReq(ops[i].ls, e.server, ops[i].castVersion, ops[i].scn)
  }

  lemma ServeConcat(ops: seq<LSOperator>, t: seq<Event>, u: seq<Event>, lo: nat)
    requires t <= u && lo <= |t| && RequestsServe(ops, t, lo) && RequestsServe(ops, u, |t|)
    ensures RequestsServe(ops, u, lo)
  {
    forall k | lo <= k < |u| && u[k].FlashbackReq? ensures RequestServes(ops, u[k]) {
      assert k < |t| ==> u[k] == t[k];
    }
  }

  /** Of the passes made since `before`, all failed if the code says so; else all but the last one. */
  ghost predicate EndsAtFirstSuccess(before: seq<Code>, passes: seq<Code>, code: Code) {
    && before <= passes
    && (code == Success ==> |before| < |passes| && passes[|passes| - 1] == Success)
    && forall i :: |before| <= i < (if code == Success then |passes| - 1 else |passes|) ==> passes[i] != Success
  }

  lemma CutsOrdered(cuts: seq<nat>, i: nat, j: nat)
    requires i <= j < |cuts| && forall k :: 0 <= k < |cuts| - 1 ==> cuts[k] <= cuts[k + 1]
    ensures cuts[i] <= cuts[j]
    decreases j - i
  {
    if i < j { CutsOrdered(cuts, i, j - 1); }
  }

  lemma PassOverExtends(goals: seq<OperatorGoal>, g: OperatorGoal, t: seq<Event>, u: seq<Event>, start: nat,
                        cuts: seq<nat>)
    requires t <= u && PassOver(goals, t, start, cuts) && cuts[|goals|] == |t|
    requires Passed(g, u, start, |t|, |u|)
    ensures PassOver(goals + [g], u, start, cuts + [|u|])
  {
    var gs, cs := goals + [g], cuts + [|u|];
    forall i | 0 <= i < |gs| ensures Passed(gs[i], u, start, cs[i], cs[i + 1]) {
      if i < |goals| {
        CutsOrdered(cuts, i + 1, |goals|);
        PassedGrows(goals[i], t, u, start, cuts[i], cuts[i + 1]);
      }
    }
  }

  ghost predicate ModesSeen(t: seq<Event>, lo: nat, hi: nat, ids: seq<LsId>, dst: AccessMode, versions: seq<int>) {
    |versions| == |ids| && forall i :: 0 <= i < |ids| ==> ModeSeenIn(t, lo, hi, ids[i], dst, versions[i])
  }

  /** Every request in [lo, |t|) names a stream of the list and the version recorded for it. */
  ghost predicate RequestsNamed(t: seq<Event>, lo: nat, ids: seq<LsId>, scn: Scn, versions: seq<int>) {
    |versions| == |ids| && forall k :: lo <= k < |t| && t[k].FlashbackReq? ==> RequestNamed(t[k], ids, scn, versions)
  }

  ghost predicate RequestNamed(e: Event, ids: seq<LsId>, scn: Scn, versions: seq<int>)
    requires |versions| == |ids|
  {
    e.FlashbackReq? && exists i :: 0 <= i < |ids| && e == FlashbackReq(ids[i], e.server, versions[i], scn)
  }

  ghost predicate ExecutedAll(t: seq<Event>, lo: nat, ids: seq<LsId>, versions: seq<int>) {
    |versions| == |ids| && forall i :: 0 <= i < |ids| ==> ExecutePass(t, lo, |t|, ids[i], versions[i])
  }

  /** Every stream was confirmed by all its replicas, under a version at which it was seen in FLASHBACK. */
  ghost predicate Confirmed(t: seq<Event>, c2: nat, c3: nat, ids: seq<LsId>) {
    forall x :: x in ids ==> ConfirmedOne(t, c2, c3, x)
  }

  ghost predicate ConfirmedOne(t: seq<Event>, c2: nat, c3: nat, x: LsId) {
    exists v :: ModeSeenIn(t, c2, c3, x, Flashback, v) && ExecutePass(t, c3, |t|, x, v)
  }

  lemma PreparedFromModes(t: seq<Event>, lo: nat, hi: nat, ids: seq<LsId>, versions: seq<int>)
    requires ModesSeen(t, lo, hi, ids, PrepareFlashback, versions)
    ensures PreparedAll(t, lo, hi, ids)
  {
    forall x | x in ids ensures PreparedOne(t, lo, hi, x) {
      var i :| 0 <= i < |ids| && ids[i] == x;
      assert ModeSeenIn(t, lo, hi, ids[i], PrepareFlashback, versions[i]);
    }
  }

  /** The first three stages, seen from the end of the third. */
  lemma StagesReached(t1: seq<Event>, t2: seq<Event>, t3: seq<Event>, c0: nat, ids: seq<LsId>, scn: Scn,
                      versions: seq<int>)
    requires c0 <= |t1| && t1 <= t2 <= t3
    requires PreparedAll(t1, c0, |t1|, ids) && SyncedAll(t2, |t1|, |t2|, ids, scn)
    requires ModesSeen(t3, |t2|, |t3|, ids, Flashback, versions)
    requires NoRequestIn(t1, c0, |t1|) && NoRequestIn(t2, |t1|, |t2|) && NoRequestIn(t3, |t2|, |t3|)
    ensures PreparedAll(t3, c0, |t1|, ids) && SyncedAll(t3, |t1|, |t2|, ids, scn) && FlashbackAll(t3, |t2|, |t3|, ids)
    ensures NoRequestIn(t3, c0, |t3|)
  {
    forall x | x in ids
      ensures PreparedOne(t3, c0, |t1|, x) && SyncedOne(t3, |t1|, |t2|, x, scn, Once(ids, x))
    {
      assert PreparedOne(t1, c0, |t1|, x) && SyncedOne(t2, |t1|, |t2|, x, scn, Once(ids, x));
      var v :| ModeSeenIn(t1, c0, |t1|, x, PrepareFlashback, v);
      ModeSeenGrows(t1, t3, c0, |t1|, x, PrepareFlashback, v);
      assert ModeSeenIn(t3, c0, |t1|, x, PrepareFlashback, v);
      var p: nat, q: nat :| |t1| <= p <= q <= |t2| && SyncPass(t2, |t1|, p, q, x, scn, Once(ids, x));
      SyncPassGrows(t2, t3, |t1|, p, q, x, scn, Once(ids, x));
    }
    forall k | c0 <= k < |t3| ensures !t3[k].FlashbackReq? {
      if k < |t1| { assert t3[k] == t1[k]; } else if k < |t2| { assert t3[k] == t2[k]; }
    }
  }

  /** The fourth stage only adds requests backed by the third. */
  lemma RequestsAfterStages(t: seq<Event>, u: seq<Event>, c0: nat, c1: nat, c2: nat, ids: seq<LsId>, scn: Scn,
                            versions: seq<int>)
    requires t <= u && c0 <= c1 <= c2 <= |t|
    requires PreparedAll(t, c0, c1, ids) && SyncedAll(t, c1, c2, ids, scn)
    requires ModesSeen(t, c2, |t|, ids, Flashback, versions) && FlashbackAll(t, c2, |t|, ids)
    requires NoRequestIn(t, c0, |t|) && RequestsNamed(u, |t|, ids, scn, versions)
    ensures Staged(u, c0, c1, c2, |t|, ids, scn)
    ensures ExecutedAll(u, |t|, ids, versions) ==> Confirmed(u, c2, |t|, ids)
  {
    StagesGrow(t, u, c0, c1, c2, |t|, ids, scn);
    forall k | |t| <= k < |u| && u[k].FlashbackReq? ensures RequestBacked(u, c2, |t|, ids, scn, u[k]) {
      assert RequestNamed(u[k], ids, scn, versions);
      var i :| 0 <= i < |ids| && u[k] == FlashbackReq(ids[i], u[k].server, versions[i], scn);
      ModeSeenGrows(t, u, c2, |t|, ids[i], Flashback, versions[i]);
    }
    if ExecutedAll(u, |t|, ids, versions) {
      forall x | x in ids ensures ConfirmedOne(u, c2, |t|, x) {
        var i :| 0 <= i < |ids| && ids[i] == x;
        ModeSeenGrows(t, u, c2, |t|, ids[i], Flashback, versions[i]);
        assert ModeSeenIn(u, c2, |t|, x, Flashback, versions[i]);
      }
    }
  }

  /** The response is addressed to the operator's stream and mode version. */
  ghost predicate Addressed(op: LSOperator, r: Response) {
    r.ls == op.ls && r.version == op.castVersion
  }

  /** No operator before it stands for the same stream and mode version. */
  ghost predicate IsFirst(ops: seq<LSOperator>, k: nat) {
    k < |ops| && forall j :: 0 <= j < k ==> ops[j].ls != ops[k].ls || ops[j].castVersion != ops[k].castVersion
  }

  ghost function Views(ops: seq<LSOperator>): seq<Confirmation>
    reads ops
  {
    seq(|ops|, i requires 0 <= i < |ops| reads ops => ops[i].View())
  }

  /** What responses do to the operator at i: it sees the ones addressed to it, if it is the first. */
  ghost function Seen(ops: seq<LSOperator>, i: nat, c: Confirmation, rs: seq<Response>): Confirmation
    requires i < |ops|
  {
    if IsFirst(ops, i) && ops[i].ls != INVALID_LS_ID
    then ConfirmAll(c, Matching(rs, ops[i].ls, ops[i].castVersion)) else c
  }

  lemma OneMoreResponse(ops: seq<LSOperator>, views: seq<Confirmation>, rs: seq<Response>, n: nat)
    requires n < |rs| && |views| == |ops|
    ensures forall i :: 0 <= i < |ops| ==>
              Seen(ops, i, views[i], rs[..n + 1]) ==
                if IsFirst(ops, i) && Addressed(ops[i], rs[n]) && ops[i].ls != -1
                then Confirm(Seen(ops, i, views[i], rs[..n]), rs[n]) else Seen(ops, i, views[i], rs[..n])
  {
    forall i | 0 <= i < |ops| ensures
      Seen(ops, i, views[i], rs[..n + 1]) ==
        if IsFirst(ops, i) && Addressed(ops[i], rs[n]) && ops[i].ls != -1
        then Confirm(Seen(ops, i, views[i], rs[..n]), rs[n]) else Seen(ops, i, views[i], rs[..n])
    {
      OneMoreMatching(views[i], rs, n, ops[i].ls, ops[i].castVersion);
    }
  }

  lemma OneMoreMatching(c: Confirmation, rs: seq<Response>, n: nat, ls: LsId, version: int)
    requires n < |rs|
    ensures ConfirmAll(c, Matching(rs[..n + 1], ls, version)) ==
              if rs[n].ls == ls && rs[n].version == version
              then Confirm(ConfirmAll(c, Matching(rs[..n], ls, version)), rs[n])
              else ConfirmAll(c, Matching(rs[..n], ls, version))
  {
    var some, more := Matching(rs[..n], ls, version), Matching(rs[..n + 1], ls, version);
    assert rs[..n + 1][..n] == rs[..n];
    if rs[n].ls == ls && rs[n].version == version {
      assert more == some + [rs[n]] && more[..|more| - 1] == some;
    } else {
      assert more == some;
    }
  }

  function ResponseEvents(rs: seq<Response>): seq<Event> {
    seq(|rs|, i requires 0 <= i < |rs| => FlashbackResp(rs[i]))
  }

  class Service {
    const net: Network
    var ops: seq<LSOperator>     // flashback_op_array_, read by the response thread
    ghost var opsStart: nat
    var locked: bool
    ghost var passes: seq<Code>  // what each pass over an operator array ended with

    constructor (net: Network)
      ensures this.net == net && Valid() && !locked && ops == []
    {
      this.net := net;
      ops := [];
      opsStart := 0;
      locked := false;
      passes := [];
    }

    ghost predicate Valid()
      reads this`ops, this`opsStart, net, ops
    {
      && Distinct(ops)
      && (forall i :: 0 <= i < |ops| ==> ops[i].kind == Execute)
      && opsStart <= |net.trace|
      && AllInv(ops, net.trace, opsStart)
    }

    /** The first operator with the response's stream and mode version. */
    method FindOperator(r: Response) returns (k: nat)
      ensures k <= |ops|
      ensures k < |ops| ==> IsFirst(ops, k) && Addressed(ops[k], r)
      ensures forall j :: 0 <= j < |ops| && j != k ==> !(IsFirst(ops, j) && Addressed(ops[j], r))
    {
      k := 0;
      while k < |ops| && !(r.ls == ops[k].ls && r.version == ops[k].castVersion)
        invariant 0 <= k <= |ops|
        invariant forall j :: 0 <= j < k ==> !Addressed(ops[j], r)
      {
        k := k + 1;
      }
    }

    /**
     The response handler: the first operator with this stream and mode version takes it, and no
     other; a response for no operator is dropped.
     */
    method HandleFlashbackResp(r: Response) returns (code: Code)
      requires Valid()
      modifies net, ops
      ensures Valid() && net.trace == old(net.trace) + [FlashbackResp(r)] && net.clock >= old(net.clock)
      ensures forall i :: 0 <= i < |ops| ==> ops[i].OnlyConfirmed()
      ensures forall i :: 0 <= i < |ops| ==>
                ops[i].View() ==
                  if IsFirst(ops, i) && Addressed(ops[i], r) && ops[i].ls != -1
                  then Confirm(old(ops[i].View()), r) else old(ops[i].View())
      ensures code in {Success, InvalidArgument}
      ensures code == InvalidArgument <==>
                exists i :: 0 <= i < |ops| && IsFirst(ops, i) && Addressed(ops[i], r)
                            && ops[i].ls != -1 && ops[i].hasList && !r.valid
    {
      Arrive(r);
      var k := FindOperator(r);
      code := Success;
      if k < |ops| {
        code := ops[k].TakeResp(r, net.trace, opsStart);
      }
    }

    method Arrive(r: Response)
      requires Valid()
      modifies net
      ensures Valid() && net.trace == old(net.trace) + [FlashbackResp(r)] && old(net.clock) <= net.clock
      ensures opsStart < |net.trace|
    {
      ghost var t0 := net.trace;
      net.Send(FlashbackResp(r));
      forall j | 0 <= j < |ops| ensures ops[j].Inv(net.trace, opsStart) {
        assert ops[j].Inv(t0, opsStart);
        ops[j].InvGrows(t0, net.trace, opsStart);
      }
    }

    /** Responses taken in one after the other: each operator sees those addressed to it, in order. */
    method TakeResponses(rs: seq<Response>)
      requires Valid()
      modifies net, ops
      ensures Valid() && net.trace == old(net.trace) + ResponseEvents(rs) && old(net.clock) <= net.clock
      ensures forall i :: 0 <= i < |ops| ==> ops[i].OnlyConfirmed()
      ensures forall i :: 0 <= i < |ops| ==>
                ops[i].View() ==
                  if IsFirst(ops, i) && ops[i].ls != -1
                  then ConfirmAll(old(ops[i].View()), Matching(rs, ops[i].ls, ops[i].castVersion))
                  else old(ops[i].View())
    {
      ghost var v0 := Views(ops);
      for n := 0 to |rs|
        invariant Valid() && net.trace == old(net.trace) + ResponseEvents(rs[..n]) && old(net.clock) <= net.clock
        invariant forall i :: 0 <= i < |ops| ==> ops[i].OnlyConfirmed()
        invariant forall i :: 0 <= i < |ops| ==> ops[i].View() == Seen(ops, i, v0[i], rs[..n])
      {
        OneMoreResponse(ops, v0, rs, n);
        assert ResponseEvents(rs[..n + 1]) == ResponseEvents(rs[..n]) + [FlashbackResp(rs[n])];
        var code := HandleFlashbackResp(rs[n]);
      }
      assert rs[..|rs|] == rs;
    }

    /** Any number of responses arrive between two operator steps. */
    method Responses()
      requires Valid()
      modifies net, ops
      ensures Valid() && old(net.trace) <= net.trace && old(net.clock) <= net.clock
      ensures OnlyResponses(net.trace, |old(net.trace)|, |net.trace|)
      ensures forall i :: 0 <= i < |ops| ==> ops[i].OnlyConfirmed()
    {
      var rs: seq<Response> :| true;
      TakeResponses(rs);
    }

    /** The array being driven is either the shared one or holds no execute operator. */
    ghost predicate Drivable(arr: seq<LSOperator>, start: nat)
      reads this`ops, this`opsStart, net, ops, arr
    {
      && Valid()
      && Distinct(arr) && OnceOk(arr) && start <= |net.trace|
      && AllInv(arr, net.trace, start)
      && ((arr == ops && start == opsStart) || forall i :: 0 <= i < |arr| ==> arr[i].kind != Execute)
    }

    /** Responses, then one operator's `switch_state`. */
    method Step(arr: seq<LSOperator>, i: nat, ghost start: nat) returns (code: Code)
      requires Drivable(arr, start) && i < |arr|
      modifies net, ops, arr
      ensures Drivable(arr, start)
      ensures old(net.trace) <= net.trace && old(net.clock) <= net.clock
      ensures RequestsServe(arr, net.trace, |old(net.trace)|)
      ensures forall j :: 0 <= j < |arr| && j != i ==>
                arr[j].Goal() == old(arr[j].Goal()) && arr[j].ret == old(arr[j].ret)
      ensures code == arr[i].ret
      ensures code == Success ==> Passed(arr[i].Goal(), net.trace, start, |old(net.trace)|, |net.trace|)
    {
      ghost var t0 := net.trace;
      Responses();
      ghost var t1 := net.trace;
      forall j | 0 <= j < |arr| && arr[j].kind != Execute ensures arr[j].Inv(t1, start) {
        assert arr[j].Inv(t0, start);
        arr[j].InvGrows(t0, t1, start);
      }
      code := arr[i].SwitchState(net, start);
      if code == Success { PassedWidens(arr[i].Goal(), net.trace, start, |t0|, |t1|, |net.trace|); }
      forall j | 0 <= j < |arr| && j != i ensures arr[j].Inv(net.trace, start) {
        assert arr[j].Inv(t1, start);
        assert arr[j].kind == CheckSync && arr[j].once ==> NoStatIn(net.trace, |t1|, |net.trace|, arr[j].ls);
        arr[j].InvGrows(t1, net.trace, start);
      }
      forall j | 0 <= j < |ops| && ops[j] != arr[i] ensures ops[j].Inv(net.trace, opsStart) {
        assert ops[j].Inv(t1, opsStart);
        ops[j].InvGrows(t1, net.trace, opsStart);
      }
    }

    /** The operators before i all succeeded in this pass, which began at lo. */
    ghost predicate Reached(arr: seq<LSOperator>, i: nat, goals: seq<OperatorGoal>, cuts: seq<nat>, start: nat, lo: nat)
      reads arr, net
    {
      && |goals| == i && GoalsAre(arr, goals)
      && PassOver(goals, net.trace, start, cuts) && cuts[0] == lo && cuts[i] == |net.trace|
    }

    /** One operator's turn in a pass. */
    method Turn(arr: seq<LSOperator>, i: nat, ghost start: nat, ghost lo: nat, ghost so: bool,
                ghost goals: seq<OperatorGoal>, ghost cuts: seq<nat>)
      returns (code: Code, ghost goals': seq<OperatorGoal>, ghost cuts': seq<nat>)
      requires Drivable(arr, start) && i < |arr| && arr[i].IsValid()
      requires lo <= |net.trace| && RequestsServe(arr, net.trace, lo)
      requires so ==> Reached(arr, i, goals, cuts, start, lo)
      modifies net, ops, arr
      ensures Drivable(arr, start)
      ensures old(net.trace) <= net.trace && old(net.clock) <= net.clock && RequestsServe(arr, net.trace, lo)
      ensures forall j :: 0 <= j < |arr| && j != i ==> arr[j].ret == old(arr[j].ret)
      ensures code == arr[i].ret
      ensures so && code == Success ==> Reached(arr, i + 1, goals', cuts', start, lo)
      ensures old(AllSucceeded(arr, i)) && code == Success ==> AllSucceeded(arr, i + 1)
    {
      ghost var t0 := net.trace;
      code := Step(arr, i, start);
      ServeConcat(arr, t0, net.trace, lo);
      goals', cuts' := goals + [arr[i].Goal()], cuts + [|net.trace|];
      if so && code == Success {
        PassOverExtends(goals, arr[i].Goal(), t0, net.trace, start, cuts);
      }
    }

    ghost predicate AllSucceeded(arr: seq<LSOperator>, n: nat)
      reads arr
    {
      n <= |arr| && forall k :: 0 <= k < n ==> arr[k].ls != -1 && arr[k].ret == Success
    }

    /** One pass over the operators, which is put on record. */
    method MotivateOnce(arr: seq<LSOperator>, ghost start: nat)
      returns (code: Code, ghost goals: seq<OperatorGoal>, ghost cuts: seq<nat>)
      requires Drivable(arr, start)
      modifies net, ops, arr, this`passes
      ensures Drivable(arr, start)
      ensures old(net.trace) <= net.trace && old(net.clock) <= net.clock
      ensures RequestsServe(arr, net.trace, |old(net.trace)|)
      ensures passes == old(passes) + [code]
      ensures code == Success <==> AllSucceeded(arr, |arr|)
      ensures code != Success ==> exists i :: 0 <= i < |arr| && (!arr[i].IsValid() || arr[i].ret == code)
      ensures code == Success ==> |goals| == |arr| && GoalsAre(arr, goals) && PassOver(goals, net.trace, start, cuts)
      ensures code == Success ==> |old(net.trace)| <= cuts[0]
    {
      code, goals, cuts := Pass(arr, start);
      passes := passes + [code];
    }

    /** Every operator has its turn: one that must retry, or a failure, is never overlooked. */
    method Pass(arr: seq<LSOperator>, ghost start: nat)
      returns (code: Code, ghost goals: seq<OperatorGoal>, ghost cuts: seq<nat>)
      requires Drivable(arr, start)
      modifies net, ops, arr
      ensures Drivable(arr, start)
      ensures old(net.trace) <= net.trace && old(net.clock) <= net.clock
      ensures RequestsServe(arr, net.trace, |old(net.trace)|)
      ensures code == Success <==> AllSucceeded(arr, |arr|)
      ensures code != Success ==> exists i :: 0 <= i < |arr| && (!arr[i].IsValid() || arr[i].ret == code)
      ensures code == Success ==> |goals| == |arr| && GoalsAre(arr, goals) && PassOver(goals, net.trace, start, cuts)
      ensures code == Success ==> |old(net.trace)| <= cuts[0]
    {
      code, goals, cuts := Success, [], [|net.trace|];
      var allSuccess, anyFail := true, false;
      ghost var bad: nat := 0;
      var i := 0;
      while i < |arr|
        invariant 0 <= i <= |arr|
        invariant Drivable(arr, start)
        invariant old(net.trace) <= net.trace && old(net.clock) <= net.clock
        invariant RequestsServe(arr, net.trace, |old(net.trace)|)
        invariant !anyFail && (allSuccess ==> code == Success)
        invariant allSuccess ==> AllSucceeded(arr, i)
        invariant !allSuccess ==> bad < i && arr[bad].ret == Eagain
        invariant allSuccess ==> Reached(arr, i, goals, cuts, start, |old(net.trace)|)
      {
        if !arr[i].IsValid() {
          code, bad := Unexpected, i;
          break;
        }
        code, goals, cuts := Turn(arr, i, start, |old(net.trace)|, allSuccess, goals, cuts);
        if code == Eagain {
          allSuccess, bad := false, i;
        } else if code != Success {
          anyFail, allSuccess, bad := true, false, i;
          break;
        }
        i := i + 1;
      }
      if !allSuccess && !anyFail {
        code := Eagain;
      }
    }

    /**
     The retry loop of a stage. It succeeds straight after the first pass in which every operator
     succeeded; without such a pass it ends when the time is up.
     */
    method RunStage(arr: seq<LSOperator>, ghost start: nat, timeout: int)
      returns (code: Code, ghost goals: seq<OperatorGoal>, ghost cuts: seq<nat>)
      requires Drivable(arr, start)
      modifies net, ops, arr, this`passes
      ensures Drivable(arr, start)
      ensures old(net.trace) <= net.trace && old(net.clock) <= net.clock
      ensures RequestsServe(arr, net.trace, |old(net.trace)|)
      ensures code == Success || (code == Timeout && timeout <= net.clock - old(net.clock))
      ensures EndsAtFirstSuccess(old(passes), passes, code)
      ensures code == Success ==> AllSucceeded(arr, |arr|)
      ensures code == Success ==> |goals| == |arr| && GoalsAre(arr, goals) && PassOver(goals, net.trace, start, cuts)
      ensures code == Success ==> |old(net.trace)| <= cuts[0]
    {
      var begin := net.clock;
      code, goals, cuts := Timeout, [], [];
      var expired := timeout <= net.clock - begin;
      while !expired
        invariant Drivable(arr, start)
        invariant old(net.trace) <= net.trace && begin <= net.clock
        invariant RequestsServe(arr, net.trace, |old(net.trace)|)
        invariant code == Timeout && expired == (timeout <= net.clock - begin)
        invariant EndsAtFirstSuccess(old(passes), passes, code)
        decreases timeout - (net.clock - begin)
      {
        code, goals, cuts := MotivateOnce(arr, start);
        if code == Success { break; }
        net.Tick();
        code, expired := Timeout, timeout <= net.clock - begin;
      }
    }

    /** One operator per valid stream; an invalid stream is skipped. */
    method Construct(kind: Kind, ids: seq<LsId>, scn: Scn, dst: AccessMode)
      returns (code: Code, arr: seq<LSOperator>)
      requires Valid() && kind != Execute
      ensures code == ConstructCode(ids)
      ensures Drivable(arr, |net.trace|) && Ops(arr, kind, ValidIds(ids), scn) && fresh(arr)
      ensures forall i :: 0 <= i < |arr| ==> arr[i].dstMode == dst && arr[i].once == Once(ValidIds(ids), arr[i].ls)
    {
      code, arr := Success, [];
      ghost var valid, built := ValidIds(ids), [];
      for k := 0 to |ids|
        invariant code == ConstructCode(ids[..k]) && built == ValidIds(ids[..k])
        invariant Ops(arr, kind, built, scn) && fresh(arr) && AllBlank(arr)
        invariant Aimed(arr, dst, valid)
      {
        OneMoreId(ids, k);
        var op := new LSOperator(kind, ids[k], scn, dst, 0, Once(valid, ids[k]));
        if !op.IsValid() {
          code := Unexpected;
        } else {
          arr, built := arr + [op], built + [ids[k]];
          code := Success;
        }
      }
      assert ids[..|ids|] == ids;
      BlankInv(arr, net.trace);
      AimedOnce(arr, kind, valid, scn, dst);
    }

    /** Execute operators carry over the streams and the mode versions of a change-mode array. */
    method Cast(arr: seq<LSOperator>) returns (code: Code)
      requires Valid() && forall i :: 0 <= i < |arr| ==> arr[i].IsValid()
      modifies this`ops, this`opsStart
      ensures Valid() && fresh(ops) && opsStart == |net.trace| && code == Success
      ensures |ops| == |arr|
      ensures forall i :: 0 <= i < |arr| ==>
                ops[i].ls == arr[i].ls && ops[i].scn == arr[i].scn && ops[i].castVersion == arr[i].modeVersion
    {
      code := Success;
      var cast: seq<LSOperator> := [];
      for k := 0 to |arr|
        invariant code == Success && |cast| == k && Distinct(cast) && fresh(cast)
        invariant forall i :: 0 <= i < k ==>
                    && cast[i].kind == Execute && cast[i].ls == arr[i].ls && cast[i].scn == arr[i].scn
                    && cast[i].castVersion == arr[i].modeVersion && cast[i].Inv(net.trace, |net.trace|)
      {
        var op := new LSOperator(Execute, arr[k].ls, arr[k].scn, InvalidMode, arr[k].modeVersion, false);
        if !op.IsValid() {
          code := Unexpected;
        } else {
          cast := cast + [op];
          code := Success;
        }
      }
      ops, opsStart := cast, |net.trace|;
    }

    /** Stages 1 and 3: drive every leader to `dst`. */
    method GetAndChangeAccessMode(ids: seq<LsId>, scn: Scn, dst: AccessMode, timeout: int)
      returns (code: Code, arr: seq<LSOperator>, ghost versions: seq<int>)
      requires Valid()
      modifies net, ops, this`passes
      ensures Valid() && fresh(arr) && old(net.trace) <= net.trace && old(net.clock) <= net.clock
      ensures NoRequestIn(net.trace, |old(net.trace)|, |net.trace|)
      ensures code == Success ==> Ops(arr, ChangeMode, ValidIds(ids), scn)
      ensures code == Success ==> |versions| == |arr| && forall i :: 0 <= i < |arr| ==>
                arr[i].modeVersion == versions[i]
      ensures code == Success ==> ModesSeen(net.trace, |old(net.trace)|, |net.trace|, ValidIds(ids), dst, versions)
      ensures code == Success || code == Unexpected || (code == Timeout && timeout <= net.clock - old(net.clock))
      ensures code == Unexpected <==> ids != [] && ids[|ids| - 1] == -1
      ensures EndsAtFirstSuccess(old(passes), passes, code)
    {
      versions := [];
      code, arr := Construct(ChangeMode, ids, scn, dst);
      if code != Success { return; }
      ghost var start, goals, cuts := |net.trace|, [], [];
      code, goals, cuts := RunStage(arr, start, timeout);
      assert NoRequestIn(net.trace, start, |net.trace|);
      if code == Success {
        versions := seq(|arr|, i requires 0 <= i < |arr| => goals[i].version);
        forall i | 0 <= i < |arr|
          ensures ModeSeenIn(net.trace, start, |net.trace|, arr[i].ls, dst, arr[i].modeVersion)
        {
          assert Passed(goals[i], net.trace, start, cuts[i], cuts[i + 1]);
          CutsOrdered(cuts, 0, i);
          CutsOrdered(cuts, i + 1, |arr|);
          ModeSeenGrows(net.trace, net.trace, cuts[i], cuts[i + 1], arr[i].ls, dst, arr[i].modeVersion);
        }
      }
    }

    /** Stage 2: wait until the log of every stream is in sync. */
    method WaitAllLogSync(ids: seq<LsId>, scn: Scn, timeout: int) returns (code: Code)
      requires Valid()
      modifies net, ops, this`passes
      ensures Valid() && old(net.trace) <= net.trace && old(net.clock) <= net.clock
      ensures NoRequestIn(net.trace, |old(net.trace)|, |net.trace|)
      ensures code == Success ==> SyncedAll(net.trace, |old(net.trace)|, |net.trace|, ValidIds(ids), scn)
      ensures code == Success || code == Unexpected || (code == OpNotAllow && timeout <= net.clock - old(net.clock))
      ensures code == Unexpected <==> ids != [] && ids[|ids| - 1] == -1
      ensures EndsAtFirstSuccess(old(passes), passes, code)
    {
      var arr;
      code, arr := Construct(CheckSync, ids, scn, InvalidMode);
      if code != Success { return; }
      ghost var start, goals, cuts := |net.trace|, [], [];
      code, goals, cuts := RunStage(arr, start, timeout);
      assert NoRequestIn(net.trace, start, |net.trace|);
      if code == Timeout {
        code := OpNotAllow;
      } else {
        forall i | 0 <= i < |arr| ensures SyncedOne(net.trace, start, |net.trace|, arr[i].ls, scn, arr[i].once) {
          assert Passed(goals[i], net.trace, start, cuts[i], cuts[i + 1]);
          CutsOrdered(cuts, 0, i);
          CutsOrdered(cuts, i + 1, |arr|);
        }
        assert forall x :: x in ValidIds(ids) ==> exists i :: 0 <= i < |arr| && arr[i].ls == x;
      }
    }

    /** Stage 4: send the requests and collect the responses of every replica. */
    method DoFlashback(arr: seq<LSOperator>, ghost ids: seq<LsId>, scn: Scn, ghost versions: seq<int>, timeout: int)
      returns (code: Code)
      requires Valid() && Ops(arr, ChangeMode, ids, scn) && INVALID_LS_ID !in ids
      requires |versions| == |arr| && forall i :: 0 <= i < |arr| ==> arr[i].modeVersion == versions[i]
      modifies this`ops, this`opsStart, this`passes, net, ops
      ensures Valid() && old(net.trace) <= net.trace && old(net.clock) <= net.clock
      ensures RequestsNamed(net.trace, |old(net.trace)|, ids, scn, versions)
      ensures code == Success ==> ExecutedAll(net.trace, |old(net.trace)|, ids, versions)
      ensures code == Success || (code == OpNotAllow && timeout <= net.clock - old(net.clock))
      ensures EndsAtFirstSuccess(old(passes), passes, code)
    {
      assert forall i :: 0 <= i < |arr| ==> arr[i].ls == ids[i] && ids[i] in ids;
      code := Cast(arr);
      ghost var start, goals, cuts := |net.trace|, [], [];
      code, goals, cuts := RunStage(ops, start, timeout);
      if code == Timeout {
        code := OpNotAllow;
      } else {
        forall i | 0 <= i < |arr| ensures ExecutePass(net.trace, start, |net.trace|, ids[i], versions[i]) {
          assert Passed(goals[i], net.trace, start, cuts[i], cuts[i + 1]);
          CutsOrdered(cuts, i + 1, |ops|);
          ExecutePassWidens(net.trace, start, cuts[i + 1], |net.trace|, ids[i], versions[i]);
        }
      }
      forall k | start <= k < |net.trace| && net.trace[k].FlashbackReq?
        ensures RequestNamed(net.trace[k], ids, scn, versions)
      {
        assert RequestServes(ops, net.trace[k]);
      }
    }

    /**
     A whole flashback. `ids` is what the status table lists, or nothing if it could
     not be read. Before any request every stream went through every stage, in order; on
     success every replica of every valid stream has answered under the version
     at which its stream was seen in FLASHBACK.
     */
    method RunFlashback(validArgs: bool, metaOrSys: bool, ids: Option<seq<LsId>>, scn: Scn, timeout: int)
      returns (code: Code, ghost cuts: Option<(nat, nat, nat)>)
      requires Valid()
      modifies this, net, ops
      ensures Valid() && locked == old(locked) && old(net.trace) <= net.trace
      ensures cuts.None? ==> code != Success && NoRequestIn(net.trace, |old(net.trace)|, |net.trace|)
      ensures cuts.Some? ==>
                && ids.Some?
                && Staged(net.trace, |old(net.trace)|, cuts.value.0, cuts.value.1, cuts.value.2,
                          ValidIds(ids.value), scn)
      ensures forall k :: |old(net.trace)| <= k < |net.trace| && net.trace[k].FlashbackReq? ==>
                ids.Some? && RequestInOrder(net.trace, |old(net.trace)|, k, ValidIds(ids.value), scn)
      ensures code == Success ==> Confirmed(net.trace, cuts.value.1, cuts.value.2, ValidIds(ids.value))
      ensures ids.Some? && TableIds(ids.value) ==>
                && (forall k :: |old(net.trace)| <= k < |net.trace| && net.trace[k].FlashbackReq? ==>
                      AllStagesBefore(net.trace, |old(net.trace)|, k, ids.value, scn))
                && (code == Success ==> Confirmed(net.trace, cuts.value.1, cuts.value.2, ids.value))
      ensures !validArgs ==> code == InvalidArgument
      ensures validArgs && metaOrSys ==> code == NotSupported
      ensures validArgs && !metaOrSys && old(locked) ==> code == Eagain
      ensures validArgs && !metaOrSys && !old(locked) && ids.Some? ==>
                && code in {Success, Unexpected, Timeout, OpNotAllow}
                && (code == Unexpected <==> ids.value != [] && ids.value[|ids.value| - 1] == -1)
      ensures code == Timeout || code == OpNotAllow ==> timeout <= net.clock - old(net.clock)
    {
      cuts := None;
      if !validArgs { return InvalidArgument, None; }
      if metaOrSys { return NotSupported, None; }
      if locked { return Eagain, None; }
      if ids.None? { return OtherError(-1), None; }
      locked := true;
      code, cuts := RunLocked(ids.value, scn, timeout);
      locked := false;
      ghost var t := net.trace;
      if TableIds(ids.value) { TableIdsAll(ids.value); }
      forall k | |old(net.trace)| <= k < |t| && t[k].FlashbackReq?
        ensures RequestInOrder(t, |old(net.trace)|, k, ValidIds(ids.value), scn)
      {
        RequestComesAfterEveryStage(t, |old(net.trace)|, cuts.value.0, cuts.value.1, cuts.value.2,
                                    ValidIds(ids.value), scn, k);
      }
    }

    /** The first three stages, each with what is left of the time. */
    method ReachFlashback(ids: seq<LsId>, scn: Scn, timeout: int, begin: int)
      returns (code: Code, arr: seq<LSOperator>, ghost versions: seq<int>, ghost c1: nat, ghost c2: nat)
      requires Valid() && begin <= net.clock
      modifies net, ops, this`passes
      ensures Valid() && fresh(arr) && old(net.trace) <= net.trace && old(net.clock) <= net.clock
      ensures NoRequestIn(net.trace, |old(net.trace)|, |net.trace|)
      ensures code == Success ==>
                && |old(net.trace)| <= c1 <= c2 <= |net.trace| && Ops(arr, ChangeMode, ValidIds(ids), scn)
                && PreparedAll(net.trace, |old(net.trace)|, c1, ValidIds(ids))
                && SyncedAll(net.trace, c1, c2, ValidIds(ids), scn)
                && FlashbackAll(net.trace, c2, |net.trace|, ValidIds(ids))
                && ModesSeen(net.trace, c2, |net.trace|, ValidIds(ids), Flashback, versions)
      ensures code == Success ==> |versions| == |arr| && forall i :: 0 <= i < |arr| ==>
                arr[i].modeVersion == versions[i]
      ensures code == Timeout || code == OpNotAllow ==> timeout <= net.clock - begin
      ensures code in {Success, Unexpected, Timeout, OpNotAllow}
      ensures code == Unexpected <==> ids != [] && ids[|ids| - 1] == -1
    {
      c1, c2 := 0, 0;
      ghost var c0, valid := |net.trace|, ValidIds(ids);
      code, arr, versions := GetAndChangeAccessMode(ids, scn, PrepareFlashback, timeout - (net.clock - begin));
      if code != Success { return; }
      ghost var t1 := net.trace;
      PreparedFromModes(t1, c0, |t1|, valid, versions);
      code := WaitAllLogSync(ids, scn, timeout - (net.clock - begin));
      ghost var t2 := net.trace;
      NoRequestConcat(t1, t2, c0);
      if code != Success { return; }
      code, arr, versions := GetAndChangeAccessMode(ids, scn, Flashback, timeout - (net.clock - begin));
      NoRequestConcat(t2, net.trace, c0);
      if code != Success { return; }
      c1, c2 := |t1|, |t2|;
      StagesReached(t1, t2, net.trace, c0, valid, scn, versions);
    }

    method RunLocked(ids: seq<LsId>, scn: Scn, timeout: int) returns (code: Code, ghost cuts: Option<(nat, nat, nat)>)
      requires Valid()
      modifies this`ops, this`opsStart, this`passes, net, ops
      ensures Valid() && old(net.trace) <= net.trace
      ensures cuts.None? ==> code != Success && NoRequestIn(net.trace, |old(net.trace)|, |net.trace|)
      ensures cuts.Some? ==>
                Staged(net.trace, |old(net.trace)|, cuts.value.0, cuts.value.1, cuts.value.2, ValidIds(ids), scn)
      ensures code == Success ==> Confirmed(net.trace, cuts.value.1, cuts.value.2, ValidIds(ids))
      ensures code == Timeout || code == OpNotAllow ==> timeout <= net.clock - old(net.clock)
      ensures code in {Success, Unexpected, Timeout, OpNotAllow}
      ensures code == Unexpected <==> ids != [] && ids[|ids| - 1] == -1
    {
      cuts := None;
      var begin := net.clock;
      ghost var c0, valid, versions, c1, c2 := |net.trace|, ValidIds(ids), [], 0, 0;
      var arr;
      code, arr, versions, c1, c2 := ReachFlashback(ids, scn, timeout, begin);
      if code != Success { return; }
      ghost var t := net.trace;
      ValidIdsExact(ids);
      code := DoFlashback(arr, valid, scn, versions, timeout - (net.clock - begin));
      cuts := Some((c1, c2, |t|));
      RequestsAfterStages(t, net.trace, c0, c1, c2, valid, scn, versions);
    }
  }

  lemma NoRequestConcat(t: seq<Event>, u: seq<Event>, lo: nat)
    requires t <= u && lo <= |t| && NoRequestIn(t, lo, |t|) && NoRequestIn(u, |t|, |u|)
    ensures NoRequestIn(u, lo, |u|)
  {
    forall i | lo <= i < |u| ensures !u[i].FlashbackReq? {
      assert i < |t| ==> u[i] == t[i];
    }
  }

  lemma ExecutePassWidens(t: seq<Event>, start: nat, mid: nat, hi: nat, ls: LsId, v: int)
    requires mid <= hi <= |t| && ExecutePass(t, start, mid, ls, v)
    ensures ExecutePass(t, start, hi, ls, v)
  {
    var ms, ns :| ListsSeenIn(t, start, mid, ls, ms, ns)
                  && AllAnswered(t, start, mid, ls, v, ms) && AllAnswered(t, start, mid, ls, v, ns);
    ListsSeenGrows(t, t, start, mid, ls, ms, ns);
    forall s | s in ms || s in ns ensures AnsweredIn(t, start, hi, ls, v, s) {
      AnsweredGrows(t, t, start, mid, ls, v, s);
    }
    assert AllAnswered(t, start, hi, ls, v, ms) && AllAnswered(t, start, hi, ls, v, ns);
  }
}
