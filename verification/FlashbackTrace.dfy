/**
 What a tenant flashback observes and sends, as a trace of events, and the
 evidence each of its four stages has to leave in that trace.
 */
module FlashbackTrace {

  type LsId = int
  type Addr = int
  type Scn = int

  datatype AccessMode = InvalidMode | Append | RawWrite | PrepareFlashback | Flashback

  /** The part of a palf status reply that the flashback operators look at. */
  datatype PalfStat = PalfStat(
    mode: AccessMode,
    version: int,
    members: seq<Addr>,
    learners: seq<Addr>,
    endScn: Scn,
    maxScn: Scn)

  datatype Response = Response(valid: bool, ls: LsId, version: int, src: Addr, scn: Scn)

  datatype Event =
    | LeaderStat(ls: LsId, stat: PalfStat)                       // the leader answered a status query
    | ReplicaStat(ls: LsId, server: Addr, endScn: Scn, maxScn: Scn) // a replica answered one
    | ReplicaSilent(ls: LsId, server: Addr)                      // a replica did not answer
    | ChangeModeCmd(ls: LsId, version: int, dst: AccessMode)
    | FlashbackReq(ls: LsId, server: Addr, version: int, scn: Scn)
    | FlashbackResp(resp: Response)

  // ---------- evidence carried by single events ----------

  /** The leader was seen in `dst`, or already in FLASHBACK, under `version`. */
  predicate ModeSeen(e: Event, ls: LsId, dst: AccessMode, version: int) {
    e.LeaderStat? && e.ls == ls && (e.stat.mode == dst || e.stat.mode == Flashback) && e.stat.version == version
  }

  predicate InFlashback(e: Event, ls: LsId) {
    e.LeaderStat? && e.ls == ls && e.stat.mode == Flashback
  }

  predicate ListsSeen(e: Event, ls: LsId, members: seq<Addr>, learners: seq<Addr>) {
    e.LeaderStat? && e.ls == ls && e.stat.members == members && e.stat.learners == learners
  }

  /** The replica has committed everything it holds, up to the flashback point or beyond. */
  predicate ReplicaSynced(e: Event, ls: LsId, scn: Scn, server: Addr) {
    e.ReplicaStat? && e.ls == ls && e.server == server && e.maxScn <= e.endScn && scn <= e.endScn
  }

  /** The replica has committed everything it holds, and that ends before the flashback point. */
  predicate ReplicaShort(e: Event, ls: LsId, scn: Scn, server: Addr) {
    e.ReplicaStat? && e.ls == ls && e.server == server && e.maxScn <= e.endScn < scn
  }

  /** A reason to retry: no reply, uncommitted logs, or an end before the flashback point. */
  predicate ReplicaLagging(e: Event, ls: LsId, scn: Scn, server: Addr) {
    && (e.ReplicaSilent? || e.ReplicaStat?)
    && e.ls == ls && e.server == server
    && (e.ReplicaStat? ==> e.endScn < e.maxScn || e.endScn < scn)
  }

  predicate AnsweredBy(e: Event, ls: LsId, version: int, server: Addr) {
    e.FlashbackResp? && e.resp.valid && e.resp.ls == ls && e.resp.version == version && e.resp.src == server
  }

  // ---------- evidence over a stretch [lo, hi) of the trace ----------

  ghost predicate ModeSeenIn(t: seq<Event>, lo: nat, hi: nat, ls: LsId, dst: AccessMode, version: int) {
    exists i :: lo <= i < hi <= |t| && ModeSeen(t[i], ls, dst, version)
  }

  ghost predicate InFlashbackIn(t: seq<Event>, lo: nat, hi: nat, ls: LsId) {
    exists i :: lo <= i < hi <= |t| && InFlashback(t[i], ls)
  }

  ghost predicate ListsSeenIn(t: seq<Event>, lo: nat, hi: nat, ls: LsId, members: seq<Addr>, learners: seq<Addr>) {
    exists i :: lo <= i < hi <= |t| && ListsSeen(t[i], ls, members, learners)
  }

  /** Nothing but replicas answering, or failing to answer, in [lo, hi). */
  ghost predicate OnlyReplicaStats(t: seq<Event>, lo: nat, hi: nat) {
    forall i :: lo <= i < hi <= |t| ==> t[i].ReplicaStat? || t[i].ReplicaSilent?
  }

  ghost predicate OnlyResponses(t: seq<Event>, lo: nat, hi: nat) {
    forall i :: lo <= i < hi <= |t| ==> t[i].FlashbackResp?
  }

  /** No status of this stream's leader is reported in [lo, hi). */
  ghost predicate NoStatIn(t: seq<Event>, lo: nat, hi: nat, ls: LsId) {
    forall i :: lo <= i < hi <= |t| ==> !(t[i].LeaderStat? && t[i].ls == ls)
  }

  /**
   The lists were reported in [lo, hi) and, for a stream that is handled once, no status of its
   leader came after: they are the last ones reported.
   */
  ghost predicate ListsLastIn(t: seq<Event>, lo: nat, hi: nat, ls: LsId, once: bool,
                              members: seq<Addr>, learners: seq<Addr>)
  {
    exists i: nat ::
      lo <= i < hi <= |t| && ListsSeen(t[i], ls, members, learners) && (once ==> NoStatIn(t, i + 1, hi, ls))
  }

  /** The stream is in the list at most once. */
  ghost predicate Once(ids: seq<LsId>, ls: LsId) {
    forall i, j :: 0 <= i < j < |ids| ==> !(ids[i] == ls && ids[j] == ls)
  }

  ghost predicate SyncedIn(t: seq<Event>, lo: nat, hi: nat, ls: LsId, scn: Scn, server: Addr) {
    exists i :: lo <= i < hi <= |t| && ReplicaSynced(t[i], ls, scn, server)
  }

  ghost predicate ShortIn(t: seq<Event>, lo: nat, hi: nat, ls: LsId, scn: Scn, server: Addr) {
    exists i :: lo <= i < hi <= |t| && ReplicaShort(t[i], ls, scn, server)
  }

  ghost predicate AnsweredIn(t: seq<Event>, lo: nat, hi: nat, ls: LsId, version: int, server: Addr) {
    exists i :: lo <= i < hi <= |t| && AnsweredBy(t[i], ls, version, server)
  }

  ghost predicate NoRequestIn(t: seq<Event>, lo: nat, hi: nat) {
    forall i :: lo <= i < hi <= |t| ==> !t[i].FlashbackReq?
  }

  /**
   What lets the log-sync check of a stream pass. Evidence is gathered since `start`, the
   beginning of the stage; the successful pass is [lo, hi). Either the leader was seen in FLASHBACK
   in that pass, or, for the member and learner lists the leader last reported before hi, every
   listed server has at some pass been seen synced, or every member was seen in
   this one pass fully committed but short of the flashback point. (Of a stream that is handled
   twice, the lists are those last reported to the one that passed.)
   */
  ghost predicate SyncPass(t: seq<Event>, start: nat, lo: nat, hi: nat, ls: LsId, scn: Scn, once: bool) {
    || InFlashbackIn(t, lo, hi, ls)
    || exists members, learners ::
         && ListsLastIn(t, start, hi, ls, once, members, learners)
         && SyncListsPass(t, start, lo, hi, ls, scn, members, learners)
  }

  ghost predicate SyncListsPass(t: seq<Event>, start: nat, lo: nat, hi: nat, ls: LsId, scn: Scn,
                                members: seq<Addr>, learners: seq<Addr>)
  {
    || (&& (forall s :: s in members ==> SyncedIn(t, start, hi, ls, scn, s))
        && (forall s :: s in learners ==> SyncedIn(t, start, hi, ls, scn, s)))
    || (forall s :: s in members ==> ShortIn(t, lo, hi, ls, scn, s))
  }

  /** Every server of a list the leader reported has answered under the stream's mode version. */
  ghost predicate ExecutePass(t: seq<Event>, start: nat, hi: nat, ls: LsId, version: int) {
    exists members, learners ::
      && ListsSeenIn(t, start, hi, ls, members, learners)
      && AllAnswered(t, start, hi, ls, version, members)
      && AllAnswered(t, start, hi, ls, version, learners)
  }

  ghost predicate AllAnswered(t: seq<Event>, start: nat, hi: nat, ls: LsId, version: int, servers: seq<Addr>) {
    forall s :: s in servers ==> AnsweredIn(t, start, hi, ls, version, s)
  }

  // ---------- the whole protocol ----------

  ghost predicate PreparedAll(t: seq<Event>, lo: nat, hi: nat, ids: seq<LsId>) {
    forall ls :: ls in ids ==> PreparedOne(t, lo, hi, ls)
  }

  ghost predicate PreparedOne(t: seq<Event>, lo: nat, hi: nat, ls: LsId) {
    exists v :: ModeSeenIn(t, lo, hi, ls, PrepareFlashback, v)
  }

  ghost predicate SyncedAll(t: seq<Event>, lo: nat, hi: nat, ids: seq<LsId>, scn: Scn) {
    forall ls :: ls in ids ==> SyncedOne(t, lo, hi, ls, scn, Once(ids, ls))
  }

  ghost predicate SyncedOne(t: seq<Event>, lo: nat, hi: nat, ls: LsId, scn: Scn, once: bool) {
    exists p: nat, q: nat :: lo <= p <= q <= hi && SyncPass(t, lo, p, q, ls, scn, once)
  }

  ghost predicate FlashbackAll(t: seq<Event>, lo: nat, hi: nat, ids: seq<LsId>) {
    forall ls :: ls in ids ==> exists v :: ModeSeenIn(t, lo, hi, ls, Flashback, v)
  }

  /**
   The stages of a flashback over `ids` are separated by barriers c0 <= c1 <= c2 <= c3:
   every stream is seen prepared in [c0, c1), passes the log-sync check in [c1, c2) and is seen in
   FLASHBACK in [c2, c3). No request is sent before c3, and every request after it
   names one of the streams, the requested point, and a mode version at which
   FLASHBACK was seen for that stream in [c2, c3).
   */
  ghost predicate Staged(t: seq<Event>, c0: nat, c1: nat, c2: nat, c3: nat, ids: seq<LsId>, scn: Scn) {
    && c0 <= c1 <= c2 <= c3 <= |t|
    && PreparedAll(t, c0, c1, ids)
    && SyncedAll(t, c1, c2, ids, scn)
    && FlashbackAll(t, c2, c3, ids)
    && NoRequestIn(t, c0, c3)
    && RequestsBacked(t, c2, c3, ids, scn)
  }

  ghost predicate RequestsBacked(t: seq<Event>, c2: nat, c3: nat, ids: seq<LsId>, scn: Scn) {
    forall k :: c3 <= k < |t| && t[k].FlashbackReq? ==> RequestBacked(t, c2, c3, ids, scn, t[k])
  }

  ghost predicate RequestBacked(t: seq<Event>, c2: nat, c3: nat, ids: seq<LsId>, scn: Scn, e: Event) {
    e.FlashbackReq? && e.ls in ids && e.scn == scn && ModeSeenIn(t, c2, c3, e.ls, Flashback, e.version)
  }

  // ---------- evidence survives when the trace grows ----------

  lemma SyncPassGrows(t: seq<Event>, u: seq<Event>, start: nat, lo: nat, hi: nat, ls: LsId, scn: Scn, once: bool)
    requires t <= u && SyncPass(t, start, lo, hi, ls, scn, once)
    ensures SyncPass(u, start, lo, hi, ls, scn, once)
  {
    if InFlashbackIn(t, lo, hi, ls) {
      var i :| lo <= i < hi <= |t| && InFlashback(t[i], ls);
      assert InFlashback(u[i], ls);
    } else {
      var members, learners :|
        ListsLastIn(t, start, hi, ls, once, members, learners)
        && SyncListsPass(t, start, lo, hi, ls, scn, members, learners);
      ListsLastStay(t, u, start, hi, hi, ls, once, members, learners);
      SyncListsGrow(t, u, start, lo, hi, ls, scn, members, learners);
    }
  }

  /** The last reported lists stay that while the stream's leader reports nothing more. */
  lemma ListsLastStay(t: seq<Event>, u: seq<Event>, lo: nat, hi: nat, end: nat, ls: LsId, once: bool,
                      members: seq<Addr>, learners: seq<Addr>)
    requires t <= u && ListsLastIn(t, lo, hi, ls, once, members, learners)
    requires hi <= end <= |u| && (once ==> NoStatIn(u, hi, end, ls))
    ensures ListsLastIn(u, lo, end, ls, once, members, learners)
  {
    var i: nat :|
      lo <= i < hi <= |t| && ListsSeen(t[i], ls, members, learners) && (once ==> NoStatIn(t, i + 1, hi, ls));
    assert ListsSeen(u[i], ls, members, learners);
    if once {
      forall k | i + 1 <= k < end ensures !(u[k].LeaderStat? && u[k].ls == ls) {
        assert k < hi ==> u[k] == t[k];
      }
    }
  }

  lemma SyncPassWidens(t: seq<Event>, start: nat, lo: nat, mid: nat, hi: nat, ls: LsId, scn: Scn, once: bool)
    requires lo <= mid && SyncPass(t, start, mid, hi, ls, scn, once)
    ensures SyncPass(t, start, lo, hi, ls, scn, once)
  {
    if !InFlashbackIn(t, mid, hi, ls) {
      var ms, ns :|
        ListsLastIn(t, start, hi, ls, once, ms, ns) && SyncListsPass(t, start, mid, hi, ls, scn, ms, ns);
      assert forall s :: ShortIn(t, mid, hi, ls, scn, s) ==> ShortIn(t, lo, hi, ls, scn, s);
      assert SyncListsPass(t, start, lo, hi, ls, scn, ms, ns);
    }
  }

  lemma SyncListsGrow(t: seq<Event>, u: seq<Event>, start: nat, lo: nat, hi: nat, ls: LsId, scn: Scn,
                      members: seq<Addr>, learners: seq<Addr>)
    requires t <= u && hi <= |t| && SyncListsPass(t, start, lo, hi, ls, scn, members, learners)
    ensures SyncListsPass(u, start, lo, hi, ls, scn, members, learners)
  {
    forall s | SyncedIn(t, start, hi, ls, scn, s) ensures SyncedIn(u, start, hi, ls, scn, s) {
      SyncedGrows(t, u, start, hi, ls, scn, s);
    }
    forall s | ShortIn(t, lo, hi, ls, scn, s) ensures ShortIn(u, lo, hi, ls, scn, s) {
      var i :| lo <= i < hi <= |t| && ReplicaShort(t[i], ls, scn, s);
      assert ReplicaShort(u[i], ls, scn, s);
    }
  }

  lemma SyncedGrows(t: seq<Event>, u: seq<Event>, lo: nat, hi: nat, ls: LsId, scn: Scn, s: Addr)
    requires t <= u && SyncedIn(t, lo, hi, ls, scn, s)
    ensures forall h: nat :: hi <= h <= |u| ==> SyncedIn(u, lo, h, ls, scn, s)
  {
    var i :| lo <= i < hi <= |t| && ReplicaSynced(t[i], ls, scn, s);
    assert ReplicaSynced(u[i], ls, scn, s);
  }

  lemma ModeSeenGrows(t: seq<Event>, u: seq<Event>, lo: nat, hi: nat, ls: LsId, dst: AccessMode, v: int)
    requires t <= u && ModeSeenIn(t, lo, hi, ls, dst, v)
    ensures forall l: nat, h: nat :: l <= lo && hi <= h <= |u| ==> ModeSeenIn(u, l, h, ls, dst, v)
  {
    var i :| lo <= i < hi <= |t| && ModeSeen(t[i], ls, dst, v);
    assert ModeSeen(u[i], ls, dst, v);
  }

  lemma AnsweredGrows(t: seq<Event>, u: seq<Event>, lo: nat, hi: nat, ls: LsId, v: int, s: Addr)
    requires t <= u && AnsweredIn(t, lo, hi, ls, v, s)
    ensures forall h: nat :: hi <= h <= |u| ==> AnsweredIn(u, lo, h, ls, v, s)
  {
    var i :| lo <= i < hi <= |t| && AnsweredBy(t[i], ls, v, s);
    assert AnsweredBy(u[i], ls, v, s);
  }

  lemma ListsSeenGrows(t: seq<Event>, u: seq<Event>, lo: nat, hi: nat, ls: LsId, ms: seq<Addr>, ns: seq<Addr>)
    requires t <= u && ListsSeenIn(t, lo, hi, ls, ms, ns)
    ensures forall h: nat :: hi <= h <= |u| ==> ListsSeenIn(u, lo, h, ls, ms, ns)
  {
    var i :| lo <= i < hi <= |t| && ListsSeen(t[i], ls, ms, ns);
    assert ListsSeen(u[i], ls, ms, ns);
  }

  lemma ExecutePassGrows(t: seq<Event>, u: seq<Event>, start: nat, hi: nat, ls: LsId, v: int)
    requires t <= u && hi <= |t| && ExecutePass(t, start, hi, ls, v)
    ensures ExecutePass(u, start, hi, ls, v)
  {
    var ms, ns :| ListsSeenIn(t, start, hi, ls, ms, ns)
                  && AllAnswered(t, start, hi, ls, v, ms) && AllAnswered(t, start, hi, ls, v, ns);
    ListsSeenGrows(t, u, start, hi, ls, ms, ns);
    forall s | s in ms || s in ns ensures AnsweredIn(u, start, hi, ls, v, s) {
      AnsweredGrows(t, u, start, hi, ls, v, s);
    }
    assert AllAnswered(u, start, hi, ls, v, ms) && AllAnswered(u, start, hi, ls, v, ns);
  }

  lemma StagesGrow(t: seq<Event>, u: seq<Event>, c0: nat, c1: nat, c2: nat, c3: nat, ids: seq<LsId>, scn: Scn)
    requires t <= u && c0 <= c1 <= c2 <= c3 <= |t|
    requires PreparedAll(t, c0, c1, ids) && SyncedAll(t, c1, c2, ids, scn) && FlashbackAll(t, c2, c3, ids)
    requires NoRequestIn(t, c0, c3)
    ensures PreparedAll(u, c0, c1, ids) && SyncedAll(u, c1, c2, ids, scn) && FlashbackAll(u, c2, c3, ids)
    ensures NoRequestIn(u, c0, c3)
  {
    forall ls | ls in ids
      ensures PreparedOne(u, c0, c1, ls) && SyncedOne(u, c1, c2, ls, scn, Once(ids, ls))
              && exists v :: ModeSeenIn(u, c2, c3, ls, Flashback, v)
    {
      assert PreparedOne(t, c0, c1, ls) && SyncedOne(t, c1, c2, ls, scn, Once(ids, ls));
      var v :| ModeSeenIn(t, c0, c1, ls, PrepareFlashback, v);
      ModeSeenGrows(t, u, c0, c1, ls, PrepareFlashback, v);
      assert ModeSeenIn(u, c0, c1, ls, PrepareFlashback, v);
      var p: nat, q: nat :| c1 <= p <= q <= c2 && SyncPass(t, c1, p, q, ls, scn, Once(ids, ls));
      SyncPassGrows(t, u, c1, p, q, ls, scn, Once(ids, ls));
      var w :| ModeSeenIn(t, c2, c3, ls, Flashback, w);
      ModeSeenGrows(t, u, c2, c3, ls, Flashback, w);
      assert ModeSeenIn(u, c2, c3, ls, Flashback, w);
    }
  }

  /**
   Before position k, and since `lo`: the stream is seen prepared at i, then passes the log-sync
   check within [p, q) on evidence gathered since c1, then is seen in FLASHBACK at j.
   */
  ghost predicate StagesBefore(t: seq<Event>, lo: nat, k: nat, ls: LsId, scn: Scn, once: bool) {
    exists i: nat, c1: nat, p: nat, q: nat, j: nat ::
      && lo <= i < c1 <= p <= q <= j < k <= |t|
      && PreparedAt(t[i], ls)
      && SyncPass(t, c1, p, q, ls, scn, once)
      && InFlashback(t[j], ls)
  }

  ghost predicate PreparedAt(e: Event, ls: LsId) {
    exists v :: ModeSeen(e, ls, PrepareFlashback, v)
  }

  /** FLASHBACK was seen for the stream, under this version, before position k. */
  ghost predicate VersionSeenBefore(t: seq<Event>, lo: nat, k: nat, ls: LsId, version: int) {
    exists j: nat :: lo <= j < k <= |t| && ModeSeen(t[j], ls, Flashback, version)
  }

  /** The order every request obeys: each stream went through each stage, in order, before it. */
  ghost predicate RequestInOrder(t: seq<Event>, lo: nat, k: nat, ids: seq<LsId>, scn: Scn)
    requires k < |t| && t[k].FlashbackReq?
  {
    && t[k].ls in ids && t[k].scn == scn
    && (forall ls :: ls in ids ==> StagesBefore(t, lo, k, ls, scn, Once(ids, ls)))
    && VersionSeenBefore(t, lo, k, t[k].ls, t[k].version)
  }

  /** The barriers of a staged trace, spelled out for one request. */
  lemma RequestComesAfterEveryStage(t: seq<Event>, c0: nat, c1: nat, c2: nat, c3: nat, ids: seq<LsId>, scn: Scn,
                                    k: nat)
    requires Staged(t, c0, c1, c2, c3, ids, scn)
    requires c0 <= k < |t| && t[k].FlashbackReq?
    ensures RequestInOrder(t, c0, k, ids, scn)
  {
    assert RequestBacked(t, c2, c3, ids, scn, t[k]);
    forall ls | ls in ids ensures StagesBefore(t, c0, k, ls, scn, Once(ids, ls)) {
      assert PreparedOne(t, c0, c1, ls) && SyncedOne(t, c1, c2, ls, scn, Once(ids, ls));
      var v :| ModeSeenIn(t, c0, c1, ls, PrepareFlashback, v);
      var i: nat :| c0 <= i < c1 <= |t| && ModeSeen(t[i], ls, PrepareFlashback, v);
      var p: nat, q: nat :| c1 <= p <= q <= c2 && SyncPass(t, c1, p, q, ls, scn, Once(ids, ls));
      var w :| ModeSeenIn(t, c2, c3, ls, Flashback, w);
      var j: nat :| c2 <= j < c3 <= |t| && ModeSeen(t[j], ls, Flashback, w);
      assert PreparedAt(t[i], ls) && InFlashback(t[j], ls);
    }
  }
}
