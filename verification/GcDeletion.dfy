/**
 When a replica may be removed because its stream has left the status table. Several replicas share one
 status entry. Each takes in any GC logs at any scns, which covers every log they could share; any
 replica may be leader, restart, or be rebuilt from another at any time.
 */
module GcDeletion {
  import opened Common
  import opened GcState

  type Id = nat

  datatype Event =
    | Offlined(id: Id, scn: Scn)                               // a replica persisted LS_OFFLINE at scn
    | Passed(id: Id, scn: Scn, seen: Observation)              // the offline check passed on a replica
    | EntryDeleted(id: Id)
    | Removed(id: Id, look: Look)                              // a replica removed for what a look showed

  /** A replica: its persisted meta, the verdict of its last offline handling, its pending removal. */
  datatype Replica = Replica(meta: Meta, needDelete: bool, candidate: Candidate)

  /** A removal is pending for what one look showed. */
  datatype Candidate = NotCandidate | EntryGone(look: Look) | TenantGone(look: Look)

  datatype Look = Look(entry: bool, view: TableView)

  datatype Sys = Sys(replicas: map<Id, Replica>, entry: bool, history: seq<Event>)

  /** What one look at the status table and the schema gives the collector. */
  datatype TableView = TableView(
    readOk: bool,               // the table could be read
    dropped: Option<bool>,      // the tenant has been dropped, if that could be read
    userTenant: bool,
    creating: Option<bool>,     // the meta tenant is being created, if that could be read
    allowGc: bool)

  /** `gc_check_ls_status_`: which candidate, if any, a look at the table makes. */
  function Collect(entry: bool, v: TableView): (c: Candidate)
    ensures c == TenantGone(Look(entry, v)) <==> v.dropped == Some(true) && !(v.readOk && entry)
    ensures c == EntryGone(Look(entry, v)) <==>
              && v.readOk && !entry && v.dropped == Some(false)
              && (v.userTenant ==> v.creating == Some(false)) && v.allowGc
    ensures c == NotCandidate <==>
              || (v.readOk && entry) || v.dropped == None
              || (&& v.dropped == Some(false)
                  && (!v.readOk || (v.userTenant && (v.creating.None? || v.creating.value)) || !v.allowGc))
  {
    if v.readOk && entry then NotCandidate
    else if v.dropped.None? then NotCandidate
    else if v.dropped.value then TenantGone(Look(entry, v))
    else if !v.readOk then NotCandidate
    else if v.userTenant && v.creating != Some(false) then NotCandidate
    else if !v.allowGc then NotCandidate
    else EntryGone(Look(entry, v))
  }

  datatype Step =
    | ApplyLog(id: Id, kind: LogType, scn: Scn)                // a GC log replayed or applied
    | SubmitOffline(id: Id, seen: Observation)                 // handle_gc_ls_offline_: its OFFLINE_LS log
    | Offline(id: Id, seen: Observation)                       // handle_gc_ls_offline_: the rest
    | DeleteEntry(id: Id, ok: bool)                            // delete_ls_status_ after LS_NEED_DELETE_ENTRY
    | CheckStatus(id: Id, view: TableView)
    | RemoveLs(id: Id)                                         // execute_gc_ of a LS_NEED_GC candidate
    | Restart(id: Id)
    | Rebuild(id: Id, from: Id)                                // a replica copied from another

  predicate Enabled(s: Sys, step: Step) {
    match step
    case ApplyLog(id, kind, scn) => id in s.replicas
    case SubmitOffline(id, seen) => id in s.replicas
    case Offline(id, seen) => id in s.replicas && OfflineFirst(s.replicas[id].meta, seen) == s.replicas[id].meta
    case DeleteEntry(id, ok) => id in s.replicas && s.replicas[id].needDelete
    case CheckStatus(id, view) => id in s.replicas
    case RemoveLs(id) => id in s.replicas && s.replicas[id].candidate != NotCandidate
    case Restart(id) => id in s.replicas
    case Rebuild(id, from) => from in s.replicas
  }

  function OfflinedEvents(id: Id, m: Meta, n: Meta): seq<Event> {
    if m.offlineScn.None? && n.offlineScn.Some? then [Offlined(id, n.offlineScn.value)] else []
  }

  function PassedEvents(id: Id, m: Meta, o: Observation): seq<Event> {
    if o.leader && m.state == LsOffline && CheckPasses(m, o) then [Passed(id, m.offlineScn.value, o)] else []
  }

  function Next(s: Sys, step: Step): Sys
    requires Enabled(s, step)
  {
    match step
    case ApplyLog(id, kind, scn) =>
      var r := s.replicas[id];
      var m := ApplyGc(r.meta, kind, scn);
      s.(replicas := s.replicas[id := r.(meta := m)], history := s.history + OfflinedEvents(id, r.meta, m))
    case SubmitOffline(id, seen) =>
      var r := s.replicas[id];
      var m := OfflineFirst(r.meta, seen);
      s.(replicas := s.replicas[id := r.(meta := m)], history := s.history + OfflinedEvents(id, r.meta, m))
    case Offline(id, seen) =>
      var r := s.replicas[id];
      var o := HandleOffline(r.meta, seen);
      s.(replicas := s.replicas[id := r.(meta := o.meta, needDelete := o.needDelete)],
         history := s.history + PassedEvents(id, r.meta, seen))
    case DeleteEntry(id, ok) =>
      s.(replicas := s.replicas[id := s.replicas[id].(needDelete := false)],
         entry := s.entry && !ok,
         history := if ok then s.history + [EntryDeleted(id)] else s.history)
    case CheckStatus(id, view) =>
      s.(replicas := s.replicas[id := s.replicas[id].(candidate := Collect(s.entry, view))])
    case RemoveLs(id) =>
      s.(replicas := s.replicas - {id},
         history := s.history + [Removed(id, s.replicas[id].candidate.look)])
    case Restart(id) =>
      s.(replicas := s.replicas[id := Replica(s.replicas[id].meta, false, NotCandidate)])
    case Rebuild(id, from) =>
      s.(replicas := s.replicas[id := Replica(s.replicas[from].meta, false, NotCandidate)])
  }

  /** Freshly created replicas of a stream that is in the table. */
  predicate Init(s: Sys) {
    && s.entry
    && s.history == []
    && forall id :: id in s.replicas ==> s.replicas[id] == Replica(FRESH, false, NotCandidate)
  }

  // ---------- what a history has to show ----------

  /** At j the offline check passed for an offline point that some replica had persisted before. */
  predicate Justified(h: seq<Event>, i: nat, j: nat) {
    && i < j < |h|
    && h[i].Offlined? && h[j].Passed?
    && h[j].scn == h[i].scn
    && CheckHeld(h[i].scn, h[j].seen)
  }

  /** A leader saw the readable scn at or past the point, and the delay elapsed or waived. */
  predicate CheckHeld(scn: Scn, o: Observation) {
    && o.leader && o.readable.Some? && scn <= o.readable.value && !o.delayRecycle && o.dropping.Some?
    && (|| o.dropping == Some(true) || o.restoreOrClone
        || (o.configValid && o.delayUs <= o.nowUs - scn / 1000))
  }

  /** The tenant had been dropped and the look did not find the stream in the table. */
  predicate ShowsTenantGone(l: Look) {
    l.view.dropped == Some(true) && !(l.view.readOk && l.entry)
  }

  /** The stream was not in the table of a tenant neither dropped nor being created, and GC allowed. */
  predicate ShowsEntryGone(l: Look) {
    && l.view.readOk && !l.entry && l.view.dropped == Some(false)
    && (l.view.userTenant ==> l.view.creating == Some(false)) && l.view.allowGc
  }

  ghost predicate DeletedBy(h: seq<Event>, n: nat) {
    n <= |h| && exists d :: 0 <= d < n && h[d].EntryDeleted?
  }

  ghost predicate JustifiedBy(h: seq<Event>, n: nat) {
    exists i: nat, j: nat :: j < n && Justified(h, i, j)
  }

  ghost predicate OfflinedBy(h: seq<Event>, scn: Scn) {
    exists i :: 0 <= i < |h| && h[i].Offlined? && h[i].scn == scn
  }

  predicate NeedsReason(r: Replica) {
    r.meta.state == WaitGc || r.needDelete
  }

  ghost predicate CandidateOk(c: Candidate, h: seq<Event>) {
    match c
    case NotCandidate => true
    case EntryGone(l) => ShowsEntryGone(l) && DeletedBy(h, |h|)
    case TenantGone(l) => ShowsTenantGone(l)
  }

  ghost predicate ReplicaOk(r: Replica, h: seq<Event>) {
    && WellFormed(r.meta)
    && (r.meta.offlineScn.Some? ==> OfflinedBy(h, r.meta.offlineScn.value))
    && (NeedsReason(r) ==> JustifiedBy(h, |h|))
    && CandidateOk(r.candidate, h)
  }

  /** An entry is deleted for a reason; a replica is removed for what a look showed. */
  ghost predicate EventOk(e: Event, h: seq<Event>, n: nat) {
    && (e.EntryDeleted? ==> JustifiedBy(h, n))
    && (e.Removed? ==> ShowsTenantGone(e.look) || (ShowsEntryGone(e.look) && DeletedBy(h, n)))
  }

  ghost predicate HistoryOk(h: seq<Event>) {
    forall k :: 0 <= k < |h| ==> EventOk(h[k], h, k)
  }

  ghost predicate Inv(s: Sys) {
    && (forall id :: id in s.replicas ==> ReplicaOk(s.replicas[id], s.history))
    && (!s.entry ==> DeletedBy(s.history, |s.history|))
    && HistoryOk(s.history)
  }

  /** Histories only grow, and reasons with them. */
  lemma JustifiedGrows(h: seq<Event>, g: seq<Event>, n: nat)
    requires h <= g && n <= |h| && JustifiedBy(h, n)
    ensures JustifiedBy(g, n) && JustifiedBy(g, |g|)
  {
    var i: nat, j: nat :| j < n && Justified(h, i, j);
    assert Justified(g, i, j);
  }

  lemma OfflinedGrows(h: seq<Event>, g: seq<Event>, scn: Scn)
    requires h <= g && OfflinedBy(h, scn)
    ensures OfflinedBy(g, scn)
  {
    var i :| 0 <= i < |h| && h[i].Offlined? && h[i].scn == scn;
    assert g[i] == h[i];
  }

  lemma DeletedGrows(h: seq<Event>, g: seq<Event>, n: nat)
    requires h <= g && n <= |h| && DeletedBy(h, n)
    ensures DeletedBy(g, n) && DeletedBy(g, |g|)
  {
    var d :| 0 <= d < n && h[d].EntryDeleted?;
    assert g[d] == h[d];
  }

  lemma ReplicaGrows(r: Replica, h: seq<Event>, g: seq<Event>)
    requires h <= g && ReplicaOk(r, h)
    ensures ReplicaOk(r, g)
  {
    if r.meta.offlineScn.Some? { OfflinedGrows(h, g, r.meta.offlineScn.value); }
    if NeedsReason(r) { JustifiedGrows(h, g, |h|); }
    if r.candidate.EntryGone? { DeletedGrows(h, g, |h|); }
  }

  lemma EventGrows(e: Event, h: seq<Event>, g: seq<Event>, n: nat)
    requires h <= g && n <= |h| && EventOk(e, h, n)
    ensures EventOk(e, g, n)
  {
    if e.EntryDeleted? { JustifiedGrows(h, g, n); }
    if e.Removed? && DeletedBy(h, n) { DeletedGrows(h, g, n); }
  }

  lemma HistoryGrows(h: seq<Event>, e: Event)
    requires HistoryOk(h) && EventOk(e, h, |h|)
    ensures HistoryOk(h + [e])
  {
    var g := h + [e];
    forall k | 0 <= k < |g| ensures EventOk(g[k], g, k) {
      EventGrows(g[k], h, g, k);
    }
  }

  /** One more event leaves everything else in order. */
  lemma EventKeepsInv(s: Sys, e: Event)
    requires Inv(s) && EventOk(e, s.history, |s.history|)
    ensures Inv(s.(history := s.history + [e]))
  {
    HistoryGrows(s.history, e);
    forall id | id in s.replicas ensures ReplicaOk(s.replicas[id], s.history + [e]) {
      ReplicaGrows(s.replicas[id], s.history, s.history + [e]);
    }
    if !s.entry { DeletedGrows(s.history, s.history + [e], |s.history|); }
  }

  /** One replica changes to another state in order. */
  lemma ReplicaKeepsInv(s: Sys, id: Id, r: Replica)
    requires Inv(s) && ReplicaOk(r, s.history)
    ensures Inv(s.(replicas := s.replicas[id := r]))
  {
  }

  /** A replica becomes offline, if it was not, and the history says so. */
  lemma OfflinedKeepsInv(s: Sys, id: Id, kind: LogType, scn: Scn)
    requires Inv(s) && id in s.replicas
    ensures var m := ApplyGc(s.replicas[id].meta, kind, scn);
            Inv(s.(replicas := s.replicas[id := s.replicas[id].(meta := m)],
                   history := s.history + OfflinedEvents(id, s.replicas[id].meta, m)))
  {
    var r := s.replicas[id];
    assert ReplicaOk(r, s.history);
    var m := ApplyGc(r.meta, kind, scn);
    if OfflinedEvents(id, r.meta, m) == [] {
      assert s.history + [] == s.history;
      ReplicaKeepsInv(s, id, r.(meta := m));
    } else {
      var e := Offlined(id, m.offlineScn.value);
      var t := s.(history := s.history + [e]);
      EventKeepsInv(s, e);
      assert t.history[|s.history|] == e;
      assert OfflinedBy(t.history, m.offlineScn.value);
      assert ReplicaOk(r, t.history);
      ReplicaKeepsInv(t, id, r.(meta := m));
    }
  }

  /** The check passes: the replica's new state, and its verdict, have their reason. */
  lemma PassKeepsInv(s: Sys, id: Id, o: Observation)
    requires Inv(s) && id in s.replicas && o.leader
    requires s.replicas[id].meta.state == LsOffline && CheckPasses(s.replicas[id].meta, o)
    ensures var r := s.replicas[id];
            var out := CheckOutcome(r.meta, o);
            Inv(s.(replicas := s.replicas[id := r.(meta := out.meta, needDelete := out.needDelete)],
                   history := s.history + [Passed(id, r.meta.offlineScn.value, o)]))
  {
    var r := s.replicas[id];
    assert ReplicaOk(r, s.history);
    var out := CheckOutcome(r.meta, o);
    var e := Passed(id, r.meta.offlineScn.value, o);
    var t := s.(history := s.history + [e]);
    EventKeepsInv(s, e);
    var i :| 0 <= i < |s.history| && s.history[i].Offlined? && s.history[i].scn == r.meta.offlineScn.value;
    assert Justified(t.history, i, |s.history|);
    assert ReplicaOk(r, t.history);
    ReplicaKeepsInv(t, id, r.(meta := out.meta, needDelete := out.needDelete));
  }

  lemma OfflineKeepsInv(s: Sys, id: Id, o: Observation)
    requires Inv(s) && Enabled(s, Offline(id, o))
    ensures Inv(Next(s, Offline(id, o)))
  {
    var t := Next(s, Offline(id, o));
    var r := s.replicas[id];
    assert ReplicaOk(r, s.history);
    if PassedEvents(id, r.meta, o) != [] {
      PassKeepsInv(s, id, o);
    } else {
      assert t.history == s.history;
      ReplicaKeepsInv(s, id, t.replicas[id]);
    }
  }

  lemma SubmitKeepsInv(s: Sys, id: Id, o: Observation)
    requires Inv(s) && id in s.replicas
    ensures Inv(Next(s, SubmitOffline(id, o)))
  {
    var m := s.replicas[id].meta;
    if OfflineFirst(m, o) != m {
      OfflinedKeepsInv(s, id, OfflineLs, o.submitted.value);
    } else {
      assert Next(s, SubmitOffline(id, o)) == s;
    }
  }

  lemma DeleteKeepsInv(s: Sys, id: Id, ok: bool)
    requires Inv(s) && Enabled(s, DeleteEntry(id, ok))
    ensures Inv(Next(s, DeleteEntry(id, ok)))
  {
    assert ReplicaOk(s.replicas[id], s.history);
    var s1 := s.(replicas := s.replicas[id := s.replicas[id].(needDelete := false)]);
    ReplicaKeepsInv(s, id, s.replicas[id].(needDelete := false));
    if ok {
      EventKeepsInv(s1, EntryDeleted(id));
      assert (s.history + [EntryDeleted(id)])[|s.history|].EntryDeleted?;
    }
  }

  lemma RemoveKeepsInv(s: Sys, id: Id)
    requires Inv(s) && Enabled(s, RemoveLs(id))
    ensures Inv(Next(s, RemoveLs(id)))
  {
    assert ReplicaOk(s.replicas[id], s.history);
    EventKeepsInv(s, Removed(id, s.replicas[id].candidate.look));
  }

  lemma StepKeepsInv(s: Sys, step: Step)
    requires Inv(s) && Enabled(s, step)
    ensures Inv(Next(s, step))
  {
    match step
    case ApplyLog(id, kind, scn) => OfflinedKeepsInv(s, id, kind, scn);
    case SubmitOffline(id, seen) => SubmitKeepsInv(s, id, seen);
    case Offline(id, seen) => OfflineKeepsInv(s, id, seen);
    case DeleteEntry(id, ok) => DeleteKeepsInv(s, id, ok);
    case RemoveLs(id) => RemoveKeepsInv(s, id);
    case CheckStatus(id, view) =>
      assert ReplicaOk(s.replicas[id], s.history);
      ReplicaKeepsInv(s, id, s.replicas[id].(candidate := Collect(s.entry, view)));
    case Restart(id) =>
      assert ReplicaOk(s.replicas[id], s.history);
      ReplicaKeepsInv(s, id, Replica(s.replicas[id].meta, false, NotCandidate));
    case Rebuild(id, from) =>
      assert ReplicaOk(s.replicas[from], s.history);
      ReplicaKeepsInv(s, id, Replica(s.replicas[from].meta, false, NotCandidate));
  }

  ghost predicate IsRun(run: seq<Sys>) {
    0 < |run| && Init(run[0]) && forall i :: 0 <= i < |run| - 1 ==> Follows(run[i], run[i + 1])
  }

  ghost predicate Follows(s: Sys, t: Sys) {
    exists step :: Enabled(s, step) && t == Next(s, step)
  }

  lemma {:induction false} RunKeepsInv(run: seq<Sys>, i: nat)
    requires IsRun(run) && i < |run|
    ensures Inv(run[i])
  {
    if 0 < i {
      RunKeepsInv(run, i - 1);
      assert Follows(run[i - 1], run[i]);
      var step :| Enabled(run[i - 1], step) && run[i] == Next(run[i - 1], step);
      StepKeepsInv(run[i - 1], step);
    }
  }

  /**
   The replica that passed the check did so as leader, and at that moment its own persisted state
   was LS_OFFLINE at this very point.
   */
  ghost predicate PassedWhileOffline(s: Sys, e: Event) {
    && e.Passed? && e.id in s.replicas
    && s.replicas[e.id].meta == Meta(LsOffline, Some(e.scn))
    && e.seen.leader && CheckPasses(s.replicas[e.id].meta, e.seen)
  }

  /** What a step that adds an event had before it: the check passed, or the candidate removed. */
  ghost predicate Origin(s: Sys, e: Event) {
    && (e.Passed? ==> PassedWhileOffline(s, e))
    && (e.Removed? ==>
          e.id in s.replicas && s.replicas[e.id].candidate != NotCandidate
          && e.look == s.replicas[e.id].candidate.look)
  }

  lemma StepAppends(s: Sys, step: Step)
    requires Enabled(s, step)
    ensures s.history <= Next(s, step).history && |Next(s, step).history| <= |s.history| + 1
    ensures var h := Next(s, step).history; |s.history| < |h| ==> Origin(s, h[|s.history|])
  {}

  /** Where in the run the event at j was added. */
  lemma {:induction false} FindEvent(run: seq<Sys>, n: nat, j: nat) returns (m: nat)
    requires IsRun(run) && n < |run| && j < |run[n].history|
    ensures m < n && run[m].history == run[n].history[..j] && Origin(run[m], run[n].history[j])
  {
    assert Follows(run[n - 1], run[n]);
    var step :| Enabled(run[n - 1], step) && run[n] == Next(run[n - 1], step);
    StepAppends(run[n - 1], step);
    if j < |run[n - 1].history| {
      m := FindEvent(run, n - 1, j);
      assert run[n - 1].history[..j] == run[n].history[..j];
    } else {
      m := n - 1;
    }
  }

  /** A candidate comes from the look of this step or was there before. */
  lemma CandidateFrom(s: Sys, step: Step, id: Id)
    requires Enabled(s, step) && id in Next(s, step).replicas && Next(s, step).replicas[id].candidate != NotCandidate
    ensures (step.CheckStatus? && step.id == id && Next(s, step).replicas[id].candidate.look.entry == s.entry)
            || (id in s.replicas && s.replicas[id].candidate == Next(s, step).replicas[id].candidate)
  {}

  /** Where in the run the look behind a candidate was taken: it showed the table as it then was. */
  lemma {:induction false} FindLook(run: seq<Sys>, n: nat, id: Id) returns (l: nat)
    requires IsRun(run) && n < |run|
    requires id in run[n].replicas && run[n].replicas[id].candidate != NotCandidate
    ensures l < n && run[l].entry == run[n].replicas[id].candidate.look.entry
    ensures run[l].history <= run[n].history
  {
    assert Follows(run[n - 1], run[n]);
    var step :| Enabled(run[n - 1], step) && run[n] == Next(run[n - 1], step);
    StepAppends(run[n - 1], step);
    CandidateFrom(run[n - 1], step, id);
    if step.CheckStatus? && step.id == id {
      l := n - 1;
    } else {
      l := FindLook(run, n - 1, id);
    }
  }

  /**
   In every run, each removal of a replica has the look that made it a candidate, taken earlier at l.
   Either the tenant had been dropped and the look did not find the stream; or the look could read a
   table without the stream, of a tenant not dropped and, for a user tenant, not being created, and
   the replica might be collected. In that case the entry had been deleted at d, and before that a
   replica that was leader, and itself persisted as LS_OFFLINE at point scn, passed the offline check
   at j: the readable scn had reached the point, and the delay had elapsed since the point's time or
   was waived. The point was first persisted before that, at i.
   */
  lemma RemovalIsJustified(run: seq<Sys>, n: nat, k: nat)
    returns (l: nat, i: nat, j: nat, m: nat, d: nat)
    requires IsRun(run) && n < |run| && k < |run[n].history| && run[n].history[k].Removed?
    ensures l < n && run[l].history <= run[n].history[..k]
            && run[l].entry == run[n].history[k].look.entry
    ensures var look := run[n].history[k].look;
            || (look.view.dropped == Some(true) && !(look.view.readOk && look.entry))
            || (&& look.view.readOk && !look.entry && look.view.dropped == Some(false)
                && (look.view.userTenant ==> look.view.creating == Some(false)) && look.view.allowGc)
    ensures run[n].history[k].look.view.dropped != Some(true) ==>
              var h := run[n].history;
              && i < j < d < k && h[d].EntryDeleted?
              && h[i].Offlined? && h[j].Passed? && h[j].scn == h[i].scn
              && m < n && run[m].history == h[..j] && h[j].id in run[m].replicas
              && run[m].replicas[h[j].id].meta == Meta(LsOffline, Some(h[i].scn))
              && h[j].seen.leader && h[j].seen.readable.Some? && h[i].scn <= h[j].seen.readable.value
              && !h[j].seen.delayRecycle && h[j].seen.dropping.Some?
              && (|| h[j].seen.dropping == Some(true) || h[j].seen.restoreOrClone
                  || (&& h[j].seen.configValid
                      && h[j].seen.delayUs <= h[j].seen.nowUs - h[i].scn / 1000))
  {
    RunKeepsInv(run, n);
    var h := run[n].history;
    assert EventOk(h[k], h, k);
    var r := FindEvent(run, n, k);
    l := FindLook(run, r, h[k].id);
    i, j, m, d := 0, 0, 0, 0;
    if h[k].look.view.dropped != Some(true) {
      d :| 0 <= d < k && h[d].EntryDeleted?;
      assert EventOk(h[d], h, d);
      i, j :| j < d && Justified(h, i, j);
      m := FindEvent(run, n, j);
    }
  }

  /** The same reason stands behind a status entry that is gone, and behind a replica in WAIT_GC. */
  lemma DeletionIsJustified(run: seq<Sys>, n: nat, id: Id) returns (i: nat, j: nat, m: nat)
    requires IsRun(run) && n < |run|
    requires !run[n].entry || (id in run[n].replicas && run[n].replicas[id].meta.state == WaitGc)
    ensures var h := run[n].history;
            && i < j < |h| && h[i].Offlined? && h[j].Passed? && h[j].scn == h[i].scn
            && m < n && run[m].history == h[..j] && h[j].id in run[m].replicas
            && run[m].replicas[h[j].id].meta == Meta(LsOffline, Some(h[i].scn))
            && h[j].seen.leader && h[j].seen.readable.Some? && h[i].scn <= h[j].seen.readable.value
            && !h[j].seen.delayRecycle && h[j].seen.dropping.Some?
            && (|| h[j].seen.dropping == Some(true) || h[j].seen.restoreOrClone
                || (&& h[j].seen.configValid
                    && h[j].seen.delayUs <= h[j].seen.nowUs - h[i].scn / 1000))
  {
    RunKeepsInv(run, n);
    var h := run[n].history;
    if run[n].entry {
      assert ReplicaOk(run[n].replicas[id], h);
      i, j :| j < |h| && Justified(h, i, j);
    } else {
      var d :| 0 <= d < |h| && h[d].EntryDeleted?;
      assert EventOk(h[d], h, d);
      i, j :| j < d && Justified(h, i, j);
    }
    m := FindEvent(run, n, j);
  }
}
