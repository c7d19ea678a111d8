/**
 One replica's GC logs under concurrency and crashes. Threads: the leader's submitter, which holds the
 handler's write lock from append to completion; the callback thread, which shares the
 recovery-scn lock with it; the replay thread; and the checkpoint thread, which first
 reads how far callbacks and replay have come, then the recovery scn, then persists
 the smaller of the two. Every step of every thread may interleave with the others,
 and a crash may come at any point.
 */
module GcRecovery {
  import opened Common
  import opened GcState

  datatype Submit =
    | Idle
    | Appending(kind: LogType, scn: Scn)   // appended, still inside rec_scn_lock_: cb.scn_ unassigned
    | Waiting(kind: LogType, scn: Scn)     // cb.scn_ assigned, polling the callback's state
    | Persisted(kind: LogType, scn: Scn)   // state change persisted, recovery scn not yet lifted

  datatype CbState = CbInit | CbSuccess | CbFailed

  datatype CbThread = NoCb | Handled | Stored

  datatype Reader = NoRead | ReadFirst(c: Scn) | ReadBoth(c: Scn)

  datatype State = State(
    log: seq<Entry>,          // the committed log, shared by all replicas
    floor: Scn,               // palf assigns no scn at or below this any more
    // persisted
    meta: Meta,
    ckpt: Scn,                // replay after a restart covers every entry at or after this scn
    // in memory
    delivered: nat,           // entries called back or replayed
    replaying: bool,          // entry `delivered` is replayed, the count not yet advanced
    recScn: Option<Scn>,      // None stands for the maximum scn
    submit: Submit,
    pos: Option<nat>,         // where the submitted log is committed
    cbScn: Option<Scn>,
    cbState: CbState,
    cb: CbThread,
    reader: Reader,
    // history: how much of the log is reflected in the persisted state
    applied: nat)

  datatype Step =
    | OtherAppend(e: Entry)                   // another leader's log, or another component's
    | BeginSubmit(kind: LogType, scn: Scn)
    | AssignScn
    | Commit
    | FailCallback
    | HandleCallback
    | StoreCallback
    | ReturnCallback
    | SeeFailed
    | Persist(ok: bool)
    | LiftRecScn
    | DeliverPlain
    | ReplayGc(ok: bool)
    | FinishReplay
    | SetWaitGc
    | ReadDecided(c: Scn)
    | ReadRecScn
    | WriteCheckpoint
    | Crash(start: nat)

  function LastScn(log: seq<Entry>): Scn {
    if log == [] then 0 else log[|log| - 1].scn
  }

  function Max(a: nat, b: nat): nat {
    if a < b then b else a
  }

  /** The submitted log is not in the committed log yet, and still may get there. */
  predicate InFlight(s: State) {
    (s.submit.Appending? || s.submit.Waiting?) && s.pos.None? && s.cbState == CbInit
  }

  predicate Enabled(s: State, step: Step) {
    match step
    case OtherAppend(e) => LastScn(s.log) < e.scn && s.floor < e.scn
    case BeginSubmit(kind, scn) =>
      s.submit.Idle? && s.pos.None? && !s.replaying && kind != UnknownType && LastScn(s.log) < scn && s.floor < scn
    case AssignScn => s.submit.Appending?
    case Commit => InFlight(s) && LastScn(s.log) < s.submit.scn
    case FailCallback => InFlight(s)
    // takes rec_scn_lock_, so not while the submitter is inside it
    case HandleCallback => s.cb == NoCb && s.cbState == CbInit && s.pos == Some(s.delivered) && !s.submit.Appending?
    case StoreCallback => s.cb == Handled
    case ReturnCallback => s.cb == Stored
    case SeeFailed => s.submit.Waiting? && s.cbState == CbFailed
    case Persist(ok) => s.submit.Waiting? && s.cbState == CbSuccess
    case LiftRecScn => s.submit.Persisted?
    case DeliverPlain => !s.replaying && s.delivered < |s.log| && s.log[s.delivered].body.Plain?
    // replay takes the write lock, so not while a submission holds it
    case ReplayGc(ok) =>
      && s.submit.Idle? && s.pos.None? && !s.replaying
      && s.delivered < |s.log| && s.log[s.delivered].body.Gc?
    case FinishReplay => s.replaying
    case SetWaitGc => s.submit.Idle? && s.meta.state == LsOffline
    case ReadDecided(c) =>
      && s.reader.NoRead?
      && (forall i :: s.delivered <= i < |s.log| ==> c < s.log[i].scn)
      && (InFlight(s) ==> c < s.submit.scn)
    case ReadRecScn => s.reader.ReadFirst?
    case WriteCheckpoint => s.reader.ReadBoth?
    case Crash(start) => start <= |s.log| && forall i :: 0 <= i < start ==> s.log[i].scn < s.ckpt
  }

  function Next(s: State, step: Step): State
    requires Enabled(s, step)
  {
    match step
    case OtherAppend(e) => s.(log := s.log + [e])
    case BeginSubmit(kind, scn) => s.(submit := Appending(kind, scn), cbScn := None, cbState := CbInit)
    case AssignScn => s.(submit := Waiting(s.submit.kind, s.submit.scn), cbScn := Some(s.submit.scn))
    case Commit => s.(log := s.log + [Entry(s.submit.scn, Gc(s.submit.kind))], pos := Some(|s.log|))
    case FailCallback => s.(cbState := CbFailed)
    case HandleCallback => if s.cbScn.Some? then s.(recScn := s.cbScn, cb := Handled) else s
    case StoreCallback => s.(cbState := CbSuccess, cb := Stored)
    case ReturnCallback => s.(delivered := s.delivered + 1, cb := NoCb, pos := if s.submit.Idle? then None else s.pos)
    case SeeFailed => s.(submit := Idle)
    case Persist(ok) =>
      if ok && s.pos.Some?
      then s.(meta := ApplyGc(s.meta, s.submit.kind, s.submit.scn),
              submit := Submit.Persisted(s.submit.kind, s.submit.scn),
              applied := Max(s.applied, s.pos.value + 1))
      else s
    case LiftRecScn =>
      s.(recScn := None, submit := Idle, cbState := CbInit, pos := if s.cb == NoCb then None else s.pos)
    case DeliverPlain => s.(delivered := s.delivered + 1)
    case ReplayGc(ok) =>
      if ok && s.log[s.delivered].body.kind != UnknownType
      then s.(meta := ApplyEntry(s.meta, s.log[s.delivered]), recScn := None, replaying := true,
              applied := Max(s.applied, s.delivered + 1))
      else s
    case FinishReplay => s.(delivered := s.delivered + 1, replaying := false)
    case SetWaitGc => s.(meta := s.meta.(state := WaitGc))
    case ReadDecided(c) => s.(reader := ReadFirst(c), floor := Max(s.floor, c))
    case ReadRecScn =>
      s.(reader := ReadBoth(if s.recScn.Some? && 0 < s.recScn.value < s.reader.c then s.recScn.value else s.reader.c))
    case WriteCheckpoint => s.(ckpt := Max(s.ckpt, s.reader.c), reader := NoRead)
    case Crash(start) =>
      s.(delivered := start, replaying := false, recScn := None, submit := Idle, pos := None,
         cbScn := None, cbState := CbInit, cb := NoCb, reader := NoRead)
  }

  predicate Init(s: State) {
    s == State([], 0, FRESH, 0, 0, false, None, Idle, None, None, CbInit, NoCb, NoRead, 0)
  }

  /** A callback has handled a committed GC log whose state change is not persisted yet. */
  predicate Unpersisted(s: State) {
    s.submit.Waiting? && s.pos.Some? && (s.cb != NoCb || s.pos.value < s.delivered)
  }

  /** WAIT_GC is set by a leader alone; the log only ever leads to LS_OFFLINE. */
  function Logged(m: Meta): Meta {
    if m.state == WaitGc then m.(state := LsOffline) else m
  }

  ghost predicate Sorted(log: seq<Entry>) {
    && (forall i :: 0 <= i < |log| ==> 0 < log[i].scn)
    && (forall i, j :: 0 <= i < j < |log| ==> log[i].scn < log[j].scn)
  }

  /** Every GC entry the persisted state does not reflect yet is at or after scn c. */
  ghost predicate Covers(s: State, c: Scn) {
    forall i :: s.applied <= i < |s.log| && s.log[i].body.Gc? ==> c <= s.log[i].scn
  }

  /** How the submitter and the callback thread stand to each other. */
  ghost predicate Threads(s: State) {
    && s.applied <= |s.log| && s.delivered <= |s.log|
    && (s.pos.Some? ==> s.pos.value < |s.log| && s.log[s.pos.value].body.Gc?)
    && (!s.submit.Idle? ==> s.submit.kind != UnknownType)
    && (!s.submit.Idle? && s.pos.Some? ==> s.log[s.pos.value] == Entry(s.submit.scn, Gc(s.submit.kind)))
    && (s.pos.Some? && s.submit.Idle? ==> s.cb == Stored)
    && (s.submit.Appending? ==> s.cb == NoCb && s.cbState != CbSuccess)
    && (s.submit.Waiting? ==> s.cbScn == Some(s.submit.scn))
    && (s.submit.Persisted? ==> s.pos.Some? && s.cbState == CbSuccess)
    && (s.cb != NoCb ==> s.pos == Some(s.delivered))
    && (s.cb == Stored && !s.submit.Idle? ==> s.cbState == CbSuccess)
    && (s.cb == Handled ==> s.submit.Waiting? && s.cbState == CbInit)
    && (s.cbState == CbSuccess && !s.submit.Idle? ==> s.pos.Some? && (s.cb == Stored || s.pos.value < s.delivered))
    && (s.cbState == CbFailed ==> s.pos.None?)
    && (s.pos.Some? && s.pos.value < s.delivered ==> s.cbState == CbSuccess)
    && (InFlight(s) ==> s.floor < s.submit.scn)
    && (s.replaying ==> s.submit.Idle? && s.pos.None? && s.delivered < s.applied && s.log[s.delivered].body.Gc?)
  }

  /** What the persisted state reflects, and what may still be missing from it. */
  ghost predicate Progress(s: State)
    requires Threads(s)
  {
    && Logged(s.meta) == ReplayLog(FRESH, s.log[..s.applied])
    && (s.pos.Some? && (s.submit.Appending? || s.submit.Waiting?) ==> s.applied <= s.pos.value)
    && (s.pos.Some? && (s.submit.Persisted? || s.submit.Idle?) ==> s.pos.value < s.applied)
    && (Unpersisted(s) ==> s.recScn == Some(s.log[s.pos.value].scn))
    && (forall i :: s.applied <= i < s.delivered && s.log[i].body.Gc? ==> Unpersisted(s) && i == s.pos.value)
  }

  ghost predicate Checkpoints(s: State) {
    && s.ckpt <= s.floor
    && Covers(s, s.ckpt)
    && (s.reader.ReadFirst? ==>
          && s.reader.c <= s.floor
          && forall i :: s.applied <= i < |s.log| && s.log[i].body.Gc? && s.log[i].scn < s.reader.c
                         ==> Unpersisted(s) && i == s.pos.value)
    && (s.reader.ReadBoth? ==> s.reader.c <= s.floor && Covers(s, s.reader.c))
  }

  ghost predicate Inv(s: State) {
    Sorted(s.log) && Threads(s) && Progress(s) && Checkpoints(s)
  }

  lemma AppendSorted(log: seq<Entry>, e: Entry)
    requires Sorted(log) && LastScn(log) < e.scn
    ensures Sorted(log + [e])
  {
  }

  /** Non-GC entries do not change the replayed state. */
  lemma {:induction false} PlainStretch(log: seq<Entry>, a: nat, b: nat)
    requires a <= b <= |log| && forall i :: a <= i < b ==> log[i].body.Plain?
    ensures ReplayLog(FRESH, log[..a]) == ReplayLog(FRESH, log[..b])
  {
    if a < b {
      PlainStretch(log, a, b - 1);
      assert log[..b][..b - 1] == log[..b - 1];
    }
  }

  /** Taking in the entry at n, once everything before it is reflected, reflects one more. */
  lemma TakeNext(m: Meta, log: seq<Entry>, a: nat, n: nat)
    requires a <= n < |log| && forall i :: a <= i < n ==> log[i].body.Plain?
    requires Logged(m) == ReplayLog(FRESH, log[..a])
    ensures Logged(ApplyEntry(m, log[n])) == ReplayLog(FRESH, log[..n + 1])
  {
    PlainStretch(log, a, n);
    assert log[..n + 1][..n] == log[..n];
    ReplayAdvances(FRESH, log[..n]);
  }

  /** Taking in an entry the state already reflects changes nothing. */
  lemma TakeAgain(m: Meta, log: seq<Entry>, a: nat, n: nat)
    requires n < a <= |log| && Logged(m) == ReplayLog(FRESH, log[..a])
    ensures ApplyEntry(m, log[n]) == m
  {
    ReplayTakesAll(FRESH, log[..a], n);
    assert HasTaken(Logged(m), log[n]);
  }

  lemma AppendKeepsInv(s: State, e: Entry)
    requires Inv(s) && Enabled(s, OtherAppend(e))
    ensures Inv(Next(s, OtherAppend(e)))
  {
    AppendSorted(s.log, e);
    assert (s.log + [e])[..s.applied] == s.log[..s.applied];
    AppendKeepsCheckpoints(s, e);
  }

  lemma AppendKeepsCheckpoints(s: State, e: Entry)
    requires Inv(s) && Enabled(s, OtherAppend(e))
    ensures Checkpoints(Next(s, OtherAppend(e)))
  {
  }

  lemma CommitKeepsInv(s: State)
    requires Inv(s) && Enabled(s, Commit)
    ensures Inv(Next(s, Commit))
  {
    var e := Entry(s.submit.scn, Gc(s.submit.kind));
    AppendSorted(s.log, e);
    assert (s.log + [e])[..s.applied] == s.log[..s.applied];
  }

  lemma PersistKeepsInv(s: State, ok: bool)
    requires Inv(s) && Enabled(s, Persist(ok))
    ensures Inv(Next(s, Persist(ok)))
  {
    if ok { TakeNext(s.meta, s.log, s.applied, s.pos.value); }
  }

  lemma ReplayKeepsInv(s: State, ok: bool)
    requires Inv(s) && Enabled(s, ReplayGc(ok))
    ensures Inv(Next(s, ReplayGc(ok)))
  {
    if ok {
      if s.delivered < s.applied {
        TakeAgain(s.meta, s.log, s.applied, s.delivered);
      } else {
        TakeNext(s.meta, s.log, s.applied, s.delivered);
      }
    }
  }

  lemma SubmitKeepsInv(s: State, step: Step)
    requires Inv(s) && Enabled(s, step)
    requires step.BeginSubmit? || step.AssignScn? || step.FailCallback? || step.SeeFailed? || step.LiftRecScn?
    ensures Inv(Next(s, step))
  {
  }

  lemma CallbackKeepsInv(s: State, step: Step)
    requires Inv(s) && Enabled(s, step)
    requires step.HandleCallback? || step.StoreCallback? || step.ReturnCallback?
    ensures Inv(Next(s, step))
  {
  }

  lemma DeliveryKeepsInv(s: State)
    requires Inv(s) && Enabled(s, DeliverPlain)
    ensures Inv(Next(s, DeliverPlain))
  {
  }

  lemma FinishKeepsInv(s: State, step: Step)
    requires Inv(s) && Enabled(s, step)
    requires step.FinishReplay? || step.SetWaitGc?
    ensures Inv(Next(s, step))
  {
  }

  lemma CheckpointKeepsInv(s: State, step: Step)
    requires Inv(s) && Enabled(s, step)
    requires step.ReadRecScn? || step.WriteCheckpoint?
    ensures Inv(Next(s, step))
  {
  }

  lemma DecidedKeepsInv(s: State, c: Scn)
    requires Inv(s) && Enabled(s, ReadDecided(c))
    ensures Inv(Next(s, ReadDecided(c)))
  {
  }

  lemma CrashKeepsInv(s: State, start: nat)
    requires Inv(s) && Enabled(s, Crash(start))
    ensures Inv(Next(s, Crash(start)))
  {
  }

  lemma StepKeepsInv(s: State, step: Step)
    requires Inv(s) && Enabled(s, step)
    ensures Inv(Next(s, step))
  {
    match step
    case OtherAppend(e) => AppendKeepsInv(s, e);
    case Commit => CommitKeepsInv(s);
    case Persist(ok) => PersistKeepsInv(s, ok);
    case ReplayGc(ok) => ReplayKeepsInv(s, ok);
    case Crash(start) => CrashKeepsInv(s, start);
    case HandleCallback => CallbackKeepsInv(s, step);
    case StoreCallback => CallbackKeepsInv(s, step);
    case ReturnCallback => CallbackKeepsInv(s, step);
    case DeliverPlain => DeliveryKeepsInv(s);
    case FinishReplay => FinishKeepsInv(s, step);
    case SetWaitGc => FinishKeepsInv(s, step);
    case ReadDecided(c) => DecidedKeepsInv(s, c);
    case ReadRecScn => CheckpointKeepsInv(s, step);
    case WriteCheckpoint => CheckpointKeepsInv(s, step);
    case _ => SubmitKeepsInv(s, step);
  }

  // ---------- whole runs ----------

  ghost predicate IsRun(run: seq<State>) {
    && 0 < |run|
    && Init(run[0])
    && forall i :: 0 <= i < |run| - 1 ==> Follows(run[i], run[i + 1])
  }

  ghost predicate Follows(s: State, t: State) {
    exists step :: Enabled(s, step) && t == Next(s, step)
  }

  lemma {:induction false} RunKeepsInv(run: seq<State>, i: nat)
    requires IsRun(run) && i < |run|
    ensures Inv(run[i])
  {
    if i == 0 {
      assert run[0].log[..0] == [];
    } else {
      RunKeepsInv(run, i - 1);
      assert Follows(run[i - 1], run[i]);
      var step :| Enabled(run[i - 1], step) && run[i] == Next(run[i - 1], step);
      StepKeepsInv(run[i - 1], step);
    }
  }

  /**
   No GC log is ever lost. Crash anywhere, restart replay from any entry the checkpoint
   allows: replaying to the end of the log gives exactly the state of the whole log.
   */
  lemma CrashLosesNoGcLog(run: seq<State>, i: nat, start: nat)
    requires IsRun(run) && i < |run| && Enabled(run[i], Crash(start))
    ensures Logged(ReplayLog(run[i].meta, run[i].log[start..])) == ReplayLog(FRESH, run[i].log)
  {
    RunKeepsInv(run, i);
    var s := run[i];
    forall k | s.applied <= k < start ensures s.log[k].body.Plain? {
      assert s.log[k].scn < s.ckpt;
    }
    ReplayFrom(s.meta, s.log, s.applied, start, |s.log|);
    assert s.log[start..|s.log|] == s.log[start..] && s.log[..|s.log|] == s.log;
  }

  /** Replay from `start`: entries already reflected do nothing, the others complete the state. */
  lemma {:induction false} ReplayFrom(m: Meta, log: seq<Entry>, a: nat, start: nat, n: nat)
    requires a <= |log| && start <= n <= |log| && Logged(m) == ReplayLog(FRESH, log[..a])
    requires forall k :: a <= k < start ==> log[k].body.Plain?
    ensures Logged(ReplayLog(m, log[start..n])) == ReplayLog(FRESH, log[..Max(a, n)])
  {
    if n == start {
      if a < n { PlainStretch(log, a, n); }
    } else {
      ReplayFrom(m, log, a, start, n - 1);
      var part := log[start..n];
      assert part[..|part| - 1] == log[start..n - 1];
      var r := ReplayLog(m, log[start..n - 1]);
      if n <= a {
        TakeAgain(r, log, a, n - 1);
      } else {
        TakeNext(r, log, n - 1, n - 1);
      }
    }
  }

  /** From the callback of a GC log until its state change is persisted, the recovery scn is that log's. */
  lemma RecScnGuardsUnpersistedLog(run: seq<State>, i: nat)
    requires IsRun(run) && i < |run| && Unpersisted(run[i])
    ensures run[i].pos.value < |run[i].log|
    ensures run[i].recScn == Some(run[i].log[run[i].pos.value].scn)
    ensures run[i].log[run[i].pos.value] == Entry(run[i].submit.scn, Gc(run[i].submit.kind))
  {
    RunKeepsInv(run, i);
  }

  /** A callback never finds its scn unassigned: it would have to enter while the submitter holds the lock. */
  lemma CallbackSeesAssignedScn(run: seq<State>, i: nat)
    requires IsRun(run) && i < |run| && Enabled(run[i], HandleCallback)
    ensures run[i].delivered < |run[i].log|
    ensures run[i].cbScn == Some(run[i].log[run[i].delivered].scn)
    ensures Next(run[i], HandleCallback).cb == Handled
  {
    RunKeepsInv(run, i);
  }

  /** Over a whole run the GC state never moves back and the offline point is written once, also across crashes. */
  lemma {:induction false} GcStateNeverMovesBack(run: seq<State>, i: nat, j: nat)
    requires IsRun(run) && i <= j < |run|
    ensures Advances(run[i].meta, run[j].meta)
    decreases j - i
  {
    if i < j {
      GcStateNeverMovesBack(run, i, j - 1);
      RunKeepsInv(run, j - 1);
      assert Follows(run[j - 1], run[j]);
      var step :| Enabled(run[j - 1], step) && run[j] == Next(run[j - 1], step);
      StepAdvances(run[j - 1], step);
    }
  }

  lemma StepAdvances(s: State, step: Step)
    requires Inv(s) && Enabled(s, step)
    ensures Advances(s.meta, Next(s, step).meta)
  {
    ReplayAdvances(FRESH, s.log[..s.applied]);
    assert WellFormed(Logged(s.meta));
    match step
    case Persist(ok) =>
    case ReplayGc(ok) =>
    case SetWaitGc =>
    case _ =>
  }

  /** The offline point is the scn of the first OFFLINE_LS log of what the replica has taken in. */
  lemma OfflinePointIsFirstOfflineLog(run: seq<State>, i: nat)
    requires IsRun(run) && i < |run|
    ensures run[i].applied <= |run[i].log|
    ensures run[i].meta.offlineScn.Some? <==> exists k :: 0 <= k < run[i].applied && IsOffline(run[i].log[k])
    ensures forall k: nat :: FirstOffline(run[i].log[..run[i].applied], k) ==>
              run[i].meta.offlineScn == Some(run[i].log[k].scn)
  {
    RunKeepsInv(run, i);
    var prefix := run[i].log[..run[i].applied];
    ReplayExact(prefix);
    ReplayAdvances(FRESH, prefix);
    assert forall k :: 0 <= k < |prefix| ==> prefix[k] == run[i].log[k];
  }

  /** Replicas that have taken in the same prefix of the log agree, whatever happened to each on the way. */
  lemma ReplicasAgree(run: seq<State>, i: nat, other: seq<State>, j: nat)
    requires IsRun(run) && i < |run| && IsRun(other) && j < |other|
    requires run[i].applied == other[j].applied
    requires run[i].applied <= |run[i].log| && other[j].applied <= |other[j].log|
    requires run[i].log[..run[i].applied] == other[j].log[..other[j].applied]
    ensures Logged(run[i].meta) == Logged(other[j].meta)
  {
    RunKeepsInv(run, i);
    RunKeepsInv(other, j);
  }
}
