/**
 Two updaters of the palf options: one for the disk limit, one for everything that comes from the
 tenant configuration. Each reads all options, changes its own part and writes all of them back,
 holding one lock throughout.
 */
module PalfOptions {
  import opened Common

  const MIN_DISK_SIZE_PER_PALF_INSTANCE := 512 * 1024 * 1024
  const MIN_TRIGGER_PERCENTAGE := 40
  const MIN_DURATION := 1_000_000
  const MAX_DURATION := 3 * 24 * 60 * 60 * 1_000_000

  datatype Disk = Disk(
    limitSize: int,
    threshold: int,
    limitThreshold: int,
    throttlingPercentage: int,
    throttlingDuration: int,
    writerParallelism: int)

  datatype Compress = Compress(enabled: bool, func: Option<int>)

  datatype Options = Options(disk: Disk, compress: Compress, rebuildLag: int, logCache: bool)

  /** The tenant's parameters: everything but the limit, which the config updater never looks at. */
  datatype Config = Config(options: Options)

  predicate DiskValid(d: Disk) {
    && 0 <= d.limitSize
    && 0 <= d.threshold <= 100 && 1 <= d.limitThreshold <= 100 && d.threshold < d.limitThreshold
    && MIN_TRIGGER_PERCENTAGE <= d.throttlingPercentage <= 100
    && MIN_DURATION <= d.throttlingDuration <= MAX_DURATION
    && 1 <= d.writerParallelism <= 8
  }

  predicate Valid(o: Options) {
    DiskValid(o.disk) && (!o.compress.enabled || o.compress.func.Some?) && 0 <= o.rebuildLag
  }

  datatype Update = SetLimit(limit: int) | SetConfig(config: Config)

  /** What an updater wants to write when it has read o. */
  function Wanted(u: Update, o: Options): Options {
    match u
    case SetLimit(limit) => o.(disk := o.disk.(limitSize := limit))
    case SetConfig(c) => c.options.(disk := c.options.disk.(limitSize := o.disk.limitSize))
  }

  /** How far palf's own update got. */
  datatype Outcome = Refused | Partly | Fully

  /** The disk limit has room for so many palf instances. */
  predicate HasRoom(d: Disk, instances: nat) {
    instances * MIN_DISK_SIZE_PER_PALF_INSTANCE <= d.limitSize
  }

  /** Once the options are valid, only the limit for the current instances can still refuse. */
  function OutcomeOf(wanted: Options, instances: nat): Outcome {
    if !Valid(wanted) then Refused else if !HasRoom(wanted.disk, instances) then Partly else Fully
  }

  /** Palf's update in its own order: compression and rebuild lag first, then disk, then cache. */
  function Installed(cur: Options, wanted: Options, outcome: Outcome): Options {
    match outcome
    case Refused => cur
    case Partly => cur.(compress := wanted.compress, rebuildLag := wanted.rebuildLag)
    case Fully => wanted
  }

  class PalfEnv {
    var inited: bool
    var disk: Disk
    var compress: Compress
    var rebuildLag: int
    var logCache: bool
    var instances: nat                  // palf_handle_impl_map_.count()

    function View(): Options
      reads this
    {
      Options(disk, compress, rebuildLag, logCache)
    }

    method UpdateOptions(wanted: Options) returns (code: Code)
      modifies this
      ensures inited == old(inited) && instances == old(instances)
      ensures View() == if inited then Installed(old(View()), wanted, OutcomeOf(wanted, instances)) else old(View())
      ensures code == Success <==> inited && OutcomeOf(wanted, instances) == Fully
      ensures !inited ==> code == NotInit
      ensures inited && code != InvalidArgument <==>
                && inited && 0 <= wanted.disk.limitSize && 0 <= wanted.rebuildLag
                && 0 <= wanted.disk.threshold <= 100 && 1 <= wanted.disk.limitThreshold <= 100
                && wanted.disk.threshold < wanted.disk.limitThreshold
                && 40 <= wanted.disk.throttlingPercentage <= 100
                && 1_000_000 <= wanted.disk.throttlingDuration <= 259_200_000_000
                && 1 <= wanted.disk.writerParallelism <= 8
                && (wanted.compress.enabled ==> wanted.compress.func.Some?)
      ensures inited && code != InvalidArgument ==>
                code == if instances * 536_870_912 <= wanted.disk.limitSize then Success else NotSupported
      ensures code == Success ==> View() == wanted
      ensures code == NotSupported ==>
                && compress == wanted.compress && rebuildLag == wanted.rebuildLag
                && disk == old(disk) && logCache == old(logCache)
      ensures code in {NotInit, InvalidArgument} ==> View() == old(View())
    {
      if !inited {
        return NotInit;
      } else if !Valid(wanted) {
        return InvalidArgument;
      }
      compress := wanted.compress;
      rebuildLag := wanted.rebuildLag;
      if wanted.disk.limitSize < instances * MIN_DISK_SIZE_PER_PALF_INSTANCE {
        return NotSupported;
      }
      disk := wanted.disk;
      logCache := wanted.logCache;
      code := Success;
    }

    /** A further instance is created only if the limit has room for it too. */
    method CreateInstance() returns (code: Code)
      modifies this`instances
      ensures code == Success <==> inited && HasRoom(disk, old(instances) + 1)
      ensures code == Success <==> inited && (old(instances) + 1) * 536_870_912 <= disk.limitSize
      ensures instances == if code == Success then old(instances) + 1 else old(instances)
      ensures HasRoom(disk, old(instances)) ==> HasRoom(disk, instances)
    {
      if !inited {
        code := NotInit;
      } else if disk.limitSize < (instances + 1) * MIN_DISK_SIZE_PER_PALF_INSTANCE {
        code := LogOutOfDiskSpace;
      } else {
        instances, code := instances + 1, Success;
      }
    }
  }

  /** The log service's two updaters, each under the lock. */
  class LogService {
    var inited: bool
    const palf: PalfEnv

    constructor (p: PalfEnv)
      ensures palf == p && inited
    {
      palf, inited := p, true;
    }

    /** Changes the limit, or nothing at all. */
    method UpdateLimit(limit: int) returns (code: Code)
      modifies palf
      ensures code == Success ==> palf.View() == old(palf.View()).(disk := old(palf.View()).disk.(limitSize := limit))
      ensures code != Success ==> palf.View() == old(palf.View())
      ensures !inited || !palf.inited ==> code == NotInit
      ensures inited && palf.inited ==>
                (code == Success <==> OutcomeOf(Wanted(SetLimit(limit), old(palf.View())), palf.instances) == Fully)
    {
      if !inited {
        return NotInit;
      } else if !palf.inited {
        return NotInit;
      }
      var o := palf.View();
      code := palf.UpdateOptions(Wanted(SetLimit(limit), o));
    }

    /** Never touches the limit; on success installs all of the configuration. */
    method UpdateExceptLimit(config: Option<Config>, compressorKnown: bool) returns (code: Code)
      modifies palf
      ensures palf.View().disk.limitSize == old(palf.View()).disk.limitSize
      ensures code == Success ==> config.Some? && palf.View() == Wanted(SetConfig(config.value), old(palf.View()))
      ensures code != Success ==>
                palf.View().disk == old(palf.View()).disk && palf.View().logCache == old(palf.View()).logCache
      ensures HasRoom(old(palf.View()).disk, palf.instances) && code != Success ==> palf.View() == old(palf.View())
      ensures !inited ==> code == NotInit
      ensures inited && (config.None? || !compressorKnown) ==>
                code == InvalidArgument && palf.View() == old(palf.View())
      ensures inited && palf.inited && config.Some? && compressorKnown ==>
                var wanted := Wanted(SetConfig(config.value), old(palf.View()));
                && (code == Success <==> OutcomeOf(wanted, palf.instances) == Fully)
                && (OutcomeOf(wanted, palf.instances) == Refused ==> palf.View() == old(palf.View()))
    {
      if !inited {
        return NotInit;
      } else if config.None? {
        return InvalidArgument;
      } else if !compressorKnown {
        return InvalidArgument;
      } else if !palf.inited {
        return NotInit;
      }
      var o := palf.View();
      code := palf.UpdateOptions(Wanted(SetConfig(config.value), o));
    }
  }

  // ---------- all interleavings of any number of updaters ----------

  type Thread = nat

  datatype Pc =
    | Idle
    | Waiting(u: Update)
    | Locked(u: Update)
    | HalfRead(u: Update, disk: Disk)           // the options are read piece by piece
    | HasRead(u: Update, o: Options)

  datatype Done = Done(u: Update, outcome: Outcome)

  datatype State = State(
    opts: Options,
    instances: nat,
    lock: Option<Thread>,
    threads: map<Thread, Pc>,
    done: seq<Done>)

  datatype Step =
    | Begin(t: Thread, u: Update)
    | Lock(t: Thread)
    | ReadDisk(t: Thread)
    | ReadRest(t: Thread)
    | Write(t: Thread)                          // and unlock
    | CreatePalf
    | RemovePalf
    | ReloadPalf                                // found on disk when palf starts: not checked against the limit

  function Of(s: State, t: Thread): Pc {
    if t in s.threads then s.threads[t] else Idle
  }

  predicate Enabled(s: State, step: Step) {
    match step
    case Begin(t, _) => Of(s, t).Idle?
    case Lock(t) => Of(s, t).Waiting? && s.lock.None?
    case ReadDisk(t) => Of(s, t).Locked?
    case ReadRest(t) => Of(s, t).HalfRead?
    case Write(t) => Of(s, t).HasRead?
    case CreatePalf => HasRoom(s.opts.disk, s.instances + 1)
    case RemovePalf => 0 < s.instances
    case ReloadPalf => true
  }

  function Next(s: State, step: Step): State
    requires Enabled(s, step)
  {
    match step
    case Begin(t, u) => s.(threads := s.threads[t := Waiting(u)])
    case Lock(t) => s.(lock := Some(t), threads := s.threads[t := Locked(Of(s, t).u)])
    case ReadDisk(t) => s.(threads := s.threads[t := HalfRead(Of(s, t).u, s.opts.disk)])
    case ReadRest(t) =>
      var me := Of(s, t);
      var o := Options(me.disk, s.opts.compress, s.opts.rebuildLag, s.opts.logCache);
      s.(threads := s.threads[t := HasRead(me.u, o)])
    case Write(t) =>
      var me := Of(s, t);
      var wanted := Wanted(me.u, me.o);
      var outcome := OutcomeOf(wanted, s.instances);
      State(Installed(s.opts, wanted, outcome), s.instances, None, s.threads[t := Idle],
            s.done + [Done(me.u, outcome)])
    case CreatePalf => s.(instances := s.instances + 1)
    case RemovePalf => s.(instances := s.instances - 1)
    case ReloadPalf => s.(instances := s.instances + 1)
  }

  /** No update has begun; any number of instances is there already. */
  predicate Starts(s: State, start: Options) {
    s == State(start, s.instances, None, map[], [])
  }

  ghost predicate CanRun(s: State, steps: seq<Step>)
    decreases |steps|
  {
    steps == [] || (Enabled(s, steps[0]) && CanRun(Next(s, steps[0]), steps[1..]))
  }

  ghost function Run(s: State, steps: seq<Step>): State
    requires CanRun(s, steps)
    decreases |steps|
  {
    if steps == [] then s else Run(Next(s, steps[0]), steps[1..])
  }

  // ---------- no update is lost ----------

  /** The limit of the last limit update that succeeded. */
  function LastLimit(start: Options, done: seq<Done>): int {
    if done == [] then start.disk.limitSize
    else
      var d := done[|done| - 1];
      if d.u.SetLimit? && d.outcome == Fully then d.u.limit else LastLimit(start, done[..|done| - 1])
  }

  /** The options of the last config update that got at least as far as `atLeastPartly` asks. */
  function LastConfig(start: Options, done: seq<Done>, atLeastPartly: bool): Options {
    if done == [] then start
    else
      var d := done[|done| - 1];
      if d.u.SetConfig? && (d.outcome == Fully || (atLeastPartly && d.outcome == Partly)) then d.u.config.options
      else LastConfig(start, done[..|done| - 1], atLeastPartly)
  }

  /** What should be installed after these updates, whatever the interleaving was. */
  function Expected(start: Options, done: seq<Done>): Options {
    var full, part := LastConfig(start, done, false), LastConfig(start, done, true);
    Options(full.disk.(limitSize := LastLimit(start, done)), part.compress, part.rebuildLag, full.logCache)
  }

  ghost predicate ThreadOk(s: State, t: Thread) {
    match Of(s, t)
    case Locked(_) => s.lock == Some(t)
    case HalfRead(_, disk) => s.lock == Some(t) && disk == s.opts.disk
    case HasRead(_, o) => s.lock == Some(t) && o == s.opts
    case _ => true
  }

  ghost predicate Inv(start: Options, s: State) {
    && s.opts == Expected(start, s.done)
    && forall t :: ThreadOk(s, t)
  }

  lemma WriteMeetsExpectation(start: Options, done: seq<Done>, u: Update, outcome: Outcome)
    ensures var cur := Expected(start, done);
            Installed(cur, Wanted(u, cur), outcome) == Expected(start, done + [Done(u, outcome)])
  {
    var more := done + [Done(u, outcome)];
    assert more[..|more| - 1] == done;
  }

  lemma StepKeepsInv(start: Options, s: State, step: Step)
    requires Inv(start, s) && Enabled(s, step)
    ensures Inv(start, Next(s, step))
  {
    var n := Next(s, step);
    if step.Write? {
      var me := Of(s, step.t);
      assert ThreadOk(s, step.t);
      WriteMeetsExpectation(start, s.done, me.u, OutcomeOf(Wanted(me.u, me.o), s.instances));
    }
    forall t ensures ThreadOk(n, t) {
      assert ThreadOk(s, t);
    }
  }

  lemma {:induction false} RunKeepsInv(start: Options, s: State, steps: seq<Step>)
    requires Inv(start, s) && CanRun(s, steps)
    ensures Inv(start, Run(s, steps))
    decreases |steps|
  {
    if steps != [] {
      StepKeepsInv(start, s, steps[0]);
      RunKeepsInv(start, Next(s, steps[0]), steps[1..]);
    }
  }

  /**
   However the updaters interleave, the limit is that of the last limit update that succeeded and
   the disk thresholds and the cache switch are those of the last config update that succeeded.
   Compression and rebuild lag come from the last config update that palf began to install.
   */
  lemma NoLostUpdate(start: Options, s: State, steps: seq<Step>)
    requires Starts(s, start) && CanRun(s, steps)
    ensures Run(s, steps).opts == Expected(start, Run(s, steps).done)
  {
    RunKeepsInv(start, s, steps);
  }

  /** All of the last successful config update is installed exactly when no later one got stuck
      half way with another compression or rebuild lag. */
  lemma ConfigWholeIff(start: Options, s: State, steps: seq<Step>)
    requires Starts(s, start) && CanRun(s, steps)
    ensures var n := Run(s, steps);
            var full, part := LastConfig(start, n.done, false), LastConfig(start, n.done, true);
            n.opts == full.(disk := full.disk.(limitSize := LastLimit(start, n.done)))
            <==> part.compress == full.compress && part.rebuildLag == full.rebuildLag
  {
    NoLostUpdate(start, s, steps);
  }

  // ---------- when a config update is installed half ----------

  /** A config update that fails and has changed something all the same. */
  predicate HalfInstalls(s: State, step: Step) {
    && Enabled(s, step) && step.Write? && Of(s, step.t).u.SetConfig?
    && OutcomeOf(Wanted(Of(s, step.t).u, Of(s, step.t).o), s.instances) != Fully
    && Next(s, step).opts != s.opts
  }

  /**
   That happens exactly when the configuration is valid and brings another compression or rebuild
   lag, but the limit, which the update does not touch, has no room for the instances there are.
   */
  lemma HalfInstallsIff(start: Options, s: State, t: Thread, c: Config)
    requires Inv(start, s) && Of(s, t).HasRead? && Of(s, t).u == SetConfig(c)
    ensures HalfInstalls(s, Write(t)) <==>
              && Valid(Wanted(SetConfig(c), s.opts)) && !HasRoom(s.opts.disk, s.instances)
              && (c.options.compress != s.opts.compress || c.options.rebuildLag != s.opts.rebuildLag)
  {
    assert ThreadOk(s, t);
  }

  predicate Room(s: State) {
    HasRoom(s.opts.disk, s.instances)
  }

  ghost predicate NoReload(steps: seq<Step>) {
    forall i :: 0 <= i < |steps| ==> steps[i] != ReloadPalf
  }

  /** Somewhere along the run a config update is installed half. */
  ghost predicate HalfInstallsIn(s: State, steps: seq<Step>)
    requires CanRun(s, steps)
    decreases |steps|
  {
    steps != [] && (HalfInstalls(s, steps[0]) || HalfInstallsIn(Next(s, steps[0]), steps[1..]))
  }

  /** Only a reload can use up the room: creating asks first, and a lower limit is refused. */
  lemma StepKeepsRoom(start: Options, s: State, step: Step)
    requires Inv(start, s) && Room(s) && Enabled(s, step) && step != ReloadPalf
    ensures Room(Next(s, step)) && !HalfInstalls(s, step)
  {
    if step.Write? {
      assert ThreadOk(s, step.t);
    }
  }

  lemma NoReloadTail(steps: seq<Step>)
    requires steps != [] && NoReload(steps)
    ensures NoReload(steps[1..])
  {
    assert forall i :: 0 <= i < |steps[1..]| ==> steps[1..][i] == steps[i + 1];
  }

  /** From a state with room no config update is ever installed half, as long as nothing is reloaded. */
  lemma {:induction false} NeverHalfInstalled(start: Options, s: State, steps: seq<Step>)
    requires Inv(start, s) && Room(s) && CanRun(s, steps) && NoReload(steps)
    ensures !HalfInstallsIn(s, steps)
    decreases |steps|
  {
    if steps != [] {
      StepKeepsRoom(start, s, steps[0]);
      StepKeepsInv(start, s, steps[0]);
      NoReloadTail(steps);
      NeverHalfInstalled(start, Next(s, steps[0]), steps[1..]);
    }
  }

  ghost predicate NoneHalf(done: seq<Done>) {
    forall i :: 0 <= i < |done| ==> !(done[i].u.SetConfig? && done[i].outcome == Partly)
  }

  lemma {:induction false} NoneHalfMeansWhole(start: Options, done: seq<Done>)
    requires NoneHalf(done)
    ensures LastConfig(start, done, true) == LastConfig(start, done, false)
  {
    if done != [] {
      var front := done[..|done| - 1];
      assert forall i :: 0 <= i < |front| ==> front[i] == done[i];
      NoneHalfMeansWhole(start, front);
    }
  }

  lemma StepKeepsNoneHalf(start: Options, s: State, step: Step)
    requires Inv(start, s) && Room(s) && NoneHalf(s.done) && Enabled(s, step)
    ensures NoneHalf(Next(s, step).done)
  {
    if step.Write? {
      assert ThreadOk(s, step.t);
    }
  }

  lemma {:induction false} RoomKeepsNoneHalf(start: Options, s: State, steps: seq<Step>)
    requires Inv(start, s) && Room(s) && NoneHalf(s.done) && CanRun(s, steps) && NoReload(steps)
    ensures NoneHalf(Run(s, steps).done)
    decreases |steps|
  {
    if steps != [] {
      StepKeepsRoom(start, s, steps[0]);
      StepKeepsInv(start, s, steps[0]);
      StepKeepsNoneHalf(start, s, steps[0]);
      NoReloadTail(steps);
      RoomKeepsNoneHalf(start, Next(s, steps[0]), steps[1..]);
    }
  }

  /**
   With room for the instances at the start and none reloaded, every interleaving leaves the limit
   of the last limit update that succeeded and everything else of the last config update that did.
   */
  lemma LastUpdatesAreInstalled(start: Options, s: State, steps: seq<Step>)
    requires Starts(s, start) && Room(s) && CanRun(s, steps) && NoReload(steps)
    ensures var n := Run(s, steps);
            var config := LastConfig(start, n.done, false);
            n.opts == config.(disk := config.disk.(limitSize := LastLimit(start, n.done)))
  {
    NoLostUpdate(start, s, steps);
    RoomKeepsNoneHalf(start, s, steps);
    NoneHalfMeansWhole(start, Run(s, steps).done);
  }

  lemma RunCons(s: State, step: Step, rest: seq<Step>)
    requires Enabled(s, step) && CanRun(Next(s, step), rest)
    ensures CanRun(s, [step] + rest) && Run(s, [step] + rest) == Run(Next(s, step), rest)
    ensures HalfInstallsIn(s, [step] + rest) <==> HalfInstalls(s, step) || HalfInstallsIn(Next(s, step), rest)
    ensures NoReload([step] + rest) <==> step != ReloadPalf && NoReload(rest)
  {
    var steps := [step] + rest;
    assert steps[1..] == rest && steps[0] == step;
    assert forall i :: 0 <= i < |rest| ==> rest[i] == steps[i + 1];
  }

  /** A valid configuration with another rebuild lag than the current one. */
  function OtherConfig(o: Options): Config {
    Config(Options(Disk(o.disk.limitSize, 0, 1, MIN_TRIGGER_PERCENTAGE, MIN_DURATION, 1), Compress(false, None),
                   if o.rebuildLag == 0 then 1 else 0, false))
  }

  /** Without room, an updater that finds the lock free can be installed half. */
  lemma HalfInstallReachable(start: Options, s: State, t: Thread) returns (steps: seq<Step>)
    requires Inv(start, s) && !Room(s) && s.lock.None? && Of(s, t).Idle? && 0 <= s.opts.disk.limitSize
    ensures CanRun(s, steps) && NoReload(steps) && HalfInstallsIn(s, steps)
  {
    var s1 := Next(s, Begin(t, SetConfig(OtherConfig(s.opts))));
    var s2 := Next(s1, Lock(t));
    var s3 := Next(s2, ReadDisk(t));
    var s4 := Next(s3, ReadRest(t));
    assert Of(s4, t) == HasRead(SetConfig(OtherConfig(s.opts)), s.opts);
    RunCons(s4, Write(t), []);
    RunCons(s3, ReadRest(t), [Write(t)]);
    RunCons(s2, ReadDisk(t), [ReadRest(t), Write(t)]);
    RunCons(s1, Lock(t), [ReadDisk(t), ReadRest(t), Write(t)]);
    RunCons(s, Begin(t, SetConfig(OtherConfig(s.opts))), [Lock(t), ReadDisk(t), ReadRest(t), Write(t)]);
    steps := [Begin(t, SetConfig(OtherConfig(s.opts)))] + [Lock(t), ReadDisk(t), ReadRest(t), Write(t)];
  }

  /** So a config update can be installed half exactly when the limit has no room for the instances. */
  lemma HalfInstallPossibleIff(start: Options, s: State, t: Thread)
    requires Inv(start, s) && s.lock.None? && Of(s, t).Idle? && 0 <= s.opts.disk.limitSize
    ensures (exists steps :: CanRun(s, steps) && NoReload(steps) && HalfInstallsIn(s, steps)) <==> !Room(s)
  {
    if Room(s) {
      forall steps | CanRun(s, steps) && NoReload(steps) ensures !HalfInstallsIn(s, steps) {
        NeverHalfInstalled(start, s, steps);
      }
    } else {
      var steps := HalfInstallReachable(start, s, t);
    }
  }

  /** Two instances found on disk under a limit for one: the next config update is installed half. */
  lemma ReloadThenHalfInstalled(o: Options) returns (steps: seq<Step>)
    requires o.disk.limitSize == MIN_DISK_SIZE_PER_PALF_INSTANCE
    ensures var s := State(o, 0, None, map[], []);
            Room(s) && CanRun(s, steps) && HalfInstallsIn(s, steps)
  {
    var s := State(o, 0, None, map[], []);
    var s1 := Next(s, ReloadPalf);
    var s2 := Next(s1, ReloadPalf);
    var rest := HalfInstallReachable(o, s2, 0);
    RunCons(s1, ReloadPalf, rest);
    RunCons(s, ReloadPalf, [ReloadPalf] + rest);
    steps := [ReloadPalf] + ([ReloadPalf] + rest);
  }

  /** Without the lock, reading before the other has written undoes the other's update. */
  lemma WithoutLockUpdateIsLost(start: Options, limit: int, c: Config)
    requires limit != start.disk.limitSize
    ensures var afterLimit := Installed(start, Wanted(SetLimit(limit), start), Fully);
            Installed(afterLimit, Wanted(SetConfig(c), start), Fully).disk.limitSize != limit
  {}
}
