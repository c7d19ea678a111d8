/**
 The pool of inner SQL connections: memory moves between a free list, a used list and the threads
 that are acquiring or reverting. Each critical section is one step, and so is each look at the
 stop flag, which is taken outside the lock.
 */
module ConnectionPool {
  import opened Common

  type Conn = nat

  /** Where a connection is while a thread holds it outside both lists. */
  datatype Phase =
    | Acquiring          // allocated, not yet on the used list
    | Undoing            // the acquire failed, about to be freed
    | Reverting          // off the used list, about to be destroyed and freed

  datatype State = State(
    free: seq<Conn>,
    used: seq<Conn>,
    usedSize: int,               // the used list's own size field
    total: nat,                  // total_conn_cnt_
    held: map<Conn, Phase>,
    leaked: set<Conn>,           // destroy failed during revert: never freed
    failed: nat,                 // acquires undone before the connection got on the used list
    stopped: bool,
    entered: nat)                // threads past the stop test, about to take the lock

  datatype Step =
    | Enter                      // the stop test of alloc_conn, before the lock
    | Alloc(memory: bool)        // memory: whether fresh memory is available
    | AllocFails                 // no free connection and no memory
    | AddToUsed(c: Conn)
    | UndoRemove(c: Conn)        // remove_from_used_conn_list after a failed acquire
    | RevertRemove(c: Conn)      // remove_from_used_conn_list in revert
    | DestroyFails(c: Conn)
    | Free(c: Conn)
    | Stop

  predicate Init(s: State) {
    s == EMPTY
  }

  predicate Enabled(s: State, step: Step) {
    match step
    case Enter => !s.stopped
    case Alloc(memory) => 0 < s.entered && (s.free != [] || memory)
    case AllocFails => 0 < s.entered && s.free == []
    case AddToUsed(c) => c in s.held && s.held[c] == Acquiring
    case UndoRemove(c) => c in s.held && s.held[c] == Acquiring
    case RevertRemove(c) => c in s.used
    case DestroyFails(c) => c in s.held && s.held[c] == Reverting
    case Free(c) => c in s.held && s.held[c] in {Undoing, Reverting}
    case Stop => true
  }

  /** Taking the first occurrence out of a linked list. */
  function Without(s: seq<Conn>, c: Conn): (r: seq<Conn>)
    ensures c !in s ==> r == s
    ensures c in s ==> |r| == |s| - 1
  {
    if s == [] then []
    else if s[0] == c then s[1..]
    else [s[0]] + Without(s[1..], c)
  }

  /** The connection that an allocation hands out. */
  function Candidate(s: State): Conn {
    if s.free == [] then s.total else s.free[0]
  }

  function Next(s: State, step: Step): State
    requires Enabled(s, step)
  {
    match step
    case Enter => s.(entered := s.entered + 1)
    case Alloc(_) =>
      var left := s.(entered := s.entered - 1, held := s.held[Candidate(s) := Acquiring]);
      if s.free == [] then left.(total := s.total + 1) else left.(free := s.free[1..])
    case AllocFails => s.(entered := s.entered - 1)
    case AddToUsed(c) => s.(used := s.used + [c], usedSize := s.usedSize + 1, held := s.held - {c})
    case UndoRemove(c) =>
      // the node is on no list, yet the size goes down
      s.(used := Without(s.used, c), usedSize := s.usedSize - 1, held := s.held[c := Undoing], failed := s.failed + 1)
    case RevertRemove(c) =>
      s.(used := Without(s.used, c), usedSize := s.usedSize - 1, held := s.held[c := Reverting])
    case DestroyFails(c) => s.(held := s.held - {c}, leaked := s.leaked + {c})
    case Free(c) => s.(free := s.free + [c], held := s.held - {c})
    case Stop => s.(stopped := true)
  }

  // ---------- conservation ----------

  /** Every connection ever made is in exactly one place. */
  ghost predicate Placed(s: State) {
    && NoDup(s.free) && NoDup(s.used)
    && Elements(s.free) !! Elements(s.used) !! s.held.Keys !! s.leaked
    && forall c: Conn :: c < s.total <==> c in s.free || c in s.used || c in s.held || c in s.leaked
  }

  ghost predicate Inv(s: State) {
    Placed(s) && s.usedSize == |s.used| - s.failed
  }

  lemma {:induction false} WithoutKeeps(s: seq<Conn>, c: Conn)
    requires NoDup(s)
    ensures NoDup(Without(s, c)) && forall x :: x in Without(s, c) <==> x in s && x != c
  {
    if s != [] && s[0] != c {
      assert NoDup(s[1..]);
      WithoutKeeps(s[1..], c);
      assert forall x :: x in s <==> x == s[0] || x in s[1..];
      var rest := Without(s[1..], c);
      assert s[0] !in rest;
      assert forall i :: 0 < i < |[s[0]] + rest| ==> ([s[0]] + rest)[i] == rest[i - 1];
    } else if s != [] {
      assert NoDup(s[1..]) && c !in s[1..];
      assert forall x :: x in s <==> x == s[0] || x in s[1..];
    }
  }

  lemma AllocKeepsPlaced(s: State, memory: bool)
    requires Inv(s) && Enabled(s, Alloc(memory))
    ensures Inv(Next(s, Alloc(memory)))
  {
    if s.free != [] {
      var rest := s.free[1..];
      assert forall i :: 0 <= i < |rest| ==> rest[i] == s.free[i + 1];
      assert s.free[0] !in rest;
      assert forall x :: x in s.free <==> x == s.free[0] || x in rest;
      assert s.free[0] in Elements(s.free);
    }
  }

  lemma MovesKeepPlaced(s: State, step: Step)
    requires Inv(s) && Enabled(s, step)
    requires !step.Alloc? && !step.UndoRemove? && !step.RevertRemove?
    ensures Inv(Next(s, step))
  {
    var n := Next(s, step);
    if step.AddToUsed? {
      assert step.c !in Elements(s.used) && step.c in s.held.Keys;
      assert forall x :: x in n.used <==> x in s.used || x == step.c;
    } else if step.Free? {
      assert step.c !in Elements(s.free) && step.c in s.held.Keys;
      assert forall x :: x in n.free <==> x in s.free || x == step.c;
    }
  }

  /** A connection in use leaves the list with its count; one not yet in use only takes the count. */
  lemma RemovalsKeepPlaced(s: State, step: Step)
    requires Inv(s) && Enabled(s, step)
    requires step.UndoRemove? || step.RevertRemove?
    ensures Inv(Next(s, step))
    ensures step.UndoRemove? ==> Next(s, step).used == s.used && Next(s, step).usedSize == s.usedSize - 1
    ensures step.RevertRemove? ==>
              && step.c !in Next(s, step).used
              && Next(s, step).usedSize - |Next(s, step).used| == s.usedSize - |s.used|
  {
    WithoutKeeps(s.used, step.c);
    if step.UndoRemove? {
      assert step.c in s.held.Keys && step.c !in Elements(s.used);
    } else {
      assert step.c in Elements(s.used);
    }
  }

  lemma StepKeepsInv(s: State, step: Step)
    requires Inv(s) && Enabled(s, step)
    ensures Inv(Next(s, step))
  {
    match step
    case Alloc(memory) => AllocKeepsPlaced(s, memory);
    case UndoRemove(_) => RemovalsKeepPlaced(s, step);
    case RevertRemove(_) => RemovalsKeepPlaced(s, step);
    case _ => MovesKeepPlaced(s, step);
  }

  /** Any interleaving of the threads' critical sections. */
  ghost predicate CanRun(s: State, steps: seq<Step>)
    decreases |steps|
  {
    steps == [] || (Enabled(s, steps[0]) && CanRun(Next(s, steps[0]), steps[1..]))
  }

  ghost function Run(s: State, steps: seq<Step>): State
    requires CanRun(s, steps)
    decreases |steps|
  {
    if steps == [] then s else Run(Next(s, steps[0]), steps[1..])
  }

  lemma {:induction false} RunKeepsInv(s: State, steps: seq<Step>)
    requires Inv(s) && CanRun(s, steps)
    ensures Inv(Run(s, steps))
    decreases |steps|
  {
    if steps != [] {
      StepKeepsInv(s, steps[0]);
      RunKeepsInv(Next(s, steps[0]), steps[1..]);
    }
  }

  function Below(n: nat): (r: set<Conn>)
    ensures |r| == n
    ensures forall c: Conn :: c in r <==> c < n
  {
    if n == 0 then {} else Below(n - 1) + {n - 1}
  }

  lemma DisjointSize(a: set<Conn>, b: set<Conn>)
    requires a !! b
    ensures |a + b| == |a| + |b|
  {
    assert (a + b) - b == a;
  }

  /** The total counts the free, the used, those in a thread's hands and the leaked. */
  lemma TotalIsConserved(s: State)
    requires Inv(s)
    ensures s.total == |s.free| + |s.used| + |s.held| + |s.leaked|
  {
    ElementsSize(s.free);
    ElementsSize(s.used);
    var free, used, held := Elements(s.free), Elements(s.used), s.held.Keys;
    AllPlaced(s);
    DisjointSize(free, used);
    DisjointSize(free + used, held);
    DisjointSize(free + used + held, s.leaked);
  }

  lemma AllPlaced(s: State)
    requires Inv(s)
    ensures Below(s.total) == Elements(s.free) + Elements(s.used) + s.held.Keys + s.leaked
  {}

  /** In every run from an empty pool each connection is in one place and the total adds up. */
  lemma PoolConserves(s: State, steps: seq<Step>)
    requires Init(s) && CanRun(s, steps)
    ensures var n := Run(s, steps);
            && NoDup(n.free) && NoDup(n.used) && (forall c :: c in n.free ==> c !in n.used)
            && n.total == |n.free| + |n.used| + |n.held| + |n.leaked|
  {
    RunKeepsInv(s, steps);
    var n := Run(s, steps);
    TotalIsConserved(n);
    forall c | c in n.free ensures c !in n.used {
      assert c in Elements(n.free) && (c in n.used ==> c in Elements(n.used));
    }
  }

  // ---------- the total is the peak ----------

  function Out(s: State): int { s.total - |s.free| }

  /** The largest number ever out of the free list along a run. */
  ghost function Peak(s: State, steps: seq<Step>): int
    requires CanRun(s, steps)
    decreases |steps|
  {
    if steps == [] then Out(s)
    else
      var later := Peak(Next(s, steps[0]), steps[1..]);
      if Out(s) < later then later else Out(s)
  }

  lemma {:induction false} TotalNeverShrinks(s: State, steps: seq<Step>)
    requires CanRun(s, steps)
    ensures s.total <= Run(s, steps).total && Peak(s, steps) <= Run(s, steps).total
    decreases |steps|
  {
    if steps != [] {
      TotalNeverShrinks(Next(s, steps[0]), steps[1..]);
    }
  }

  /** Memory is allocated only when every connection is out: the total is exactly the peak. */
  lemma {:induction false} TotalIsPeak(s: State, steps: seq<Step>)
    requires CanRun(s, steps)
    ensures Run(s, steps).total == s.total || Run(s, steps).total == Peak(s, steps)
    decreases |steps|
  {
    if steps != [] {
      var n := Next(s, steps[0]);
      TotalIsPeak(n, steps[1..]);
      TotalNeverShrinks(n, steps[1..]);
      if s.total < n.total && Run(s, steps).total == n.total {
        PeakAtLeastOut(n, steps[1..]);
      }
    }
  }

  lemma PeakAtLeastOut(s: State, steps: seq<Step>)
    requires CanRun(s, steps)
    ensures Out(s) <= Peak(s, steps)
  {}

  lemma TotalIsPeakFromEmpty(s: State, steps: seq<Step>)
    requires Init(s) && CanRun(s, steps)
    ensures Run(s, steps).total == Peak(s, steps)
  {
    TotalIsPeak(s, steps);
    TotalNeverShrinks(s, steps);
    PeakAtLeastOut(s, steps);
  }

  // ---------- waiting for connections to come back ----------

  /** `wait` answers success: the pool is stopped and the used list's size field is not positive. */
  predicate WaitReturns(s: State) {
    s.stopped && s.usedSize <= 0
  }

  /** `wait` returns with connections in use exactly when it was stopped and at least as many
      acquires were undone as connections are in use. */
  lemma WaitReturnsEarlyIff(s: State)
    requires Inv(s)
    ensures WaitReturns(s) && s.used != [] <==> s.stopped && 0 < |s.used| <= s.failed
  {}

  const EMPTY := State([], [], 0, 0, map[], {}, 0, false, 0)
  const ONE_UNDONE := State([0], [], -1, 1, map[], {}, 1, false, 0)

  /** One acquire is undone. */
  lemma UndoOne()
    ensures var steps := [Enter, Alloc(true), UndoRemove(0), Free(0)];
            CanRun(EMPTY, steps) && Run(EMPTY, steps) == ONE_UNDONE
  {
    var s0 := Next(EMPTY, Enter);
    var s1 := Next(s0, Alloc(true));
    var s2 := Next(s1, UndoRemove(0));
    RunCons(s2, Free(0), []);
    RunCons(s1, UndoRemove(0), [Free(0)]);
    RunCons(s0, Alloc(true), [UndoRemove(0), Free(0)]);
    RunCons(EMPTY, Enter, [Alloc(true), UndoRemove(0), Free(0)]);
    assert Next(s2, Free(0)) == ONE_UNDONE;
  }

  /**
   After that a second thread passes the stop test, the pool is stopped, and the thread still gets
   its connection: `wait` returns with it in use.
   */
  lemma WaitReturnsEarlyExample()
    ensures Init(EMPTY)
    ensures CanRun(EMPTY, [Enter, Alloc(true), UndoRemove(0), Free(0)])
    ensures var s := Run(EMPTY, [Enter, Alloc(true), UndoRemove(0), Free(0)]);
            var steps := [Enter, Stop, Alloc(true), AddToUsed(0)];
            CanRun(s, steps) && WaitReturns(Run(s, steps)) && Run(s, steps).used == [0]
  {
    UndoOne();
    var s4 := Next(ONE_UNDONE, Enter);
    var s5 := Next(s4, Stop);
    var s6 := Next(s5, Alloc(true));
    RunCons(s6, AddToUsed(0), []);
    RunCons(s5, Alloc(true), [AddToUsed(0)]);
    RunCons(s4, Stop, [Alloc(true), AddToUsed(0)]);
    RunCons(ONE_UNDONE, Enter, [Stop, Alloc(true), AddToUsed(0)]);
  }

  lemma RunCons(s: State, step: Step, rest: seq<Step>)
    requires Enabled(s, step) && CanRun(Next(s, step), rest)
    ensures CanRun(s, [step] + rest) && Run(s, [step] + rest) == Run(Next(s, step), rest)
  {
    assert ([step] + rest)[1..] == rest;
  }

  /** A continuation, without further undone acquires, after which `wait` returns early. */
  ghost predicate Misleads(s: State, steps: seq<Step>) {
    && CanRun(s, steps) && Run(s, steps).failed == s.failed
    && WaitReturns(Run(s, steps)) && Run(s, steps).used != []
  }

  /** Nothing is in use and nothing will be: the pool is stopped and no thread got past its test. */
  ghost predicate Drained(s: State) {
    && s.stopped && s.entered == 0
    && s.used == [] && forall c :: c in s.held ==> s.held[c] != Acquiring
  }

  lemma {:induction false} DrainedStays(s: State, steps: seq<Step>)
    requires Drained(s) && CanRun(s, steps)
    ensures Drained(Run(s, steps))
    decreases |steps|
  {
    if steps != [] {
      DrainedStays(Next(s, steps[0]), steps[1..]);
    }
  }

  /** Bring few enough connections into use, or back, and stop. */
  lemma {:induction false} EarlyReturnReachable(s: State) returns (steps: seq<Step>)
    requires Inv(s) && 0 < s.failed && !Drained(s)
    ensures Misleads(s, steps)
    decreases |s.used|
  {
    if s.used == [] {
      if d :| d in s.held && s.held[d] == Acquiring {
        steps := AddAndStop(s, d);
      } else if 0 < s.entered {
        steps := AllocAndStop(s);
      } else {
        var rest := AllocAndStop(Next(s, Enter));
        RunCons(s, Enter, rest);
        steps := [Enter] + rest;
      }
    } else if |s.used| <= s.failed {
      RunCons(s, Stop, []);
      steps := [Stop] + [];
    } else {
      var step := RevertRemove(s.used[0]);
      StepKeepsInv(s, step);
      var rest := EarlyReturnReachable(Next(s, step));
      RunCons(s, step, rest);
      steps := [step] + rest;
    }
  }

  lemma AllocAndStop(s: State) returns (steps: seq<Step>)
    requires s.used == [] && s.usedSize + s.failed == 0 && 0 < s.failed && 0 < s.entered
    ensures Misleads(s, steps)
  {
    var rest := AddAndStop(Next(s, Alloc(true)), Candidate(s));
    RunCons(s, Alloc(true), rest);
    steps := [Alloc(true)] + rest;
  }

  lemma AddAndStop(s: State, c: Conn) returns (steps: seq<Step>)
    requires s.used == [] && s.usedSize + s.failed == 0 && 0 < s.failed && Enabled(s, AddToUsed(c))
    ensures Misleads(s, steps)
  {
    var a := Next(s, AddToUsed(c));
    RunCons(a, Stop, []);
    RunCons(s, AddToUsed(c), [Stop]);
    steps := [AddToUsed(c)] + [Stop];
  }

  /**
   As long as no further acquire is undone, `wait` can be trusted exactly when none has been undone
   so far, or the pool is stopped with nothing in use, nothing being acquired and no thread between
   the stop test and the lock.
   */
  lemma WaitTrustworthyIff(s: State)
    requires Inv(s)
    ensures (forall steps :: !Misleads(s, steps)) <==> s.failed == 0 || Drained(s)
  {
    if s.failed == 0 || Drained(s) {
      forall steps ensures !Misleads(s, steps) {
        if CanRun(s, steps) {
          RunKeepsInv(s, steps);
          if Drained(s) { DrainedStays(s, steps); }
        }
      }
    } else {
      var steps := EarlyReturnReachable(s);
    }
  }

  // ---------- the pool's own operations ----------

  lemma AllocFresh(s: State, memory: bool)
    requires Inv(s) && Enabled(s, Alloc(memory))
    ensures Candidate(s) !in s.held && Candidate(s) !in s.used
    ensures Next(s, Alloc(memory)).held - {Candidate(s)} == s.held
  {
    var c := Candidate(s);
    if s.free != [] {
      assert c in Elements(s.free);
    }
    assert c in s.held ==> c in s.held.Keys;
    assert c in s.used ==> c in Elements(s.used);
  }

  /** With no other thread in between, an acquire gets a connection. */
  predicate CanAcquire(s: State, memory: bool) {
    !s.stopped && (s.free != [] || memory)
  }

  /** A whole acquire: pass the stop test, allocate, then add to the used list or, if setting up failed, undo. */
  function Acquired(s: State, memory: bool, initCode: Code): State {
    if !CanAcquire(s, memory) then s
    else
      var a, c := Next(Next(s, Enter), Alloc(memory)), Candidate(s);
      if initCode == Success then Next(a, AddToUsed(c)) else Next(Next(a, UndoRemove(c)), Free(c))
  }

  /** A whole revert: off the used list, then freed, or lost if destroying it failed. */
  function Reverted(s: State, c: Conn, destroyCode: Code): State
    requires c in s.used
  {
    var a := Next(s, RevertRemove(c));
    if destroyCode == Success then Next(a, Free(c)) else Next(a, DestroyFails(c))
  }

  /** An undone acquire puts the connection back but leaves the used list's size one off. */
  lemma AcquireKeeps(s: State, memory: bool, initCode: Code)
    requires Inv(s)
    ensures var n := Acquired(s, memory, initCode);
            && Inv(n) && n.held == s.held && n.leaked == s.leaked
            && n.entered == s.entered
            && (CanAcquire(s, memory) ==>
                  && Candidate(s) !in s.used
                  && n.used == (if initCode == Success then s.used + [Candidate(s)] else s.used)
                  && n.usedSize - |n.used| == s.usedSize - |s.used| - (if initCode == Success then 0 else 1))
  {
    if CanAcquire(s, memory) {
      var e := Next(s, Enter);
      var a, c := Next(e, Alloc(memory)), Candidate(s);
      StepKeepsInv(s, Enter);
      AllocFresh(e, memory);
      StepKeepsInv(e, Alloc(memory));
      if initCode == Success {
        StepKeepsInv(a, AddToUsed(c));
      } else {
        UndoKeeps(a, c);
      }
    }
  }

  lemma UndoKeeps(a: State, c: Conn)
    requires Inv(a) && Enabled(a, UndoRemove(c))
    ensures var n := Next(Next(a, UndoRemove(c)), Free(c));
            && Inv(n) && n.held == a.held - {c} && n.used == a.used && n.usedSize == a.usedSize - 1
            && n.leaked == a.leaked && n.entered == a.entered
  {
    RemovalsKeepPlaced(a, UndoRemove(c));
    StepKeepsInv(Next(a, UndoRemove(c)), Free(c));
  }

  lemma RevertKeeps(s: State, c: Conn, destroyCode: Code)
    requires Inv(s) && c in s.used
    ensures Inv(Reverted(s, c, destroyCode)) && Reverted(s, c, destroyCode).held == s.held
  {
    assert c in Elements(s.used) && c !in s.held.Keys;
    var a := Next(s, RevertRemove(c));
    StepKeepsInv(s, RevertRemove(c));
    if destroyCode == Success {
      StepKeepsInv(a, Free(c));
    } else {
      StepKeepsInv(a, DestroyFails(c));
    }
  }

  class Pool {
    var inited: bool
    var free: seq<Conn>
    var used: seq<Conn>
    var usedSize: int
    var total: nat
    var stopped: bool
    ghost var held: map<Conn, Phase>
    ghost var leaked: set<Conn>
    ghost var failed: nat
    ghost var entered: nat

    ghost function View(): State
      reads this
    {
      State(free, used, usedSize, total, held, leaked, failed, stopped, entered)
    }

    constructor ()
      ensures Init(View()) && inited
    {
      inited, free, used, usedSize, total, stopped := true, [], [], 0, 0, false;
      held, leaked, failed, entered := map[], {}, 0, 0;
    }

    method AllocConn(memory: bool) returns (code: Code, conn: Option<Conn>)
      modifies this
      ensures inited == old(inited)
      ensures code == Success <==> inited && CanAcquire(old(View()), memory)
      ensures View() == if code == Success then Next(Next(old(View()), Enter), Alloc(memory)) else old(View())
      ensures conn.Some? <==> code == Success
      ensures conn.Some? ==> conn.value == Candidate(old(View()))
      ensures inited && !stopped && code != Success ==> code == AllocateFailed
      ensures inited && stopped ==> code == ServerIsStopping
      ensures code == Success <==> inited && !stopped && (old(free) != [] || memory)
      ensures code == Success && old(free) != [] ==>
                conn == Some(old(free)[0]) && free == old(free)[1..] && total == old(total)
      ensures code == Success && old(free) == [] ==> conn == Some(old(total)) && free == [] && total == old(total) + 1
      ensures used == old(used) && usedSize == old(usedSize)
    {
      code, conn := Success, None;
      if !inited {
        code := NotInit;
      } else if stopped {
        code := ServerIsStopping;
      } else {
        if free == [] {
          if !memory {
            code := AllocateFailed;
          } else {
            conn, total := Some(total), total + 1;
          }
        } else {
          conn, free := Some(free[0]), free[1..];
        }
        if code == Success {
          held := held[conn.value := Acquiring];
        }
      }
    }

    method FreeConn(conn: Conn) returns (code: Code)
      requires Enabled(View(), Free(conn))
      modifies this
      ensures inited == old(inited)
      ensures View() == if code == Success then Next(old(View()), Free(conn)) else old(View())
      ensures code == Success <==> inited
      ensures free == (if inited then old(free) + [conn] else old(free)) && used == old(used)
    {
      if !inited {
        return NotInit;
      }
      free, held := free + [conn], held - {conn};
      code := Success;
    }

    method AddToUsedList(conn: Conn) returns (code: Code)
      requires Enabled(View(), AddToUsed(conn))
      modifies this
      ensures inited == old(inited)
      ensures View() == if code == Success then Next(old(View()), AddToUsed(conn)) else old(View())
      ensures code == Success <==> inited
      ensures used == (if inited then old(used) + [conn] else old(used)) && free == old(free)
      ensures usedSize == if inited then old(usedSize) + 1 else old(usedSize)
    {
      if !inited {
        return NotInit;
      }
      used, usedSize, held := used + [conn], usedSize + 1, held - {conn};
      code := Success;
    }

    /** The list primitive: unlink the node if it is linked, and count one down in any case. */
    method RemoveFromUsedList(conn: Conn) returns (code: Code)
      modifies this`used, this`usedSize
      ensures code == Success <==> inited
      ensures code == Success ==> used == Without(old(used), conn) && usedSize == old(usedSize) - 1
      ensures code != Success ==> used == old(used) && usedSize == old(usedSize)
    {
      if !inited {
        return NotInit;
      }
      used, usedSize := Without(used, conn), usedSize - 1;
      code := Success;
    }

    method Acquire(memory: bool, initCode: Code) returns (code: Code, conn: Option<Conn>)
      modifies this
      ensures inited == old(inited)
      ensures View() == if inited then Acquired(old(View()), memory, initCode) else old(View())
      ensures code == Success <==> inited && CanAcquire(old(View()), memory) && initCode == Success
      ensures conn == if code == Success then Some(Candidate(old(View()))) else None
    {
      conn := None;
      if !inited {
        return NotInit, None;
      }
      var c;
      code, c := AllocConn(memory);
      if code != Success {
        return;
      }
      code := initCode;
      if code == Success {
        code := AddToUsedList(c.value);
        conn := c;
      } else {
        UndoAcquire(c.value);
      }
    }

    /** What a failed acquire does with its connection; every error on the way is ignored. */
    method UndoAcquire(conn: Conn)
      requires inited && Enabled(View(), UndoRemove(conn))
      modifies this
      ensures inited == old(inited)
      ensures View() == Next(Next(old(View()), UndoRemove(conn)), Free(conn))
    {
      var tmp := RemoveFromUsedList(conn);
      held, failed := held[conn := Undoing], failed + 1;
      tmp := FreeConn(conn);
    }

    /** One look of `wait` at the used list: success, an error, or `None` to look again later. */
    method LookWhileWaiting() returns (code: Option<Code>)
      ensures code == Some(Success) <==> inited && WaitReturns(View())
      ensures code == None <==> inited && stopped && 0 < usedSize
      ensures !inited ==> code == Some(NotInit)
      ensures inited && !stopped ==> code == Some(InnerStatError)
    {
      if !inited {
        code := Some(NotInit);
      } else if !stopped {
        code := Some(InnerStatError);
      } else if 0 < usedSize {
        code := None;
      } else {
        code := Some(Success);
      }
    }

    method Revert(conn: Conn, destroyCode: Code) returns (code: Code)
      requires conn in used
      modifies this
      ensures inited == old(inited)
      ensures View() == if inited then Reverted(old(View()), conn, destroyCode) else old(View())
      ensures code == if inited then destroyCode else Success
    {
      code := Success;
      if !inited {
        return;
      }
      code := RemoveFromUsedList(conn);
      held := held[conn := Reverting];
      code := destroyCode;
      if code == Success {
        code := FreeConn(conn);
      } else {
        held, leaked := held - {conn}, leaked + {conn};
      }
    }
  }
}
