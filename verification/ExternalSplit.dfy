/**
 How one read of external storage is cut into parallel reads, and what short reads do to it.
 */
module ExternalSplit {

  const CONCURRENCY_LIMIT := 128
  const SINGLE_TASK_MINIMUM_SIZE := 2 * 1024 * 1024

  /** A read of `len` bytes at file offset `offset` into the buffer at `pos`. */
  datatype Task = Task(offset: int, pos: int, len: int)

  function Min(a: int, b: int): int { if a < b then a else b }

  function Max(a: int, b: int): int { if a < b then b else a }

  /** The concurrency that `resize_` stores. */
  function StoredConcurrency(requested: int): (c: int)
    ensures c <= requested && c <= 128 && (c == requested || c == 128)
  {
    Min(requested, CONCURRENCY_LIMIT)
  }

  /** As many tasks as the concurrency allows, but no more than it takes at 2 MB each. */
  function TaskCount(total: int, concurrency: int): (n: int)
    ensures 1 <= n
    ensures n == 1 || (n <= concurrency && (n - 1) * 2097152 < total)
    ensures n < concurrency ==> total <= n * 2097152
  {
    Max(1, Min(concurrency, (total + SINGLE_TASK_MINIMUM_SIZE - 1) / SINGLE_TASK_MINIMUM_SIZE))
  }

  function TaskSize(total: int, count: int): int
    requires 0 < count
  {
    (total + count - 1) / count
  }

  /** The loop that hands out tasks, as a function of where it stands. */
  function Carve(offset: int, pos: int, remaining: int, size: int, n: nat): (tasks: seq<Task>)
    ensures |tasks| == n
    decreases n
  {
    if n == 0 then []
    else
      var len := Min(remaining, size);
      [Task(offset, pos, len)] + Carve(offset + len, pos + len, remaining - len, size, n - 1)
  }

  function Split(offset: int, total: int, concurrency: int): seq<Task> {
    var count := TaskCount(total, concurrency);
    Carve(offset, 0, total, TaskSize(total, count), count)
  }

  function TotalLen(tasks: seq<Task>): int {
    if tasks == [] then 0 else tasks[0].len + TotalLen(tasks[1..])
  }

  /** Each task starts in file and buffer where the one before ends. */
  predicate Contiguous(tasks: seq<Task>, offset: int, pos: int) {
    tasks == [] ||
    (tasks[0].offset == offset && tasks[0].pos == pos
     && Contiguous(tasks[1..], offset + tasks[0].len, pos + tasks[0].len))
  }

  predicate NoneEmpty(tasks: seq<Task>) {
    forall i :: 0 <= i < |tasks| ==> 0 < tasks[i].len
  }

  lemma {:induction false} CarveContiguous(offset: int, pos: int, remaining: int, size: int, n: nat)
    ensures Contiguous(Carve(offset, pos, remaining, size, n), offset, pos)
    decreases n
  {
    if n > 0 {
      var len := Min(remaining, size);
      CarveContiguous(offset + len, pos + len, remaining - len, size, n - 1);
      assert Carve(offset, pos, remaining, size, n)[1..]
          == Carve(offset + len, pos + len, remaining - len, size, n - 1);
    }
  }

  /** Everything is handed out exactly when n tasks of the given size can hold it. */
  lemma {:induction false} CarveTotalIff(offset: int, pos: int, remaining: int, size: int, n: nat)
    requires 0 <= remaining && 0 < size
    ensures TotalLen(Carve(offset, pos, remaining, size, n)) == Min(remaining, n * size)
    decreases n
  {
    if n > 0 {
      var len := Min(remaining, size);
      CarveTotalIff(offset + len, pos + len, remaining - len, size, n - 1);
      assert Carve(offset, pos, remaining, size, n)[1..]
          == Carve(offset + len, pos + len, remaining - len, size, n - 1);
      MulStep(n, size);
    }
  }

  lemma NoneEmptyCons(first: Task, rest: seq<Task>)
    ensures NoneEmpty([first] + rest) <==> 0 < first.len && NoneEmpty(rest)
  {
    var whole := [first] + rest;
    assert whole[0] == first;
    assert forall i :: 0 <= i < |rest| ==> rest[i] == whole[i + 1];
    assert forall i :: 0 < i < |whole| ==> whole[i] == rest[i - 1];
  }

  lemma MulStep(k: nat, size: int)
    requires 0 < k && 0 < size
    ensures k * size == size + (k - 1) * size && 0 <= (k - 1) * size
  {}

  /** No task is empty exactly when the first n - 1 full ones leave something over. */
  lemma {:induction false} CarveNoneEmptyIff(offset: int, pos: int, remaining: int, size: int, n: nat)
    requires 0 <= remaining && 0 < size && 0 < n
    ensures NoneEmpty(Carve(offset, pos, remaining, size, n)) <==> (n - 1) * size < remaining
    decreases n
  {
    var len := Min(remaining, size);
    NoneEmptyCons(Task(offset, pos, len), Carve(offset + len, pos + len, remaining - len, size, n - 1));
    if n > 1 {
      CarveNoneEmptyIff(offset + len, pos + len, remaining - len, size, n - 1);
      MulStep(n - 1, size);
    }
  }

  /** The bound that keeps tasks from being empty: it needs both the limit and the minimum size. */
  lemma CountSquaredBelowTotal(total: int, concurrency: int)
    requires 0 < total && concurrency <= CONCURRENCY_LIMIT
    ensures var n := TaskCount(total, concurrency); (n - 1) * (n - 1) < total
  {
    var n := TaskCount(total, concurrency);
    if n > 1 {
      assert (n - 1) * SINGLE_TASK_MINIMUM_SIZE < total;
      MulMonotone(n - 1, n - 1, SINGLE_TASK_MINIMUM_SIZE);
    }
  }

  lemma MulMonotone(a: int, b: int, c: int)
    requires 0 <= a && b <= c
    ensures a * b <= a * c
  {}

  lemma DivBounds(a: int, b: int)
    requires 0 < b
    ensures a / b * b <= a < a / b * b + b
  {}

  lemma LastTaskNotEmpty(total: int, n: int)
    requires 0 < total && 0 < n && (n - 1) * (n - 1) < total
    ensures var size := TaskSize(total, n); 0 < size && (n - 1) * size < total <= n * size
  {
    var size := TaskSize(total, n);
    DivBounds(total + n - 1, n);
    assert n * size == (n - 1) * size + size;
    if size <= n - 1 {
      MulMonotone(n - 1, size, n - 1);
    }
  }

  /** As long as something is left over, tasks are full. */
  lemma {:induction false} CarveFull(offset: int, pos: int, remaining: int, size: int, n: nat, i: nat)
    requires 0 <= remaining && 0 < size && i < n - 1 && (n - 1) * size < remaining
    ensures Carve(offset, pos, remaining, size, n)[i].len == size
    decreases n
  {
    MulStep(n - 1, size);
    if 0 < i {
      CarveFull(offset + size, pos + size, remaining - size, size, n - 1, i - 1);
    }
  }

  /**
   For every size and every concurrency that `resize_` can store, the tasks tile the range:
   contiguous in file and buffer, summing to the total, none empty. There are as many as the
   concurrency allows, but no more than 2 MB each would take; all but the last have the same length,
   the total over their number rounded up.
   */
  lemma SplitTiles(offset: int, total: int, concurrency: int)
    requires 0 < total && concurrency <= CONCURRENCY_LIMIT
    ensures var tasks := Split(offset, total, concurrency);
            && Contiguous(tasks, offset, 0) && TotalLen(tasks) == total && NoneEmpty(tasks)
            && 1 <= |tasks| <= 128
            && (|tasks| == 1 || (|tasks| <= concurrency && (|tasks| - 1) * 2097152 < total))
            && (|tasks| < concurrency ==> total <= |tasks| * 2097152)
            && forall i :: 0 <= i < |tasks| - 1 ==> tasks[i].len == (total + |tasks| - 1) / |tasks|
  {
    var n := TaskCount(total, concurrency);
    CountSquaredBelowTotal(total, concurrency);
    LastTaskNotEmpty(total, n);
    CarveContiguous(offset, 0, total, TaskSize(total, n), n);
    CarveTotalIff(offset, 0, total, TaskSize(total, n), n);
    CarveNoneEmptyIff(offset, 0, total, TaskSize(total, n), n);
    forall i | 0 <= i < n - 1 ensures Split(offset, total, concurrency)[i].len == TaskSize(total, n) {
      CarveFull(offset, 0, total, TaskSize(total, n), n, i);
    }
  }

  ghost predicate AllAtLeast(tasks: seq<Task>, least: int) {
    forall i :: 0 <= i < |tasks| ==> least <= tasks[i].len
  }

  lemma AllAtLeastCons(first: Task, rest: seq<Task>, least: int)
    ensures AllAtLeast([first] + rest, least) <==> least <= first.len && AllAtLeast(rest, least)
  {
    var whole := [first] + rest;
    assert whole[0] == first;
    assert forall i :: 0 <= i < |rest| ==> rest[i] == whole[i + 1];
    assert forall i :: 0 < i < |whole| ==> whole[i] == rest[i - 1];
  }

  /** When the last task is the shortest, it alone decides. */
  lemma {:induction false} CarveAtLeastIff(offset: int, pos: int, remaining: int, size: int, n: nat, least: int)
    requires 0 < size && 0 < n && (n - 1) * size < remaining <= n * size
    ensures AllAtLeast(Carve(offset, pos, remaining, size, n), least) <==> least <= remaining - (n - 1) * size
    decreases n
  {
    var len := Min(remaining, size);
    AllAtLeastCons(Task(offset, pos, len), Carve(offset + len, pos + len, remaining - len, size, n - 1), least);
    if n > 1 {
      MulStep(n - 1, size);
      MulStep(n, size);
      CarveAtLeastIff(offset + len, pos + len, remaining - len, size, n - 1, least);
    }
  }

  /**
   The interface comment promises each task at least 2 MB. That holds exactly when the last task,
   what n - 1 full ones leave over, has as much.
   */
  lemma MinimumSizeKeptIff(offset: int, total: int, concurrency: int)
    requires 0 < total && concurrency <= CONCURRENCY_LIMIT
    ensures var n := TaskCount(total, concurrency);
            AllAtLeast(Split(offset, total, concurrency), SINGLE_TASK_MINIMUM_SIZE)
            <==> SINGLE_TASK_MINIMUM_SIZE <= total - (n - 1) * TaskSize(total, n)
  {
    var n := TaskCount(total, concurrency);
    CountSquaredBelowTotal(total, concurrency);
    LastTaskNotEmpty(total, n);
    CarveAtLeastIff(offset, 0, total, TaskSize(total, n), n, SINGLE_TASK_MINIMUM_SIZE);
  }

  /** It does not hold for 2 MB and one byte: they give two tasks of about 1 MB. */
  lemma MinimumSizeNotKept()
    ensures Split(0, SINGLE_TASK_MINIMUM_SIZE + 1, 2) == [Task(0, 0, 1048577), Task(1048577, 1048577, 1048576)]
  {
    var total := SINGLE_TASK_MINIMUM_SIZE + 1;
    assert TaskCount(total, 2) == 2 && TaskSize(total, 2) == 1048577;
    assert Carve(1048577, 1048577, 1048576, 1048577, 1) == [Task(1048577, 1048577, 1048576)];
  }

  /** Tasks lie one after another within the range. */
  lemma {:induction false} Spread(tasks: seq<Task>, offset: int, pos: int, i: nat)
    requires Contiguous(tasks, offset, pos) && NoneEmpty(tasks) && i < |tasks|
    ensures pos <= tasks[i].pos && tasks[i].pos + tasks[i].len <= pos + TotalLen(tasks)
    ensures tasks[i].offset - tasks[i].pos == offset - pos
    ensures 0 < i ==> pos + tasks[0].len <= tasks[i].pos
  {
    NoneEmptyTotal(tasks[1..]);
    if i > 0 {
      Spread(tasks[1..], offset + tasks[0].len, pos + tasks[0].len, i - 1);
    }
  }

  lemma {:induction false} NoneEmptyTotal(tasks: seq<Task>)
    requires NoneEmpty(tasks)
    ensures |tasks| <= TotalLen(tasks)
  {
    if tasks != [] { NoneEmptyTotal(tasks[1..]); }
  }

  lemma {:induction false} Apart(tasks: seq<Task>, offset: int, pos: int, i: nat, j: nat)
    requires Contiguous(tasks, offset, pos) && NoneEmpty(tasks) && i < j < |tasks|
    ensures tasks[i].pos + tasks[i].len <= tasks[j].pos
  {
    if i == 0 {
      Spread(tasks, offset, pos, j);
    } else {
      Apart(tasks[1..], offset + tasks[0].len, pos + tasks[0].len, i - 1, j - 1);
    }
  }

  // ---------- short reads ----------

  function Sum(sizes: seq<int>): int {
    if sizes == [] then 0 else sizes[0] + Sum(sizes[1..])
  }

  ghost predicate Fit(tasks: seq<Task>, sizes: seq<int>) {
    |sizes| == |tasks| && forall i :: 0 <= i < |tasks| ==> 0 <= sizes[i] <= tasks[i].len
  }

  /** Buffer position x was written by one of the reads. */
  ghost predicate Filled(tasks: seq<Task>, sizes: seq<int>, x: int)
    requires |sizes| == |tasks|
  {
    exists i :: 0 <= i < |tasks| && tasks[i].pos <= x < tasks[i].pos + sizes[i]
  }

  ghost predicate PrefixFilled(tasks: seq<Task>, sizes: seq<int>, pos: int)
    requires |sizes| == |tasks|
  {
    forall x :: pos <= x < pos + Sum(sizes) ==> Filled(tasks, sizes, x)
  }

  /** Nothing comes after a short read. */
  predicate ShortOnlyAtEnd(tasks: seq<Task>, sizes: seq<int>)
    requires |sizes| == |tasks|
  {
    forall i, j :: 0 <= i < j < |tasks| && 0 < sizes[j] ==> sizes[i] == tasks[i].len
  }

  lemma {:induction false} SumZeroIff(sizes: seq<int>)
    requires forall i :: 0 <= i < |sizes| ==> 0 <= sizes[i]
    ensures 0 <= Sum(sizes)
    ensures Sum(sizes) == 0 <==> forall i :: 0 <= i < |sizes| ==> sizes[i] == 0
  {
    if sizes != [] {
      SumZeroIff(sizes[1..]);
      assert forall i :: 0 <= i < |sizes| - 1 ==> sizes[1..][i] == sizes[i + 1];
      assert Sum(sizes) == 0 ==> forall i :: 0 < i < |sizes| ==> sizes[i] == sizes[1..][i - 1];
    }
  }

  lemma FilledTail(tasks: seq<Task>, sizes: seq<int>, offset: int, pos: int, x: int)
    requires tasks != [] && Contiguous(tasks, offset, pos) && NoneEmpty(tasks) && Fit(tasks, sizes)
    requires pos + tasks[0].len <= x
    ensures Filled(tasks, sizes, x) <==> Filled(tasks[1..], sizes[1..], x)
  {
    if Filled(tasks, sizes, x) {
      var i :| 0 <= i < |tasks| && tasks[i].pos <= x < tasks[i].pos + sizes[i];
      assert tasks[1..][i - 1] == tasks[i] && sizes[1..][i - 1] == sizes[i];
    }
    if Filled(tasks[1..], sizes[1..], x) {
      var i :| 0 <= i < |tasks[1..]| && tasks[1..][i].pos <= x < tasks[1..][i].pos + sizes[1..][i];
      assert tasks[i + 1] == tasks[1..][i] && sizes[i + 1] == sizes[1..][i];
    }
  }

  lemma FirstShort(tasks: seq<Task>, sizes: seq<int>, offset: int, pos: int)
    requires tasks != [] && Contiguous(tasks, offset, pos) && NoneEmpty(tasks) && Fit(tasks, sizes)
    requires sizes[0] < tasks[0].len
    ensures !Filled(tasks, sizes, pos + sizes[0])
  {
    forall i | 0 <= i < |tasks| ensures !(tasks[i].pos <= pos + sizes[0] < tasks[i].pos + sizes[i]) {
      Spread(tasks, offset, pos, i);
    }
  }

  /**
   The size that `pread` reports counts the bytes delivered. Those bytes are the first ones of the
   buffer exactly when no read delivered anything after a short one.
   */
  lemma {:induction false} PrefixFilledIff(tasks: seq<Task>, sizes: seq<int>, offset: int, pos: int)
    requires Contiguous(tasks, offset, pos) && NoneEmpty(tasks) && Fit(tasks, sizes)
    ensures PrefixFilled(tasks, sizes, pos) <==> ShortOnlyAtEnd(tasks, sizes)
  {
    if tasks != [] {
      var restTasks, rest := tasks[1..], sizes[1..];
      SumZeroIff(rest);
      assert Fit(restTasks, rest);
      if sizes[0] == tasks[0].len {
        PrefixFilledIff(restTasks, rest, offset + tasks[0].len, pos + tasks[0].len);
        FullFirst(tasks, sizes, offset, pos);
        assert ShortOnlyAtEnd(tasks, sizes) <==> ShortOnlyAtEnd(restTasks, rest) by { ShortTail(tasks, sizes); }
      } else {
        FirstShort(tasks, sizes, offset, pos);
        assert ShortOnlyAtEnd(tasks, sizes) <==> Sum(rest) == 0 by { ShortTail(tasks, sizes); }
        forall x | pos <= x < pos + sizes[0] ensures Filled(tasks, sizes, x) {
          assert tasks[0].pos <= x < tasks[0].pos + sizes[0];
        }
      }
    }
  }

  lemma ShortTail(tasks: seq<Task>, sizes: seq<int>)
    requires tasks != [] && Fit(tasks, sizes)
    ensures sizes[0] == tasks[0].len ==> (ShortOnlyAtEnd(tasks, sizes) <==> ShortOnlyAtEnd(tasks[1..], sizes[1..]))
    ensures sizes[0] < tasks[0].len ==>
              (ShortOnlyAtEnd(tasks, sizes) <==> forall j :: 0 <= j < |sizes[1..]| ==> sizes[1..][j] == 0)
  {
    assert forall i :: 0 <= i < |tasks| - 1 ==> tasks[1..][i] == tasks[i + 1] && sizes[1..][i] == sizes[i + 1];
    if ShortOnlyAtEnd(tasks[1..], sizes[1..]) && sizes[0] == tasks[0].len {
      forall i, j | 0 <= i < j < |tasks| && 0 < sizes[j] ensures sizes[i] == tasks[i].len {
        if i > 0 {
          assert sizes[1..][j - 1] == sizes[j] && sizes[1..][i - 1] == sizes[i];
          assert tasks[1..][i - 1] == tasks[i];
        }
      }
    }
    if sizes[0] < tasks[0].len && forall j :: 0 <= j < |sizes[1..]| ==> sizes[1..][j] == 0 {
      forall j | 0 < j < |tasks| ensures sizes[j] == 0 { assert sizes[1..][j - 1] == sizes[j]; }
    }
  }

  lemma FullFirst(tasks: seq<Task>, sizes: seq<int>, offset: int, pos: int)
    requires tasks != [] && Contiguous(tasks, offset, pos) && NoneEmpty(tasks) && Fit(tasks, sizes)
    requires sizes[0] == tasks[0].len
    ensures PrefixFilled(tasks, sizes, pos) <==> PrefixFilled(tasks[1..], sizes[1..], pos + tasks[0].len)
  {
    var rest := pos + tasks[0].len;
    forall x | rest <= x ensures Filled(tasks, sizes, x) <==> Filled(tasks[1..], sizes[1..], x) {
      FilledTail(tasks, sizes, offset, pos, x);
    }
    forall x | pos <= x < rest ensures Filled(tasks, sizes, x) {
      assert tasks[0].pos <= x < tasks[0].pos + sizes[0];
    }
  }

  /** With a short first read the reported size covers bytes that were never read. */
  lemma ShortReadLeavesHole()
    ensures var tasks := Split(0, SINGLE_TASK_MINIMUM_SIZE + 1, 2);
            var sizes := [0, 1048576];
            Fit(tasks, sizes) && Sum(sizes) == 1048576 && !PrefixFilled(tasks, sizes, 0)
  {
    MinimumSizeNotKept();
    SplitTiles(0, SINGLE_TASK_MINIMUM_SIZE + 1, 2);
    var tasks, sizes := Split(0, SINGLE_TASK_MINIMUM_SIZE + 1, 2), [0, 1048576];
    assert sizes[1..] == [1048576];
    PrefixFilledIff(tasks, sizes, 0, 0);
    assert !ShortOnlyAtEnd(tasks, sizes) by { assert 0 < sizes[1] && sizes[0] != tasks[0].len; }
  }

  lemma {:induction false} FullReads(tasks: seq<Task>, sizes: seq<int>)
    requires |sizes| == |tasks| && forall i :: 0 <= i < |tasks| ==> sizes[i] == tasks[i].len
    ensures Sum(sizes) == TotalLen(tasks)
  {
    if tasks != [] { FullReads(tasks[1..], sizes[1..]); }
  }
}
