/**
 Reading external storage with parallel asynchronous reads into one buffer.

 The file is fixed while it is read. An asynchronous read may fail, or deliver fewer bytes than
 asked; what is in the rest of its part of the buffer is then unknown.
 */
module ExternalRead {
  import opened Common
  import opened ExternalSplit

  type Byte = int

  datatype Outcome = Outcome(code: Code, size: int)

  /** What the storage answers before any read completes. */
  datatype Env = Env(
    uriEmpty: bool,
    infoOk: bool,               // a file uri, or storage information is given
    sizeCode: Code,             // of the file size query
    openCode: Code,               // of opening the device and the file
    submits: seq<Code>)         // of submitting each read; success when there are no more

  /** The storage takes every read; only the reads themselves can still fail. */
  ghost predicate AllSubmitted(env: Env) {
    !env.uriEmpty && env.infoOk && env.openCode == Success && forall i: nat :: SubmitCode(env, i) == Success
  }

  /** Why the storage did not take all the reads: the first that was refused comes after `issued` others. */
  ghost predicate Unreadable(env: Env, issued: nat, code: Code) {
    if env.uriEmpty || !env.infoOk then code == InvalidArgument
    else if env.openCode != Success then code == env.openCode
    else code == SubmitCode(env, issued) && code != Success
  }

  function SubmitCode(env: Env, i: nat): Code {
    if i < |env.submits| then env.submits[i] else Success
  }

  /** The error that `wait` keeps while it goes through the reads in order. */
  function FirstError(got: seq<Outcome>): Code {
    if got == [] then Success
    else
      var before := FirstError(got[..|got| - 1]);
      if before != Success then before else got[|got| - 1].code
  }

  function Sizes(got: seq<Outcome>): (sizes: seq<int>)
    ensures |sizes| == |got|
  {
    if got == [] then []
    else
      var last := got[|got| - 1];
      Sizes(got[..|got| - 1]) + [if last.code == Success then last.size else 0]
  }

  lemma {:induction false} SizesAt(got: seq<Outcome>, i: nat)
    requires i < |got|
    ensures Sizes(got)[i] == if got[i].code == Success then got[i].size else 0
  {
    if i < |got| - 1 {
      SizesAt(got[..|got| - 1], i);
    }
  }

  /** The error kept is that of the lowest-index failing read. */
  lemma {:induction false} FirstErrorIsLowest(got: seq<Outcome>)
    ensures FirstError(got) == Success <==> forall i :: 0 <= i < |got| ==> got[i].code == Success
    ensures FirstError(got) != Success ==>
              exists i :: 0 <= i < |got| && got[i].code == FirstError(got)
                          && forall j :: 0 <= j < i ==> got[j].code == Success
  {
    if got != [] {
      var front := got[..|got| - 1];
      FirstErrorIsLowest(front);
      if FirstError(front) != Success {
        var i :| 0 <= i < |front| && front[i].code == FirstError(front)
                 && forall j :: 0 <= j < i ==> front[j].code == Success;
        assert got[i].code == FirstError(got) && forall j :: 0 <= j < i ==> got[j] == front[j];
      } else {
        assert forall j :: 0 <= j < |got| - 1 ==> got[j] == front[j];
      }
    }
  }

  lemma {:induction false} SumAppend(sizes: seq<int>, x: int)
    ensures Sum(sizes + [x]) == Sum(sizes) + x
  {
    if sizes != [] {
      SumAppend(sizes[1..], x);
      assert (sizes + [x])[1..] == sizes[1..] + [x];
    } else {
      assert sizes + [x] == [x];
    }
  }

  predicate Within(t: Task, end: int, fileSize: int) {
    0 <= t.pos && 0 < t.len && t.pos + t.len <= end && 0 <= t.offset && t.offset + t.len <= fileSize
  }

  ghost predicate Laid(tasks: seq<Task>, end: int, fileSize: int) {
    && (forall i :: 0 <= i < |tasks| ==> Within(tasks[i], end, fileSize))
    && (forall i, j :: 0 <= i < j < |tasks| ==> Before(tasks[i], tasks[j]))
  }

  predicate Before(a: Task, b: Task) {
    a.pos + a.len <= b.pos
  }

  predicate Delivered(b: seq<Byte>, file: seq<Byte>, t: Task, n: int)
    requires 0 <= n <= t.len && Within(t, |b|, |file|)
  {
    b[t.pos..t.pos + n] == file[t.offset..t.offset + n]
  }

  ghost predicate AllDelivered(b: seq<Byte>, file: seq<Byte>, tasks: seq<Task>, got: seq<Outcome>)
    requires Laid(tasks, |b|, |file|) && |got| <= |tasks|
  {
    forall i: nat :: i < |got| ==> DeliveredAt(b, file, tasks, got, i)
  }

  ghost predicate DeliveredAt(b: seq<Byte>, file: seq<Byte>, tasks: seq<Task>, got: seq<Outcome>, i: nat)
    requires Laid(tasks, |b|, |file|) && i < |got| <= |tasks|
  {
    0 <= got[i].size <= tasks[i].len && (got[i].code == Success ==> Delivered(b, file, tasks[i], got[i].size))
  }

  /** Writing one task's part of the buffer leaves what earlier tasks delivered. */
  lemma OneMoreDelivered(a: seq<Byte>, b: seq<Byte>, file: seq<Byte>, tasks: seq<Task>, got: seq<Outcome>, o: Outcome)
    requires |a| == |b| && Laid(tasks, |b|, |file|) && |got| < |tasks|
    requires AllDelivered(a, file, tasks, got)
    requires var t := tasks[|got|];
             && (forall x :: 0 <= x < |b| && !(t.pos <= x < t.pos + t.len) ==> b[x] == a[x])
             && 0 <= o.size <= t.len && (o.code == Success ==> Delivered(b, file, t, o.size))
    ensures AllDelivered(b, file, tasks, got + [o])
  {
    forall i: nat | i < |got + [o]| ensures DeliveredAt(b, file, tasks, got + [o], i) {
      if i < |got| {
        var t := tasks[i];
        assert DeliveredAt(a, file, tasks, got, i);
        assert Before(t, tasks[|got|]);
        assert b[t.pos..t.pos + got[i].size] == a[t.pos..t.pos + got[i].size];
      }
    }
  }

  lemma OneMoreOutcome(got: seq<Outcome>, o: Outcome)
    ensures FirstError(got + [o]) == if FirstError(got) != Success then FirstError(got) else o.code
    ensures Sum(Sizes(got + [o])) == Sum(Sizes(got)) + if o.code == Success then o.size else 0
  {
    assert (got + [o])[..|got|] == got;
    SumAppend(Sizes(got), if o.code == Success then o.size else 0);
  }

  /** The reads of one call, and how often each was waited for. */
  class Ctx {
    var inited: bool
    var count: nat
    var capacity: nat
    var issued: seq<Task>
    ghost var waits: seq<nat>

    constructor ()
      ensures !inited && count == 0 && issued == [] && waits == []
    {
      inited, count, capacity, issued, waits := false, 0, 0, [], [];
    }

    ghost predicate Valid()
      reads this
    {
      && |waits| == |issued| && count <= capacity
      && (!inited ==> issued == [])
    }

    /** Every read issued so far is counted, so that `Wait` will see it, and none was waited for. */
    ghost predicate InFlight()
      reads this
    {
      Valid() && count == |issued| && forall i :: 0 <= i < |waits| ==> waits[i] == 0
    }

    method Init(env: Env, concurrency: int) returns (code: Code)
      requires InFlight() && !inited
      modifies this
      ensures InFlight() && issued == [] && waits == []
      ensures code == Success <==> inited
      ensures code == Success ==> capacity == concurrency
      ensures code == if env.uriEmpty || !env.infoOk || concurrency <= 0 then InvalidArgument else env.openCode
    {
      if env.uriEmpty || !env.infoOk || concurrency <= 0 {
        code := InvalidArgument;
      } else if env.openCode != Success {
        code := env.openCode;
      } else {
        code, count, capacity, inited := Success, 0, concurrency, true;
      }
    }

    method GetItem(index: int) returns (code: Code)
      ensures code == Success <==> inited && 0 <= index < capacity
    {
      code := if !inited then NotInit else if capacity <= index || index < 0 then InvalidArgument else Success;
    }

    method IncCount() returns (code: Code)
      modifies this`count
      ensures code == Success <==> inited && old(count) < capacity
      ensures count == if code == Success then old(count) + 1 else old(count)
    {
      if !inited {
        code := NotInit;
      } else if capacity <= count {
        code := SizeOverflow;
      } else {
        code, count := Success, count + 1;
      }
    }

    /** Start a read into the next item. */
    method AsyncPread(t: Task, submitted: Code) returns (code: Code)
      requires Valid() && inited
      modifies this`issued, this`waits
      ensures t.offset < 0 || t.len <= 0 ==> code == InvalidArgument
      ensures 0 <= t.offset && 0 < t.len ==> code == submitted
      ensures issued == if code == Success then old(issued) + [t] else old(issued)
      ensures waits == if code == Success then old(waits) + [0] else old(waits)
    {
      if t.offset < 0 || t.len <= 0 {
        code := InvalidArgument;
      } else {
        code := submitted;
        if code == Success {
          issued, waits := issued + [t], waits + [0];
        }
      }
    }

    /** A read comes to an end: some first part of its range has arrived, the rest is unknown. */
    method Complete(t: Task, buf: array<Byte>, file: seq<Byte>) returns (o: Outcome)
      requires Within(t, buf.Length, |file|)
      modifies buf
      ensures 0 <= o.size <= t.len
      ensures o.code == Success ==> Delivered(buf[..], file, t, o.size)
      ensures forall x :: 0 <= x < buf.Length && !(t.pos <= x < t.pos + t.len) ==> buf[x] == old(buf[x])
    {
      assert |seq(t.len, _ => 0)| == t.len;
      var rest: seq<Byte> :| |rest| == t.len;
      var code: Code :| true;
      var n: int :| 0 <= n <= t.len;
      o := Outcome(code, n);
      forall y | 0 <= y < t.len {
        buf[t.pos + y] := if code == Success && y < n then file[t.offset + y] else rest[y];
      }
      if code == Success {
        assert buf[t.pos..t.pos + n] == file[t.offset..t.offset + n];
        assert buf[..][t.pos..t.pos + n] == buf[t.pos..t.pos + n];
      }
    }

    /**
     Wait for every counted read, whatever happens to some of them; keep the first error and add
     up what the successful ones delivered.
     */
    method Wait(buf: array<Byte>, file: seq<Byte>, outSize0: int)
      returns (code: Code, outSize: int, ghost got: seq<Outcome>)
      requires InFlight() && Laid(issued, buf.Length, |file|)
      modifies this`count, this`waits, buf
      ensures !inited ==> code == NotInit && outSize == outSize0
      ensures inited ==> count == 0 && code == FirstError(got) && outSize == outSize0 + Sum(Sizes(got))
      ensures |got| == |issued| && AllDelivered(buf[..], file, issued, got)
      ensures |waits| == |issued| && forall i :: 0 <= i < |waits| ==> waits[i] == 1
      ensures forall x :: 0 <= x < buf.Length && PastAll(issued, x) ==> buf[x] == old(buf[x])
    {
      code, outSize, got := Success, outSize0, [];
      if !inited {
        code := NotInit;
        return;
      }
      var i := 0;
      while i < count
        invariant 0 <= i <= count == |issued| == |waits| && |got| == i
        invariant code == FirstError(got) && outSize == outSize0 + Sum(Sizes(got))
        invariant AllDelivered(buf[..], file, issued, got)
        invariant forall k :: 0 <= k < |waits| ==> waits[k] == if k < i then 1 else 0
        invariant forall x :: 0 <= x < buf.Length && PastAll(issued, x) ==> buf[x] == old(buf[x])
      {
        ghost var was := buf[..];
        var o := Complete(issued[i], buf, file);
        OneMoreDelivered(was, buf[..], file, issued, got, o);
        OneMoreOutcome(got, o);
        waits := waits[i := waits[i] + 1];
        if o.code == Success {
          outSize := outSize + o.size;
        }
        if o.code != Success && code == Success {
          code := o.code;
        }
        got := got + [o];
        i := i + 1;
      }
      count := 0;
    }
  }

  /** Beyond every task's part of the buffer. */
  ghost predicate PastAll(tasks: seq<Task>, x: int) {
    forall i :: 0 <= i < |tasks| ==> tasks[i].pos + tasks[i].len <= x
  }

  lemma SplitLaid(offset: int, total: int, concurrency: int, end: int, fileSize: int)
    requires 0 < total <= end && 0 <= offset && offset + total <= fileSize && concurrency <= CONCURRENCY_LIMIT
    ensures Laid(Split(offset, total, concurrency), end, fileSize)
    ensures forall x :: total <= x ==> PastAll(Split(offset, total, concurrency), x)
  {
    var tasks := Split(offset, total, concurrency);
    SplitTiles(offset, total, concurrency);
    forall i | 0 <= i < |tasks|
      ensures Within(tasks[i], end, fileSize) && tasks[i].pos + tasks[i].len <= total
    {
      Spread(tasks, offset, 0, i);
    }
    forall i, j | 0 <= i < j < |tasks| ensures Before(tasks[i], tasks[j]) {
      Apart(tasks, offset, 0, i, j);
    }
  }

  lemma LaidPrefix(tasks: seq<Task>, more: seq<Task>, end: int, fileSize: int)
    requires tasks <= more && Laid(more, end, fileSize)
    ensures Laid(tasks, end, fileSize)
    ensures forall x :: PastAll(more, x) ==> PastAll(tasks, x)
  {
    assert forall i :: 0 <= i < |tasks| ==> tasks[i] == more[i];
  }

  predicate HoldsFile(b: seq<Byte>, file: seq<Byte>, offset: int, x: int) {
    0 <= x < |b| && 0 <= offset + x < |file| && b[x] == file[offset + x]
  }

  lemma DeliveredByte(b: seq<Byte>, file: seq<Byte>, t: Task, n: int, x: int)
    requires 0 <= n <= t.len && Within(t, |b|, |file|) && Delivered(b, file, t, n)
    requires t.pos <= x < t.pos + n
    ensures b[x] == file[t.offset + (x - t.pos)]
  {
    assert b[x] == b[t.pos..t.pos + n][x - t.pos] == file[t.offset..t.offset + n][x - t.pos];
  }

  /** What arrived at a filled position is the file's byte. */
  lemma {:induction false} FilledHoldsFile(b: seq<Byte>, file: seq<Byte>, tasks: seq<Task>, got: seq<Outcome>,
                                           offset: int, x: int)
    requires Contiguous(tasks, offset, 0) && NoneEmpty(tasks)
    requires Laid(tasks, |b|, |file|) && |got| == |tasks| && AllDelivered(b, file, tasks, got)
    requires Filled(tasks, Sizes(got), x)
    ensures HoldsFile(b, file, offset, x)
  {
    var i :| 0 <= i < |tasks| && tasks[i].pos <= x < tasks[i].pos + Sizes(got)[i];
    Spread(tasks, offset, 0, i);
    SizesAt(got, i);
    assert DeliveredAt(b, file, tasks, got, i);
    DeliveredByte(b, file, tasks[i], got[i].size, x);
  }

  lemma DeliveredFit(b: seq<Byte>, file: seq<Byte>, tasks: seq<Task>, got: seq<Outcome>)
    requires Laid(tasks, |b|, |file|) && |got| == |tasks| && AllDelivered(b, file, tasks, got)
    ensures Fit(tasks, Sizes(got))
  {
    forall i | 0 <= i < |tasks| ensures 0 <= Sizes(got)[i] <= tasks[i].len {
      SizesAt(got, i);
      assert DeliveredAt(b, file, tasks, got, i);
      assert Within(tasks[i], |b|, |file|);
    }
  }

  /** When nothing follows a short read, the reported bytes are the file's, from the start. */
  lemma {:induction false} ReportedBytesAreTheFiles(b: seq<Byte>, file: seq<Byte>, tasks: seq<Task>,
                                                    got: seq<Outcome>, offset: int)
    requires 0 <= offset && Contiguous(tasks, offset, 0) && NoneEmpty(tasks)
    requires Laid(tasks, |b|, |file|) && |got| == |tasks| && AllDelivered(b, file, tasks, got)
    requires ShortOnlyAtEnd(tasks, Sizes(got))
    ensures 0 <= Sum(Sizes(got)) && forall x :: 0 <= x < Sum(Sizes(got)) ==> HoldsFile(b, file, offset, x)
  {
    DeliveredFit(b, file, tasks, got);
    PrefixFilledIff(tasks, Sizes(got), offset, 0);
    SumZeroIff(Sizes(got));
    forall x | 0 <= x < Sum(Sizes(got)) ensures HoldsFile(b, file, offset, x) {
      assert Filled(tasks, Sizes(got), x);
      FilledHoldsFile(b, file, tasks, got, offset, x);
    }
  }

  lemma CarveStep(all: seq<Task>, index: nat, at: int, pos: int, remaining: int, size: int, n: nat)
    requires 0 < n && index + n == |all| && all[index..] == Carve(at, pos, remaining, size, n)
    ensures var len := Min(remaining, size);
            && all[index] == Task(at, pos, len)
            && all[index + 1..] == Carve(at + len, pos + len, remaining - len, size, n - 1)
            && all[..index + 1] == all[..index] + [all[index]]
  {
    assert all[index..][0] == all[index] && all[index..][1..] == all[index + 1..];
  }

  class Handler {
    var inited: bool
    var running: bool
    var concurrency: int

    constructor ()
      ensures Valid()
    {
      inited, running, concurrency := true, false, 1;
    }

    ghost predicate Valid()
      reads this
    {
      inited ==> 0 <= concurrency <= CONCURRENCY_LIMIT
    }

    /** Any non-negative concurrency is taken; it is stored cut to the limit. */
    method Start(wanted: int) returns (code: Code)
      requires Valid()
      modifies this
      ensures Valid() && inited == old(inited)
      ensures code == if !inited then NotInit else if !old(running) && wanted < 0 then InvalidArgument else Success
      ensures code == Success ==> running
      ensures code == Success && !old(running) ==> concurrency == StoredConcurrency(wanted)
      ensures code != Success ==> running == old(running) && concurrency == old(concurrency)
    {
      code := Success;
      if !inited {
        code := NotInit;
      } else if running {
      } else if wanted < 0 {
        code := InvalidArgument;
      } else {
        concurrency, running := StoredConcurrency(wanted), true;
      }
    }

    /**
     Issue the reads; when one cannot be issued, wait for those that were. The only errors are those
     of opening and of submitting: no read is refused for its length and the items suffice.
     */
    method ConstructTasks(ctx: Ctx, offset: int, total: int, buf: array<Byte>, file: seq<Byte>, env: Env)
      returns (code: Code)
      requires Valid() && inited && ctx.InFlight() && !ctx.inited && ctx.issued == []
      requires 0 < total <= buf.Length && 0 <= offset && offset + total <= |file|
      modifies ctx, buf
      ensures ctx.issued <= Split(offset, total, concurrency)
      ensures code == Success ==>
                && ctx.inited && ctx.InFlight() && buf[..] == old(buf[..])
                && ctx.issued == Split(offset, total, concurrency)
      ensures code != Success ==> WaitedOnce(ctx.issued, ctx.waits)
      ensures code != Success ==> Unreadable(env, |ctx.issued|, code)
      ensures !env.uriEmpty && env.infoOk && env.openCode == Success ==>
                && (code != Success ==> code == SubmitCode(env, |ctx.issued|))
                && forall i: nat :: i < |ctx.issued| ==> SubmitCode(env, i) == Success
      ensures forall x :: total <= x < buf.Length ==> buf[x] == old(buf[x])
    {
      var count := TaskCount(total, concurrency);
      var size := TaskSize(total, count);
      SplitLaid(offset, total, concurrency, buf.Length, |file|);
      code := ctx.Init(env, count);
      if code == Success {
        code := IssueAll(ctx, offset, total, size, count, buf.Length, |file|, env);
        if code != Success {
          LaidPrefix(ctx.issued, Split(offset, total, concurrency), buf.Length, |file|);
          var ignored, unused;
          ghost var got;
          ignored, unused, got := ctx.Wait(buf, file, 0);
        }
      }
    }

    /** The loop that issues the tasks one by one, stopping at the first that cannot be issued. */
    method IssueAll(ctx: Ctx, offset: int, total: int, size: int, count: nat, ghost end: int, ghost fileSize: int,
                    env: Env)
      returns (code: Code)
      requires ctx.inited && ctx.InFlight() && ctx.issued == [] && ctx.capacity == count
      requires Laid(Carve(offset, 0, total, size, count), end, fileSize)
      modifies ctx
      ensures ctx.inited && ctx.InFlight() && ctx.issued <= Carve(offset, 0, total, size, count)
      ensures code == Success ==> ctx.issued == Carve(offset, 0, total, size, count)
      ensures code != Success ==> code == SubmitCode(env, |ctx.issued|)
      ensures forall i: nat :: i < |ctx.issued| ==> SubmitCode(env, i) == Success
    {
      code := Success;
      ghost var all := Carve(offset, 0, total, size, count);
      var n, remaining, at, pos, index := count, total, offset, 0, 0;
      while 0 < n && code == Success
        invariant 0 <= n && 0 <= index && index + n == count == |all|
        invariant ctx.inited && ctx.InFlight() && ctx.capacity == count
        invariant ctx.issued == all[..index] && all[index..] == Carve(at, pos, remaining, size, n)
        invariant code != Success ==> code == SubmitCode(env, index)
        invariant forall i: nat :: i < index ==> SubmitCode(env, i) == Success
        decreases n, code == Success
      {
        var len := Min(remaining, size);
        CarveStep(all, index, at, pos, remaining, size, n);
        assert Within(all[index], end, fileSize);
        code := IssueOne(ctx, Task(at, pos, len), index, env);
        if code == Success {
          index, at, pos, remaining, n := index + 1, at + len, pos + len, remaining - len, n - 1;
        }
      }
    }

    /** Take an item, start its read and count it. */
    method IssueOne(ctx: Ctx, t: Task, index: nat, env: Env) returns (code: Code)
      requires ctx.inited && ctx.InFlight() && index == |ctx.issued| < ctx.capacity
      requires 0 <= t.offset && 0 < t.len
      modifies ctx
      ensures ctx.inited && ctx.InFlight() && ctx.capacity == old(ctx.capacity)
      ensures code == SubmitCode(env, index)
      ensures ctx.issued == if code == Success then old(ctx.issued) + [t] else old(ctx.issued)
    {
      code := ctx.GetItem(index);
      if code == Success {
        code := ctx.AsyncPread(t, SubmitCode(env, index));
        if code == Success {
          code := ctx.IncCount();
        }
      }
    }

    /** The parallel form of one plain read. */
    method ReadParallel(ctx: Ctx, offset: int, total: int, buf: array<Byte>, file: seq<Byte>, env: Env)
      returns (code: Code, realSize: int, ghost got: seq<Outcome>)
      requires Valid() && inited && ctx.InFlight() && !ctx.inited && ctx.issued == []
      requires 0 < total <= buf.Length && 0 <= offset && offset + total <= |file|
      modifies ctx, buf
      ensures WaitedOnce(ctx.issued, ctx.waits)
      ensures got != [] ==>
                ctx.issued == Split(offset, total, concurrency) && |got| == |ctx.issued| && code == FirstError(got)
      ensures AllSubmitted(env) ==> got != []
      ensures got == [] ==> Unreadable(env, |ctx.issued|, code)
      ensures code == Success ==> got != [] && realSize == Sum(Sizes(got))
      ensures code == Success ==> Reads(buf[..], file, offset, total, realSize, Split(offset, total, concurrency), got)
      ensures forall x :: total <= x < buf.Length ==> buf[x] == old(buf[x])
    {
      realSize, got := 0, [];
      ghost var tasks := Split(offset, total, concurrency);
      code := ConstructTasks(ctx, offset, total, buf, file, env);
      if code == Success {
        SplitTiles(offset, total, concurrency);
        SplitLaid(offset, total, concurrency, buf.Length, |file|);
        code, realSize, got := ctx.Wait(buf, file, 0);
        if code == Success {
          ReadsHold(buf[..], file, offset, total, tasks, got);
        }
      }
    }

    /**
     One read of min(file size - offset, buffer size) bytes. On every path each read that was
     issued has been waited for exactly once.
     */
    method Pread(offset: int, buf: array?<Byte>, bufSize: int, file: seq<Byte>, env: Env)
      returns (code: Code, realSize: int, ghost issued: seq<Task>, ghost waits: seq<nat>, ghost got: seq<Outcome>)
      requires Valid()
      requires buf != null ==> bufSize <= buf.Length
      modifies buf
      ensures WaitedOnce(issued, waits)
      ensures var bad := env.uriEmpty || offset < 0 || buf == null || bufSize <= 0;
              && (!inited ==> code == NotInit)
              && (inited && !running ==> code == NotRunning)
              && (inited && running && bad ==> code == InvalidArgument)
              && (inited && running && !bad && env.sizeCode != Success ==> code == env.sizeCode)
              && (inited && running && !bad && env.sizeCode == Success && |file| < offset ==> code == FileLengthInvalid)
      ensures code == Success ==> inited && running && buf != null && 0 <= offset <= |file| && 0 < bufSize
      ensures code == Success && offset == |file| ==> realSize == 0 && issued == []
      ensures code == Success && offset < |file| ==>
                var total := Min(|file| - offset, bufSize);
                && issued == Split(offset, total, concurrency)
                && Reads(buf[..], file, offset, total, realSize, issued, got)
      ensures got != [] ==> |got| == |issued| && code == FirstError(got)
      ensures inited && running && 0 <= offset < |file| && buf != null && 0 < bufSize ==>
                env.sizeCode == Success && AllSubmitted(env) ==> got != []
      ensures inited && running && !env.uriEmpty && 0 <= offset < |file| && buf != null && 0 < bufSize
              && env.sizeCode == Success && got == [] ==>
                Unreadable(env, |issued|, code)
      ensures buf != null ==> forall x :: Max(0, bufSize) <= x < buf.Length ==> buf[x] == old(buf[x])
    {
      code, realSize, issued, waits, got := Success, 0, [], [], [];
      if !inited {
        code := NotInit;
      } else if !running {
        code := NotRunning;
      } else if env.uriEmpty || offset < 0 || buf == null || bufSize <= 0 {
        code := InvalidArgument;
      } else if env.sizeCode != Success {
        code := env.sizeCode;
      } else if |file| < offset {
        code := FileLengthInvalid;
      } else if offset == |file| {
        realSize := 0;
      } else {
        var ctx := new Ctx();
        code, realSize, got := ReadParallel(ctx, offset, Min(|file| - offset, bufSize), buf, file, env);
        issued, waits := ctx.issued, ctx.waits;
      }
    }
  }

  ghost predicate WaitedOnce(issued: seq<Task>, waits: seq<nat>) {
    |waits| == |issued| && forall i :: 0 <= i < |waits| ==> waits[i] == 1
  }

  /**
   What a successful read leaves: the size counts the delivered bytes; if nothing follows a short
   read they are the file's bytes from the offset on; if none is short it is one plain read.
   */
  ghost predicate Reads(b: seq<Byte>, file: seq<Byte>, offset: int, total: int, realSize: int, tasks: seq<Task>,
                        got: seq<Outcome>)
    requires 0 <= offset && 0 < total <= |b| && offset + total <= |file|
  {
    && |got| == |tasks| && realSize == Sum(Sizes(got)) && 0 <= realSize <= total
    && (ShortOnlyAtEnd(tasks, Sizes(got)) ==> b[..realSize] == file[offset..offset + realSize])
    && ((forall i :: 0 <= i < |got| ==> got[i].size == tasks[i].len) ==>
          realSize == total && b[..total] == file[offset..offset + total])
  }

  lemma {:induction false} SumAtMost(tasks: seq<Task>, sizes: seq<int>)
    requires Fit(tasks, sizes)
    ensures 0 <= Sum(sizes) <= TotalLen(tasks)
  {
    if tasks != [] { SumAtMost(tasks[1..], sizes[1..]); }
  }

  lemma SamePrefix(b: seq<Byte>, file: seq<Byte>, offset: int, n: int)
    requires 0 <= n <= |b| && 0 <= offset && offset + n <= |file|
    requires forall x :: 0 <= x < n ==> HoldsFile(b, file, offset, x)
    ensures b[..n] == file[offset..offset + n]
  {
    forall x | 0 <= x < n ensures b[..n][x] == file[offset..offset + n][x] {
      assert HoldsFile(b, file, offset, x);
    }
  }

  lemma ReadsHold(b: seq<Byte>, file: seq<Byte>, offset: int, total: int, tasks: seq<Task>, got: seq<Outcome>)
    requires 0 <= offset && 0 < total <= |b| && offset + total <= |file|
    requires Contiguous(tasks, offset, 0) && NoneEmpty(tasks) && TotalLen(tasks) == total
    requires Laid(tasks, |b|, |file|) && |got| == |tasks| && AllDelivered(b, file, tasks, got)
    requires FirstError(got) == Success
    ensures Reads(b, file, offset, total, Sum(Sizes(got)), tasks, got)
  {
    var sizes, n := Sizes(got), Sum(Sizes(got));
    FirstErrorIsLowest(got);
    DeliveredFit(b, file, tasks, got);
    SumAtMost(tasks, sizes);
    if ShortOnlyAtEnd(tasks, sizes) {
      ReportedBytesAreTheFiles(b, file, tasks, got, offset);
      SamePrefix(b, file, offset, n);
    }
    if forall i :: 0 <= i < |got| ==> got[i].size == tasks[i].len {
      forall i | 0 <= i < |tasks| ensures sizes[i] == tasks[i].len { SizesAt(got, i); }
      FullReads(tasks, sizes);
    }
  }
}
