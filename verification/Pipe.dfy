/** The bounded in-memory pipe: its byte queue, its endpoint counts, and its blocking on one `WaitQueue`. */
module Pipe {
  import opened Common
  import opened Scheduler
  import opened WaitQueue

  const PIPE_CAP: nat := 65536

  /** The pipe, with the history of everything accepted by writes and delivered by reads. */
  datatype PipeState = PipeState(buf: seq<byte>, readers: nat, writers: nat, accepted: seq<byte>, delivered: seq<byte>)

  datatype Kind = Reader | Writer

  datatype Op = Write(data: seq<byte>) | Read(len: nat) | CloseRead | CloseWrite

  /** The `should_block` closures of `read` and `write`. */
  function PipeBlocks(p: PipeState, k: Kind): bool {
    match k
    case Reader => |p.buf| == 0 && p.writers != 0
    case Writer => |p.buf| == PIPE_CAP && p.readers != 0
  }

  /**
   When the critical section of a call changes the pipe: an endpoint of that side exists and there is data or space.
   */
  predicate Allowed(p: PipeState, op: Op) {
    match op
    case Write(data) => p.writers > 0 && data != [] && |p.buf| < PIPE_CAP
    case Read(_) => p.readers > 0 && p.buf != []
    case CloseRead => p.readers > 0
    case CloseWrite => p.writers > 0
  }

  function Apply(p: PipeState, op: Op): PipeState
    requires Allowed(p, op)
  {
    match op
    case Write(data) =>
      var n := Min(PIPE_CAP - |p.buf|, |data|);
      p.(buf := p.buf + data[..n], accepted := p.accepted + data[..n])
    case Read(len) =>
      var n := Min(len, |p.buf|);
      p.(buf := p.buf[n..], delivered := p.delivered + p.buf[..n])
    case CloseRead => p.(readers := p.readers - 1)
    case CloseWrite => p.(writers := p.writers - 1)
  }

  /** `read` reports end of file under the buffer lock. */
  predicate AtEof(p: PipeState) { p.buf == [] && p.writers == 0 }

  const FRESH: PipeState := PipeState([], 1, 1, [], [])

  /** A run: every change of the pipe is one of its operations, followed by a `wake_all`. */
  ghost predicate IsPipeRun(ms: seq<Machine<PipeState, Kind>>, steps: seq<MStep<PipeState, Kind>>) {
    && IsMRun(PipeBlocks, ms, steps)
    && ms[0].obj == FRESH
    && forall i :: 0 <= i < |steps| && steps[i].ChangeStep? ==>
         steps[i].owes && exists op :: Allowed(ms[i].obj, op) && steps[i].o == Apply(ms[i].obj, op)
  }

  ghost predicate PipeInv(p: PipeState) {
    p.accepted == p.delivered + p.buf && |p.buf| <= PIPE_CAP
  }

  lemma ApplyKeeps(p: PipeState, op: Op)
    requires PipeInv(p) && Allowed(p, op)
    ensures PipeInv(Apply(p, op))
    ensures p.accepted <= Apply(p, op).accepted && p.delivered <= Apply(p, op).delivered
  {
    match op
    case Write(data) =>
      var n := Min(PIPE_CAP - |p.buf|, |data|);
      assert p.delivered + p.buf + data[..n] == p.delivered + (p.buf + data[..n]);
    case Read(len) =>
      var n := Min(len, |p.buf|);
      assert p.buf == p.buf[..n] + p.buf[n..];
      assert p.delivered + (p.buf[..n] + p.buf[n..]) == (p.delivered + p.buf[..n]) + p.buf[n..];
    case _ =>
  }

  /** Between two states of a run the pipe is untouched or one operation ran. */
  lemma PipeStep(ms: seq<Machine<PipeState, Kind>>, steps: seq<MStep<PipeState, Kind>>, i: nat) returns (op: Option<Op>)
    requires IsPipeRun(ms, steps) && i < |steps|
    ensures i + 1 < |ms|
    ensures op.None? ==> ms[i + 1].obj == ms[i].obj
    ensures op.Some? ==> Allowed(ms[i].obj, op.value) && ms[i + 1].obj == Apply(ms[i].obj, op.value)
  {
    op := None;
    if steps[i].ChangeStep? {
      var o :| Allowed(ms[i].obj, o) && steps[i].o == Apply(ms[i].obj, o);
      op := Some(o);
    }
  }

  /**
   The stream law, in every state of every run: bytes accepted are the bytes delivered followed by the bytes
   buffered, so delivery is in order, without loss or repetition; and the buffer never exceeds its capacity.
   */
  lemma {:induction false} StreamPreserved(ms: seq<Machine<PipeState, Kind>>, steps: seq<MStep<PipeState, Kind>>,
                                           i: nat)
    requires IsPipeRun(ms, steps) && i < |ms|
    ensures PipeInv(ms[i].obj)
  {
    if i > 0 {
      var j: nat := i - 1;
      StreamPreserved(ms, steps, j);
      var op := PipeStep(ms, steps, j);
      if op.Some? { ApplyKeeps(ms[j].obj, op.value); }
      assert ms[j + 1] == ms[i];
    }
  }

  // ---------------------------------------------------------------- what the callers saw

  /** The bytes of its own data a call leaves in the pipe: the prefix whose length `write` reports. */
  function Taken(p: PipeState, op: Op): seq<byte> {
    if op.Write? && |p.buf| < PIPE_CAP then op.data[..Min(PIPE_CAP - |p.buf|, |op.data|)] else []
  }

  /** The bytes a call hands to its caller: the oldest ones buffered, as many as `read` reports. */
  function Handed(p: PipeState, op: Op): seq<byte> {
    if op.Read? then p.buf[..Min(op.len, |p.buf|)] else []
  }

  /** A run together with the operation behind each change. */
  ghost predicate IsPipeRunBy(ms: seq<Machine<PipeState, Kind>>, steps: seq<MStep<PipeState, Kind>>,
                              ops: seq<Option<Op>>) {
    && IsPipeRun(ms, steps) && |ops| == |steps|
    && forall i :: 0 <= i < |steps| ==>
         && (ops[i].Some? <==> steps[i].ChangeStep?)
         && (ops[i].Some? ==> Allowed(ms[i].obj, ops[i].value) && steps[i].o == Apply(ms[i].obj, ops[i].value))
  }

  /** All that the first `i` steps' writes left in the pipe, in order. */
  ghost function Written(ms: seq<Machine<PipeState, Kind>>, ops: seq<Option<Op>>, i: nat): seq<byte>
    requires i <= |ops| <= |ms|
  {
    if i == 0 then []
    else Written(ms, ops, i - 1) + if ops[i - 1].Some? then Taken(ms[i - 1].obj, ops[i - 1].value) else []
  }

  /** All that the first `i` steps' reads handed out, in order. */
  ghost function ReadOut(ms: seq<Machine<PipeState, Kind>>, ops: seq<Option<Op>>, i: nat): seq<byte>
    requires i <= |ops| <= |ms|
  {
    if i == 0 then []
    else ReadOut(ms, ops, i - 1) + if ops[i - 1].Some? then Handed(ms[i - 1].obj, ops[i - 1].value) else []
  }

  lemma ApplyRecords(p: PipeState, op: Op)
    requires Allowed(p, op)
    ensures Apply(p, op).accepted == p.accepted + Taken(p, op) && Apply(p, op).delivered == p.delivered + Handed(p, op)
  {
    assert p.accepted + [] == p.accepted && p.delivered + [] == p.delivered;
  }

  /**
   In every state of every run the bytes the writes reported, one call after the other, are the bytes the reads handed
   out followed by the bytes still buffered.
   */
  lemma {:induction false} ReadsFollowWrites(ms: seq<Machine<PipeState, Kind>>, steps: seq<MStep<PipeState, Kind>>,
                                             ops: seq<Option<Op>>, i: nat)
    requires IsPipeRunBy(ms, steps, ops) && i < |ms|
    ensures Written(ms, ops, i) == ms[i].obj.accepted && ReadOut(ms, ops, i) == ms[i].obj.delivered
    ensures Written(ms, ops, i) == ReadOut(ms, ops, i) + ms[i].obj.buf
  {
    StreamPreserved(ms, steps, i);
    if i > 0 {
      var j: nat := i - 1;
      ReadsFollowWrites(ms, steps, ops, j);
      assert ms[j + 1] == MNext(PipeBlocks, ms[j], steps[j]);
      if ops[j].Some? {
        ApplyRecords(ms[j].obj, ops[j].value);
      }
    }
  }

  /** Steps `passes` of the run are, in order, the passes so far of one `write(data)`, `done` bytes of which are in. */
  ghost predicate IsWriteCall(ms: seq<Machine<PipeState, Kind>>, ops: seq<Option<Op>>, passes: seq<nat>,
                              data: seq<byte>,
                              done: nat)
    requires |ops| <= |ms|
    decreases |passes|
  {
    if passes == [] then done == 0
    else
      var i := passes[|passes| - 1];
      && i < |ops| && (|passes| > 1 ==> passes[|passes| - 2] < i)
      && exists before: nat :: before <= |data| && IsWriteCall(ms, ops, passes[..|passes| - 1], data, before)
                               && ops[i] == Some(Write(data[before..]))
                               && done == before + |Taken(ms[i].obj, Write(data[before..]))|
  }

  ghost function TakenBy(ms: seq<Machine<PipeState, Kind>>, ops: seq<Option<Op>>, passes: seq<nat>): seq<byte>
    requires |ops| <= |ms|
  {
    if passes == [] then []
    else
      var i := passes[|passes| - 1];
      TakenBy(ms, ops, passes[..|passes| - 1]) + if i < |ops|
              && ops[i].Some? then Taken(ms[i].obj, ops[i].value) else []
  }

  lemma TakenIsNext(p: PipeState, data: seq<byte>, before: nat)
    requires before <= |data|
    ensures var taken := Taken(p, Write(data[before..]));
            before + |taken| <= |data| && data[..before] + taken == data[..before + |taken|]
  {
  }

  /**
   However many other writers come in between, the passes of one `write` put exactly the prefix of its data into the
   stream that it counts as done, in order.
   */
  lemma {:induction false} WriteTakesPrefix(ms: seq<Machine<PipeState, Kind>>, ops: seq<Option<Op>>, passes: seq<nat>,
                                            data: seq<byte>, done: nat)
    requires |ops| <= |ms| && IsWriteCall(ms, ops, passes, data, done)
    ensures done <= |data| && TakenBy(ms, ops, passes) == data[..done]
    decreases |passes|
  {
    if passes != [] {
      var i := passes[|passes| - 1];
      var rest := passes[..|passes| - 1];
      var before: nat :| before <= |data| && IsWriteCall(ms, ops, rest, data, before)
                         && ops[i] == Some(Write(data[before..]))
                         && done == before + |Taken(ms[i].obj, Write(data[before..]))|;
      WriteTakesPrefix(ms, ops, rest, data, before);
      TakenIsNext(ms[i].obj, data, before);
    }
  }

  function ApplyIf(p: PipeState, op: Option<Op>): PipeState {
    if op.Some? && Allowed(p, op.value) then Apply(p, op.value) else p
  }

  lemma StepApplies(ms: seq<Machine<PipeState, Kind>>, steps: seq<MStep<PipeState, Kind>>, ops: seq<Option<Op>>, i: nat)
    requires IsPipeRunBy(ms, steps, ops) && i < |steps|
    ensures i + 1 < |ms| && ms[i + 1].obj == ApplyIf(ms[i].obj, ops[i])
    ensures ops[i].Some? ==> Allowed(ms[i].obj, ops[i].value)
  {
    assert ms[i + 1] == MNext(PipeBlocks, ms[i], steps[i]);
  }

  function Left(ops: seq<Option<Op>>, close: Op): nat { if Some(close) in ops then 0 else 1 }

  lemma LeftAfter(ops: seq<Option<Op>>, i: nat, close: Op)
    requires i < |ops|
    ensures Left(ops[..i + 1], close) == if ops[i] == Some(close) then 0 else Left(ops[..i], close)
  {
    assert ops[..i + 1] == ops[..i] + [ops[i]];
  }

  /** Each side has its end exactly until it is closed. */
  lemma {:induction false} EndsClose(ms: seq<Machine<PipeState, Kind>>, steps: seq<MStep<PipeState, Kind>>,
                                     ops: seq<Option<Op>>, i: nat)
    requires IsPipeRunBy(ms, steps, ops) && i < |ms|
    ensures ms[i].obj.readers == Left(ops[..i], CloseRead) && ms[i].obj.writers == Left(ops[..i], CloseWrite)
  {
    if i > 0 {
      var j: nat := i - 1;
      EndsClose(ms, steps, ops, j);
      StepApplies(ms, steps, ops, j);
      LeftAfter(ops, j, CloseRead);
      LeftAfter(ops, j, CloseWrite);
    }
  }

  /** Every run has such a list of operations. */
  lemma {:induction false} RunHasOps(ms: seq<Machine<PipeState, Kind>>, steps: seq<MStep<PipeState, Kind>>, i: nat)
    returns (ops: seq<Option<Op>>)
    requires IsPipeRun(ms, steps) && i <= |steps|
    ensures |ops| == i && forall j :: 0 <= j < i ==>
              && (ops[j].Some? <==> steps[j].ChangeStep?)
              && (ops[j].Some? ==> Allowed(ms[j].obj, ops[j].value) && steps[j].o == Apply(ms[j].obj, ops[j].value))
  {
    if i == 0 { return []; }
    ops := RunHasOps(ms, steps, i - 1);
    if steps[i - 1].ChangeStep? {
      var op :| Allowed(ms[i - 1].obj, op) && steps[i - 1].o == Apply(ms[i - 1].obj, op);
      ops := ops + [Some(op)];
    } else {
      ops := ops + [None];
    }
  }

  /** End of file means everything accepted was delivered, and it is final. */
  lemma {:induction false} EofIsFinal(ms: seq<Machine<PipeState, Kind>>, steps: seq<MStep<PipeState, Kind>>, i: nat,
                                      j: nat)
    requires IsPipeRun(ms, steps) && i <= j < |ms| && AtEof(ms[i].obj)
    ensures AtEof(ms[j].obj)
    ensures ms[j].obj.delivered == ms[j].obj.accepted == ms[i].obj.accepted
    decreases j
  {
    StreamPreserved(ms, steps, i);
    if i < j {
      var k: nat := j - 1;
      EofIsFinal(ms, steps, i, k);
      var op := PipeStep(ms, steps, k);
      assert ms[k + 1] == ms[j];
    }
  }

  /** Once the last read end is gone it stays gone: every later `write` fails with a broken pipe. */
  lemma {:induction false} BrokenIsFinal(ms: seq<Machine<PipeState, Kind>>, steps: seq<MStep<PipeState, Kind>>, i: nat,
                                         j: nat)
    requires IsPipeRun(ms, steps) && i <= j < |ms| && ms[i].obj.readers == 0
    ensures ms[j].obj.readers == 0 && ms[j].obj.delivered == ms[i].obj.delivered
    decreases j
  {
    if i < j {
      var k: nat := j - 1;
      BrokenIsFinal(ms, steps, i, k);
      var op := PipeStep(ms, steps, k);
      assert ms[k + 1] == ms[j];
    }
  }

  /**
   A reader parked although there is data or no writer, or a writer parked although there is space or no reader, has a
   wake in flight.
   */
  lemma PipeStrandsNobody(ms: seq<Machine<PipeState, Kind>>, steps: seq<MStep<PipeState, Kind>>, i: nat, t: Tid)
    requires IsPipeRun(ms, steps) && i < |ms| && ParkedIn(ms[i], t)
    requires match PcOf(ms[i], t).k
             case Reader => ms[i].obj.buf != [] || ms[i].obj.writers == 0
             case Writer => |ms[i].obj.buf| < PIPE_CAP || ms[i].obj.readers == 0
    ensures WakeInFlight(ms[i], t)
  {
    NotStranded(PipeBlocks, ms, steps, i, t);
  }

  // ---------------------------------------------------------------- the critical sections, in place

  datatype ReadResult = Got(n: nat) | Eof | MustBlock
  datatype WriteResult = Put(n: nat) | Broken | Full

  class PipeInner {
    var buf: seq<byte>
    var readers: nat
    var writers: nat
    ghost var accepted: seq<byte>
    ghost var delivered: seq<byte>

    ghost function State(): PipeState
      reads this
    {
      PipeState(buf, readers, writers, accepted, delivered)
    }

    constructor ()
      ensures State() == FRESH
    {
      buf, readers, writers, accepted, delivered := [], 1, 1, [], [];
    }

    /** One pass of `read` under the buffer lock: bytes are popped one by one into `dst`. */
    method ReadLocked(dst: array<byte>) returns (r: ReadResult)
      requires PipeInv(State()) && readers > 0
      modifies this, dst
      ensures PipeInv(State())
      ensures old(buf) != [] ==>
                && r == Got(Min(dst.Length, |old(buf)|))
                && State() == Apply(old(State()), Read(dst.Length))
                && buf == old(buf)[r.n..] && delivered == old(delivered) + old(buf)[..r.n] && accepted == old(accepted)
                && readers == old(readers) && writers == old(writers)
                && dst[..r.n] == old(buf)[..r.n] && dst[r.n..] == old(dst[r.n..])
      ensures old(buf) == [] ==>
                && State() == old(State()) && dst[..] == old(dst[..])
                && r == (if AtEof(old(State())) then Eof else MustBlock)
    {
      if buf != [] {
        var n := Min(dst.Length, |buf|);
        ghost var was := buf;
        var i := 0;
        while i < n
          invariant 0 <= i <= n
          invariant buf == was[i..]
          invariant dst[..i] == was[..i]
          invariant dst[i..] == old(dst[i..])
          invariant delivered == old(delivered) + was[..i]
          invariant readers == old(readers) && writers == old(writers) && accepted == old(accepted)
        {
          dst[i] := buf[0];
          delivered := delivered + [buf[0]];
          buf := buf[1..];
          i := i + 1;
        }
        ApplyKeeps(old(State()), Read(dst.Length));
        return Got(n);
      }
      if writers == 0 { return Eof; }
      return MustBlock;
    }

    /** One pass of `write`: the reader check, then the buffer lock. */
    method WriteLocked(data: seq<byte>) returns (r: WriteResult)
      requires PipeInv(State()) && writers > 0 && data != []
      modifies this
      ensures PipeInv(State())
      ensures old(readers) == 0 ==> r == Broken && State() == old(State())
      ensures old(readers) != 0 && |old(buf)| == PIPE_CAP ==> r == Full && State() == old(State())
      ensures old(readers) != 0 && |old(buf)| < PIPE_CAP ==>
                && r == Put(Min(PIPE_CAP - |old(buf)|, |data|)) && r.n > 0
                && State() == Apply(old(State()), Write(data))
                && buf == old(buf) + data[..r.n] && accepted == old(accepted) + data[..r.n]
                && delivered == old(delivered) && readers == old(readers) && writers == old(writers)
    {
      if readers == 0 { return Broken; }
      var space := PIPE_CAP - |buf|;
      if space > 0 {
        var n := Min(space, |data|);
        ApplyKeeps(State(), Write(data));
        buf := buf + data[..n];
        accepted := accepted + data[..n];
        return Put(n);
      }
      return Full;
    }
  }
}
