/** The buffered stream in front of a slow backend. */
module Buffered {

  type Byte = bv8

  const EAGAIN := 11
  const EINVAL := 22

  /** A backend that may take less than it is given, refuse for a while, or fail: the k-th call gets the k-th answer. */
  class Backend {
    const answers: nat -> int
    var calls: nat
    var accepted: seq<Byte>

    constructor (script: nat -> int)
      ensures answers == script && calls == 0 && accepted == []
    {
      answers := script;
      calls, accepted := 0, [];
    }

    /** A positive result is the number of bytes taken. */
    method Put(data: seq<Byte>) returns (ret: int)
      modifies this
      ensures calls == old(calls) + 1
      ensures ret == if answers(old(calls)) <= |data| then answers(old(calls)) else |data|
      ensures accepted == old(accepted) + if ret > 0 then data[..ret] else []
    {
      ret := answers(calls);
      calls := calls + 1;
      if ret > |data| { ret := |data|; }
      if ret > 0 { accepted := accepted + data[..ret]; }
    }
  }

  datatype Outcome = Done | Again | Failed | Limited

  /** What sending came to: bytes taken, calls and transferred bytes so far, and why it ended. */
  datatype Sent = Sent(taken: nat, calls: nat, xfer: nat, outcome: Outcome)

  /** Sending data from call k on, with limit as a bound on the bytes transferred before; no bound when it is negative. */
  function Send(answers: nat -> int, k: nat, data: seq<Byte>, xfer: nat, limit: int): (r: Sent)
    ensures r.taken <= |data| && r.calls >= k
    ensures r.outcome == Done <==> r.taken == |data|
    ensures limit < 0 ==> r.outcome != Limited
    ensures r.taken == 0 < |data| && limit < 0 ==> r.calls == k + 1 && (r.outcome == Again ==> answers(k) == -EAGAIN)
    ensures r.xfer == xfer + r.taken
    ensures r.outcome == Limited ==> 0 <= limit < r.xfer
    ensures 0 <= limit < xfer ==> r.taken == 0
    ensures r.outcome == Again ==> r.calls > k && answers(r.calls - 1) == -EAGAIN
    ensures r.outcome == Failed ==> r.calls > k && answers(r.calls - 1) <= 0 && answers(r.calls - 1) != -EAGAIN
    decreases |data|
  {
    if data == [] then Sent(0, k, xfer, Done)
    else if 0 <= limit < xfer then Sent(0, k, xfer, Limited)
    else if answers(k) == -EAGAIN then Sent(0, k + 1, xfer, Again)
    else if answers(k) <= 0 then Sent(0, k + 1, xfer, Failed)
    else
      var n := if answers(k) > |data| then |data| else answers(k);
      var r := Send(answers, k + 1, data[n..], xfer + n, limit);
      r.(taken := n + r.taken)
  }

  /** One more answer. */
  lemma SendStep(answers: nat -> int, k: nat, data: seq<Byte>, xfer: nat, limit: int)
    ensures data == [] ==> Send(answers, k, data, xfer, limit) == Sent(0, k, xfer, Done)
    ensures data != [] && 0 <= limit < xfer ==> Send(answers, k, data, xfer, limit) == Sent(0, k, xfer, Limited)
    ensures data != [] && !(0 <= limit < xfer) && answers(k) <= 0 ==>
      Send(answers, k, data, xfer, limit) == Sent(0, k + 1, xfer, if answers(k) == -EAGAIN then Again else Failed)
    ensures data != [] && !(0 <= limit < xfer) && answers(k) > 0 ==>
      var n := if answers(k) > |data| then |data| else answers(k);
      var r := Send(answers, k + 1, data[n..], xfer + n, limit);
      Send(answers, k, data, xfer, limit) == r.(taken := n + r.taken)
  {
  }

  /** Sending data has come to offset, at call k. */
  ghost predicate Sending(all: Sent, answers: nat -> int, k: nat, data: seq<Byte>, offset: nat, xfer: nat, limit: int) {
    offset <= |data| &&
    var rest := Send(answers, k, data[offset..], xfer, limit);
    all == rest.(taken := offset + rest.taken)
  }

  lemma SendingStart(answers: nat -> int, k: nat, data: seq<Byte>, xfer: nat, limit: int)
    ensures Sending(Send(answers, k, data, xfer, limit), answers, k, data, 0, xfer, limit)
  {
    assert data[0..] == data;
  }

  lemma SendingStep(all: Sent, answers: nat -> int, k: nat, data: seq<Byte>, offset: nat, xfer: nat, limit: int)
    requires Sending(all, answers, k, data, offset, xfer, limit)
    ensures offset == |data| ==> all == Sent(offset, k, xfer, Done)
    ensures offset < |data| && 0 <= limit < xfer ==> all == Sent(offset, k, xfer, Limited)
    ensures offset < |data| && !(0 <= limit < xfer) && answers(k) <= 0 ==>
      all == Sent(offset, k + 1, xfer, if answers(k) == -EAGAIN then Again else Failed)
    ensures offset < |data| && !(0 <= limit < xfer) && answers(k) > 0 ==>
      var n := if answers(k) > |data| - offset then |data| - offset else answers(k);
      && Sending(all, answers, k + 1, data, offset + n, xfer + n, limit)
      && data[..offset] + data[offset..][..n] == data[..offset + n]
  {
    hide Send;
    SendStep(answers, k, data[offset..], xfer, limit);
    if offset < |data| && answers(k) > 0 {
      var n := if answers(k) > |data| - offset then |data| - offset else answers(k);
      assert data[offset..][n..] == data[offset + n..];
    }
  }

  /** The first call from k on that is not told to come back later. */
  ghost predicate Ready(answers: nat -> int, k: nat, m: nat) {
    k <= m && answers(m) != -EAGAIN && forall i :: k <= i < m ==> answers(i) == -EAGAIN
  }

  ghost predicate Comes(answers: nat -> int, k: nat) {
    exists m: nat :: Ready(answers, k, m)
  }

  /** The backend does not refuse for ever. */
  ghost predicate Fair(answers: nat -> int) {
    forall k: nat :: Comes(answers, k)
  }

  /** Calls from k on that will be refused. */
  ghost function Wait(answers: nat -> int, k: nat): (w: nat)
    requires Fair(answers)
    ensures Ready(answers, k, k + w)
  {
    assert Comes(answers, k);
    var m: nat :| Ready(answers, k, m);
    m - k
  }

  lemma LessToWait(answers: nat -> int, k: nat)
    requires Fair(answers) && answers(k) == -EAGAIN
    ensures Wait(answers, k + 1) < Wait(answers, k)
  {
    var m, n := k + Wait(answers, k), k + 1 + Wait(answers, k + 1);
    assert Ready(answers, k, m) && Ready(answers, k + 1, n);
  }

  // ---------------------------------------------------------------------------------------
  // What the operations do, as far as a caller can tell

  datatype State = State(held: seq<Byte>, calls: nat, xfer: nat, frozen: bool, failed: bool)

  /** The sending of what is pending. */
  function FromBuffer(answers: nat -> int, s: State): (r: Sent)
    ensures r.taken <= |s.held|
  {
    Send(answers, s.calls, s.held, 0, -1)
  }

  /** The sending of new bytes after that. */
  function FromNew(answers: nat -> int, limit: nat, s: State, buf: seq<Byte>): (r: Sent)
    ensures r.taken <= |buf|
  {
    var f := FromBuffer(answers, s);
    if f.outcome.Again? then Sent(0, f.calls, s.xfer, Again) else Send(answers, f.calls, buf, s.xfer, limit)
  }

  function AfterFlush(answers: nat -> int, s: State): State {
    var f := FromBuffer(answers, s);
    State(s.held[f.taken..], f.calls, s.xfer, s.frozen || f.outcome.Again?, f.outcome.Failed?)
  }

  function AfterPut(answers: nat -> int, limit: nat, s: State, buf: seq<Byte>): State {
    if s.failed then s
    else
      var f, n := FromBuffer(answers, s), FromNew(answers, limit, s, buf);
      State(s.held[f.taken..] + (if n.outcome.Failed? then [] else buf[n.taken..]), n.calls, n.xfer, n.outcome.Again?,
            f.outcome.Failed? || n.outcome.Failed?)
  }

  function AfterTick(answers: nat -> int, s: State): State {
    if s.failed || s.frozen then s else AfterFlush(answers, s.(xfer := 0))
  }

  /** The backend fails on the pending bytes and then takes new ones: the limit is not exceeded, and its next answer is positive. */
  predicate Reorders(answers: nat -> int, limit: nat, s: State, buf: seq<Byte>) {
    var f := FromBuffer(answers, s);
    !s.failed && f.outcome.Failed? && buf != [] && s.xfer <= limit && answers(f.calls) > 0
  }

  lemma NewTaken(answers: nat -> int, limit: nat, s: State, buf: seq<Byte>)
    ensures var f, n := FromBuffer(answers, s), FromNew(answers, limit, s, buf);
      && (f.outcome.Failed? ==> f.taken < |s.held| && (n.taken > 0 <==> buf != [] && s.xfer <= limit && answers(f.calls) > 0))
      && (!f.outcome.Failed? ==> f.taken == |s.held| || n.taken == 0)
  {
  }

  /** Bytes stay behind only when the backend refuses or the limit is exceeded, and none of the new ones go once it is. */
  ghost predicate PutEffect(answers: nat -> int, limit: nat, s: State, buf: seq<Byte>, t: State) {
    && (s.failed ==> t == s)
    && (!s.failed && t.frozen ==> t.calls > 0 && answers(t.calls - 1) == -EAGAIN)
    && (!t.failed && !t.frozen && t.held != [] ==> t.xfer > limit)
    && s.xfer <= t.xfer <= s.xfer + |buf| && (s.xfer > limit ==> t.xfer == s.xfer)
    && (!t.failed ==> |t.held| <= |s.held| + |buf| - (t.xfer - s.xfer) && (t.xfer > s.xfer ==> |t.held| <= |buf| - (t.xfer - s.xfer)))
  }

  lemma AfterPutMeans(answers: nat -> int, limit: nat, s: State, buf: seq<Byte>)
    ensures PutEffect(answers, limit, s, buf, AfterPut(answers, limit, s, buf))
  {
    hide Send;
  }

  /** A new interval begins with nothing transferred; bytes stay behind only when the backend refuses or fails. */
  ghost predicate TickEffect(answers: nat -> int, s: State, t: State) {
    if s.failed || s.frozen then t == s
    else
      && t.xfer == 0 && (t.held == [] <==> !t.failed && !t.frozen) && |t.held| <= |s.held|
      && (t.frozen ==> t.calls > 0 && answers(t.calls - 1) == -EAGAIN)
      && (t.failed ==> t.calls > 0 && answers(t.calls - 1) <= 0 && answers(t.calls - 1) != -EAGAIN)
  }

  lemma AfterTickMeans(answers: nat -> int, s: State)
    ensures TickEffect(answers, s, AfterTick(answers, s))
  {
    hide Send;
  }

  datatype Input = Put(buf: seq<Byte>) | Tick

  /** No step of the run puts new bytes in front of pending ones. */
  predicate Orderly(answers: nat -> int, limit: nat, s: State, inputs: seq<Input>)
    decreases |inputs|
  {
    inputs == [] ||
    match inputs[0]
    case Put(buf) => !Reorders(answers, limit, s, buf) && Orderly(answers, limit, AfterPut(answers, limit, s, buf), inputs[1..])
    case Tick => Orderly(answers, limit, AfterTick(answers, s), inputs[1..])
  }

  // ---------------------------------------------------------------------------------------
  // Where bytes are in the stream

  /** The n positions from the given one on. */
  function From(start: nat, n: nat): (p: seq<nat>)
    ensures |p| == n && forall i :: 0 <= i < n ==> p[i] == start + i
  {
    seq(n, i requires 0 <= i < n => start + i)
  }

  /** The bytes are those of the stream at the given positions. */
  predicate Marks(stream: seq<Byte>, bytes: seq<Byte>, at: seq<nat>) {
    |bytes| == |at| && forall i :: 0 <= i < |at| ==> at[i] < |stream| && bytes[i] == stream[at[i]]
  }

  lemma MarksSize(stream: seq<Byte>, bytes: seq<Byte>, at: seq<nat>)
    requires Marks(stream, bytes, at)
    ensures |bytes| == |at|
  {
  }

  lemma MarksMove(stream: seq<Byte>, a: seq<Byte>, x: seq<nat>, b: seq<Byte>, y: seq<nat>, n: nat)
    requires Marks(stream, a, x) && Marks(stream, b, y) && n <= |y|
    ensures Marks(stream, a + b[..n], x + y[..n]) && Marks(stream, b[n..], y[n..])
    ensures x + y[..n] + y[n..] == x + y && a + b[..n] + b[n..] == a + b
  {
  }

  /** The stream goes on with buf, of which n bytes are sent at once. */
  lemma MarksGrow(stream: seq<Byte>, a: seq<Byte>, x: seq<nat>, b: seq<Byte>, y: seq<nat>, buf: seq<Byte>, n: nat)
    requires Marks(stream, a, x) && Marks(stream, b, y) && n <= |buf|
    ensures Marks(stream + buf, a + buf[..n], x + From(|stream|, n)) && Marks(stream + buf, b, y)
    ensures Marks(stream + buf, b + buf[n..], y + From(|stream| + n, |buf| - n))
  {
  }

  /** When m of the waiting bytes and n new ones have been sent, the order is kept unless both some are still waiting and some new ones went. */
  lemma OrderOf(x: seq<nat>, y: seq<nat>, m: nat, start: nat, n: nat, size: nat)
    requires x + y == From(0, start) && m <= |y| && n <= size
    ensures IsOrdered(x) && (IsOrdered(x + y[..m] + From(start, n)) <==> m == |y| || n == 0)
    ensures m == |y| || n == 0 ==> x + y[..m] + From(start, n) + (y[m..] + From(start + n, size - n)) == From(0, start + size)
  {
    assert |x| + |y| == start;
    forall i | 0 <= i < |x| ensures x[i] == i { assert (x + y)[i] == i; }
    var went := x + y[..m] + From(start, n);
    if m < |y| && n > 0 {
      assert went[|x| + m] == start;
      return;
    }
    var all := went + (y[m..] + From(start + n, size - n));
    forall i | 0 <= i < |all| ensures all[i] == i { assert i < start ==> (x + y)[i] == i; }
    forall i | 0 <= i < |went| ensures went[i] == i { assert went[i] == all[i]; }
  }

  predicate IsOrdered(p: seq<nat>) {
    forall i :: 0 <= i < |p| ==> p[i] == i
  }

  lemma EmptyStream()
    ensures Marks([], [], []) && From(0, 0) == []
  {
  }

  lemma OrderedPrefix(stream: seq<Byte>, bytes: seq<Byte>, at: seq<nat>)
    requires Marks(stream, bytes, at) && IsOrdered(at)
    ensures bytes <= stream
  {
    if at != [] { assert at[|at| - 1] < |stream|; }
    assert bytes == stream[..|at|];
  }

  class BufferedFile {
    const backend: Backend
    const xferLimit: nat
    var hasError: bool
    var freezeOutput: bool
    var bytesXfer: nat
    var buffer: array<Byte>
    var bufferSize: nat
    /** Everything that was passed in so far. */
    ghost var stream: seq<Byte>
    /** The places in the stream of the bytes that the backend took, in the order in which it took them, and of those in the buffer. */
    ghost var sent: seq<nat>
    ghost var held: seq<nat>

    ghost predicate Valid()
      reads this
    {
      bufferSize <= buffer.Length && |held| == bufferSize
    }

    ghost function Pending(): seq<Byte>
      reads this, buffer
      requires Valid()
    {
      buffer[..bufferSize]
    }

    ghost function Now(): State
      reads this, buffer, backend
      requires Valid()
    {
      State(Pending(), backend.calls, bytesXfer, freezeOutput, hasError)
    }

    /** Without an error, nothing is lost, repeated or reordered. */
    ghost predicate Conserved()
      reads this, buffer, backend
      requires Valid()
    {
      && Marks(stream, backend.accepted, sent) && Marks(stream, Pending(), held)
      && (!hasError ==> backend.accepted + Pending() == stream && sent + held == From(0, |stream|))
    }

    /** The backend got the stream from its beginning, in order and without a gap. */
    ghost predicate InOrder()
      reads this
    {
      IsOrdered(sent)
    }

    constructor (target: Backend, bytesPerSecond: nat)
      requires target.accepted == []
      ensures Valid() && Conserved() && InOrder() && backend == target && !hasError && stream == [] && fresh(buffer)
      ensures bufferSize == 0 && bytesXfer == 0 && !freezeOutput && xferLimit == bytesPerSecond / 10
    {
      backend := target;
      xferLimit := bytesPerSecond / 10;
      hasError, freezeOutput, bytesXfer, bufferSize := false, false, 0, 0;
      buffer := new Byte[0];
      stream, sent, held := [], [], [];
      new;
      hide From, Marks;
      assert backend.accepted == Pending() == [];
      EmptyStream();
    }

    method Append(buf: seq<Byte>, ghost at: seq<nat>)
      requires Valid() && |at| == |buf|
      modifies this`buffer, this`bufferSize, this`held, buffer
      ensures Valid() && Pending() == old(Pending()) + buf && (buffer == old(buffer) || fresh(buffer))
      ensures held == old(held) + at
    {
      ghost var was := Pending();
      if |buf| > buffer.Length - bufferSize {
        var bigger := new Byte[buffer.Length + |buf| + 1024](i requires 0 <= i reads this, buffer =>
          if i < buffer.Length then buffer[i] else 0);
        buffer := bigger;
      }
      assert buffer[..bufferSize] == was;
      forall i | 0 <= i < |buf| { buffer[bufferSize + i] := buf[i]; }
      bufferSize := bufferSize + |buf|;
      held := held + at;
    }

    /** Hands pending bytes to the backend until it refuses or fails; returns how many it took. */
    method SendPending() returns (offset: nat)
      requires Valid() && !hasError
      modifies this`hasError, this`freezeOutput, backend
      ensures var r := Send(backend.answers, old(backend.calls), Pending(), 0, -1);
        && offset == r.taken && backend.calls == r.calls && backend.accepted == old(backend.accepted) + Pending()[..offset]
        && hasError == r.outcome.Failed? && freezeOutput == (old(freezeOutput) || r.outcome.Again?)
    {
      hide Send, Sending;
      offset := 0;
      ghost var data, xfer := Pending(), 0;
      ghost var all := Send(backend.answers, backend.calls, data, 0, -1);
      SendingStart(backend.answers, backend.calls, data, 0, -1);
      while offset < bufferSize
        modifies this`hasError, this`freezeOutput, backend
        invariant offset <= bufferSize && !hasError && freezeOutput == old(freezeOutput)
        invariant backend.accepted == old(backend.accepted) + data[..offset]
        invariant Sending(all, backend.answers, backend.calls, data, offset, xfer, -1)
      {
        SendingStep(all, backend.answers, backend.calls, data, offset, xfer, -1);
        var rest := buffer[offset..bufferSize];
        assert rest == data[offset..];
        var ret := backend.Put(rest);
        if ret == -EAGAIN {
          freezeOutput := true;
          return;
        }
        if ret <= 0 {
          hasError := true;
          return;
        }
        offset := offset + ret;
        xfer := xfer + ret;
      }
      SendingStep(all, backend.answers, backend.calls, data, offset, xfer, -1);
    }

    /** Forgets the first n pending bytes. */
    method Discard(n: nat)
      requires Valid() && n <= bufferSize
      modifies this`bufferSize, this`held, buffer
      ensures Valid() && Pending() == old(Pending())[n..] && held == old(held)[n..]
    {
      forall i | 0 <= i < bufferSize - n { buffer[i] := buffer[n + i]; }
      bufferSize := bufferSize - n;
      held := held[n..];
    }

    method Flush()
      requires Valid() && Conserved()
      modifies this`hasError, this`freezeOutput, this`bufferSize, this`sent, this`held, buffer, backend
      ensures Valid() && Conserved() && (InOrder() <==> old(InOrder()))
      ensures Now() == if old(hasError) then old(Now()) else AfterFlush(backend.answers, old(Now()))
      ensures !old(hasError) ==>
        var r := FromBuffer(backend.answers, old(Now()));
        && backend.accepted == old(backend.accepted) + old(Pending())[..r.taken]
        && sent == old(sent) + old(held)[..r.taken] && held == old(held)[r.taken..]
      ensures old(hasError) ==> backend.accepted == old(backend.accepted) && sent == old(sent) && held == old(held)
    {
      hide Send, From;
      if hasError { return; }
      ghost var data, x, y := Pending(), sent, held;
      var n := SendPending();
      assert Pending() == data;
      MarksMove(stream, old(backend.accepted), x, data, y, n);
      FlushOrder(x, y, n, |stream|);
      sent := sent + held[..n];
      Discard(n);
    }

    /** Hands new bytes to the backend, within the rate limit; returns how many it took, -22 on an error. */
    method SendNew(buf: seq<Byte>) returns (offset: int)
      requires !freezeOutput
      modifies this`hasError, this`freezeOutput, this`bytesXfer, backend
      ensures var r := Send(backend.answers, old(backend.calls), buf, old(bytesXfer), xferLimit);
        && offset == (if r.outcome.Failed? then -EINVAL else r.taken)
        && backend.calls == r.calls && bytesXfer == r.xfer && backend.accepted == old(backend.accepted) + buf[..r.taken]
        && hasError == (old(hasError) || r.outcome.Failed?) && freezeOutput == r.outcome.Again?
    {
      hide Send, Sending;
      offset := 0;
      ghost var all := Send(backend.answers, backend.calls, buf, bytesXfer, xferLimit);
      SendingStart(backend.answers, backend.calls, buf, bytesXfer, xferLimit);
      while !freezeOutput && offset < |buf|
        invariant 0 <= offset <= |buf| && hasError == old(hasError) && !freezeOutput
        invariant backend.accepted == old(backend.accepted) + buf[..offset]
        invariant Sending(all, backend.answers, backend.calls, buf, offset, bytesXfer, xferLimit)
      {
        SendingStep(all, backend.answers, backend.calls, buf, offset, bytesXfer, xferLimit);
        if bytesXfer > xferLimit { return; }
        var ret := backend.Put(buf[offset..]);
        if ret == -EAGAIN {
          freezeOutput := true;
          return;
        }
        if ret <= 0 {
          hasError := true;
          return -EINVAL;
        }
        offset := offset + ret;
        bytesXfer := bytesXfer + ret;
      }
      SendingStep(all, backend.answers, backend.calls, buf, offset, bytesXfer, xferLimit);
    }

    /** Sends what is waiting, then, unless the backend is busy, the new bytes. */
    method PassOn(buf: seq<Byte>) returns (offset: int)
      requires Valid() && Conserved() && !hasError
      modifies this`hasError, this`freezeOutput, this`bytesXfer, this`bufferSize, this`sent, this`held, buffer, backend
      ensures Valid()
      ensures var f, n := FromBuffer(backend.answers, old(Now())), FromNew(backend.answers, xferLimit, old(Now()), buf);
        && offset == (if n.outcome.Failed? then -EINVAL else n.taken)
        && Pending() == old(Pending())[f.taken..]
        && backend.accepted == old(backend.accepted) + old(Pending())[..f.taken] + buf[..n.taken]
        && sent == old(sent) + old(held)[..f.taken] && held == old(held)[f.taken..]
        && backend.calls == n.calls && bytesXfer == n.xfer && freezeOutput == n.outcome.Again?
        && hasError == (f.outcome.Failed? || n.outcome.Failed?)
    {
      hide Send, Marks, From, IsOrdered, BufferedFile.InOrder;
      freezeOutput := false;
      Flush();
      offset := 0;
      ghost var left := Pending();
      if !freezeOutput { offset := SendNew(buf); }
      assert Pending() == left;
    }

    /** Takes all of buf, passing on what the backend and the rate limit allow. The order is kept unless the backend
        fails on pending bytes and then takes new ones. */
    method PutBuffer(buf: seq<Byte>) returns (r: int)
      requires Valid() && Conserved()
      modifies this, buffer, backend
      ensures Valid() && Conserved() && (buffer == old(buffer) || fresh(buffer))
      ensures Now() == AfterPut(backend.answers, xferLimit, old(Now()), buf)
      ensures InOrder() <==> old(InOrder()) && !Reorders(backend.answers, xferLimit, old(Now()), buf)
      ensures old(hasError) ==> r == -EINVAL && hasError && stream == old(stream) && backend.accepted == old(backend.accepted)
      ensures !old(hasError) ==> stream == old(stream) + buf
      ensures !hasError ==> r == |buf|
      ensures PutEffect(backend.answers, xferLimit, old(Now()), buf, Now())
      ensures !old(hasError) ==>
        var f, n := FromBuffer(backend.answers, old(Now())), FromNew(backend.answers, xferLimit, old(Now()), buf);
        backend.accepted == old(backend.accepted) + old(Pending())[..f.taken] + buf[..n.taken]
    {
      hide Send, FromBuffer, FromNew, Marks, From, IsOrdered, PutEffect;
      AfterPutMeans(backend.answers, xferLimit, Now(), buf);
      if hasError { return -EINVAL; }
      ghost var state, data, x, y, start := Now(), Pending(), sent, held, |stream|;
      ghost var f, n := FromBuffer(backend.answers, state), FromNew(backend.answers, xferLimit, state, buf);
      NewTaken(backend.answers, xferLimit, state, buf);
      PutOrder(stream, backend.accepted, data, x, y, f.taken, buf, n.taken);
      var offset := PassOn(buf);
      stream := stream + buf;
      sent := sent + From(start, n.taken);
      if offset < 0 { return offset; }
      Append(buf[offset..], From(start + n.taken, |buf| - n.taken));
      r := |buf|;
    }

    /** Called for each tick of the clock: a new interval in which nothing has been transferred, and pending bytes are sent
        until the backend refuses or fails. */
    method RateTick()
      requires Valid() && Conserved()
      modifies this`hasError, this`freezeOutput, this`bytesXfer, this`bufferSize, this`sent, this`held, buffer, backend
      ensures Valid() && Conserved() && stream == old(stream) && (InOrder() <==> old(InOrder()))
      ensures Now() == AfterTick(backend.answers, old(Now()))
      ensures TickEffect(backend.answers, old(Now()), Now())
      ensures old(hasError) || old(freezeOutput) ==> backend.accepted == old(backend.accepted)
      ensures backend.accepted + Pending() == old(backend.accepted + Pending())
    {
      hide Marks, From, Send, IsOrdered, TickEffect;
      AfterTickMeans(backend.answers, Now());
      ghost var was, waiting := backend.accepted, Pending();
      if hasError { return; }
      if freezeOutput { return; }
      bytesXfer := 0;
      Flush();
      ghost var n := |waiting| - |Pending()|;
      assert was + waiting[..n] + waiting[n..] == was + waiting;
    }

    /** Drains the buffer. Without an error everything that was ever passed in has reached the backend. */
    method Close()
      requires Valid() && Conserved() && Fair(backend.answers)
      modifies this`hasError, this`freezeOutput, this`bufferSize, this`sent, this`held, buffer, backend
      ensures Valid() && Conserved() && stream == old(stream) && (InOrder() <==> old(InOrder()))
      ensures !hasError ==> bufferSize == 0 && backend.accepted == stream
    {
      hide Send, Wait, Marks, From, IsOrdered;
      while !hasError && bufferSize > 0
        invariant Valid() && Conserved() && (InOrder() <==> old(InOrder()))
        decreases !hasError, bufferSize, Wait(backend.answers, backend.calls)
      {
        ghost var calls := backend.calls;
        Flush();
        if !hasError && backend.calls == calls + 1 && backend.answers(calls) == -EAGAIN { LessToWait(backend.answers, calls); }
      }
    }
  }

  lemma FlushOrder(x: seq<nat>, y: seq<nat>, n: nat, size: nat)
    requires x + y == From(0, size) && n <= |y|
    ensures IsOrdered(x) && IsOrdered(x + y[..n])
  {
    OrderOf(x, y, n, size, 0, 0);
    assert x + y[..n] + From(size, 0) == x + y[..n];
  }

  /** The books after m pending bytes and n of buf have been sent. */
  lemma PutOrder(stream: seq<Byte>, accepted: seq<Byte>, data: seq<Byte>, x: seq<nat>, y: seq<nat>, m: nat, buf: seq<Byte>, n: nat)
    requires Marks(stream, accepted, x) && Marks(stream, data, y) && accepted + data == stream && x + y == From(0, |stream|)
    requires m <= |data| && n <= |buf|
    ensures Marks(stream + buf, accepted + data[..m] + buf[..n], x + y[..m] + From(|stream|, n))
    ensures Marks(stream + buf, data[m..], y[m..]) && Marks(stream + buf, data[m..] + [], y[m..])
    ensures Marks(stream + buf, data[m..] + buf[n..], y[m..] + From(|stream| + n, |buf| - n))
    ensures IsOrdered(x) && (IsOrdered(x + y[..m] + From(|stream|, n)) <==> m == |data| || n == 0)
    ensures m == |data| || n == 0 ==>
      && accepted + data[..m] + buf[..n] + (data[m..] + buf[n..]) == stream + buf
      && x + y[..m] + From(|stream|, n) + (y[m..] + From(|stream| + n, |buf| - n)) == From(0, |stream + buf|)
  {
    hide From, IsOrdered, Marks;
    MarksSize(stream, data, y);
    OrderOf(x, y, m, |stream|, n, |buf|);
    Delivered(accepted, data, m, buf, n);
    MarksMove(stream, accepted, x, data, y, m);
    MarksGrow(stream, accepted + data[..m], x + y[..m], data[m..], y[m..], buf, n);
    assert data[m..] + [] == data[m..];
  }

  /** New bytes follow the pending ones. */
  lemma Delivered(accepted: seq<Byte>, waiting: seq<Byte>, f: nat, buf: seq<Byte>, n: nat)
    requires f <= |waiting| && n <= |buf|
    ensures f == |waiting| || n == 0 ==>
      accepted + waiting[..f] + buf[..n] + (waiting[f..] + buf[n..]) == accepted + waiting + buf
  {
    assert buf == buf[..n] + buf[n..];
    assert waiting == waiting[..f] + waiting[f..];
  }

  /** Over every run the backend gets the stream in order exactly when no step reorders it. */
  method Feed(f: BufferedFile, inputs: seq<Input>)
    requires f.Valid() && f.Conserved() && f.InOrder()
    modifies f, f.buffer, f.backend
    ensures f.Valid() && f.Conserved()
    ensures f.InOrder() <==> Orderly(f.backend.answers, f.xferLimit, old(f.Now()), inputs)
    ensures f.InOrder() ==> f.backend.accepted <= f.stream
  {
    hide Marks, From, Send, IsOrdered, Reorders, AfterPut, AfterTick;
    ghost var start := f.Now();
    var i := 0;
    assert inputs[0..] == inputs;
    while i < |inputs|
      modifies f, f.buffer, f.backend
      invariant i <= |inputs| && f.Valid() && f.Conserved() && (f.buffer == old(f.buffer) || fresh(f.buffer))
      invariant Orderly(f.backend.answers, f.xferLimit, start, inputs)
           <==> f.InOrder() && Orderly(f.backend.answers, f.xferLimit, f.Now(), inputs[i..])
    {
      assert inputs[i..][0] == inputs[i] && inputs[i..][1..] == inputs[i + 1..];
      match inputs[i] {
        case Put(buf) => var _ := f.PutBuffer(buf);
        case Tick => f.RateTick();
      }
      i := i + 1;
    }
    if f.InOrder() { OrderedPrefix(f.stream, f.backend.accepted, f.sent); }
  }

  /** Refuses once, fails once, then takes what it is given. */
  function Script(k: nat): int { if k == 0 then -EAGAIN else if k == 1 then -1 else 1 }

  lemma FirstPut()
    ensures AfterPut(Script, 1, State([], 0, 0, false, false), [1]) == State([1], 1, 0, true, false)
    ensures FromBuffer(Script, State([], 0, 0, false, false)).taken == 0
    ensures FromNew(Script, 1, State([], 0, 0, false, false), [1]).taken == 0
  {
    hide Send;
    SendStep(Script, 0, [], 0, -1);
    SendStep(Script, 0, [1], 0, 1);
  }

  lemma SecondPut()
    ensures Reorders(Script, 1, State([1], 1, 0, true, false), [2])
    ensures AfterPut(Script, 1, State([1], 1, 0, true, false), [2]).failed
    ensures FromBuffer(Script, State([1], 1, 0, true, false)).taken == 0
    ensures FromNew(Script, 1, State([1], 1, 0, true, false), [2]).taken == 1
  {
    hide Send;
    SendStep(Script, 1, [1], 0, -1);
    SendStep(Script, 2, [2], 0, 1);
    SendStep(Script, 3, [], 1, 1);
  }

  /** A failure while older bytes are flushed does not stop newer ones from being sent: the order is lost. */
  method OrderLostAfterError() returns (f: BufferedFile)
    ensures f.Valid() && f.hasError && !f.InOrder() && !(f.backend.accepted <= f.stream)
  {
    hide Send, FromBuffer, FromNew, AfterPut, Reorders, Marks, From, IsOrdered, Script;
    var b := new Backend(Script);
    f := new BufferedFile(b, 10);
    FirstPut();
    SecondPut();
    assert f.Pending() == [];
    var r := f.PutBuffer([1]);
    assert f.Now().held == [1] && b.accepted == [];
    r := f.PutBuffer([2]);
    assert b.accepted == [2] && f.stream == [1, 2];
    assert b.accepted[0] != f.stream[0];
  }
}
