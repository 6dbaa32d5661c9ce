/** The bounded, preallocated buffer pool of chunk/buffer_pool.go.

    The pool is a buffered channel `chan []byte` of capacity `size`, filled with `size`
    slices at construction. Get takes from it without blocking and makes an overflow slice
    when it is empty; Put gives back without blocking and drops the slice when it is full. */
module BoundedPool {
  import opened Common

  /** A Go slice header: the bytes of its backing array from the slice's start onwards
      (their number is its capacity) and its length. */
  datatype SliceHeader = SliceHeader(backing: seq<byte>, len: nat) {
    function Cap(): nat {
      |backing|
    }

    /** buffer[:cap(buffer)]: the same backing array, at full length. */
    function Resliced(): (s: Slice)
      ensures s.backing == backing && s.len == s.Cap()
    {
      SliceHeader(backing, |backing|)
    }
  }

  /** A Go byte slice: a header whose length never exceeds its capacity. */
  type Slice = s: SliceHeader | s.len <= |s.backing| witness SliceHeader([], 0)

  /** make([]byte, n, n): a zeroed slice of length and capacity n. */
  function MakeSlice(n: nat): (s: Slice)
    ensures s.len == n && s.Cap() == n && s.backing == Zeros(n)
  {
    SliceHeader(Zeros(n), n)
  }

  /** A buffered channel of slices: its capacity and the slices queued in it, front first. */
  datatype Channel = Channel(capacity: nat, queue: seq<Slice>) {
    predicate Bounded() {
      |queue| <= capacity
    }

    /** `select { case b := <-ch: ... default: ... }`: the oldest slice, or nothing when the
        channel is empty; never blocks. */
    function TryReceive(): (r: (Option<Slice>, Channel))
      ensures r.1.capacity == capacity
      ensures r.0.Some? <==> queue != []
      ensures r.0.Some? ==> [r.0.value] + r.1.queue == queue
      ensures r.0.None? ==> r.1 == this
    {
      if queue == [] then (None, this) else (Some(queue[0]), Channel(capacity, queue[1..]))
    }

    /** `select { case ch <- b: ... default: ... }`: queue `b` last if there is room, or
        report failure and leave the channel as it is; never blocks. */
    function TrySend(b: Slice): (r: (bool, Channel))
      ensures r.1.capacity == capacity
      ensures r.0 <==> |queue| < capacity
      ensures r.0 ==> |r.1.queue| == |queue| + 1 && r.1.queue[..|queue|] == queue && r.1.queue[|queue|] == b
      ensures !r.0 ==> r.1 == this
      ensures Bounded() ==> r.1.Bounded()
    {
      if |queue| < capacity then (true, Channel(capacity, queue + [b])) else (false, this)
    }
  }

  /** The state of a pool as a value: its channel and the length of the slices it makes. */
  datatype PoolState = PoolState(ch: Channel, bufferSize: nat) {
    /** The channel never holds more than its capacity, and every slice queued in it is at
        full length. */
    ghost predicate Inv() {
      ch.Bounded() && forall b :: b in ch.queue ==> b.len == b.Cap()
    }

    /** BufferPool.Get on this state: the slice handed out and the new state. */
    function Get(): (r: (Slice, PoolState))
      ensures r.1.ch.capacity == ch.capacity && r.1.bufferSize == bufferSize
      ensures Inv() ==> r.1.Inv() && r.0.len == r.0.Cap()
      ensures ch.queue != [] ==> r.0 == ch.queue[0] && r.1.ch.queue == ch.queue[1..]
      ensures ch.queue == [] ==> r.0 == MakeSlice(bufferSize) && r.1 == this
    {
      var (got, rest) := ch.TryReceive();
      match got
      case Some(b) => (b, PoolState(rest, bufferSize))
      case None => (MakeSlice(bufferSize), this)
    }

    /** BufferPool.Put on this state. */
    function Put(b: Slice): (r: PoolState)
      ensures r.ch.capacity == ch.capacity && r.bufferSize == bufferSize
      ensures Inv() ==> r.Inv()
      ensures |ch.queue| < ch.capacity ==> r.ch.queue == ch.queue + [b.Resliced()]
      ensures |ch.queue| >= ch.capacity ==> r == this
    {
      PoolState(ch.TrySend(b.Resliced()).1, bufferSize)
    }
  }

  /** A call on the pool. */
  datatype Op = GetOp | PutOp(buffer: Slice)

  function Gets(k: nat): seq<Op> {
    seq(k, _ => GetOp)
  }

  function CountGets(ops: seq<Op>): nat {
    if ops == [] then 0 else (if ops[0] == GetOp then 1 else 0) + CountGets(ops[1..])
  }

  /** Runs `ops` from state `s`: the final state and the slices the Gets handed out, in order. */
  function Run(s: PoolState, ops: seq<Op>): (PoolState, seq<Slice>)
    decreases |ops|
  {
    if ops == [] then (s, [])
    else match ops[0]
      case GetOp =>
        var (b, s1) := s.Get();
        var (t, out) := Run(s1, ops[1..]);
        (t, [b] + out)
      case PutOp(b) => Run(s.Put(b), ops[1..])
  }

  /** Along any sequence of calls the capacity and buffer length never change, the channel
      stays within its capacity (0 <= free() <= size()), every Get hands out a slice (none
      blocks or fails) and every slice handed out is at full length. */
  lemma {:induction false} RunKeepsInv(s: PoolState, ops: seq<Op>)
    requires s.Inv()
    ensures Run(s, ops).0.Inv()
    ensures Run(s, ops).0.ch.capacity == s.ch.capacity && Run(s, ops).0.bufferSize == s.bufferSize
    ensures |Run(s, ops).1| == CountGets(ops)
    ensures forall b :: b in Run(s, ops).1 ==> b.len == b.Cap()
    decreases |ops|
  {
    if ops != [] {
      match ops[0]
      case GetOp =>
        RunKeepsInv(s.Get().1, ops[1..]);
      case PutOp(b) =>
        RunKeepsInv(s.Put(b), ops[1..]);
    }
  }

  /** Slices whose capacity is the pool's buffer length, as every slice the pool makes is. */
  ghost predicate PoolSized(s: PoolState) {
    forall b :: b in s.ch.queue ==> b.Cap() == s.bufferSize
  }

  ghost predicate PutsPoolSized(s: PoolState, ops: seq<Op>) {
    forall i :: 0 <= i < |ops| && ops[i].PutOp? ==> ops[i].buffer.Cap() == s.bufferSize
  }

  /** When only the pool's own slices are put back, every slice a Get hands out has length
      and capacity equal to the pool's buffer length. */
  lemma {:induction false} RunHandsOutBufferSize(s: PoolState, ops: seq<Op>)
    requires s.Inv() && PoolSized(s) && PutsPoolSized(s, ops)
    ensures forall b :: b in Run(s, ops).1 ==> b.len == b.Cap() == s.bufferSize
    decreases |ops|
  {
    if ops != [] {
      match ops[0]
      case GetOp =>
        var s1 := s.Get().1;
        assert PutsPoolSized(s1, ops[1..]) by {
          forall i | 0 <= i < |ops[1..]| && ops[1..][i].PutOp?
            ensures ops[1..][i].buffer.Cap() == s1.bufferSize
          {
            assert ops[1..][i] == ops[i + 1];
          }
        }
        RunHandsOutBufferSize(s1, ops[1..]);
      case PutOp(b) =>
        var s1 := s.Put(b);
        assert PutsPoolSized(s1, ops[1..]) by {
          forall i | 0 <= i < |ops[1..]| && ops[1..][i].PutOp?
            ensures ops[1..][i].buffer.Cap() == s1.bufferSize
          {
            assert ops[1..][i] == ops[i + 1];
          }
        }
        RunHandsOutBufferSize(s1, ops[1..]);
    }
  }

  /** k Gets on a channel holding at least k slices hand out its first k slices, oldest
      first, and leave the rest queued. */
  lemma {:induction false} GetsAreFifo(s: PoolState, k: nat)
    requires k <= |s.ch.queue|
    ensures Run(s, Gets(k)).1 == s.ch.queue[..k]
    ensures Run(s, Gets(k)).0 == PoolState(Channel(s.ch.capacity, s.ch.queue[k..]), s.bufferSize)
    decreases k
  {
    if k == 0 {
      assert s.ch.queue[0..] == s.ch.queue;
    } else {
      var s1 := s.Get().1;
      assert Gets(k)[0] == GetOp && Gets(k)[1..] == Gets(k - 1);
      GetsAreFifo(s1, k - 1);
      assert s.ch.queue[..k] == [s.ch.queue[0]] + s.ch.queue[1..][..k - 1];
      assert s.ch.queue[1..][k - 1..] == s.ch.queue[k..];
    }
  }

  /** A slice put back into a pool with room comes out again, at its full capacity, after
      every slice queued before it. */
  lemma RoundTrip(s: PoolState, b: Slice)
    requires |s.ch.queue| < s.ch.capacity
    ensures var out := Run(s, [PutOp(b)] + Gets(|s.ch.queue| + 1)).1;
      out == s.ch.queue + [b.Resliced()] && out[|out| - 1].len == b.Cap()
  {
    var ops := [PutOp(b)] + Gets(|s.ch.queue| + 1);
    assert ops[0] == PutOp(b) && ops[1..] == Gets(|s.ch.queue| + 1);
    GetsAreFifo(s.Put(b), |s.ch.queue| + 1);
    assert (s.ch.queue + [b.Resliced()])[..|s.ch.queue| + 1] == s.ch.queue + [b.Resliced()];
  }

  /** The panic message of NewBufferPool. */
  const InvalidSize := "Invalid buffer pool size"

  /** BufferPool: a channel of `capacity` slices; every slice the pool makes has
      `bufferSize` bytes. */
  class BufferPool {
    const bufferSize: nat
    const capacity: nat
    var queue: seq<Slice>

    function State(): PoolState
      reads this
    {
      PoolState(Channel(capacity, queue), bufferSize)
    }

    ghost predicate Valid()
      reads this
    {
      State().Inv()
    }

    /** The body of NewBufferPool once `size` has passed its check: `size` zeroed slices of
        length and capacity bufferSize are sent into a channel of capacity `size`. */
    constructor (size: nat, bufferSize: nat)
      ensures Valid()
      ensures capacity == size && this.bufferSize == bufferSize
      ensures queue == seq(size, _ => MakeSlice(bufferSize))
    {
      this.bufferSize := bufferSize;
      capacity := size;
      queue := [];
      new;
      for i := 0 to size
        invariant queue == seq(i, _ => MakeSlice(bufferSize))
      {
        queue := queue + [MakeSlice(bufferSize)];
      }
    }

    /** size(): the channel's capacity, fixed for the pool's lifetime. */
    function Size(): (n: nat)
      reads this
      ensures n == State().ch.capacity
    {
      capacity
    }

    /** free(): the number of slices waiting in the channel, never more than size(). */
    function Free(): (n: nat)
      reads this
      ensures Valid() ==> n <= Size()
    {
      |queue|
    }

    /** used(): the slices handed out beyond those waiting, between 0 and size(). */
    function Used(): (n: int)
      reads this
      ensures Valid() ==> 0 <= n <= Size()
      ensures n + Free() == Size()
    {
      Size() - Free()
    }

    /** Get: the oldest waiting slice, or a fresh overflow slice when none is waiting. */
    method Get() returns (b: Slice)
      requires Valid()
      modifies this
      ensures Valid()
      ensures (b, State()) == old(State()).Get()
    {
      if |queue| > 0 {
        b := queue[0];
        queue := queue[1..];
      } else {
        b := MakeSlice(bufferSize);
      }
    }

    /** Put: the slice, resliced to its capacity, joins the back of the channel, or is
        dropped when the channel is full. */
    method Put(buffer: Slice)
      requires Valid()
      modifies this
      ensures Valid()
      ensures State() == old(State()).Put(buffer)
    {
      var full := buffer.Resliced();
      if |queue| < capacity {
        queue := queue + [full];
      }
    }
  }

  /** NewBufferPool: a size of 1 or less panics; otherwise a pool of `size` idle slices of
      length and capacity bufferSize. */
  method NewBufferPool(size: int, bufferSize: nat) returns (r: Outcome<BufferPool>)
    ensures r.Panic? <==> size <= 1
    ensures r.Panic? ==> r.message == InvalidSize
    ensures r.Ok? ==> fresh(r.value) && r.value.Valid() && r.value.bufferSize == bufferSize
    ensures r.Ok? ==> r.value.Size() == size && r.value.Free() == size && r.value.Used() == 0
    ensures r.Ok? ==> forall b :: b in r.value.queue ==> b == MakeSlice(bufferSize)
  {
    if size <= 1 {
      return Panic(InvalidSize);
    }
    var bp := new BufferPool(size, bufferSize);
    return Ok(bp);
  }

  /** A pool of three 1024-byte slices: three Gets empty it, a fourth still hands out a
      1024-byte slice with the pool still empty, and two Puts leave two slices waiting. */
  method CapacityThreeScenario() returns (afterThree: int, afterFour: int, overflowLen: int, afterPuts: int)
    ensures afterThree == 0 && afterFour == 0 && overflowLen == 1024 && afterPuts == 2
  {
    var r := NewBufferPool(3, 1024);
    var bp := r.value;
    var b1 := bp.Get();
    var b2 := bp.Get();
    var b3 := bp.Get();
    afterThree := bp.Free();
    var b4 := bp.Get();
    afterFour := bp.Free();
    overflowLen := b4.len;
    bp.Put(b1);
    bp.Put(b4);
    afterPuts := bp.Free();
  }
}
