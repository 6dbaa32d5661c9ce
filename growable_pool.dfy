/** The growable, reference-counted buffer pool of chunk/buffer.go.

    A `BufferPool` hands out `Buffer`s, allocating a new one whenever its idle set is
    empty; a `Buffer` carries a reference count and goes back to the idle set of the pool
    that made it exactly when an `Unref` brings the count to zero. */
module GrowablePool {
  import opened Common

  // ---------------------------------------------------------------------------
  // The byte source read by Buffer.ReadFrom (io.Reader and io.ReadFull)
  // ---------------------------------------------------------------------------

  /** Errors a reader can report: the two io sentinels, or any other error. */
  datatype ReadError = EOF | UnexpectedEOF | Other(code: int)

  /** A byte source: successive Read calls deliver `chunks` in order (a chunk larger than
      the room left is delivered in part, the rest staying for the next Read); once they
      are exhausted every Read returns no bytes and the error `end`. */
  datatype Reader = Reader(chunks: seq<seq<byte>>, end: ReadError)

  /** Every byte the source will ever deliver, in order. */
  function Flatten(chunks: seq<seq<byte>>): seq<byte> {
    if chunks == [] then [] else chunks[0] + Flatten(chunks[1..])
  }

  function Min(a: int, b: int): int {
    if a <= b then a else b
  }

  /** The bytes a read placed at the front of the buffer, and the error it reports. */
  datatype ReadResult = ReadResult(data: seq<byte>, err: Option<ReadError>)

  /** The loop of io.ReadAtLeast(r, buf, min) with min == len(buf) == want: read into the
      rest of the buffer until it is full or a Read fails; `err` is the error that stopped
      the loop. The buffer is filled with the longest prefix of the source that fits, and
      the loop fails exactly when the source runs out first. */
  function ReadLoop(want: nat, chunks: seq<seq<byte>>, end: ReadError): (r: ReadResult)
    ensures |r.data| == Min(want, |Flatten(chunks)|)
    ensures r.data == Flatten(chunks)[..|r.data|]
    ensures r.err == None <==> |Flatten(chunks)| >= want
    ensures r.err == None || r.err == Some(end)
    decreases |chunks|
  {
    if want == 0 then ReadResult([], None)
    else if chunks == [] then ReadResult([], Some(end))
    else if |chunks[0]| >= want then ReadResult(chunks[0][..want], None)
    else
      var rest := ReadLoop(want - |chunks[0]|, chunks[1..], end);
      ReadResult(chunks[0] + rest.data, rest.err)
  }

  /** io.ReadFull(r, buf) for a buffer of `size` bytes: the read loop, then the error
      normalisation of io.ReadAtLeast (success once the buffer is full; EOF after some but
      not all bytes becomes ErrUnexpectedEOF). */
  function ReadFull(size: nat, src: Reader): (r: ReadResult)
    ensures r.err == None <==> |r.data| == size
    ensures r.err == Some(UnexpectedEOF) <==>
              (|r.data| < size && ((0 < |r.data| && src.end == EOF) || src.end == UnexpectedEOF))
  {
    var loop := ReadLoop(size, src.chunks, src.end);
    if |loop.data| >= size then ReadResult(loop.data, None)
    else if |loop.data| > 0 && loop.err == Some(EOF) then ReadResult(loop.data, Some(UnexpectedEOF))
    else loop
  }

  /** What Buffer.ReadFrom reports for a buffer of `size` bytes: io.ReadFull with
      ErrUnexpectedEOF (a short read) turned into success. */
  function Fill(size: nat, src: Reader): (r: ReadResult)
    ensures |r.data| == Min(size, |Flatten(src.chunks)|)
    ensures r.data == Flatten(src.chunks)[..|r.data|]
    ensures r.err == None <==>
              (|r.data| == size || (0 < |r.data| && src.end == EOF) || src.end == UnexpectedEOF)
    ensures r.err == Some(EOF) <==> (0 < size && |Flatten(src.chunks)| == 0 && src.end == EOF)
    ensures src.end.Other? && |Flatten(src.chunks)| < size ==> r.err == Some(src.end)
  {
    var full := ReadFull(size, src);
    if full.err == Some(UnexpectedEOF) then ReadResult(full.data, None) else full
  }

  // ---------------------------------------------------------------------------
  // Reference counting
  // ---------------------------------------------------------------------------

  /** The panic message of Buffer.Unref. */
  const NegativeRefs := "Buffer has negative reference count"

  /** What Buffer.Unref does once its decrement has left the count at `refs`: panic when
      it is negative, otherwise say whether the buffer goes back to its pool. */
  function UnrefOutcome(refs: int): (o: Outcome<bool>)
    ensures o.Panic? <==> refs < 0
    ensures o == Ok(true) <==> refs == 0
  {
    if refs < 0 then Panic(NegativeRefs) else Ok(refs == 0)
  }

  /** A call on one buffer's reference count. */
  datatype Call = RefCall | UnrefCall

  function Delta(c: Call): int {
    if c == RefCall then 1 else -1
  }

  /** The number of Ref calls minus the number of Unref calls. */
  function Net(calls: seq<Call>): int {
    if calls == [] then 0 else Delta(calls[0]) + Net(calls[1..])
  }

  /** The effect of a sequence of calls: the final count, how many times the buffer was
      handed back to its pool, and whether an Unref panicked (which ends the run). */
  datatype Replay = Replay(refs: int, returned: nat, panicked: bool)

  /** Runs `calls` on a buffer whose count is `refs`, each Unref as UnrefOutcome says. */
  function Run(refs: int, calls: seq<Call>): Replay
    decreases |calls|
  {
    if calls == [] then Replay(refs, 0, false)
    else if calls[0] == RefCall then Run(refs + 1, calls[1..])
    else match UnrefOutcome(refs - 1)
      case Panic(_) => Replay(refs - 1, 0, true)
      case Ok(back) =>
        var rest := Run(refs - 1, calls[1..]);
        Replay(rest.refs, rest.returned + (if back then 1 else 0), rest.panicked)
  }

  lemma {:induction false} NetPrefix(calls: seq<Call>, i: nat)
    requires 1 <= i <= |calls|
    ensures Net(calls[..i]) == Delta(calls[0]) + Net(calls[1..][..i - 1])
  {
    assert calls[..i][1..] == calls[1..][..i - 1];
  }

  /** A run that does not panic ends with the count moved by exactly Net(calls). */
  lemma {:induction false} RunTracksNet(refs: int, calls: seq<Call>)
    ensures !Run(refs, calls).panicked ==> Run(refs, calls).refs == refs + Net(calls)
    decreases |calls|
  {
    if calls != [] {
      RunTracksNet(refs + Delta(calls[0]), calls[1..]);
    }
  }

  /** A run panics exactly when some prefix of it takes more Unrefs than the count and the
      Refs before them allow: every double release is detected. */
  lemma {:induction false} PanicsIffNegativePrefix(refs: int, calls: seq<Call>)
    requires refs >= 0
    ensures Run(refs, calls).panicked <==>
              exists i :: 1 <= i <= |calls| && refs + Net(calls[..i]) < 0
    decreases |calls|
  {
    if calls != [] {
      var r1 := refs + Delta(calls[0]);
      NetPrefix(calls, 1);
      assert calls[1..][..0] == [];
      if r1 < 0 {
        assert refs + Net(calls[..1]) < 0;
      } else {
        PanicsIffNegativePrefix(r1, calls[1..]);
        if Run(refs, calls).panicked {
          var j :| 1 <= j <= |calls| - 1 && r1 + Net(calls[1..][..j]) < 0;
          NetPrefix(calls, j + 1);
          assert refs + Net(calls[..j + 1]) < 0;
        } else {
          forall i | 1 <= i <= |calls|
            ensures refs + Net(calls[..i]) >= 0
          {
            NetPrefix(calls, i);
            if i > 1 {
              assert !(r1 + Net(calls[1..][..i - 1]) < 0);
            }
          }
        }
      }
    }
  }

  /** Calls after which a holder's count returns to zero, and is positive in between. */
  ghost predicate Balanced(refs: int, calls: seq<Call>) {
    refs >= 0 && |calls| >= 1 && refs + Net(calls) == 0 &&
    forall i :: 1 <= i < |calls| ==> refs + Net(calls[..i]) >= 1
  }

  lemma {:induction false} BalancedTail(refs: int, calls: seq<Call>)
    requires Balanced(refs, calls) && |calls| >= 2
    ensures refs + Delta(calls[0]) >= 1
    ensures Balanced(refs + Delta(calls[0]), calls[1..])
  {
    var r1 := refs + Delta(calls[0]);
    NetPrefix(calls, 1);
    assert calls[1..][..0] == [];
    assert refs + Net(calls[..1]) >= 1;
    forall i | 1 <= i < |calls| - 1
      ensures r1 + Net(calls[1..][..i]) >= 1
    {
      NetPrefix(calls, i + 1);
      assert refs + Net(calls[..i + 1]) >= 1;
    }
  }

  /** A buffer whose count goes from `refs` back to zero, staying positive in between, is
      handed back to its pool exactly once, at the last Unref, and nothing panics. */
  lemma {:induction false} ReturnedExactlyOnce(refs: int, calls: seq<Call>)
    requires Balanced(refs, calls)
    ensures Run(refs, calls) == Replay(0, 1, false)
    decreases |calls|
  {
    if |calls| == 1 {
      assert calls[1..] == [];
    } else {
      BalancedTail(refs, calls);
      ReturnedExactlyOnce(refs + Delta(calls[0]), calls[1..]);
    }
  }

  /** One Unref more than such a sequence of calls allows panics, after the one return. */
  lemma {:induction false} ExtraUnrefPanics(refs: int, calls: seq<Call>)
    requires Balanced(refs, calls)
    ensures Run(refs, calls + [UnrefCall]) == Replay(-1, 1, true)
    decreases |calls|
  {
    var longer := calls + [UnrefCall];
    assert longer[0] == calls[0];
    if |calls| == 1 {
      assert calls[1..] == [] && longer[1..] == [UnrefCall];
      assert Net(calls) == Delta(calls[0]) + Net(calls[1..]);
      assert Run(0, [UnrefCall]) == Replay(-1, 0, true);
    } else {
      assert longer[1..] == calls[1..] + [UnrefCall];
      BalancedTail(refs, calls);
      ExtraUnrefPanics(refs + Delta(calls[0]), calls[1..]);
    }
  }

  // ---------------------------------------------------------------------------
  // The pool and its buffers
  // ---------------------------------------------------------------------------

  /** BufferPool: `size` counts the buffers ever allocated and is the last id given out,
      `used` counts Gets minus Puts, `idle` is the content of the sync.Pool (a bag: a
      buffer put twice is held twice). */
  class BufferPool {
    var size: int
    var used: int
    var idle: multiset<Buffer>
    /** The length of every buffer this pool allocates (captured by the allocator closure). */
    const bufferSize: nat
    /** The buffers allocated so far, in order of allocation. */
    ghost var allocations: seq<Buffer>

    /** The n-th buffer allocated has id n, belongs to this pool and has bufferSize bytes;
        so ids are unique and increase with allocation. */
    ghost predicate Valid()
      reads this
    {
      |allocations| == size &&
      forall i :: 0 <= i < |allocations| ==>
        allocations[i].id == i + 1 && allocations[i].pool == this &&
        allocations[i].bytes.Length == bufferSize
    }

    /** NewBufferPool: no buffer allocated, none in use, nothing idle. */
    constructor (bufferSize: nat)
      ensures Valid()
      ensures size == 0 && used == 0 && idle == multiset{} && allocations == []
      ensures this.bufferSize == bufferSize
    {
      size, used, idle := 0, 0, multiset{};
      this.bufferSize := bufferSize;
      allocations := [];
    }

    /** The sync.Pool's New function: a zeroed buffer of bufferSize bytes with the next
        id, no references and a back-reference to this pool. */
    method Allocate() returns (b: Buffer)
      requires Valid()
      modifies this
      ensures Valid()
      ensures fresh(b) && fresh(b.bytes)
      ensures size == old(size) + 1 && b.id == size && allocations == old(allocations) + [b]
      ensures b.refs == 0 && b.pool == this && b.bytes[..] == Zeros(bufferSize)
      ensures used == old(used) && idle == old(idle)
    {
      size := size + 1;
      var bytes := new byte[bufferSize](_ => 0);
      b := new Buffer(bytes, size, this);
      allocations := allocations + [b];
    }

    /** Get: one more buffer in use; an idle buffer is reused if there is one, otherwise a
        new one is allocated (and only then does size grow). */
    method Get() returns (b: Buffer)
      requires Valid()
      modifies this
      ensures Valid()
      ensures used == old(used) + 1
      ensures old(idle) != multiset{} ==>
                b in old(idle) && idle == old(idle) - multiset{b} &&
                size == old(size) && allocations == old(allocations)
      ensures old(idle) == multiset{} ==>
                fresh(b) && fresh(b.bytes) && idle == multiset{} &&
                size == old(size) + 1 && b.id == size && allocations == old(allocations) + [b] &&
                b.refs == 0 && b.pool == this && b.bytes[..] == Zeros(bufferSize)
    {
      used := used + 1;
      if idle != multiset{} {
        b :| b in idle;
        idle := idle - multiset{b};
      } else {
        b := Allocate();
      }
    }

    /** Put: one buffer fewer in use, and the buffer joins the idle set as it is; its
        bytes are not cleared. */
    method Put(buffer: Buffer)
      requires Valid()
      modifies this
      ensures Valid()
      ensures used == old(used) - 1 && idle == old(idle) + multiset{buffer}
      ensures size == old(size) && allocations == old(allocations)
      ensures buffer.refs == old(buffer.refs) && buffer.bytes[..] == old(buffer.bytes[..])
    {
      used := used - 1;
      idle := idle + multiset{buffer};
    }
  }

  /** Buffer: its bytes, its id, its reference count and the pool it goes back to. */
  class Buffer {
    const bytes: array<byte>
    const id: int
    var refs: int
    const pool: BufferPool

    /** The composite literal `&Buffer{bytes, id, 0, bp}`. */
    constructor (bytes: array<byte>, id: int, pool: BufferPool)
      ensures this.bytes == bytes && this.id == id && this.pool == pool && refs == 0
    {
      this.bytes, this.id, this.pool := bytes, id, pool;
      refs := 0;
    }

    /** Bytes: the buffer's own storage, not a copy. */
    function Bytes(): (b: array<byte>)
      ensures b == bytes
    {
      bytes
    }

    /** ReadFrom: fills the front of the buffer from `src` as io.ReadFull does and reports
        the byte count and the error, a short read counting as success. */
    method ReadFrom(src: Reader) returns (n: int, err: Option<ReadError>)
      modifies bytes
      ensures n == Min(bytes.Length, |Flatten(src.chunks)|)
      ensures bytes[..n] == Flatten(src.chunks)[..n]
      ensures bytes[n..] == old(bytes[n..])
      ensures err == Fill(bytes.Length, src).err
      ensures Bytes()[..] == Flatten(src.chunks)[..n] + old(Bytes()[n..])
    {
      var r := Fill(bytes.Length, src);
      n, err := |r.data|, r.err;
      forall i | 0 <= i < n {
        bytes[i] := r.data[i];
      }
      assert bytes[..] == bytes[..n] + bytes[n..];
    }

    /** Ref: one more reference, nothing else changes. */
    method Ref()
      modifies this
      ensures refs == old(refs) + 1
    {
      refs := refs + 1;
    }

    /** Unref: one reference fewer; a negative count panics, and a count of exactly zero
        hands the buffer back to its pool; otherwise the pool is untouched. */
    method Unref() returns (o: Outcome<bool>)
      requires pool.Valid()
      modifies this, pool
      ensures refs == old(refs) - 1
      ensures o == UnrefOutcome(refs)
      ensures pool.Valid()
      ensures o == Ok(true) ==>
                pool.idle == old(pool.idle) + multiset{this} && pool.used == old(pool.used) - 1 &&
                pool.size == old(pool.size) && pool.allocations == old(pool.allocations)
      ensures o != Ok(true) ==> unchanged(pool)
      ensures bytes[..] == old(bytes[..])
    {
      refs := refs - 1;
      if refs < 0 {
        return Panic(NegativeRefs);
      }
      if refs == 0 {
        pool.Put(this);
      }
      o := Ok(refs == 0);
    }
  }
}
