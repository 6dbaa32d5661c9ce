# Buffer pools of package `chunk`, modelled in Dafny

Package `chunk` lends fixed-size byte buffers to the code that downloads and reads
chunks of a stream, and takes them back for reuse. It has two alternative pools, and
both Go files declare a type named `BufferPool`, so each gets its own module here:

- `GrowablePool` (`growable_pool.dfy`, from `chunk/buffer.go`). A `BufferPool` keeps two
  counters and a `sync.Pool` of idle buffers. `size` counts the buffers ever allocated
  and is also the last id given out. `used` counts Gets minus Puts. Get reuses an idle
  buffer or allocates a zeroed one with the next id. Put adds a buffer to the idle set.
  Each `Buffer` has a reference count. `Ref` raises it. `Unref` lowers it, panics when it
  goes negative, and hands the buffer back to its pool exactly when it reaches zero.
  `ReadFrom` fills the buffer as `io.ReadFull` does, and a short read counts as success.
- `BoundedPool` (`bounded_pool.dfy`, from `chunk/buffer_pool.go`). A `BufferPool` is a
  buffered channel of byte slices with capacity `size`. The constructor rejects
  `size <= 1` and preloads `size` slices. Get takes the oldest slice without blocking, or
  makes an overflow slice when the channel is empty. Put reslices its argument to full
  capacity and queues it without blocking, or drops it when the channel is full.
  `size()`, `free()` and `used()` read the channel's capacity and length.
- `Common` (`common.dfy`): the byte type, zeroed contents, `Option`, and `Outcome`,
  which is either a value or a panic with its message.

How the source is represented:

- A panic is an `Outcome.Panic` carrying the source's message. Neither Unref's panic
  nor the constructor's panic is a precondition.
- The idle set of `sync.Pool` is a `multiset<Buffer>`. `sync.Pool` is a bag, so a
  buffer put twice can be handed out twice.
- A ghost sequence `allocations` records the growable pool's buffers in the order
  they were made. Its invariant `Valid()` says that the n-th buffer has id n, belongs
  to this pool and holds `bufferSize` bytes.
- An `io.Reader` is a `Reader`: the chunks that successive `Read` calls deliver, then
  the error every later `Read` returns. `ReadLoop` is the loop of `io.ReadAtLeast`.
  `ReadFull` adds its error normalisation, and `Fill` adds the remapping in `ReadFrom`.
- A Go slice in the bounded pool is a value: a `SliceHeader(backing, len)` whose length
  is at most its capacity, the length of `backing` (the subset type `Slice`).
  `MakeSlice` is `make([]byte, n, n)` and `Slice.Resliced` is `buffer[:cap(buffer)]`;
  their effect is stated by the rows for `PoolState.Get`, `PoolState.Put`,
  `NewBufferPool` and `RoundTrip`. The channel is a `Channel(capacity, queue)`. `TryReceive` and
  `TrySend` model `select` with a `default` branch.
- Several class methods are tied to a value-level specification: `Buffer.Unref` to
  `UnrefOutcome` (and, across many calls, `Run` over sequences of Ref and Unref calls),
  `Buffer.ReadFrom` to `Fill`, and the bounded pool's `Get` and `Put` to `PoolState.Get`
  and `PoolState.Put` (and `Run` over sequences of Get and Put calls). The lemmas about
  those specifications carry the properties that hold across many calls. The growable
  pool's `Get`, `Put`, `Allocate` and `Buffer.Ref` state their new state directly in
  terms of the old one.

Two behaviours of the code that one might expect to be otherwise; the model follows the code:

- One might expect a buffer to be idle exactly when its count is 0. The code hands out
  buffers with a count of 0 (`chunk/buffer.go:26`, `chunk/buffer.go:36`), so a held
  buffer can have count 0. The property that holds, and is proved, is different: a
  buffer goes back to its pool exactly once each time an Unref brings its count to 0
  (`ReturnedExactlyOnce`). One Unref too many panics (`ExtraUnrefPanics`,
  `PanicsIffNegativePrefix`).
- One might expect only a short read that ends the source to count as success. The code turns
  every `io.ErrUnexpectedEOF` into success (`chunk/buffer.go:63-65`). That includes the
  case where the reader itself returns `ErrUnexpectedEOF` before the buffer is full,
  even with no bytes read. `Fill` models the code.

## Model

| member | source | states |
|---|---|---|
| `GrowablePool.ReadLoop` | chunk/buffer.go:61-62 | the read loop inside io.ReadFull fills the buffer with the longest prefix of the source that fits (`min(len, k)` bytes), and it reports an error exactly when the source runs out before the buffer is full; that error is the source's own |
| `GrowablePool.ReadFull` | chunk/buffer.go:62 | io.ReadFull reports no error exactly when the buffer is full; it reports ErrUnexpectedEOF exactly when the buffer is short and the source ended with EOF after some bytes, or the source itself reported ErrUnexpectedEOF |
| `GrowablePool.Fill` | chunk/buffer.go:61-67 | ReadFrom reads `n = min(len, k)` bytes, and they are the source's first bytes; it succeeds exactly when the buffer is full, or the source ended in EOF after at least one byte, or the source reported ErrUnexpectedEOF; it returns EOF exactly when the buffer is non-empty and the source delivered nothing before EOF; any other reader error on a short read is returned unchanged |
| `GrowablePool.Buffer.ReadFrom` | chunk/buffer.go:55-67 | the buffer's first n bytes become the source's first n bytes, with n = min(len, k); the bytes after n are unchanged; the error is the one `Fill` gives; the array that `Bytes()` returns shows exactly this result (the read prefix followed by the old tail), so `Bytes()` is the buffer's own storage, not a copy |
| `GrowablePool.Buffer.Ref` | chunk/buffer.go:69-73 | the count goes up by exactly one, and nothing else changes |
| `GrowablePool.Buffer.Unref` | chunk/buffer.go:75-86 | the count goes down by one; the outcome is a panic when the new count is negative; when it is exactly 0 the buffer joins its pool's idle set and the pool's `used` drops by one; for any other count the pool is unchanged; the buffer's bytes are never cleared |
| `GrowablePool.UnrefOutcome` | chunk/buffer.go:79-85 | after the decrement, Unref panics exactly when the count is negative, and hands the buffer back exactly when the count is 0 |
| `GrowablePool.RunTracksNet` | chunk/buffer.go:70-86 | a sequence of Ref and Unref calls that does not panic moves the count by exactly (#Ref − #Unref) |
| `GrowablePool.PanicsIffNegativePrefix` | chunk/buffer.go:76-81 | starting from a count ≥ 0, a sequence of calls panics exactly when some prefix of it has more Unrefs than the starting count plus its Refs, so every double release is caught |
| `GrowablePool.ReturnedExactlyOnce` | chunk/buffer.go:76-86 | when a count goes from r back to 0 and stays positive in between, the buffer is handed back to its pool exactly once, at the last Unref, with no panic |
| `GrowablePool.ExtraUnrefPanics` | chunk/buffer.go:76-81 | one Unref after such a sequence panics, and the count reads −1 |
| `GrowablePool.BufferPool.constructor` | chunk/buffer.go:18-30 | a new pool has `size == 0`, `used == 0`, no idle buffers and no allocations |
| `GrowablePool.BufferPool.Allocate` | chunk/buffer.go:22-27 | the allocator makes a fresh, zeroed buffer of `bufferSize` bytes; its id is the new `size` (`size` grows by one); it has no references and a back-reference to this pool; the ids stay 1, 2, …, size in allocation order |
| `GrowablePool.Buffer.constructor` | chunk/buffer.go:26 | the buffer literal holds the given bytes, id and pool, with a count of 0 |
| `GrowablePool.BufferPool.Get` | chunk/buffer.go:32-37 | `used` goes up by exactly one; if a buffer is idle, one idle buffer is removed and returned, and `size` is unchanged; otherwise a fresh buffer is returned as in `Allocate`, and only then does `size` grow |
| `GrowablePool.BufferPool.Put` | chunk/buffer.go:39-44 | `used` goes down by exactly one; the buffer joins the idle set with its bytes and count unchanged; `size` is unchanged |
| `BoundedPool.Channel.TryReceive` | chunk/buffer_pool.go:31-38 | a non-blocking receive yields a slice exactly when the channel is non-empty; the slice is the oldest one and the rest stays in order; an empty channel is left as it is; the capacity never changes |
| `BoundedPool.Channel.TrySend` | chunk/buffer_pool.go:45-50 | a non-blocking send succeeds exactly when the channel is below capacity; on success the slice is placed last, after the unchanged earlier ones; a full channel is left as it is; the channel stays within its capacity |
| `BoundedPool.PoolState.Get` | chunk/buffer_pool.go:30-40 | on a non-empty channel, Get returns the oldest slice and free() drops by one; on an empty channel it returns a new zeroed slice of length and capacity bufferSize and changes nothing; the invariant is kept and the slice returned is at full length |
| `BoundedPool.PoolState.Put` | chunk/buffer_pool.go:43-51 | below capacity, the resliced buffer is queued last and free() rises by one; at capacity the buffer is dropped and the state is unchanged; the invariant is kept |
| `BoundedPool.RunKeepsInv` | chunk/buffer_pool.go:30-63 | over any sequence of Gets and Puts, the capacity and buffer length stay fixed, free() stays between 0 and size(), every Get hands out a slice (none blocks or fails), and every slice handed out is at full length |
| `BoundedPool.RunHandsOutBufferSize` | chunk/buffer_pool.go:37-44 | when only slices of the pool's own size are put back, every slice a Get hands out has length and capacity bufferSize |
| `BoundedPool.GetsAreFifo` | chunk/buffer_pool.go:31-34 | k Gets on a channel holding at least k slices hand out its first k slices, oldest first, and leave the rest queued |
| `BoundedPool.RoundTrip` | chunk/buffer_pool.go:43-47 | a slice put back into a pool with room comes out again after every slice queued before it, at length equal to its capacity |
| `BoundedPool.BufferPool.constructor` | chunk/buffer_pool.go:18-24 | the channel has capacity `size` and holds `size` zeroed slices of length and capacity bufferSize; the invariant holds |
| `BoundedPool.NewBufferPool` | chunk/buffer_pool.go:14-27 | panics with "Invalid buffer pool size" exactly when size <= 1; otherwise a fresh pool with size() == free() == size, used() == 0, and every queued slice a new bufferSize slice |
| `BoundedPool.BufferPool.Free` | chunk/buffer_pool.go:57-59 | free() never exceeds size() |
| `BoundedPool.BufferPool.Used` | chunk/buffer_pool.go:53-63 | used() + free() == size(), where size() is the channel's capacity and free() its length, and used() lies between 0 and size() |
| `BoundedPool.BufferPool.Get` | chunk/buffer_pool.go:30-40 | the slice returned and the new state are those of `PoolState.Get`; the invariant is kept |
| `BoundedPool.BufferPool.Put` | chunk/buffer_pool.go:43-51 | the new state is that of `PoolState.Put`; the invariant is kept |
| `BoundedPool.CapacityThreeScenario` | chunk/buffer_pool.go:30-51 | for a pool of three 1024-byte slices: three Gets leave free() == 0; a fourth Get still returns a 1024-byte slice, and free() stays 0; then two Puts leave free() == 2 |

## Left out

- Logging (`Log.Debugf`, `Log.Tracef`, `Log.Errorf`) only reports; it changes no state and is not modelled.
- Atomic counter updates and the channel `select` are single sequential steps. Concurrent interleavings are not modelled.
- `sync.Pool` may drop idle buffers at any time (garbage collection). The model's Get always reuses an idle buffer when one exists, and it picks that buffer arbitrarily.
- `bufferSize` is a `nat`. In Go, a negative `bufferSize` makes `make` panic, at the first allocation in `chunk/buffer.go` and in the constructor in `chunk/buffer_pool.go`; that panic is not modelled.
- The counters are unbounded integers. Wrap-around of Go's `int64` is not modelled, because it needs 2^63 calls.
- In the bounded pool, slices are values. Two holders sharing one backing array, and the identity of an overflow slice, are not modelled.
- The growable pool's `bufferSize` is a field of the pool. In Go it is captured by the allocator closure.
- `Reader` delivers bytes and then a final error. Three kinds of reader are not modelled: one that returns bytes and an error from the same `Read`, one that writes past the bytes it reports, and one that returns no bytes and no error forever (`io.ReadFull` would then loop forever).
- GrowablePool.Buffer.ReadFrom: the bytes after n are stated unchanged. That holds for a reader that writes only the bytes it reports.
