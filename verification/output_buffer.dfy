/** The bounded, position-addressable output log of internal/process.go
    (`OutputBuffer`). Each of stdout and stderr is a byte sequence plus the
    absolute offset of its oldest retained byte; writes evict from the front
    and reads address bytes by absolute offset. */
module OutputBuffers {

  /** A Go `byte`. */
  type byte = b: int | 0 <= b < 256

  /** The byte `'\n'`. */
  const Newline: byte := 10

  function Min(a: int, b: int): int { if a <= b then a else b }

  function Max(a: int, b: int): int { if a >= b then a else b }

  /** One stream of the buffer: `data[i]` is the byte at absolute offset
      `base + i`. `base` plays the role of the Go fields `stdoutPos` and
      `stderrPos`. */
  datatype Stream = Stream(data: seq<byte>, base: nat) {
    /** Absolute offset one past the newest retained byte. */
    function End(): nat { base + |data| }
  }

  datatype StreamKind = Stdout | Stderr {
    function Other(): StreamKind { if this == Stdout then Stderr else Stdout }
  }

  /** Both streams of one process, sharing one capacity `maxSize`. */
  datatype OutputBuffer = OutputBuffer(stdout: Stream, stderr: Stream, maxSize: nat) {
    function Get(kind: StreamKind): Stream {
      if kind == Stdout then stdout else stderr
    }
  }

  const EmptyStream: Stream := Stream([], 0)

  /** `NewOutputBuffer`: both streams empty, starting at absolute offset 0. */
  function NewOutputBuffer(maxSize: nat): (b: OutputBuffer)
    ensures b.maxSize == maxSize
    ensures b.stdout.End() == 0 && b.stderr.End() == 0
  {
    OutputBuffer(EmptyStream, EmptyStream, maxSize)
  }

  /** The body of `WriteStdout`/`WriteStderr` on one stream: append, then
      evict from the front down to `maxSize`, advancing the base by exactly
      the evicted count. */
  function Append(s: Stream, bytes: seq<byte>, maxSize: nat): (r: Stream)
    // the logical end grows by exactly the written length
    ensures r.End() == s.End() + |bytes|
    // the base never moves backwards
    ensures s.base <= r.base
    // what is retained is capped by the capacity
    ensures |r.data| == Min(maxSize, |s.data| + |bytes|)
    // and is the newest part of the old bytes followed by the new ones
    ensures r.data == (s.data + bytes)[|s.data| + |bytes| - |r.data|..]
  {
    var all := s.data + bytes;
    if |all| > maxSize then
      var excess := |all| - maxSize;
      Stream(all[excess..], s.base + excess)
    else
      Stream(all, s.base)
  }

  /** `WriteStdout` (kind = Stdout) and `WriteStderr` (kind = Stderr). */
  function Write(b: OutputBuffer, kind: StreamKind, bytes: seq<byte>): (r: OutputBuffer)
    ensures r.maxSize == b.maxSize
    ensures r.Get(kind).End() == b.Get(kind).End() + |bytes|
    ensures |r.Get(kind).data| <= b.maxSize
    ensures r.Get(kind) == Append(b.Get(kind), bytes, b.maxSize)
    // the other stream is untouched
    ensures r.Get(kind.Other()) == b.Get(kind.Other())
  {
    var s := Append(b.Get(kind), bytes, b.maxSize);
    if kind == Stdout then b.(stdout := s) else b.(stderr := s)
  }

  /** The triple `(data, newPosition, hasMore)` returned by a read. */
  datatype ReadResult = ReadResult(data: seq<byte>, position: int, hasMore: bool)

  /** `ReadStdout`/`ReadStderr` on one stream. A position before the base is
      moved forward to the base without error; `maxBytes` is a Go `int` that
      would make the slice allocation panic when negative, hence `nat`. */
  function Read(s: Stream, position: int, maxBytes: nat): (r: ReadResult)
    ensures var p := Max(position, s.base);
      // the position advances by exactly the bytes returned
      && r.position == p + |r.data|
      // as many bytes as asked for and available from p on
      && |r.data| == (if p < s.End() then Min(maxBytes, s.End() - p) else 0)
      // each returned byte is the one stored at its absolute offset
      && (forall i :: 0 <= i < |r.data| ==> r.data[i] == s.data[p - s.base + i])
      // more is reported exactly when retained bytes remain past the slice
      && (r.hasMore <==> r.position < s.End())
  {
    var p := Max(position, s.base);
    var offset := p - s.base;
    if offset >= |s.data| then
      ReadResult([], p, false)
    else
      var endOffset := Min(offset + maxBytes, |s.data|);
      var data := s.data[offset..endOffset];
      ReadResult(data, p + |data|, p + |data| < s.End())
  }

  /** `GetStdoutSize`/`GetStderrSize`: retained length and base position. */
  function SizeAndPosition(s: Stream): (r: (nat, nat))
    ensures r.0 == |s.data| && r.1 == s.base
    // what is retained plus what was dropped is everything ever written
    ensures r.0 + r.1 == s.End()
    ensures forall log :: Retains(s, log) ==> r.0 + r.1 == |log| && r.1 <= |log|
  {
    (|s.data|, s.base)
  }

  // ---------------------------------------------------------------------
  // The stream as a window on everything ever written to it

  /** The concatenation of a series of writes. */
  function Flatten(chunks: seq<seq<byte>>): seq<byte> {
    if chunks == [] then [] else chunks[0] + Flatten(chunks[1..])
  }

  /** The stream after a series of writes, oldest first. */
  function AppendAll(s: Stream, chunks: seq<seq<byte>>, maxSize: nat): Stream
    decreases |chunks|
  {
    if chunks == [] then s else AppendAll(Append(s, chunks[0], maxSize), chunks[1..], maxSize)
  }

  /** `s` holds, at their absolute offsets, the newest bytes of `log`. */
  ghost predicate Retains(s: Stream, log: seq<byte>) {
    s.End() == |log| && s.data == log[s.base..]
  }

  lemma AppendRetains(s: Stream, log: seq<byte>, bytes: seq<byte>, maxSize: nat)
    requires Retains(s, log)
    ensures Retains(Append(s, bytes, maxSize), log + bytes)
  {
    var r := Append(s, bytes, maxSize);
    var all := s.data + bytes;
    assert log + bytes == log[..s.base] + all;
  }

  /** Every series of writes keeps the stream a window on the concatenation
      of all bytes written so far. */
  lemma {:induction false} AppendAllRetains(s: Stream, log: seq<byte>, chunks: seq<seq<byte>>, maxSize: nat)
    requires Retains(s, log)
    ensures Retains(AppendAll(s, chunks, maxSize), log + Flatten(chunks))
    decreases |chunks|
  {
    if chunks != [] {
      AppendRetains(s, log, chunks[0], maxSize);
      AppendAllRetains(Append(s, chunks[0], maxSize), log + chunks[0], chunks[1..], maxSize);
      assert (log + chunks[0]) + Flatten(chunks[1..]) == log + Flatten(chunks);
    }
  }

  /** A read returns the bytes of the logical stream at the offsets it
      reports, whatever has been evicted. */
  lemma ReadSeesLog(s: Stream, log: seq<byte>, position: int, maxBytes: nat)
    requires Retains(s, log)
    ensures var r := Read(s, position, maxBytes);
      var p := Max(position, s.base);
      if p < |log| then p <= r.position <= |log| && r.data == log[p..r.position]
      else r.data == [] && r.position == p
  {
  }

  /** From a fresh stream: after any series of writes the retained size is
      at most the capacity, nothing before the base can be read, and every
      read returns a slice of the concatenation of everything written. */
  lemma {:induction false} WritesThenRead(chunks: seq<seq<byte>>, maxSize: nat, position: int, maxBytes: nat)
    ensures var s := AppendAll(EmptyStream, chunks, maxSize);
      var r := Read(s, position, maxBytes);
      && |s.data| <= maxSize
      && s.End() == |Flatten(chunks)|
      && var p := Max(position, s.base);
         if p < |Flatten(chunks)| then p <= r.position <= |Flatten(chunks)| && r.data == Flatten(chunks)[p..r.position]
         else r.data == [] && r.position == p
  {
    AppendAllRetains(EmptyStream, [], chunks, maxSize);
    assert [] + Flatten(chunks) == Flatten(chunks);
    AppendAllBounded(EmptyStream, chunks, maxSize);
    ReadSeesLog(AppendAll(EmptyStream, chunks, maxSize), Flatten(chunks), position, maxBytes);
  }

  lemma {:induction false} AppendAllBounded(s: Stream, chunks: seq<seq<byte>>, maxSize: nat)
    requires |s.data| <= maxSize
    ensures |AppendAll(s, chunks, maxSize).data| <= maxSize
    decreases |chunks|
  {
    if chunks != [] {
      AppendAllBounded(Append(s, chunks[0], maxSize), chunks[1..], maxSize);
    }
  }

  /** `n` copies of one byte. */
  function Repeat(b: byte, n: nat): (r: seq<byte>)
    ensures |r| == n
    ensures forall i :: 0 <= i < n ==> r[i] == b
  {
    seq(n, _ => b)
  }

  /** The buffer test of internal/registry_test.go with capacity 100:
      "hello world\n" reads back whole; after 150 more 'A's the stream holds
      100 bytes from base 62, and a read from offset 0 is moved to 62. */
  lemma CapacityScenario()
    ensures var hello: seq<byte> := [104, 101, 108, 108, 111, 32, 119, 111, 114, 108, 100, 10];
      var s1 := Append(EmptyStream, hello, 100);
      var s2 := Append(s1, Repeat(65, 150), 100);
      && Read(s1, 0, 50) == ReadResult(hello, 12, false)
      && SizeAndPosition(s2) == (100, 62)
      && Read(s2, 0, 50) == ReadResult(Repeat(65, 50), 112, true)
      && Read(s2, 62, 100) == ReadResult(Repeat(65, 100), 162, false)
  {
    var hello: seq<byte> := [104, 101, 108, 108, 111, 32, 119, 111, 114, 108, 100, 10];
    var s1 := Append(EmptyStream, hello, 100);
    assert s1.data == hello;
    var s2 := Append(s1, Repeat(65, 150), 100);
    assert s2.data == Repeat(65, 100);
  }
}
