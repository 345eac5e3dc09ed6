/** Byte arrays handed to the socket layer as scatter/gather spans: what the spans denote,
    and SocketStream's read and write, which move bytes through them and then seek. */
module SocketStreams {
  import opened Bits
  import opened ByteArrays

  function SpanLen(spans: seq<Span>): nat {
    if spans == [] then 0 else SpanLen(spans[..|spans| - 1]) + spans[|spans| - 1].len
  }

  ghost predicate InBounds(spans: seq<Span>)
    reads set s | s in spans :: s.node
  {
    spans == []
    || (InBounds(spans[..|spans| - 1])
        && spans[|spans| - 1].off + spans[|spans| - 1].len <= |spans[|spans| - 1].node.ptr|)
  }

  // The bytes the spans point at, in order.
  ghost function SpanBytes(spans: seq<Span>): seq<byte>
    requires InBounds(spans)
    reads set s | s in spans :: s.node
  {
    if spans == [] then []
    else
      var s := spans[|spans| - 1];
      SpanBytes(spans[..|spans| - 1]) + s.node.ptr[s.off..s.off + s.len]
  }

  // Span i of a cover stands where the spans before it end.
  lemma {:induction false} CoversAt(spans: seq<Span>, ns: seq<Node>, block: nat, from: nat, to: nat, i: nat)
    requires block >= 1 && Covers(spans, ns, block, from, to) && i < |spans|
    ensures SpanAt(spans[i], ns, block, from + SpanLen(spans[..i]))
    ensures SpanLen(spans[..i + 1]) == SpanLen(spans[..i]) + spans[i].len
    ensures from + SpanLen(spans[..i + 1]) <= to
    decreases |spans|
  {
    var front := spans[..|spans| - 1];
    CoversLen(spans, ns, block, from, to);
    if i == |spans| - 1 {
      CoversLen(front, ns, block, from, to - spans[i].len);
      assert spans[..i] == front && spans[..i + 1] == spans;
    } else {
      CoversAt(front, ns, block, from, to - spans[|spans| - 1].len, i);
      assert front[..i] == spans[..i] && front[..i + 1] == spans[..i + 1];
    }
  }

  lemma {:induction false} CoversLen(spans: seq<Span>, ns: seq<Node>, block: nat, from: nat, to: nat)
    requires block >= 1 && Covers(spans, ns, block, from, to)
    ensures from + SpanLen(spans) == to
  {
    if spans != [] {
      CoversLen(spans[..|spans| - 1], ns, block, from, to - spans[|spans| - 1].len);
    }
  }

  lemma {:induction false} SpanLenMono(spans: seq<Span>, i: nat, j: nat)
    requires i <= j <= |spans|
    ensures SpanLen(spans[..i]) <= SpanLen(spans[..j])
    decreases j
  {
    if i < j {
      SpanLenMono(spans, i, j - 1);
      assert spans[..j][..j - 1] == spans[..j - 1];
    }
  }

  lemma SpanDenotes(s: Span, ns: seq<Node>, f: seq<byte>, block: nat, p: nat)
    requires block >= 1 && Mirrors(ns, f, block) && |f| == BytesIn(|ns|, block)
    requires SpanAt(s, ns, block, p) && p <= |f|
    ensures s.off + s.len <= |s.node.ptr| && p + s.len <= |f|
    ensures s.node.ptr[s.off..s.off + s.len] == f[p..p + s.len]
  {
    FlatSlice(ns, f, block, p, s.len);
  }

  // Read spans concatenate to exactly the requested slice.
  lemma {:induction false} SpansDenoteSlice(spans: seq<Span>, ns: seq<Node>, f: seq<byte>, block: nat, from: nat, to: nat)
    requires block >= 1 && Mirrors(ns, f, block) && |f| == BytesIn(|ns|, block)
    requires Covers(spans, ns, block, from, to) && from <= |f|
    ensures InBounds(spans)
    ensures from <= to <= |f| && SpanBytes(spans) == f[from..to]
  {
    if spans != [] {
      var s, front := spans[|spans| - 1], spans[..|spans| - 1];
      SpansDenoteSlice(front, ns, f, block, from, to - s.len);
      SpanDenotes(s, ns, f, block, to - s.len);
      SliceJoin(f, from, to - s.len, to);
    }
  }

  // Spans of one cover never share a byte.
  lemma SpansDisjoint(spans: seq<Span>, ns: seq<Node>, block: nat, from: nat, to: nat, i: nat, j: nat)
    requires block >= 1 && Shaped(ns, block) && Covers(spans, ns, block, from, to) && i < j < |spans|
    ensures spans[i].node != spans[j].node || spans[i].off + spans[i].len <= spans[j].off
  {
    CoversAt(spans, ns, block, from, to, i);
    CoversAt(spans, ns, block, from, to, j);
    SpanLenMono(spans, i + 1, j);
    var p, q := from + SpanLen(spans[..i]), from + SpanLen(spans[..j]);
    BlockBounds(p, |ns|, block);
    BlockBounds(q, |ns|, block);
    if spans[i].node == spans[j].node {
      assert BlockNo(p, block) == BlockNo(q, block);
    }
  }

  // Every position of the range lies in one of them, at the matching offset.
  lemma {:induction false} SpansReach(spans: seq<Span>, ns: seq<Node>, block: nat, from: nat, to: nat, p: nat) returns (i: nat)
    requires block >= 1 && Covers(spans, ns, block, from, to) && from <= p < to
    ensures i < |spans| && from + SpanLen(spans[..i]) <= p < from + SpanLen(spans[..i]) + spans[i].len
    ensures spans[i].node == SeekNode(ns, block, from + SpanLen(spans[..i]))
    decreases |spans|
  {
    var s, front := spans[|spans| - 1], spans[..|spans| - 1];
    CoversLen(front, ns, block, from, to - s.len);
    if p >= to - s.len {
      i := |spans| - 1;
    } else {
      i := SpansReach(front, ns, block, from, to - s.len, p);
      assert front[..i] == spans[..i];
    }
  }

  // What recv does with the spans: the bytes go to them in order.
  method Scatter(ba: ByteArray, spans: seq<Span>, data: seq<byte>, ghost to: nat)
    requires ba.Valid() && Covers(spans, ba.nodes, ba.baseSize, ba.position, to)
    requires ba.position + |data| <= to <= ba.capacity
    modifies ba`flat, ba.nodes`ptr
    ensures ba.Valid() && ba.flat == Overwrite(old(ba.flat), ba.position, data)
  {
    var done, i := 0, 0;
    assert Overwrite(ba.flat, ba.position, data[..0]) == ba.flat;
    while done < |data|
      invariant 0 <= i <= |spans| && 0 <= done <= |data|
      invariant done < |data| ==> done == SpanLen(spans[..i])
      invariant ba.Valid()
      invariant ba.flat == Overwrite(old(ba.flat), ba.position, data[..done])
      decreases |data| - done
    {
      var n := ScatterNext(ba, spans, i, data, done, old(ba.flat), to);
      done, i := done + n, i + 1;
    }
    assert data[..done] == data;
  }

  // The i-th span takes the next of the data; when data is left, all of it was filled.
  method ScatterNext(ba: ByteArray, spans: seq<Span>, i: nat, data: seq<byte>, done: nat,
                     ghost f: seq<byte>, ghost to: nat) returns (n: nat)
    requires ba.Valid() && Covers(spans, ba.nodes, ba.baseSize, ba.position, to)
    requires ba.position + |data| <= to <= ba.capacity == |f|
    requires i <= |spans| && done < |data| && done == SpanLen(spans[..i])
    requires ba.flat == Overwrite(f, ba.position, data[..done])
    modifies ba`flat, ba.nodes`ptr
    ensures ba.Valid() && i < |spans| && 1 <= n <= |data| - done
    ensures done + n < |data| ==> done + n == SpanLen(spans[..i + 1])
    ensures ba.flat == Overwrite(f, ba.position, data[..done + n])
  {
    Standing(spans, ba.nodes, ba.baseSize, ba.position, to, i);
    CoversAt(spans, ba.nodes, ba.baseSize, ba.position, to, i);
    n := ScatterOne(ba, spans[i], data, done, f);
  }

  // Fill one span, or the start of it with the last of the data.
  method ScatterOne(ba: ByteArray, s: Span, data: seq<byte>, done: nat, ghost f: seq<byte>) returns (n: nat)
    requires ba.Valid() && done < |data| && |f| == ba.capacity && ba.position + |data| <= ba.capacity
    requires SpanAt(s, ba.nodes, ba.baseSize, ba.position + done)
    requires ba.flat == Overwrite(f, ba.position, data[..done])
    modifies ba`flat, ba.nodes`ptr
    ensures ba.Valid() && n == Min(s.len, |data| - done) >= 1
    ensures ba.flat == Overwrite(f, ba.position, data[..done + n])
  {
    n := if s.len < |data| - done then s.len else |data| - done;
    OverwriteStep(f, ba.position, data, done, done + n);
    StoreAt(ba, s.node, s.off, data[done..done + n], ba.position + done);
  }

  // Before the end of the range there is a next span, and it stands there.
  lemma Standing(spans: seq<Span>, ns: seq<Node>, block: nat, from: nat, to: nat, i: nat)
    requires block >= 1 && Covers(spans, ns, block, from, to) && i <= |spans|
    ensures from + SpanLen(spans[..i]) < to ==>
      i < |spans| && SpanAt(spans[i], ns, block, from + SpanLen(spans[..i]))
  {
    CoversLen(spans, ns, block, from, to);
    if i < |spans| {
      CoversAt(spans, ns, block, from, to, i);
    } else {
      assert spans[..i] == spans;
    }
  }

  method StoreAt(ba: ByteArray, node: Node, off: nat, chunk: seq<byte>, ghost p: nat)
    requires ba.Valid() && p < ba.capacity && p + |chunk| <= ba.capacity
    requires node == SeekNode(ba.nodes, ba.baseSize, p)
    requires off == Offset(p, ba.baseSize) && off + |chunk| <= ba.baseSize
    modifies ba`flat, node`ptr
    ensures ba.Valid() && ba.flat == Overwrite(old(ba.flat), p, chunk)
  {
    Store(node, off, chunk, ba.nodes, ba.flat, p);
    ba.flat := Overwrite(ba.flat, p, chunk);
  }

  /** What the socket did: not connected, an error or end of stream (rt <= 0), or bytes. */
  datatype Received = NotConnected | Nothing(rt: int) | Bytes(data: seq<byte>)

  // SocketStream::read into a byte array. Receiving r bytes leaves the position, the size
  // and the bytes that write of those r bytes would leave.
  method StreamRead(ba: ByteArray, length: nat, got: Received) returns (rt: int)
    requires ba.Valid()
    requires got.Nothing? ==> got.rt <= 0
    requires got.Bytes? ==> 1 <= |got.data| <= length
    modifies ba, ba.nodes
    ensures ba.Valid()
    ensures rt == if got.NotConnected? then -1 else if got.Nothing? then got.rt else |got.data|
    ensures got.Bytes? ==>
      && ba.position == old(ba.position) + |got.data| && ba.size == Max(old(ba.size), ba.position)
      && Overwrite(old(ba.flat), old(ba.position), got.data) <= ba.flat
    ensures !got.Bytes? ==>
      ba.position == old(ba.position) && ba.size == old(ba.size) && old(ba.flat) <= ba.flat
  {
    if got.NotConnected? {
      return -1;
    }
    var n, spans := ba.GetWriteBuffers(length);
    match got
    case Nothing(code) =>
      return code;
    case Bytes(data) =>
      OverwritePrefix(old(ba.flat), ba.flat, ba.position, data);
      Receive(ba, spans, data, ba.position + length);
      return |data|;
  }

  // The received bytes go to the spans, and the position moves over them.
  method Receive(ba: ByteArray, spans: seq<Span>, data: seq<byte>, ghost to: nat)
    requires ba.Valid() && Covers(spans, ba.nodes, ba.baseSize, ba.position, to)
    requires ba.position + |data| <= to <= ba.capacity
    modifies ba`flat, ba`position, ba`size, ba`cur, ba.nodes`ptr
    ensures ba.Valid() && ba.flat == Overwrite(old(ba.flat), old(ba.position), data)
    ensures ba.position == old(ba.position) + |data| && ba.size == Max(old(ba.size), ba.position)
  {
    Scatter(ba, spans, data, to);
    var ok := ba.SetPosition(ba.position + |data|);
  }

  // SocketStream::write from a byte array: the spans given to send are the next bytes, at
  // most `length` of them, and the position moves over the ones that were sent.
  method StreamWrite(ba: ByteArray, length: nat, connected: bool, sent: int) returns (rt: int, spans: seq<Span>)
    requires ba.Valid() && sent <= Min(length, ba.size - ba.position)
    modifies ba`position, ba`size, ba`cur
    ensures ba.Valid() && ba.size == old(ba.size)
    ensures !connected ==> rt == -1 && spans == [] && ba.position == old(ba.position)
    ensures connected ==>
      && rt == sent
      && Covers(spans, ba.nodes, ba.baseSize, old(ba.position),
                old(ba.position) + Min(length, ba.size - old(ba.position)))
      && ba.position == if sent > 0 then old(ba.position) + sent else old(ba.position)
  {
    if !connected {
      return -1, [];
    }
    var n;
    n, spans := ba.GetReadBuffers(length);
    rt := sent;
    if rt > 0 {
      var ok := ba.SetPosition(ba.position + rt);
    }
  }
}
