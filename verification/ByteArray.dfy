/** The chunked byte buffer of sherry/bytearray.cc: a singly linked list of equal blocks
    with a cursor node, shown to behave as one flat byte sequence with a position. */
module ByteArrays {
  import opened Bits

  /** What a bounded read did. `NullCursor` is the null pointer the source follows when it
      is asked for zero bytes while the cursor is past the last block. */
  datatype ReadOutcome = Data(bytes: seq<byte>) | OutOfRange | NullCursor

  /** One iovec: `len` bytes of a block's buffer, starting at `off`. */
  datatype Span = Span(node: Node, off: nat, len: nat)

  function Max(a: nat, b: nat): nat { if a < b then b else a }

  function Min(a: nat, b: nat): nat { if a < b then a else b }

  // Replace the bytes from `pos` on by `bytes`, extending the sequence when they overhang.
  function Overwrite(f: seq<byte>, pos: nat, bytes: seq<byte>): (r: seq<byte>)
    requires pos <= |f|
    ensures |r| == Max(|f|, pos + |bytes|)
  {
    seq(Max(|f|, pos + |bytes|),
        i requires 0 <= i < Max(|f|, pos + |bytes|) => if pos <= i < pos + |bytes| then bytes[i - pos] else f[i])
  }

  lemma OverwriteStep(f: seq<byte>, pos: nat, buf: seq<byte>, i: nat, j: nat)
    requires pos <= |f| && i <= j <= |buf|
    ensures Overwrite(Overwrite(f, pos, buf[..i]), pos + i, buf[i..j]) == Overwrite(f, pos, buf[..j])
  {
  }

  lemma OverwritePrefix(f: seq<byte>, g: seq<byte>, pos: nat, bytes: seq<byte>)
    requires f <= g && pos <= |f| && pos + |bytes| <= |g|
    ensures Overwrite(f, pos, bytes) <= Overwrite(g, pos, bytes)
  {
  }

  lemma SliceJoin(f: seq<byte>, a: nat, b: nat, c: nat)
    requires a <= b <= c <= |f|
    ensures f[a..b] + f[b..c] == f[a..c]
  {
  }

  // Bytes in a number of blocks, the block holding a position, and the offset in it. They
  // are products, quotients and remainders, kept recursive so that proofs stay linear.
  function BytesIn(blocks: nat, block: nat): nat {
    if blocks == 0 then 0 else BytesIn(blocks - 1, block) + block
  }

  function BlockNo(p: nat, block: nat): nat
    requires block >= 1
  {
    if p < block then 0 else 1 + BlockNo(p - block, block)
  }

  function Offset(p: nat, block: nat): (o: nat)
    requires block >= 1
    ensures o < block
  {
    if p < block then p else Offset(p - block, block)
  }

  lemma {:induction false} OffsetIsRemainder(p: nat, block: nat)
    requires block >= 1
    ensures Offset(p, block) == p % block
  {
    if p < block {
      SmallMod(p, block);
    } else {
      OffsetIsRemainder(p - block, block);
      ModAddMultiple(p - block, 1, block);
    }
  }

  lemma {:induction false} BlockNoIsQuotient(p: nat, block: nat)
    requires block >= 1
    ensures BlockNo(p, block) == p / block
  {
    if p < block {
      SmallMod(p, block);
    } else {
      BlockNoIsQuotient(p - block, block);
      ModAddMultiple(p - block, 1, block);
    }
  }

  // p % block and p / block, as the source computes them.
  method OffsetOf(p: nat, block: nat) returns (o: nat)
    requires block >= 1
    ensures o == Offset(p, block)
  {
    OffsetIsRemainder(p, block);
    o := p % block;
  }

  method BlockNoOf(p: nat, block: nat) returns (k: nat)
    requires block >= 1
    ensures k == BlockNo(p, block)
  {
    BlockNoIsQuotient(p, block);
    k := p / block;
  }

  lemma {:induction false} BytesInMono(a: nat, b: nat, block: nat)
    requires a <= b
    ensures BytesIn(a, block) <= BytesIn(b, block)
    decreases b
  {
    if a < b {
      BytesInMono(a, b - 1, block);
    }
  }

  lemma {:induction false} SplitPosition(p: nat, block: nat)
    requires block >= 1
    ensures p == BytesIn(BlockNo(p, block), block) + Offset(p, block)
  {
    if p >= block {
      SplitPosition(p - block, block);
    }
  }

  lemma {:induction false} PositionInBlock(k: nat, o: nat, block: nat)
    requires block >= 1 && o < block
    ensures BlockNo(BytesIn(k, block) + o, block) == k && Offset(BytesIn(k, block) + o, block) == o
  {
    if k > 0 {
      PositionInBlock(k - 1, o, block);
    }
  }

  lemma BlockInRange(p: nat, blocks: nat, block: nat)
    requires block >= 1 && p < BytesIn(blocks, block)
    ensures BlockNo(p, block) < blocks
  {
    SplitPosition(p, block);
    if BlockNo(p, block) >= blocks {
      BytesInMono(blocks, BlockNo(p, block), block);
    }
  }

  lemma BlockInList(p: nat, blocks: nat, block: nat)
    requires block >= 1
    ensures BlockNo(p, block) < blocks <==> p < BytesIn(blocks, block)
  {
    SplitPosition(p, block);
    if BlockNo(p, block) >= blocks {
      BytesInMono(blocks, BlockNo(p, block), block);
    } else {
      BytesInMono(BlockNo(p, block) + 1, blocks, block);
    }
  }

  // The capacity that holds `need` bytes: whole blocks are added until it does.
  function Grown(capacity: nat, need: nat, block: nat): (r: nat)
    requires block >= 1
    ensures r >= need && r >= capacity && (need > capacity ==> r < need + block)
    decreases need - capacity
  {
    if need <= capacity then capacity else Grown(capacity + block, need, block)
  }

  function CeilDiv(n: nat, d: nat): nat
    requires d >= 1
  {
    (n + d - 1) / d
  }

  // The rounded-up quotient of the source adds exactly that many blocks.
  lemma {:induction false} GrownAddsBlocks(blocks: nat, need: nat, block: nat)
    requires block >= 1 && need > BytesIn(blocks, block)
    ensures Grown(BytesIn(blocks, block), need, block)
         == BytesIn(blocks + CeilDiv(need - BytesIn(blocks, block), block), block)
    ensures CeilDiv(need - BytesIn(blocks, block), block) >= 1
    decreases need - BytesIn(blocks, block)
  {
    var short := need - BytesIn(blocks, block);
    CeilDivStep(short, block);
    if short > block {
      GrownAddsBlocks(blocks + 1, need, block);
    }
  }

  lemma CeilDivStep(n: nat, d: nat)
    requires n >= 1 && d >= 1
    ensures CeilDiv(n, d) == if n <= d then 1 else 1 + CeilDiv(n - d, d)
  {
    if n <= d {
      DivModUnique(n + d - 1, 1, n - 1, d);
    } else {
      ModAddMultiple(n - d + d - 1, 1, d);
    }
  }

  lemma {:induction false} GrownTwice(cap: nat, n: nat, m: nat, block: nat)
    requires block >= 1 && n <= m
    ensures Grown(Grown(cap, n, block), m, block) == Grown(cap, m, block)
    decreases n - cap
  {
    if n > cap {
      GrownTwice(cap + block, n, m, block);
    }
  }

  // A block: `ptr` is the content of its buffer, always `size` bytes.
  class Node {
    var ptr: seq<byte>
    const size: nat
    var next: Node?

    constructor (s: nat)
      ensures size == s == |ptr| && next == null
    {
      var buffer := new byte[s];  // uninitialised: any bytes may be there
      ptr := buffer[..];
      size := s;
      next := null;
    }

    // memcpy of `chunk` to offset `at` of the buffer.
    method Copy(at: nat, chunk: seq<byte>)
      requires at + |chunk| <= |ptr|
      modifies this`ptr
      ensures ptr == Overwrite(old(ptr), at, chunk)
    {
      ptr := ptr[..at] + chunk + ptr[at + |chunk|..];
    }
  }

  // Equal blocks, no node twice.
  ghost predicate Shaped(ns: seq<Node>, block: nat) {
    && (forall i :: 0 <= i < |ns| ==> ns[i].size == block)
    && (forall i, j :: 0 <= i < j < |ns| ==> ns[i] != ns[j])
  }

  // Block k's buffer holds its stretch of f.
  ghost predicate Mirrors(ns: seq<Node>, f: seq<byte>, block: nat)
    reads ns
  {
    forall k :: 0 <= k < |ns| ==> Holds(ns[k].ptr, f, BytesIn(k, block), block)
  }

  ghost predicate Holds(buffer: seq<byte>, f: seq<byte>, lo: nat, block: nat) {
    
    && |buffer| == block && lo + block <= |f|
    && forall j :: 0 <= j < block ==> buffer[j] == f[lo + j]
  }

  // Bytes copied into the block of p are bytes overwritten in the flat sequence.
  lemma HoldsAfterCopy(buffer: seq<byte>, f: seq<byte>, lo: nat, block: nat, at: nat, chunk: seq<byte>)
    requires Holds(buffer, f, lo, block) && at + |chunk| <= block
    ensures Holds(Overwrite(buffer, at, chunk), Overwrite(f, lo + at, chunk), lo, block)
  {
  }

  lemma HoldsElsewhere(buffer: seq<byte>, f: seq<byte>, lo: nat, block: nat, p: nat, chunk: seq<byte>)
    requires Holds(buffer, f, lo, block) && p + |chunk| <= |f|
    requires lo + block <= p || p + |chunk| <= lo
    ensures Holds(buffer, Overwrite(f, p, chunk), lo, block)
  {
  }

  // Copying a chunk into the block that holds position p.
  method Store(n: Node, at: nat, chunk: seq<byte>, ghost ns: seq<Node>, ghost f: seq<byte>, ghost p: nat)
    requires n.size >= 1 && Shaped(ns, n.size) && Mirrors(ns, f, n.size)
    requires |f| == BytesIn(|ns|, n.size) && p < |f| && p + |chunk| <= |f|
    requires n == SeekNode(ns, n.size, p)
    requires at == Offset(p, n.size) && at + |chunk| <= n.size
    modifies n`ptr
    ensures Mirrors(ns, Overwrite(f, p, chunk), n.size)
  {
    ghost var block, home := n.size, BlockNo(p, n.size);
    BlockBounds(p, |ns|, block);
    assert Holds(n.ptr, f, BytesIn(home, block), block);
    HoldsAfterCopy(n.ptr, f, BytesIn(home, block), block, at, chunk);
    n.Copy(at, chunk);
    forall k | 0 <= k < |ns|
      ensures Holds(ns[k].ptr, Overwrite(f, p, chunk), BytesIn(k, block), block)
    {
      if k < home {
        BytesInMono(k + 1, home, block);
        HoldsElsewhere(ns[k].ptr, f, BytesIn(k, block), block, p, chunk);
      } else if home < k {
        BytesInMono(home + 1, k, block);
        HoldsElsewhere(ns[k].ptr, f, BytesIn(k, block), block, p, chunk);
      }
    }
  }

  ghost function SeekNode(ns: seq<Node>, block: nat, p: nat): (n: Node?)
    requires block >= 1 && p <= BytesIn(|ns|, block)
    ensures n == null <==> p == BytesIn(|ns|, block)
    ensures n != null ==> n in ns
  {
    if p == BytesIn(|ns|, block) then null
    else
      BlockInRange(p, |ns|, block);
      ns[BlockNo(p, block)]
  }

  // Moving n bytes forward inside one block stays in it or lands on the next one.
  lemma Advance(ns: seq<Node>, block: nat, p: nat, n: nat)
    requires block >= 1 && n >= 1 && p < p + n <= BytesIn(|ns|, block)
    requires Offset(p, block) + n <= block
    ensures BlockNo(p, block) < |ns| && SeekNode(ns, block, p) == ns[BlockNo(p, block)]
    ensures Offset(p, block) + n == block ==>
      && Offset(p + n, block) == 0
      && SeekNode(ns, block, p + n) == if BlockNo(p, block) + 1 < |ns| then ns[BlockNo(p, block) + 1] else null
    ensures Offset(p, block) + n < block ==>
      SeekNode(ns, block, p + n) == SeekNode(ns, block, p) && Offset(p + n, block) == Offset(p, block) + n
  {
    var k, at := BlockNo(p, block), Offset(p, block);
    BlockInRange(p, |ns|, block);
    SplitPosition(p, block);
    BytesInMono(k + 1, |ns|, block);
    if at + n == block {
      PositionInBlock(k + 1, 0, block);
      if k + 1 < |ns| {
        BytesInMono(k + 2, |ns|, block);
      }
    } else {
      PositionInBlock(k, at + n, block);
    }
  }

  // Where block k starts, and that it lies inside the whole.
  lemma BlockBounds(p: nat, blocks: nat, block: nat)
    requires block >= 1 && p < BytesIn(blocks, block)
    ensures BlockNo(p, block) < blocks
    ensures BytesIn(BlockNo(p, block), block) == p - Offset(p, block)
    ensures p - Offset(p, block) + block <= BytesIn(blocks, block)
  {
    BlockInRange(p, blocks, block);
    SplitPosition(p, block);
    BytesInMono(BlockNo(p, block) + 1, blocks, block);
  }

  // The part of one block from p on is the flat sequence there.
  lemma FlatSlice(ns: seq<Node>, f: seq<byte>, block: nat, p: nat, n: nat)
    requires block >= 1 && Mirrors(ns, f, block)
    requires |f| == BytesIn(|ns|, block) && p < p + n <= |f| && Offset(p, block) + n <= block
    ensures |SeekNode(ns, block, p).ptr| == block
    ensures SeekNode(ns, block, p).ptr[Offset(p, block)..Offset(p, block) + n] == f[p..p + n]
  {
    BlockBounds(p, |ns|, block);
    assert Holds(SeekNode(ns, block, p).ptr, f, BytesIn(BlockNo(p, block), block), block);
  }

  // The span is the stretch of `len` bytes at p, inside one block.
  ghost predicate SpanAt(s: Span, ns: seq<Node>, block: nat, p: nat)
    requires block >= 1
  {
    && s.len >= 1 && p + s.len <= BytesIn(|ns|, block)
    && s.node == SeekNode(ns, block, p)
    && s.off == Offset(p, block) && s.off + s.len <= block
  }

  // The spans are, in order, exactly the flat range [from, to).
  ghost predicate Covers(spans: seq<Span>, ns: seq<Node>, block: nat, from: nat, to: nat)
    requires block >= 1
  {
    if spans == [] then from == to
    else
      var s := spans[|spans| - 1];
      && from + s.len <= to && SpanAt(s, ns, block, to - s.len)
      && Covers(spans[..|spans| - 1], ns, block, from, to - s.len)
  }

  lemma CoversMore(spans: seq<Span>, s: Span, ns: seq<Node>, block: nat, from: nat, to: nat)
    requires block >= 1 && Covers(spans, ns, block, from, to) && SpanAt(s, ns, block, to)
    ensures Covers(spans + [s], ns, block, from, to + s.len)
  {
    assert (spans + [s])[..|spans|] == spans;
  }

  // Which node holds p, after the list grew behind the nodes `before`.
  lemma Reseat(before: seq<Node>, after: seq<Node>, block: nat, p: nat)
    requires block >= 1 && before <= after && |before| < |after| && p <= BytesIn(|before|, block)
    ensures p < BytesIn(|after|, block)
    ensures SeekNode(after, block, p)
         == if p == BytesIn(|before|, block) then after[|before|] else SeekNode(before, block, p)
  {
    BytesInMono(|before| + 1, |after|, block);
    if p == BytesIn(|before|, block) {
      PositionInBlock(|before|, 0, block);
    } else {
      BlockInRange(p, |before|, block);
    }
  }

  // The node k blocks and `rest` bytes in, where rest may reach the end of block k.
  lemma SeekBoundary(ns: seq<Node>, block: nat, k: nat, rest: nat)
    requires block >= 1 && k < |ns| && rest <= block
    ensures BytesIn(k, block) + rest <= BytesIn(|ns|, block)
    ensures SeekNode(ns, block, BytesIn(k, block) + rest)
         == if rest < block then ns[k] else if k + 1 < |ns| then ns[k + 1] else null
  {
    BytesInMono(k + 1, |ns|, block);
    if rest < block {
      PositionInBlock(k, rest, block);
    } else {
      PositionInBlock(k + 1, 0, block);
      if k + 1 < |ns| {
        BytesInMono(k + 2, |ns|, block);
      }
    }
  }

  class ByteArray {
    const baseSize: nat
    var position: nat
    var capacity: nat
    var size: nat
    var littleEndian: bool
    var root: Node
    var cur: Node?

    ghost var nodes: seq<Node>    // the list that starts at root
    ghost var flat: seq<byte>     // every byte the blocks hold, in order

    ghost predicate Chain()
      reads this`root, this`nodes, this`flat, this`capacity, nodes
    {
      && baseSize >= 1 && |nodes| >= 1 && root == nodes[0]
      && |flat| == capacity == BytesIn(|nodes|, baseSize)
      && (forall i {:trigger nodes[i].next} :: 0 <= i < |nodes| - 1 ==> nodes[i].next == nodes[i + 1])
      && nodes[|nodes| - 1].next == null
      && Shaped(nodes, baseSize)
    }

    // The cursor is the node holding the position, null exactly at full capacity.
    ghost predicate Valid()
      reads this, nodes
    {
      && Chain() && Mirrors(nodes, flat, baseSize)
      && position <= size <= capacity
      && cur == SeekNode(nodes, baseSize, position)
    }

    constructor (blockSize: nat)
      requires blockSize >= 1
      ensures Valid() && fresh(nodes)
      ensures baseSize == blockSize == capacity
      ensures position == size == 0 && !littleEndian
    {
      baseSize := blockSize;
      position, size, capacity := 0, 0, blockSize;
      littleEndian := false;
      var n := new Node(blockSize);
      root := n;
      cur := n;
      nodes := [n];
      flat := n.ptr;
      new;
      assert BytesIn(1, baseSize) == BytesIn(0, baseSize) + baseSize;
    }

    method Clear()
      requires Valid()
      modifies this, nodes
      ensures Valid() && nodes == old(nodes)[..1]
      ensures position == size == 0 && capacity == baseSize
      ensures flat == old(flat)[..baseSize]
      ensures littleEndian == old(littleEndian)
    {
      assert Holds(nodes[0].ptr, flat, BytesIn(0, baseSize), baseSize);
      BytesInMono(1, |nodes|, baseSize);
      assert BytesIn(1, baseSize) == BytesIn(0, baseSize) + baseSize;
      position, size := 0, 0;
      capacity := baseSize;
      var tmp := root.next;
      ghost var k := 1;
      while tmp != null
        invariant 1 <= k <= |nodes| && tmp == if k < |nodes| then nodes[k] else null
        decreases |nodes| - k
        modifies this`cur
      {
        cur := tmp;
        tmp := tmp.next;
        k := k + 1;
      }
      cur := root;
      root.next := null;
      nodes := [root];
      flat := flat[..baseSize];
    }

    // tmp->next = new Node(m_baseSize)
    method AppendBlock(last: Node) returns (n: Node)
      requires Chain() && Mirrors(nodes, flat, baseSize) && last == nodes[|nodes| - 1]
      modifies this`nodes, this`capacity, this`flat, last`next
      ensures Chain() && Mirrors(nodes, flat, baseSize) && fresh(n)
      ensures nodes == old(nodes) + [n]
      ensures old(flat) <= flat
    {
      n := new Node(baseSize);
      ghost var before := nodes;
      last.next := n;
      nodes := before + [n];
      flat := flat + n.ptr;
      capacity := capacity + baseSize;
      forall k | 0 <= k < |nodes|
        ensures Holds(nodes[k].ptr, flat, BytesIn(k, baseSize), baseSize)
      {
        if k < |before| {
          assert Holds(before[k].ptr, old(flat), BytesIn(k, baseSize), baseSize);
        }
      }
    }

    // The growth loop: `count` new blocks behind `last`; the first of them is returned.
    method AppendBlocks(last: Node, count: nat) returns (first: Node?)
      requires Chain() && Mirrors(nodes, flat, baseSize) && last == nodes[|nodes| - 1]
      modifies this`nodes, this`capacity, this`flat, nodes`next
      ensures Chain() && Mirrors(nodes, flat, baseSize)
      ensures old(nodes) <= nodes && fresh(set n | n in nodes && n !in old(nodes))
      ensures |nodes| == |old(nodes)| + count
      ensures first == if count == 0 then null else nodes[|old(nodes)|]
      ensures old(flat) <= flat
    {
      var tmp := last;
      first := null;
      for i := 0 to count
        invariant Chain() && Mirrors(nodes, flat, baseSize)
        invariant old(nodes) <= nodes && fresh(set n | n in nodes && n !in old(nodes))
        invariant |nodes| == |old(nodes)| + i
        invariant tmp == nodes[|nodes| - 1]
        invariant first == if i == 0 then null else nodes[|old(nodes)|]
        invariant old(flat) <= flat
      {
        var next := AppendBlock(tmp);
        if first == null {
          first := next;
        }
        tmp := next;
      }
    }

    method AddCapacity(n: nat)
      requires Valid()
      modifies this`nodes, this`capacity, this`flat, this`cur, nodes`next
      ensures Valid()
      ensures old(nodes) <= nodes && fresh(set n | n in nodes && n !in old(nodes))
      ensures capacity == Grown(old(capacity), position + n, baseSize)
      ensures old(flat) <= flat
    {
      if n == 0 {
        return;
      }
      var oldCap := capacity - position;
      if oldCap >= n {
        return;
      }
      var short := n - oldCap;
      var count := CeilDiv(short, baseSize);
      GrownAddsBlocks(|nodes|, position + n, baseSize);
      Grow(count);
    }

    // Append the blocks; a cursor that was past the end moves to the first of them.
    method Grow(count: nat)
      requires Valid() && count >= 1
      modifies this`nodes, this`capacity, this`flat, this`cur, nodes`next
      ensures Valid()
      ensures old(nodes) <= nodes && fresh(set n | n in nodes && n !in old(nodes))
      ensures |nodes| == |old(nodes)| + count
      ensures old(flat) <= flat
    {
      var oldCap := capacity - position;
      var tmp := LastNode();
      var first := AppendBlocks(tmp, count);
      Reseat(old(nodes), nodes, baseSize, position);
      if oldCap == 0 {
        cur := first;
      }
      assert cur == SeekNode(nodes, baseSize, position);
    }

    method LastNode() returns (tmp: Node)
      requires Chain()
      ensures tmp == nodes[|nodes| - 1]
    {
      tmp := root;
      ghost var k := 0;
      while tmp.next != null
        invariant 0 <= k < |nodes| && tmp == nodes[k]
        decreases |nodes| - k
      {
        tmp := tmp.next;
        k := k + 1;
      }
    }

    // False is the out_of_range exception; the state is then unchanged.
    method SetPosition(v: nat) returns (ok: bool)
      requires Valid()
      modifies this`position, this`size, this`cur
      ensures Valid()
      ensures ok <==> v <= capacity
      ensures ok ==> position == v && size == Max(old(size), v)
      ensures !ok ==> position == old(position) && size == old(size)
    {
      if v > capacity {
        return false;
      }
      position := v;
      if position > size {
        size := position;
      }
      cur := Seek(v);
      return true;
    }

    // The walk from the root to the node that holds v.
    method Seek(v: nat) returns (node: Node?)
      requires Chain() && v <= capacity
      ensures node == SeekNode(nodes, baseSize, v)
    {
      node := root;
      var rest: nat := v;
      ghost var k := 0;
      while rest > node.size
        invariant 0 <= k < |nodes| && node == nodes[k]
        invariant rest + BytesIn(k, baseSize) == v
        decreases rest
      {
        if k + 1 == |nodes| {
          assert false;
        }
        rest := rest - node.size;
        node := node.next;
        k := k + 1;
      }
      SeekBoundary(nodes, baseSize, k, rest);
      if rest == node.size {
        node := node.next;
      }
    }

    method Write(buf: seq<byte>)
      requires Valid()
      modifies this`position, this`size, this`nodes, this`capacity, this`flat, this`cur, nodes
      ensures Valid()
      ensures old(nodes) <= nodes && fresh(set n | n in nodes && n !in old(nodes))
      ensures position == old(position) + |buf| && size == Max(old(size), position)
      ensures capacity == Grown(old(capacity), position, baseSize)
      ensures Overwrite(old(flat), old(position), buf) <= flat
    {
      if |buf| == 0 {
        assert Overwrite(flat, position, buf) == flat;
        return;
      }
      AddCapacity(|buf|);
      OverwritePrefix(old(flat), flat, position, buf);
      Fill(buf);
    }

    // One copy of the loop: the bytes go to the current block and the cursor follows them.
    method PutChunk(npos: nat, chunk: seq<byte>)
      requires Chain() && Mirrors(nodes, flat, baseSize)
      requires position + |chunk| <= capacity && cur == SeekNode(nodes, baseSize, position)
      requires |chunk| >= 1 && npos == Offset(position, baseSize) && npos + |chunk| <= baseSize
      modifies this`position, this`cur, this`flat, cur`ptr
      ensures Chain() && Mirrors(nodes, flat, baseSize)
      ensures position == old(position) + |chunk| && cur == SeekNode(nodes, baseSize, position)
      ensures npos + |chunk| == baseSize ==> Offset(position, baseSize) == 0
      ensures flat == Overwrite(old(flat), old(position), chunk)
    {
      Advance(nodes, baseSize, position, |chunk|);
      Store(cur, npos, chunk, nodes, flat, position);
      flat := Overwrite(flat, position, chunk);
      if cur.size == npos + |chunk| {
        cur := cur.next;
      }
      position := position + |chunk|;
    }

    // The chunk after the first bpos bytes of buf, which started at p over the memory f.
    method PutNext(npos: nat, buf: seq<byte>, bpos: nat, n: nat, ghost f: seq<byte>, ghost p: nat)
      requires Chain() && Mirrors(nodes, flat, baseSize)
      requires 1 <= n <= |buf| - bpos && position == p + bpos && p + |buf| <= capacity == |f|
      requires cur == SeekNode(nodes, baseSize, position)
      requires npos == Offset(position, baseSize) && npos + n <= baseSize
      requires flat == Overwrite(f, p, buf[..bpos])
      modifies this`position, this`cur, this`flat, cur`ptr
      ensures Chain() && Mirrors(nodes, flat, baseSize)
      ensures position == p + bpos + n && cur == SeekNode(nodes, baseSize, position)
      ensures npos + n == baseSize ==> Offset(position, baseSize) == 0
      ensures flat == Overwrite(f, p, buf[..bpos + n])
    {
      OverwriteStep(f, p, buf, bpos, bpos + n);
      PutChunk(npos, buf[bpos..bpos + n]);
    }

    // The copying loop of write and the size update after it, once the capacity is there.
    method Fill(buf: seq<byte>)
      requires Valid() && |buf| > 0 && position + |buf| <= capacity
      modifies this`position, this`size, this`flat, this`cur, nodes`ptr
      ensures Valid()
      ensures position == old(position) + |buf| && size == Max(old(size), position)
      ensures flat == Overwrite(old(flat), old(position), buf)
    {
      Advance(nodes, baseSize, position, 1);
      var npos := OffsetOf(position, baseSize);
      var ncap := cur.size - npos;
      FillFrom(npos, ncap, buf);
      if position > size {
        size := position;
      }
    }

    method FillFrom(from: nat, room: nat, buf: seq<byte>)
      requires Chain() && Mirrors(nodes, flat, baseSize)
      requires position + |buf| <= capacity && cur == SeekNode(nodes, baseSize, position)
      requires from == Offset(position, baseSize) && room == baseSize - from
      modifies this`position, this`flat, this`cur, nodes`ptr
      ensures Chain() && Mirrors(nodes, flat, baseSize)
      ensures position == old(position) + |buf| && cur == SeekNode(nodes, baseSize, position)
      ensures flat == Overwrite(old(flat), old(position), buf)
    {
      var npos, ncap := from, room;
      var bpos := 0;
      var rest: nat := |buf|;
      assert Overwrite(flat, position, buf[..0]) == flat;
      while rest > 0
        invariant bpos + rest == |buf| && position == old(position) + bpos
        invariant Chain() && Mirrors(nodes, flat, baseSize)
        invariant cur == SeekNode(nodes, baseSize, position)
        invariant rest > 0 ==> npos == Offset(position, baseSize) && ncap == baseSize - npos
        invariant flat == Overwrite(old(flat), old(position), buf[..bpos])
        decreases rest
      {
        var n := if ncap >= rest then rest else ncap;
        PutNext(npos, buf, bpos, n, old(flat), old(position));
        bpos := bpos + n;
        rest := rest - n;
        if rest > 0 {
          ncap := cur.size;
          npos := 0;
        }
      }
      assert buf[..bpos] == buf;
    }

    // A zero-byte read follows the cursor before looking at the size: at full capacity that
    // is a null pointer.
    method Read(n: nat) returns (r: ReadOutcome)
      requires Valid()
      modifies this`position, this`cur
      ensures Valid()
      ensures r.OutOfRange? <==> n > size - old(position)
      ensures r.NullCursor? <==> n == 0 && old(position) == capacity
      ensures r.Data? ==> position == old(position) + n && r.bytes == flat[old(position)..position]
      ensures !r.Data? ==> position == old(position)
    {
      if n > size - position {
        return OutOfRange;
      }
      if cur == null {
        return NullCursor;
      }
      var npos := OffsetOf(position, baseSize);
      var out := ReadFrom(npos, cur.size - npos, n);
      return Data(out);
    }

    // The copying loop of read.
    method ReadFrom(from: nat, room: nat, n: nat) returns (out: seq<byte>)
      requires Chain() && Mirrors(nodes, flat, baseSize)
      requires position + n <= capacity && cur == SeekNode(nodes, baseSize, position)
      requires from == Offset(position, baseSize) && room == baseSize - from
      modifies this`position, this`cur
      ensures position == old(position) + n && cur == SeekNode(nodes, baseSize, position)
      ensures out == flat[old(position)..position]
    {
      var npos, ncap := from, room;
      out := [];
      var rest: nat := n;
      while rest > 0
        invariant |out| + rest == n && position == old(position) + |out|
        invariant cur == SeekNode(nodes, baseSize, position)
        invariant rest > 0 ==> npos == Offset(position, baseSize) && ncap == baseSize - npos
        invariant out == flat[old(position)..position]
        decreases rest
      {
        var k := if ncap >= rest then rest else ncap;
        out := ReadNext(npos, k, out, old(position));
        rest := rest - k;
        if rest > 0 {
          ncap := cur.size;
          npos := 0;
        }
      }
    }

    // One turn of that loop: the next k bytes join those read since `from`.
    method ReadNext(npos: nat, k: nat, sofar: seq<byte>, ghost from: nat) returns (out: seq<byte>)
      requires Chain() && Mirrors(nodes, flat, baseSize)
      requires k >= 1 && from <= position && position + k <= capacity && cur == SeekNode(nodes, baseSize, position)
      requires npos == Offset(position, baseSize) && npos + k <= baseSize && sofar == flat[from..position]
      modifies this`position, this`cur
      ensures position == old(position) + k && cur == SeekNode(nodes, baseSize, position)
      ensures npos + k == baseSize ==> Offset(position, baseSize) == 0
      ensures out == flat[from..position]
    {
      var chunk;
      chunk, cur := Take(cur, npos, k, position);
      SliceJoin(flat, from, position, position + k);
      out := sofar + chunk;
      position := position + k;
    }

    // One copy out of a block: k bytes from offset npos, and the node the walk is at after them.
    method Take(node: Node, npos: nat, k: nat, ghost p: nat) returns (chunk: seq<byte>, next: Node?)
      requires Chain() && Mirrors(nodes, flat, baseSize)
      requires p < p + k <= capacity && node == SeekNode(nodes, baseSize, p)
      requires npos == Offset(p, baseSize) && npos + k <= baseSize
      ensures chunk == flat[p..p + k] && next == SeekNode(nodes, baseSize, p + k)
      ensures npos + k == baseSize ==> Offset(p + k, baseSize) == 0
    {
      FlatSlice(nodes, flat, baseSize, p, k);
      chunk := node.ptr[npos..npos + k];
      next := After(node, npos, k, p);
    }

    // Every unread byte, without moving the cursor.
    method ToString() returns (str: seq<byte>)
      requires Valid()
      ensures str == flat[position..size]
    {
      str := [];
      if size == position {
        return;
      }
      var npos := OffsetOf(position, baseSize);
      var ncap := cur.size - npos;
      var node := cur;
      var p, rest: nat := position, size - position;
      while rest > 0
        invariant p + rest == size && position <= p
        invariant node == SeekNode(nodes, baseSize, p)
        invariant rest > 0 ==> npos == Offset(p, baseSize) && ncap == baseSize - npos
        invariant str == flat[position..p]
        decreases rest
      {
        var k := if ncap >= rest then rest else ncap;
        var chunk;
        chunk, node := Take(node, npos, k, p);
        SliceJoin(flat, position, p, p + k);
        str := str + chunk;
        p := p + k;
        rest := rest - k;
        if rest > 0 {
          ncap := node.size;
          npos := 0;
        }
      }
    }

    // The loop shared by the three span requests. It runs off the list exactly when the range
    // passes the capacity.
    method SpansFrom(start: Node, p: nat, len: nat) returns (ok: bool, spans: seq<Span>)
      requires Chain() && p < capacity && start == SeekNode(nodes, baseSize, p)
      ensures ok <==> p + len <= capacity
      ensures ok ==> Covers(spans, nodes, baseSize, p, p + len)
    {
      var npos := OffsetOf(p, baseSize);
      var ncap := start.size - npos;
      var node: Node? := start;
      var rest: nat := len;
      var q := p;
      spans := [];
      while rest > 0
        invariant q + rest == p + len && q <= capacity && (rest > 0 ==> node != null)
        invariant Covers(spans, nodes, baseSize, p, q)
        invariant node == SeekNode(nodes, baseSize, q)
        invariant rest > 0 ==> npos == Offset(q, baseSize) && ncap == baseSize - npos
        decreases rest
      {
        var k := if ncap >= rest then rest else ncap;
        node, spans := NextSpan(node, npos, k, spans, p, q);
        q := q + k;
        rest := rest - k;
        if rest > 0 {
          if node == null {
            return false, spans;
          }
          ncap := node.size;
          npos := 0;
        }
      }
      ok := true;
    }

    // One turn of that loop.
    method NextSpan(node: Node, npos: nat, k: nat, sofar: seq<Span>, ghost p: nat, ghost q: nat)
      returns (next: Node?, spans: seq<Span>)
      requires Chain() && q < capacity && node == SeekNode(nodes, baseSize, q)
      requires k >= 1 && npos == Offset(q, baseSize) && npos + k <= baseSize
      requires Covers(sofar, nodes, baseSize, p, q)
      ensures q + k <= capacity && next == SeekNode(nodes, baseSize, q + k)
      ensures npos + k == baseSize ==> Offset(q + k, baseSize) == 0
      ensures Covers(spans, nodes, baseSize, p, q + k)
    {
      BlockBounds(q, |nodes|, baseSize);
      CoversMore(sofar, Span(node, npos, k), nodes, baseSize, p, q);
      spans := sofar + [Span(node, npos, k)];
      next := After(node, npos, k, q);
    }

    // The node the walk is at, k bytes after offset npos of `node`.
    method After(node: Node, npos: nat, k: nat, ghost p: nat) returns (next: Node?)
      requires Chain() && p < p + k <= capacity && node == SeekNode(nodes, baseSize, p)
      requires npos == Offset(p, baseSize) && npos + k <= baseSize
      ensures next == SeekNode(nodes, baseSize, p + k)
      ensures npos + k == baseSize ==> Offset(p + k, baseSize) == 0
    {
      Advance(nodes, baseSize, p, k);
      next := if node.size == npos + k then node.next else node;
    }

    method GetReadBuffers(len: nat) returns (n: nat, spans: seq<Span>)
      requires Valid()
      ensures n == Min(len, size - position)
      ensures Covers(spans, nodes, baseSize, position, position + n)
    {
      n := if len > size - position then size - position else len;
      if n == 0 {
        return 0, [];
      }
      var ok;
      ok, spans := SpansFrom(cur, position, n);
    }

    // The positioned form. Its length is clamped by what follows the CURSOR; the walk leaves the
    // list, through a null pointer, exactly when p + n passes the capacity.
    method GetReadBuffersAt(len: nat, p: nat) returns (ok: bool, n: nat, spans: seq<Span>)
      requires Valid()
      ensures n == Min(len, size - position)
      ensures ok <==> n == 0 || p + n <= capacity
      ensures n == 0 ==> spans == []
      ensures ok && n > 0 ==> Covers(spans, nodes, baseSize, p, p + n)
      ensures p <= position ==> ok && p + n <= size
    {
      n := if len > size - position then size - position else len;
      if n == 0 {
        return true, 0, [];
      }
      var node := NodeAt(p);
      if node == null {
        return false, n, [];
      }
      ok, spans := SpansFrom(node, p, n);
    }

    // The walk of p / m_baseSize steps from the root; null when the list is too short.
    method NodeAt(p: nat) returns (node: Node?)
      requires Chain()
      ensures node == null <==> p >= capacity
      ensures node != null ==> node == SeekNode(nodes, baseSize, p)
    {
      BlockInList(p, |nodes|, baseSize);
      var count := BlockNoOf(p, baseSize);
      node := root;
      ghost var k := 0;
      while count > 0
        invariant k <= |nodes| && k + count == BlockNo(p, baseSize)
        invariant node == if k < |nodes| then nodes[k] else null
        decreases count
      {
        if node == null {
          return;
        }
        node := node.next;
        count := count - 1;
        k := k + 1;
      }
    }

    method GetWriteBuffers(len: nat) returns (n: nat, spans: seq<Span>)
      requires Valid()
      modifies this`nodes, this`capacity, this`flat, this`cur, nodes`next
      ensures Valid()
      ensures old(nodes) <= nodes && fresh(set n | n in nodes && n !in old(nodes))
      ensures capacity == Grown(old(capacity), position + len, baseSize)
      ensures old(flat) <= flat
      ensures n == len && Covers(spans, nodes, baseSize, position, position + len)
    {
      if len == 0 {
        return 0, [];
      }
      AddCapacity(len);
      assert position + len <= capacity;
      var ok;
      ok, spans := SpansFrom(cur, position, len);
      n := len;
    }
  }

  // A range that passes the capacity: one byte at position 4 of an array of one 4-byte block.
  method PastTheEnd() returns (ok: bool)
    ensures !ok
  {
    var ba := new ByteArray(4);
    ba.Write([7]);
    var sought := ba.SetPosition(0);
    assert Grown(4, 1, 4) == 4;
    var n, spans;
    ok, n, spans := ba.GetReadBuffersAt(1, 4);
  }
}
