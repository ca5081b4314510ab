/** Packet buffers at the level of pointers: hw_ring_ops.h hands out and takes back mbufs through
    the ring of their pool, walking the segment chain of a frame. */
module MbufChain {
  class MbufPool {
    var ring: seq<Mbuf>   // the free buffers, oldest first
  }

  class Mbuf {
    var next: Mbuf?
    var nbSegs: nat
    const pool: MbufPool

    constructor (pool: MbufPool)
      ensures this.pool == pool && next == null && nbSegs == 1
    {
      this.pool, next, nbSegs := pool, null, 1;
    }
  }

  /** Following `next` from `m` visits exactly `chain`. */
  ghost predicate Linked(m: Mbuf?, chain: seq<Mbuf>)
    reads chain
  {
    && m == (if chain == [] then null else chain[0])
    && forall i | 0 <= i < |chain| :: chain[i].next == if i + 1 < |chain| then chain[i + 1] else null
  }

  lemma NextIs(m: Mbuf?, chain: seq<Mbuf>, i: nat)
    requires Linked(m, chain) && i < |chain|
    ensures chain[i].next == if i + 1 < |chain| then chain[i + 1] else null
  {
  }

  /** A chain that ends visits no buffer twice. */
  lemma {:induction false} LinkedIsDistinct(m: Mbuf?, chain: seq<Mbuf>, i: nat, j: nat)
    requires Linked(m, chain) && i < j < |chain|
    ensures chain[i] != chain[j]
    decreases |chain| - j
  {
    var x, y := chain[i], chain[j];
    NextIs(m, chain, i);
    NextIs(m, chain, j);
    if x == y && j + 1 < |chain| {
      LinkedIsDistinct(m, chain, i + 1, j + 1);
    }
  }

  /** The segments of a chain that belong to a pool, in their order. */
  ghost function Of(chain: seq<Mbuf>, pool: MbufPool): seq<Mbuf>
  {
    if chain == [] then []
    else Of(chain[..|chain| - 1], pool) + (if chain[|chain| - 1].pool == pool then [chain[|chain| - 1]] else [])
  }

  lemma OfOneMore(chain: seq<Mbuf>, i: nat, pool: MbufPool)
    requires i < |chain|
    ensures Of(chain[..i + 1], pool) == Of(chain[..i], pool) + (if chain[i].pool == pool then [chain[i]] else [])
  {
    assert chain[..i + 1][..i] == chain[..i];
  }

  lemma {:induction false} OfHolds(chain: seq<Mbuf>, pool: MbufPool, m: Mbuf)
    ensures m in Of(chain, pool) <==> m in chain && m.pool == pool
    decreases |chain|
  {
    if chain != [] {
      OfHolds(chain[..|chain| - 1], pool, m);
      assert m in chain <==> m in chain[..|chain| - 1] || m == chain[|chain| - 1];
    }
  }

  ghost predicate Distinct(s: seq<Mbuf>)
  {
    forall i, j | 0 <= i < j < |s| :: s[i] != s[j]
  }

  lemma {:induction false} OfIsDistinct(chain: seq<Mbuf>, pool: MbufPool)
    requires Distinct(chain)
    ensures Distinct(Of(chain, pool))
    decreases |chain|
  {
    if chain != [] {
      OfIsDistinct(chain[..|chain| - 1], pool);
      OfHolds(chain[..|chain| - 1], pool, chain[|chain| - 1]);
    }
  }

  /** Giving a chain back to a pool that has none of its buffers keeps the pool free of duplicates,
      so that no buffer is handed out twice. */
  lemma FreeKeepsDistinct(ring: seq<Mbuf>, m: Mbuf?, chain: seq<Mbuf>, pool: MbufPool)
    requires Linked(m, chain) && Distinct(ring) && (forall x | x in chain :: x !in ring)
    ensures Distinct(ring + Of(chain, pool))
  {
    forall i, j | 0 <= i < j < |chain| ensures chain[i] != chain[j] {
      LinkedIsDistinct(m, chain, i, j);
    }
    OfIsDistinct(chain, pool);
    var s := ring + Of(chain, pool);
    forall i, j | 0 <= i < j < |s| ensures s[i] != s[j] {
      OfHolds(chain, pool, s[j]);
    }
  }

  /** _hw_pktmbuf_alloc: the oldest free buffer, reset to a chain of one segment. */
  method Alloc(pool: MbufPool) returns (m: Mbuf?)
    modifies pool, pool.ring
    ensures m == null <==> old(pool.ring) == []
    ensures m == null ==> pool.ring == []
    ensures m != null ==> m == old(pool.ring)[0] && pool.ring == old(pool.ring)[1..] && Linked(m, [m]) && m.nbSegs == 1
    ensures forall x | x in old(pool.ring) && x != m :: x.next == old(x.next) && x.nbSegs == old(x.nbSegs)
  {
    if pool.ring == [] {
      return null;
    }
    m, pool.ring := pool.ring[0], pool.ring[1..];
    m.next, m.nbSegs := null, 1;
  }

  lemma OfOneMoreEverywhere(chain: seq<Mbuf>, i: nat)
    requires i < |chain|
    ensures forall p: MbufPool :: Of(chain[..i + 1], p) == Of(chain[..i], p) + (if chain[i].pool == p then [chain[i]] else [])
  {
    forall p: MbufPool ensures Of(chain[..i + 1], p) == Of(chain[..i], p) + (if chain[i].pool == p then [chain[i]] else []) {
      OfOneMore(chain, i, p);
    }
  }

  lemma AllApart(m: Mbuf?, chain: seq<Mbuf>)
    requires Linked(m, chain)
    ensures Distinct(chain)
  {
    forall i, j | 0 <= i < j < |chain| ensures chain[i] != chain[j] {
      LinkedIsDistinct(m, chain, i, j);
    }
  }

  /** One segment, alone again, goes to the end of its own pool's ring. */
  method FreeSegment(seg: Mbuf)
    modifies seg, seg.pool
    ensures seg.next == null && seg.nbSegs == 1 && seg.pool.ring == old(seg.pool.ring) + [seg]
  {
    seg.next := null;
    seg.nbSegs := 1;
    seg.pool.ring := seg.pool.ring + [seg];
  }

  /** _hw_pktmbuf_free: every segment goes to the end of its own pool's ring, alone again.  A chain
      may have segments of several pools. */
  method Free(m: Mbuf?, ghost chain: seq<Mbuf>)
    requires Linked(m, chain)
    modifies chain, set x | x in chain :: x.pool
    ensures forall x | x in chain :: x.next == null && x.nbSegs == 1
    ensures forall p: MbufPool | old(allocated(p)) :: p.ring == old(p.ring) + Of(chain, p)
  {
    hide Of;
    AllApart(m, chain);
    OfNothing();
    var cur := m;
    ghost var i := 0;
    while cur != null
      invariant i <= |chain| && cur == (if i < |chain| then chain[i] else null)
      invariant forall k | i <= k < |chain| :: chain[k].next == if k + 1 < |chain| then chain[k + 1] else null
      invariant forall k | 0 <= k < i :: chain[k].next == null && chain[k].nbSegs == 1
      invariant forall p: MbufPool | old(allocated(p)) :: p.ring == old(p.ring) + Of(chain[..i], p)
      decreases |chain| - i
    {
      var next := cur.next;
      OfOneMoreEverywhere(chain, i);
      FreeSegment(cur);
      cur, i := next, i + 1;
    }
    assert chain[..i] == chain;
  }

  lemma OfNothing()
    ensures forall p: MbufPool :: Of([], p) == []
  {
  }
}
