/** The IPv4 header checksum of hwio.c: the full sum `ip_cksum`, and the incremental
    update made when only the identification field of a template packet changes. */
module Checksum {

  type byte = x: int | 0 <= x < 0x100
  type word = x: int | 0 <= x < 0x1_0000

  const ETH_HDR_LEN := 14
  const ID_OFFSET := ETH_HDR_LEN + 4
  const CK_OFFSET := ETH_HDR_LEN + 10
  const UINT32 := 0x1_0000_0000

  // --- The reference: one's complement arithmetic, independent of any folding loop ---

  /** The one's complement sum of words adding up to `s`: 0 only for an empty total, otherwise
      the representative of `s` modulo 65535 in 1..65535. */
  function OnesSum(s: nat): (r: word)
  {
    if s == 0 then 0 else (s - 1) % 0xFFFF + 1
  }

  /** A 16-bit load on a little-endian host. */
  function Word(lo: byte, hi: byte): word
  {
    var low: int, high: int := lo, hi;
    low + 0x100 * high
  }

  /** The header words as a little-endian host reads them; an odd last byte stands alone. */
  function Words(b: seq<byte>): (w: seq<word>)
    ensures |w| == (|b| + 1) / 2
  {
    if |b| == 0 then [] else if |b| == 1 then [b[0]] else [Word(b[0], b[1])] + Words(b[2..])
  }

  function Sum(w: seq<word>): nat
  {
    if |w| == 0 then 0 else w[0] + Sum(w[1..])
  }

  /** The checksum RFC 1071 asks for: the complement of the one's complement sum. */
  function Cksum(b: seq<byte>): word
  {
    0xFFFF - OnesSum(Sum(Words(b)))
  }

  /** Two positive totals congruent modulo 65535 have the same one's complement sum. */
  lemma OnesSumUnique(a: nat, b: nat, k: int)
    requires a > 0 && b > 0
    requires a == b + 0xFFFF * k
    ensures OnesSum(a) == OnesSum(b)
  {
    assert a - 1 == (b - 1) + 0xFFFF * k;
  }

  lemma OnesSumSmall(r: word)
    ensures OnesSum(r) == r
  {
  }

  // --- ip_cksum ---

  /** The accumulation loop of ip_cksum, with the wrap-around of its 32-bit sum written out. */
  method SumBytes(buf: array<byte>) returns (sum: nat)
    ensures sum < UINT32
    ensures buf.Length <= 2 * 65537 ==> sum == Sum(Words(buf[..]))
  {
    var p, len := 0, buf.Length;
    sum := 0;
    while len > 1
      invariant 0 <= p && len == buf.Length - p && 0 <= len && sum < UINT32
      invariant buf.Length <= 2 * 65537 ==> 2 * sum <= p * 0xFFFF
      invariant buf.Length <= 2 * 65537 ==> sum + Sum(Words(buf[p..])) == Sum(Words(buf[..]))
    {
      assert buf[p..][2..] == buf[p + 2..];
      sum := (sum + Word(buf[p], buf[p + 1])) % UINT32;
      p, len := p + 2, len - 2;
    }
    if len > 0 {
      SumOfLast(buf[p..]);
      sum := (sum + buf[p]) % UINT32;
    }
  }

  lemma SumOfLast(b: seq<byte>)
    requires |b| == 1
    ensures Sum(Words(b)) == b[0]
  {
    assert Words(b)[1..] == [];
  }

  /** The folding loop of ip_cksum. */
  method Fold(total: nat) returns (sum: word)
    ensures sum == OnesSum(total)
  {
    var s := total;
    while s / 0x1_0000 != 0
      invariant OnesSum(s) == OnesSum(total)
      decreases s
    {
      var folded := s % 0x1_0000 + s / 0x1_0000;
      OnesSumUnique(s, folded, s / 0x1_0000);
      s := folded;
    }
    OnesSumSmall(s);
    sum := s;
  }

  /** hwio.c's ip_cksum.  Up to 65537 words its 32-bit accumulator cannot wrap (65537 * 65535 is
      exactly 2^32 - 1), and the result is the checksum of RFC 1071. */
  method IpCksum(buf: array<byte>) returns (ck: word)
    ensures buf.Length <= 2 * 65537 ==> ck == Cksum(buf[..])
  {
    var sum := SumBytes(buf);
    var folded := Fold(sum);
    ck := 0xFFFF - folded;
  }

  // --- The incremental update ---

  /** The two-fold update of RFC 1624 (Eqn. 3), as all three senders write it. */
  function UpdatedCk(oldCk: word, oldId: word, newId: word): word
  {
    var sum: int := (0xFFFF - oldCk) + (0xFFFF - oldId) + newId;
    var once := sum / 0x1_0000 + sum % 0x1_0000;
    var twice := once + once / 0x1_0000;
    0xFFFF - twice % 0x1_0000
  }

  /** A header as the checksum sees it: the words that are neither the identification nor the
      checksum only matter through their total `rest`. */
  function CkOf(rest: nat, id: word): word
  {
    0xFFFF - OnesSum(rest + id)
  }

  lemma OnesSumQuotient(s: nat) returns (k: int)
    ensures s == OnesSum(s) + 0xFFFF * k
  {
    k := if s == 0 then 0 else (s - 1) / 0xFFFF;
  }

  /** The update equals the full recomputation, except in exactly one case: every word of the
      new header other than the checksum is zero. */
  lemma IncrementalIsFull(rest: nat, oldId: word, newId: word)
    ensures UpdatedCk(CkOf(rest, oldId), oldId, newId) == CkOf(rest, newId) <==> rest + newId != 0
  {
    var sum := OnesSum(rest + oldId) + (0xFFFF - oldId) + newId;
    UpdatedIs(CkOf(rest, oldId), oldId, newId);
    var k := OnesSumQuotient(rest + oldId);
    if sum > 0 && rest + newId > 0 {
      OnesSumUnique(sum, rest + newId, 1 - k);
    }
  }

  /** The two folds give the complement of the sum that the update adds up. */
  lemma UpdatedIs(oldCk: word, oldId: word, newId: word)
    ensures UpdatedCk(oldCk, oldId, newId) == 0xFFFF - OnesSum((0xFFFF - oldCk) + (0xFFFF - oldId) + newId)
  {
    var sum := (0xFFFF - oldCk) + (0xFFFF - oldId) + newId;
    if sum > 0 {
      FoldTwice(sum);
    }
  }

  lemma FoldTwice(sum: nat)
    requires 0 < sum <= 3 * 0xFFFF
    ensures var once := sum / 0x1_0000 + sum % 0x1_0000;
            (once + once / 0x1_0000) % 0x1_0000 == OnesSum(sum)
  {
    var c := sum / 0x1_0000;
    var once := c + sum % 0x1_0000;
    var twice := (once + once / 0x1_0000) % 0x1_0000;
    OnesSumSmall(twice);
    OnesSumUnique(sum, twice, c + once / 0x1_0000);
  }

  // --- Whole headers and packets ---

  function WordAt(b: seq<byte>, i: nat): word
    requires i + 1 < |b|
  {
    Word(b[i], b[i + 1])
  }

  /** A 16-bit store on a little-endian host. */
  function Store(b: seq<byte>, i: nat, w: word): (r: seq<byte>)
    requires i + 1 < |b|
    ensures |r| == |b| && WordAt(r, i) == w
    ensures forall j | 0 <= j < |b| && j != i && j != i + 1 :: r[j] == b[j]
  {
    b[i := w % 0x100][i + 1 := w / 0x100]
  }

  /** rte_cpu_to_be_16: the host word whose bytes in memory are big-endian. */
  function ByteSwap(w: word): (r: word)
    ensures r % 0x100 == w / 0x100 && r / 0x100 == w % 0x100
  {
    w % 0x100 * 0x100 + w / 0x100
  }

  lemma {:induction false} SumAfterStore(b: seq<byte>, i: nat, w: word)
    requires i + 1 < |b| && i % 2 == 0
    ensures Sum(Words(Store(b, i, w))) == Sum(Words(b)) - WordAt(b, i) + w
  {
    var r := Store(b, i, w);
    if i == 0 {
      assert r[2..] == b[2..];
    } else {
      assert r[2..] == Store(b[2..], i - 2, w);
      SumAfterStore(b[2..], i - 2, w);
    }
  }

  /** A header: at least the twelve bytes up to and including the checksum field. */
  predicate IsHeader(h: seq<byte>)
  {
    |h| >= 12
  }

  /** The total of the words other than the identification and the checksum. */
  function Rest(h: seq<byte>): nat
    requires IsHeader(h)
  {
    Sum(Words(Store(Store(h, 10, 0), 4, 0)))
  }

  /** The checksum field holds what ip_cksum yields on the header with that field cleared. */
  predicate Correct(h: seq<byte>)
    requires IsHeader(h)
  {
    WordAt(h, 10) == Cksum(Store(h, 10, 0))
  }

  /** A receiver's test: summing the header as it stands gives all ones. */
  predicate Accepted(h: seq<byte>)
  {
    Cksum(h) == 0
  }

  /** The header after the identification and the checksum were updated. */
  function Patched(h: seq<byte>, newId: word): (r: seq<byte>)
    requires IsHeader(h)
    ensures |r| == |h|
  {
    Store(Store(h, 4, newId), 10, UpdatedCk(WordAt(h, 10), WordAt(h, 4), newId))
  }

  lemma CorrectByRest(h: seq<byte>)
    requires IsHeader(h)
    ensures Correct(h) <==> WordAt(h, 10) == CkOf(Rest(h), WordAt(h, 4))
  {
    var cleared := Store(h, 10, 0);
    SumAfterStore(cleared, 4, 0);
  }

  lemma RestOfPatched(h: seq<byte>, newId: word)
    requires IsHeader(h)
    ensures Rest(Patched(h, newId)) == Rest(h)
    ensures WordAt(Patched(h, newId), 4) == newId
  {
    assert Store(Store(Patched(h, newId), 10, 0), 4, 0) == Store(Store(h, 10, 0), 4, 0);
  }

  /** Patching a header whose checksum is right leaves it right, unless the new header is zero
      everywhere outside the checksum: then, and only then, the update stores the wrong zero. */
  lemma PatchKeepsCorrect(h: seq<byte>, newId: word)
    requires IsHeader(h) && Correct(h)
    ensures Correct(Patched(h, newId)) <==> Rest(h) + newId != 0
  {
    CorrectByRest(h);
    CorrectByRest(Patched(h, newId));
    RestOfPatched(h, newId);
    IncrementalIsFull(Rest(h), WordAt(h, 4), newId);
  }

  /** A correct header is one a receiver accepts. */
  lemma CorrectIsAccepted(h: seq<byte>)
    requires IsHeader(h) && Correct(h)
    ensures Accepted(h)
  {
    var cleared := Store(h, 10, 0);
    var s := Sum(Words(cleared));
    SumAfterStore(h, 10, 0);
    assert Sum(Words(h)) == s + WordAt(h, 10);
    if s > 0 {
      OnesSumUnique(s + 0xFFFF - OnesSum(s), 0xFFFF, (s - 1) / 0xFFFF);
    }
  }

  function PatchedBy(h: seq<byte>, ids: seq<word>): (r: seq<byte>)
    requires IsHeader(h)
    ensures |r| == |h|
    decreases |ids|
  {
    if ids == [] then h else PatchedBy(Patched(h, ids[0]), ids[1..])
  }

  /** Any number of updates in a row leaves a header with some other non-zero word correct, and
      changes nothing but the identification (to the last one) and the checksum. */
  lemma {:induction false} ManyPatchesKeepCorrect(h: seq<byte>, ids: seq<word>)
    requires IsHeader(h) && Correct(h) && Rest(h) != 0
    ensures Correct(PatchedBy(h, ids)) && Accepted(PatchedBy(h, ids))
    ensures WordAt(PatchedBy(h, ids), 4) == if ids == [] then WordAt(h, 4) else ids[|ids| - 1]
    ensures forall j | 0 <= j < |h| && j !in {4, 5, 10, 11} :: PatchedBy(h, ids)[j] == h[j]
    decreases |ids|
  {
    if ids == [] {
      CorrectIsAccepted(h);
    } else {
      PatchKeepsCorrect(h, ids[0]);
      RestOfPatched(h, ids[0]);
      ManyPatchesKeepCorrect(Patched(h, ids[0]), ids[1..]);
    }
  }

  /** The one failing shape: a header that is zero but for its checksum, given the id 0 again. */
  lemma ZeroHeaderFails(h: seq<byte>)
    requires IsHeader(h) && h[10] == h[11] == 0xFF && forall j | 0 <= j < |h| && j != 10 && j != 11 :: h[j] == 0
    ensures Correct(h) && !Correct(Patched(h, 0))
  {
    AllZero(Store(h, 10, 0));
    AllZero(Store(Store(h, 10, 0), 4, 0));
    PatchKeepsCorrect(h, 0);
  }

  lemma {:induction false} AllZero(b: seq<byte>)
    requires forall j | 0 <= j < |b| :: b[j] == 0
    ensures Sum(Words(b)) == 0
  {
    if |b| > 1 {
      AllZero(b[2..]);
    } else if |b| == 1 {
      assert Words(b)[1..] == [];
    }
  }

  /** A packet with its IPv4 header's identification set to `packetId` in network order. */
  function PatchedPacket(p: seq<byte>, packetId: word): (r: seq<byte>)
    requires CK_OFFSET + 1 < |p|
    ensures |r| == |p|
  {
    p[..ETH_HDR_LEN] + Patched(p[ETH_HDR_LEN..], ByteSwap(packetId))
  }

  lemma PatchedPacketStores(p: seq<byte>, packetId: word)
    requires CK_OFFSET + 1 < |p|
    ensures var id := ByteSwap(packetId);
            PatchedPacket(p, packetId)
            == Store(Store(p, ID_OFFSET, id), CK_OFFSET, UpdatedCk(WordAt(p, CK_OFFSET), WordAt(p, ID_OFFSET), id))
  {
    assert p == p[..ETH_HDR_LEN] + p[ETH_HDR_LEN..];
  }

  method StoreWord(data: array<byte>, i: nat, w: word)
    requires i + 1 < data.Length
    modifies data
    ensures data[..] == Store(old(data[..]), i, w)
  {
    data[i], data[i + 1] := w % 0x100, w / 0x100;
  }

  method LoadWord(data: array<byte>, i: nat) returns (w: word)
    requires i + 1 < data.Length
    ensures w == WordAt(data[..], i)
  {
    w := Word(data[i], data[i + 1]);
  }

  /** The two-fold update of the checksum. */
  method NewChecksum(oldCk: word, oldId: word, newId: word) returns (ck: word)
    ensures ck == UpdatedCk(oldCk, oldId, newId)
  {
    var sum: int := (0xFFFF - oldCk) + (0xFFFF - oldId) + newId;
    sum := sum / 0x1_0000 + sum % 0x1_0000;
    sum := sum + sum / 0x1_0000;
    ck := 0xFFFF - sum % 0x1_0000;
  }

  lemma StoredElsewhere(p: seq<byte>, i: nat, w: word, j: nat)
    requires i + 1 < j && j + 1 < |p|
    ensures WordAt(Store(p, i, w), j) == WordAt(p, j)
  {
  }

  /** Step 4 of the senders: patch the copy of the template in place.  The caller's template has
      to reach the checksum field. */
  method PatchPacketId(data: array<byte>, packetId: word)
    requires CK_OFFSET + 1 < data.Length
    modifies data
    ensures data[..] == PatchedPacket(old(data[..]), packetId)
  {
    hide PatchedPacket, Patched, UpdatedCk, WordAt, Store;
    ghost var p := data[..];
    PatchedPacketStores(p, packetId);
    var newId := ByteSwap(packetId);
    StoredElsewhere(p, ID_OFFSET, newId, CK_OFFSET);
    var oldId := LoadWord(data, ID_OFFSET);
    StoreWord(data, ID_OFFSET, newId);
    var oldCk := LoadWord(data, CK_OFFSET);
    var ck := NewChecksum(oldCk, oldId, newId);
    StoreWord(data, CK_OFFSET, ck);
  }

  /** The identification on the wire is the packet id, most significant byte first. */
  lemma PacketIdOnTheWire(p: seq<byte>, packetId: word)
    requires CK_OFFSET + 1 < |p|
    ensures var r := PatchedPacket(p, packetId);
            r[ID_OFFSET] == packetId / 0x100 && r[ID_OFFSET + 1] == packetId % 0x100
  {
    var h := Patched(p[ETH_HDR_LEN..], ByteSwap(packetId));
    assert WordAt(h, 4) == ByteSwap(packetId);
    assert Word(h[4], h[5]) % 0x100 == h[4] && Word(h[4], h[5]) / 0x100 == h[5];
  }
}
