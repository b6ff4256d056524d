/** Big-endian numbers on the wire, and order ids carried in OUCH order tokens. */
module Wire {
  import opened Types
  import opened TradingDesk

  type Byte = b: int | 0 <= b < 256

  function Pow256(k: nat): (p: nat)
    ensures p >= 1
  {
    if k == 0 then 1 else 256 * Pow256(k - 1)
  }

  /** The number that the bytes spell, most significant byte first. */
  function Number(bytes: seq<Byte>): nat {
    if bytes == [] then 0 else 256 * Number(bytes[..|bytes| - 1]) + bytes[|bytes| - 1]
  }

  /** The low k bytes of n, most significant first. */
  function Bytes(n: nat, k: nat): (bytes: seq<Byte>)
    ensures |bytes| == k
  {
    if k == 0 then [] else Bytes(n / 256, k - 1) + [n % 256]
  }

  lemma {:induction false} NumberBound(bytes: seq<Byte>)
    ensures Number(bytes) < Pow256(|bytes|)
  {
    if bytes != [] {
      NumberBound(bytes[..|bytes| - 1]);
    }
  }

  /** Writing then reading returns every number that fits. */
  lemma {:induction false} NumberOfBytes(n: nat, k: nat)
    requires n < Pow256(k)
    ensures Number(Bytes(n, k)) == n
  {
    if k > 0 {
      NumberOfBytes(n / 256, k - 1);
      assert Bytes(n, k)[..k - 1] == Bytes(n / 256, k - 1);
    }
  }

  lemma {:induction false} Pow256Of2()
    ensures Pow256(2) == TWO_16
  {
    assert Pow256(2) == 256 * Pow256(1);
  }

  lemma {:induction false} Pow256Of4()
    ensures Pow256(4) == TWO_32
  {
    Pow256Of2();
    assert Pow256(4) == 256 * Pow256(3);
    assert Pow256(3) == 256 * Pow256(2);
  }

  const TWO_64 := 0x1_0000_0000_0000_0000

  lemma {:induction false} Pow256Of8()
    ensures Pow256(8) == TWO_64
  {
    Pow256Of4();
    assert Pow256(8) == 256 * Pow256(7);
    assert Pow256(7) == 256 * Pow256(6);
    assert Pow256(6) == 256 * Pow256(5);
    assert Pow256(5) == 256 * Pow256(4);
  }

  /** A 32-bit pattern read as a signed price. */
  function AsPrice(n: nat): Price
    requires n < TWO_32
  {
    if n <= INT32_MAX then n else n - TWO_32
  }

  function PriceBits(p: Price): (n: nat)
    ensures n < TWO_32
    ensures AsPrice(n) == p
  {
    if p >= 0 then p else p + TWO_32
  }

  // ---------------------------------------------------------------------------
  // Fields of a message

  function U16(p: seq<Byte>, at: nat): (n: nat)
    requires at + 2 <= |p|
    ensures n < TWO_16
  {
    NumberBound(p[at..at + 2]);
    Pow256Of2();
    Number(p[at..at + 2])
  }

  function U32(p: seq<Byte>, at: nat): Quantity
    requires at + 4 <= |p|
  {
    NumberBound(p[at..at + 4]);
    Pow256Of4();
    Number(p[at..at + 4])
  }

  function U64(p: seq<Byte>, at: nat): nat
    requires at + 8 <= |p|
  {
    Number(p[at..at + 8])
  }

  function Zeros(n: nat): (z: seq<Byte>)
    ensures |z| == n
  {
    seq(n, _ => 0)
  }

  lemma {:induction false} Read32(n: nat, p: seq<Byte>, at: nat)
    requires n < TWO_32 && at + 4 <= |p| && p[at..at + 4] == Bytes(n, 4)
    ensures U32(p, at) == n
  {
    Pow256Of4();
    NumberOfBytes(n, 4);
  }

  lemma {:induction false} Read64(n: nat, p: seq<Byte>, at: nat)
    requires n < TWO_64 && at + 8 <= |p| && p[at..at + 8] == Bytes(n, 8)
    ensures U64(p, at) == n
  {
    Pow256Of8();
    NumberOfBytes(n, 8);
  }

  // ---------------------------------------------------------------------------
  // Order tokens

  const TOKEN_SIZE := 14

  /** makeToken: the id in eight bytes, then six zero bytes. */
  function MakeToken(id: OrderId): (token: seq<Byte>)
    ensures |token| == TOKEN_SIZE
  {
    Bytes(id, 8) + [0, 0, 0, 0, 0, 0]
  }

  /** parseToken looks at the first eight bytes only. */
  function ParseToken(token: seq<Byte>): OrderId
    requires |token| == TOKEN_SIZE
  {
    Number(token[..8])
  }

  /** ownerOf: the slot in the high bits, or `slotCount` when there is no such slot. */
  function OwnerOf(slotCount: nat, id: OrderId): nat {
    if id / TWO_48 < slotCount then id / TWO_48 else slotCount
  }

  lemma {:induction false} IdFits(slot: nat, counter: nat)
    ensures MakeId(slot, counter) < TWO_64
    ensures MakeId(slot, counter) / TWO_48 == slot % TWO_16
    ensures MakeId(slot, counter) % TWO_48 == counter % TWO_48
  {
    var s, c := slot % TWO_16, counter % TWO_48;
    assert s * TWO_48 + c < TWO_16 * TWO_48;
    assert (s * TWO_48 + c) / TWO_48 == s;
  }

  lemma {:induction false} TokenRoundTrip(id: OrderId)
    requires id < TWO_64
    ensures ParseToken(MakeToken(id)) == id
  {
    Pow256Of8();
    NumberOfBytes(id, 8);
    assert MakeToken(id)[..8] == Bytes(id, 8);
  }

  /** Exactly when two allocations collide: the same slot, and counters a multiple of 2^48 apart. */
  lemma {:induction false} IdsEqualIff(slot: nat, counter: nat, slot': nat, counter': nat)
    requires slot < TWO_16 && slot' < TWO_16
    ensures MakeId(slot, counter) == MakeId(slot', counter') <==>
      slot == slot' && counter % TWO_48 == counter' % TWO_48
  {
    IdFits(slot, counter);
    IdFits(slot', counter');
  }

  /** next, makeToken, parseToken, ownerOf: a response comes back to the slot that sent the order. */
  lemma {:induction false} TokenFindsOwner(slotCount: nat, slot: nat, counter: nat)
    requires slot < slotCount <= TWO_16
    ensures OwnerOf(slotCount, ParseToken(MakeToken(MakeId(slot, counter)))) == slot
  {
    IdFits(slot, counter);
    TokenRoundTrip(MakeId(slot, counter));
  }

  /** The ids handed out for `slots`, one draw each, by one shared counter. */
  /** An id belongs to the slot in its high bits, if there is such a slot. */
  lemma {:induction false} OwnerIff(slotCount: nat, id: OrderId, s: nat)
    requires s < slotCount
    ensures OwnerOf(slotCount, id) == s <==> s * TWO_48 <= id < (s + 1) * TWO_48
    ensures OwnerOf(slotCount, id) <= slotCount
    ensures OwnerOf(slotCount, id) == slotCount <==> id >= slotCount * TWO_48
  {
    var q := id / TWO_48;
    assert q * TWO_48 <= id < (q + 1) * TWO_48;
    if q < s { assert (q + 1) * TWO_48 <= s * TWO_48; }
    if q > s { assert (s + 1) * TWO_48 <= q * TWO_48; }
    if q < slotCount { assert (q + 1) * TWO_48 <= slotCount * TWO_48; }
    if q >= slotCount { assert slotCount * TWO_48 <= q * TWO_48; }
  }

  function Allocations(slots: seq<nat>, counter: nat): (ids: seq<OrderId>)
    ensures |ids| == |slots|
    ensures forall i :: 0 <= i < |slots| ==> ids[i] == MakeId(slots[i], counter + i)
  {
    if slots == [] then [] else
      var rest := Allocations(slots[1..], counter + 1);
      [MakeId(slots[0], counter)] + rest
  }

  lemma {:induction false} NotCongruent(a: nat, d: nat, m: nat)
    requires 0 < d < m
    ensures a % m != (a + d) % m
  {
    var q, r := a / m, a % m;
    if r + d < m {
      QuotientIs(a + d, q, r + d, m);
    } else {
      QuotientIs(a + d, q + 1, r + d - m, m);
    }
  }

  lemma {:induction false} QuotientIs(n: int, q: int, r: int, m: int)
    requires 0 <= r < m && n == q * m + r
    ensures n % m == r
  {
    var e := n / m - q;
    assert n % m - r == -(e * m);
    assert e >= 1 ==> e * m >= m;
    assert e <= -1 ==> e * m <= -m;
  }

  lemma {:induction false} DrawsDiffer(slot: nat, counter: nat, slot': nat, later: nat)
    requires slot < TWO_16 && slot' < TWO_16 && 0 < later < TWO_48
    ensures MakeId(slot, counter) != MakeId(slot', counter + later)
  {
    IdsEqualIff(slot, counter, slot', counter + later);
    NotCongruent(counter, later, TWO_48);
  }

  /** Whatever slots draw and in whatever order, any 2^48 draws in a row are all different. */
  lemma {:induction false} AllocationsDistinct(slots: seq<nat>, counter: nat, i: nat, j: nat)
    requires forall k :: 0 <= k < |slots| ==> slots[k] < TWO_16
    requires i < j < |slots| && j - i < TWO_48
    ensures Allocations(slots, counter)[i] != Allocations(slots, counter)[j]
  {
    DrawsDiffer(slots[i], counter + i, slots[j], j - i);
  }
}
