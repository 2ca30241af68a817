// The 64-bit ids of node/common/item_id.go and the store keys made of them.

module ItemIDs {
  import G = GoInt

  const TWO_64 := 0x1_0000_0000_0000_0000
  const TWO_63 := 0x8000_0000_0000_0000

  type Byte = x: int | 0 <= x < 0x100
  type Uint64 = x: int | 0 <= x < TWO_64
  type Int64 = x: int | -TWO_63 <= x < TWO_63
  type ItemID = s: seq<Byte> | |s| == 8 witness [0, 0, 0, 0, 0, 0, 0, 0]

  // Conversions between the signed and the unsigned type keep the bits.
  function ToUint64(x: Int64): Uint64
  {
    if x >= 0 then x else x + TWO_64
  }

  function ToInt64(u: Uint64): Int64
  {
    if u < TWO_63 then u else u - TWO_64
  }

  // The last k bytes of a number, the most significant first.
  function BigEndian(i: nat, k: nat): (s: seq<Byte>)
    ensures |s| == k
  {
    if k == 0 then [] else BigEndian(i / 0x100, k - 1) + [i % 0x100]
  }

  function Value(s: seq<Byte>): nat
  {
    if s == [] then 0 else Value(s[..|s| - 1]) * 0x100 + s[|s| - 1]
  }

  function Power(k: nat): (p: nat)
    ensures p > 0
  {
    if k == 0 then 1 else 0x100 * Power(k - 1)
  }

  function EncodeItemID(i: Uint64): ItemID
  {
    BigEndian(i, 8)
  }

  function Uint64Of(n: ItemID): Uint64
  {
    ValueBound(n);
    PowerOfEight();
    Value(n)
  }

  function Int64Of(n: ItemID): Int64
  {
    ToInt64(Uint64Of(n))
  }

  // The key under which the stores file an id, as AddTask and executeJobs build it.
  function KeyOf(id: Int64): ItemID
  {
    EncodeItemID(ToUint64(id))
  }

  // ---- Laws ----

  lemma PowerOfEight()
    ensures Power(8) == TWO_64
  {
    assert Power(4) == 0x1_0000_0000;
  }

  lemma {:induction false} ValueBound(s: seq<Byte>)
    ensures Value(s) < Power(|s|)
  {
    if s != [] {
      ValueBound(s[..|s| - 1]);
    }
  }

  lemma {:induction false} ValueOfBytes(i: nat, k: nat)
    requires i < Power(k)
    ensures Value(BigEndian(i, k)) == i
  {
    if k > 0 {
      ValueOfBytes(i / 0x100, k - 1);
    }
  }

  lemma {:induction false} BytesOfValue(s: seq<Byte>)
    ensures BigEndian(Value(s), |s|) == s
  {
    if s != [] {
      BytesOfValue(s[..|s| - 1]);
    }
  }

  // Byte j of k holds what a right shift by 8 * (k - 1 - j) bits leaves in the lowest byte.
  lemma {:induction false} ByteIsShift(i: nat, k: nat, j: nat)
    requires j < k
    ensures BigEndian(i, k)[j] == i / Power(k - 1 - j) % 0x100
  {
    if j < k - 1 {
      ByteIsShift(i / 0x100, k - 1, j);
      DivDiv(i, 0x100, Power(k - 2 - j));
    }
  }

  lemma DivDiv(i: nat, a: nat, b: nat)
    requires a > 0 && b > 0
    ensures a * b > 0 && i / a / b == i / (a * b)
  {
    var q, r, s := i / a / b, i / a % b, i % a;
    assert i == (q * b + r) * a + s;
    assert (q * b + r) * a == q * (a * b) + r * a;
    assert r * a + s < a * b by {
      assert r * a <= (b - 1) * a;
    }
    G.DivModUnique(i, a * b, q, r * a + s);
  }

  // Ids and keys are in bijection, so no two ids share a key and every key is the key of its own Int64.
  lemma KeyRoundTrip(id: Int64, n: ItemID)
    ensures Int64Of(KeyOf(id)) == id
    ensures KeyOf(Int64Of(n)) == n
    ensures Uint64Of(EncodeItemID(ToUint64(id))) == ToUint64(id)
  {
    PowerOfEight();
    ValueOfBytes(ToUint64(id), 8);
    BytesOfValue(n);
  }

  // The conversions keep the value modulo 2^64, so a key holds the bytes of the number itself if it is not negative.
  lemma SameBits(id: Int64, u: Uint64)
    ensures (ToUint64(id) - id) % TWO_64 == 0 && (ToInt64(u) - u) % TWO_64 == 0
    ensures Value(KeyOf(id)) == if id >= 0 then id else id + 0x1_0000_0000_0000_0000
  {
    PowerOfEight();
    ValueOfBytes(ToUint64(id), 8);
  }

  lemma KeysDistinct(a: Int64, b: Int64)
    ensures KeyOf(a) == KeyOf(b) <==> a == b
  {
    KeyRoundTrip(a, KeyOf(b));
    KeyRoundTrip(b, KeyOf(a));
  }
}
