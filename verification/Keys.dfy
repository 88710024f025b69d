/** Store keys: big-endian heights and IDs, the byte order of the store, and the range ends used by the iterators. */
module Keys {
  import opened Prelude

  newtype byte = x: int | 0 <= x < 256
  type Bytes = seq<byte>

  const U64: int := 0x1_0000_0000_0000_0000

  /** The k lowest base-256 digits of n, most significant first. */
  function BigEndian(n: nat, k: nat): (r: Bytes)
    ensures |r| == k
  {
    if k == 0 then [] else BigEndian(n / 256, k - 1) + [(n % 256) as byte]
  }

  function FromBigEndian(b: Bytes): nat {
    if b == [] then 0 else FromBigEndian(b[..|b| - 1]) * 256 + b[|b| - 1] as int
  }

  function Uint64Key(n: nat): Bytes {
    BigEndian(n, 8)
  }

  /** GetAtomicSwapByHeightKey: eight bytes of height, then the ID. */
  function HeightKey(height: nat, id: Bytes): Bytes {
    Uint64Key(height) + id
  }

  /** bytes.Compare(a, b) < 0. */
  predicate Less(a: Bytes, b: Bytes) {
    if b == [] then false
    else if a == [] then true
    else if a[0] != b[0] then a[0] < b[0]
    else Less(a[1..], b[1..])
  }

  /** sdk.PrefixEndBytes: the least key above every key with this prefix; None (no bound) if there is none. */
  function PrefixEnd(p: Bytes): Option<Bytes> {
    if p == [] then None
    else
      var last := p[|p| - 1];
      if last != 255 then Some(p[..|p| - 1] + [last + 1]) else PrefixEnd(p[..|p| - 1])
  }

  predicate BelowEnd(key: Bytes, end: Option<Bytes>) {
    end.None? || Less(key, end.value)
  }

  // ---------------------------------------------------------------- numbers and bytes

  predicate FitsIn(n: nat, k: nat) {
    if k == 0 then n == 0 else FitsIn(n / 256, k - 1)
  }

  lemma U64FitsInEightBytes(n: nat)
    requires n < U64
    ensures FitsIn(n, 8)
  {
    var n1 := n / 256;
    var n2 := n1 / 256;
    var n3 := n2 / 256;
    var n4 := n3 / 256;
    var n5 := n4 / 256;
    var n6 := n5 / 256;
    var n7 := n6 / 256;
    assert n7 / 256 == 0;
    assert FitsIn(n7, 1);
    assert FitsIn(n6, 2);
    assert FitsIn(n5, 3);
    assert FitsIn(n4, 4);
    assert FitsIn(n3, 5);
    assert FitsIn(n2, 6);
    assert FitsIn(n1, 7);
  }

  /** Decoding undoes encoding. */
  lemma {:induction false} BigEndianRoundTrip(n: nat, k: nat)
    requires FitsIn(n, k)
    ensures FromBigEndian(BigEndian(n, k)) == n
    decreases k
  {
    if k > 0 {
      BigEndianRoundTrip(n / 256, k - 1);
      var b := BigEndian(n, k);
      assert b[..|b| - 1] == BigEndian(n / 256, k - 1);
    }
  }

  /** Encoding undoes decoding, whatever the bytes. */
  lemma {:induction false} FromBigEndianRoundTrip(b: Bytes)
    ensures BigEndian(FromBigEndian(b), |b|) == b
    decreases |b|
  {
    if b != [] {
      FromBigEndianRoundTrip(b[..|b| - 1]);
      assert b == b[..|b| - 1] + [b[|b| - 1]];
    }
  }

  lemma {:induction false} LessSnoc(a: Bytes, b: Bytes, x: byte, y: byte)
    requires |a| == |b|
    ensures Less(a + [x], b + [y]) <==> Less(a, b) || (a == b && x < y)
    decreases |a|
  {
    if a == [] {
      assert a + [x] == [x] && b + [y] == [y];
      assert [x][1..] == [] == [y][1..];
    } else {
      assert (a + [x])[1..] == a[1..] + [x] && (b + [y])[1..] == b[1..] + [y];
      LessSnoc(a[1..], b[1..], x, y);
      assert a == [a[0]] + a[1..] && b == [b[0]] + b[1..];
    }
  }

  /** Keys of equal length are ordered as the numbers they encode. */
  lemma {:induction false} LessIsNumericOrder(a: Bytes, b: Bytes)
    requires |a| == |b|
    ensures Less(a, b) <==> FromBigEndian(a) < FromBigEndian(b)
    decreases |a|
  {
    if a != [] {
      var a', b' := a[..|a| - 1], b[..|b| - 1];
      assert a == a' + [a[|a| - 1]] && b == b' + [b[|b| - 1]];
      LessSnoc(a', b', a[|a| - 1], b[|b| - 1]);
      LessIsNumericOrder(a', b');
      FromBigEndianRoundTrip(a');
      FromBigEndianRoundTrip(b');
    }
  }

  // ---------------------------------------------------------------- ranges

  lemma {:induction false} PrefixEndCons(x: byte, p: Bytes)
    ensures PrefixEnd([x] + p) ==
            if PrefixEnd(p).Some? then Some([x] + PrefixEnd(p).value) else if x != 255 then Some([x + 1]) else None
    decreases |p|
  {
    var q := [x] + p;
    if p == [] {
      assert q == [x] && q[..0] == [];
      if x != 255 {
        assert q[..0] + [x + 1] == [x + 1];
      }
    } else {
      assert q[..|q| - 1] == [x] + p[..|p| - 1];
      if p[|p| - 1] != 255 {
        assert q[..|q| - 1] + [q[|q| - 1] + 1] == [x] + (p[..|p| - 1] + [p[|p| - 1] + 1]);
      } else {
        PrefixEndCons(x, p[..|p| - 1]);
      }
    }
  }

  /** Below the end of a prefix are exactly the keys whose leading bytes do not exceed the prefix. */
  lemma {:induction false} BelowEndIffHeadNotAbove(a: Bytes, rest: Bytes, p: Bytes)
    requires |a| == |p|
    ensures BelowEnd(a + rest, PrefixEnd(p)) <==> !Less(p, a)
    decreases |p|
  {
    if p != [] {
      var x, p', a' := p[0], p[1..], a[1..];
      assert p == [x] + p';
      PrefixEndCons(x, p');
      BelowEndIffHeadNotAbove(a', rest, p');
      var key := a + rest;
      assert key[1..] == a' + rest && key[0] == a[0];
      if PrefixEnd(p').Some? {
        var end := [x] + PrefixEnd(p').value;
        assert end[1..] == PrefixEnd(p').value;
      } else if x != 255 {
        var end := [x + 1];
        assert end[1..] == [] && PrefixEnd(p) == Some(end);
        assert !Less(key[1..], end[1..]);
        assert Less(key, end) <==> key[0] < end[0];
        assert Less(key, end) <==> a[0] <= x;
      }
    }
  }

  /** The iterator range up to PrefixEndBytes(bigEndian(cutoff)) holds exactly the heights up to the cutoff,
      also at the cutoff that is all 0xFF bytes and has no end. */
  lemma RangeSelectsHeightsUpTo(height: nat, id: Bytes, cutoff: nat)
    requires height < U64 && cutoff < U64
    ensures BelowEnd(HeightKey(height, id), PrefixEnd(Uint64Key(cutoff))) <==> height <= cutoff
  {
    BelowEndIffHeadNotAbove(Uint64Key(height), id, Uint64Key(cutoff));
    LessIsNumericOrder(Uint64Key(cutoff), Uint64Key(height));
    U64FitsInEightBytes(height);
    U64FitsInEightBytes(cutoff);
    BigEndianRoundTrip(height, 8);
    BigEndianRoundTrip(cutoff, 8);
  }

  /** Different entries have different keys, and the ID can be read back from the key. */
  lemma HeightKeyInjective(h1: nat, id1: Bytes, h2: nat, id2: Bytes)
    requires h1 < U64 && h2 < U64
    ensures HeightKey(h1, id1) == HeightKey(h2, id2) ==> h1 == h2 && id1 == id2
    ensures HeightKey(h1, id1)[8..] == id1
  {
    if HeightKey(h1, id1) == HeightKey(h2, id2) {
      assert HeightKey(h1, id1)[..8] == Uint64Key(h1);
      assert HeightKey(h2, id2)[..8] == Uint64Key(h2);
      assert HeightKey(h1, id1)[8..] == id1;
      assert HeightKey(h2, id2)[8..] == id2;
      U64FitsInEightBytes(h1);
      U64FitsInEightBytes(h2);
      BigEndianRoundTrip(h1, 8);
      BigEndianRoundTrip(h2, 8);
    }
  }

  /** binary.BigEndian.PutUint64 into a fresh buffer. */
  method Uint64ToBytes(n: nat) returns (b: Bytes)
    requires n < U64
    ensures b == Uint64Key(n) && FromBigEndian(b) == n
  {
    var buffer := new byte[8](_ => 0);
    var rest, i := n, 8;
    while i > 0
      invariant 0 <= i <= 8
      invariant BigEndian(rest, i) + buffer[i..] == BigEndian(n, 8)
    {
      i := i - 1;
      ghost var tail := buffer[i + 1..];
      buffer[i] := (rest % 256) as byte;
      assert buffer[i..] == [(rest % 256) as byte] + tail;
      rest := rest / 256;
    }
    b := buffer[..];
    U64FitsInEightBytes(n);
    BigEndianRoundTrip(n, 8);
  }
}
