/** Bytes, byte sequences and the big-endian integers of the archive framing. */
module Bytes {
  newtype byte = b: int | 0 <= b < 256

  datatype Option<+T> = None | Some(value: T)

  /** The concatenation of a sequence of sequences. */
  function Flatten<T>(parts: seq<seq<T>>): seq<T> {
    if parts == [] then [] else parts[0] + Flatten(parts[1..])
  }

  lemma {:induction false} FlattenConcat<T>(a: seq<seq<T>>, b: seq<seq<T>>)
    ensures Flatten(a + b) == Flatten(a) + Flatten(b)
  {
    if a == [] {
      assert a + b == b;
    } else {
      hide Flatten;
      FlattenConcat(a[1..], b);
      FlattenHead(a);
      FlattenHead(a + b);
      assert (a + b)[1..] == a[1..] + b;
      Associative(a[0], Flatten(a[1..]), Flatten(b));
    }
  }

  lemma FlattenHead<T>(a: seq<seq<T>>)
    requires a != []
    ensures Flatten(a) == a[0] + Flatten(a[1..])
  {
  }

  lemma Associative<T>(a: seq<T>, b: seq<T>, c: seq<T>)
    ensures (a + b) + c == a + (b + c)
  {
  }

  lemma FlattenSnoc<T>(a: seq<seq<T>>, last: seq<T>)
    ensures Flatten(a + [last]) == Flatten(a) + last
  {
    FlattenConcat(a, [last]);
    assert Flatten([last]) == last + Flatten<T>([]);
  }

  function Power256(width: nat): (r: nat)
    ensures r > 0
  {
    if width == 0 then 1 else 256 * Power256(width - 1)
  }

  /** The low `width` bytes of a value, most significant first. */
  function BigEndian(value: nat, width: nat): (r: seq<byte>)
    ensures |r| == width
  {
    if width == 0 then [] else BigEndian(value / 256, width - 1) + [(value % 256) as byte]
  }

  function FromBigEndian(s: seq<byte>): nat {
    if s == [] then 0 else 256 * FromBigEndian(s[..|s| - 1]) + s[|s| - 1] as nat
  }

  /** Decoding gives back the value reduced to the width of the field. */
  lemma {:induction false} BigEndianDecodes(value: nat, width: nat)
    ensures FromBigEndian(BigEndian(value, width)) == value % Power256(width)
  {
    if width > 0 {
      var s := BigEndian(value, width);
      BigEndianDecodes(value / 256, width - 1);
      assert s[..|s| - 1] == BigEndian(value / 256, width - 1);
      SplitMod(value, Power256(width - 1));
    }
  }

  /** Encoding gives back the bytes. */
  lemma {:induction false} BigEndianEncodes(s: seq<byte>)
    ensures BigEndian(FromBigEndian(s), |s|) == s
  {
    if s != [] {
      BigEndianEncodes(s[..|s| - 1]);
    }
  }

  lemma DivModUnique(x: int, m: int, q: int, r: int)
    requires m > 0 && 0 <= r < m && x == q * m + r
    ensures x / m == q && x % m == r
  {
    var d := q - x / m;
    assert d * m == x % m - r by {
      Distribute(q, x / m, m);
    }
    if d >= 1 {
      AtLeastOnce(d, m);
    } else if d <= -1 {
      AtLeastOnce(-d, m);
      Distribute(0, d, m);
    }
  }

  lemma Distribute(a: int, b: int, m: int)
    ensures (a - b) * m == a * m - b * m
  {
  }

  lemma AtLeastOnce(a: int, m: int)
    requires a >= 1 && m > 0
    ensures a * m >= m
  {
  }

  /** Base-256 digits: reducing modulo 256 * p reduces the upper digits modulo p. */
  lemma SplitMod(x: nat, p: nat)
    requires p > 0
    ensures x % (256 * p) == 256 * ((x / 256) % p) + x % 256
  {
    var y := x / 256;
    var q, r := y / p, y % p;
    Regroup(q, p);
    DivModUnique(x, 256 * p, q, 256 * r + x % 256);
  }

  lemma Regroup(q: int, p: int)
    ensures 256 * (q * p) == q * (256 * p)
  {
  }
}
