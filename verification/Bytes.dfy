/** Byte strings: little-endian numbers, slices as Python takes them, and one
    string standing in another. */
module Bytes {
  type byte = b: int | 0 <= b < 256
  type Bytes = seq<byte>
  type u32 = n: int | 0 <= n < 0x1_0000_0000
  type u64 = n: int | 0 <= n < 0x1_0000_0000_0000_0000
  type Hash = h: Bytes | |h| == 32 witness seq(32, _ => 0)

  /** Any digest: the proofs never look inside it. */
  type Hasher = Bytes -> Hash

  datatype Option<+T> = None | Some(value: T)

  function Min(a: int, b: int): int { if a <= b then a else b }

  function Pow256(n: nat): (p: nat)
    ensures p >= 1
  {
    if n == 0 then 1 else 256 * Pow256(n - 1)
  }

  function Pow2(k: nat): (p: nat)
    ensures p >= 1
  {
    if k == 0 then 1 else 2 * Pow2(k - 1)
  }

  function LeValue(bs: Bytes): nat {
    if bs == [] then 0 else bs[0] + 256 * LeValue(bs[1..])
  }

  /** int.from_bytes(b[at:at + width], 'little'): what a slice cut short by the
      end of the string still holds. */
  function NumberAt(b: Bytes, at: nat, width: nat): nat
    decreases width
  {
    if width == 0 || at >= |b| then 0 else b[at] + 256 * NumberAt(b, at + 1, width - 1)
  }

  lemma {:induction false} NumberAtIsSliced(b: Bytes, at: nat, width: nat)
    ensures NumberAt(b, at, width) == LeValue(Slice(b, at, at + width))
    decreases width
  {
    if width > 0 && at < |b| {
      NumberAtIsSliced(b, at + 1, width - 1);
      assert Slice(b, at, at + width)[1..] == Slice(b, at + 1, at + width);
    }
  }

  function LeBytes(n: nat, width: nat): (bs: Bytes)
    ensures |bs| == width
  {
    if width == 0 then [] else [n % 256] + LeBytes(n / 256, width - 1)
  }

  lemma {:induction false} LeRoundTrip(n: nat, width: nat)
    requires n < Pow256(width)
    ensures LeValue(LeBytes(n, width)) == n
  {
    if width > 0 {
      LeRoundTrip(n / 256, width - 1);
      assert LeBytes(n, width)[1..] == LeBytes(n / 256, width - 1);
    }
  }

  lemma LowByte(low: byte, rest: nat)
    ensures (low + 256 * rest) % 256 == low && (low + 256 * rest) / 256 == rest
  {
  }

  lemma {:induction false} LeValueRoundTrip(bs: Bytes)
    ensures LeValue(bs) < Pow256(|bs|)
    ensures LeBytes(LeValue(bs), |bs|) == bs
  {
    if bs != [] {
      LeValueRoundTrip(bs[1..]);
      LowByte(bs[0], LeValue(bs[1..]));
      assert bs == [bs[0]] + bs[1..];
    }
  }

  /** One more byte at the top. */
  lemma {:induction false} LeValueSnoc(bs: Bytes, b: byte)
    ensures LeValue(bs + [b]) == LeValue(bs) + b * Pow256(|bs|)
  {
    if bs == [] {
      assert bs + [b] == [b];
    } else {
      LeValueSnoc(bs[1..], b);
      assert (bs + [b])[1..] == bs[1..] + [b];
    }
  }

  lemma Pow256Values()
    ensures Pow256(1) == 0x100
    ensures Pow256(2) == 0x1_0000
    ensures Pow256(4) == 0x1_0000_0000
    ensures Pow256(7) == 0x100_0000_0000_0000
    ensures Pow256(8) == 0x1_0000_0000_0000_0000
  {
    assert Pow256(2) == 256 * Pow256(1);
    assert Pow256(3) == 256 * Pow256(2);
    assert Pow256(5) == 256 * Pow256(4);
    assert Pow256(6) == 256 * Pow256(5);
    assert Pow256(7) == 256 * Pow256(6);
  }

  /** b[i:j] as Python takes it: short, never an error, past the end. */
  function Slice(b: Bytes, i: nat, j: nat): (s: Bytes)
    ensures i <= j <= |b| ==> s == b[i..j]
  {
    var lo := Min(i, |b|);
    var hi := Min(j, |b|);
    if lo <= hi then b[lo..hi] else []
  }

  function Zeros(n: nat): (z: Bytes)
    ensures |z| == n
  {
    seq(n, _ => 0)
  }

  /** s stands in b at this offset. */
  ghost predicate At(b: Bytes, at: nat, s: Bytes) {
    at + |s| <= |b| && b[at..at + |s|] == s
  }

  lemma AtSplit(b: Bytes, at: nat, s: Bytes, t: Bytes)
    ensures At(b, at, s + t) <==> At(b, at, s) && At(b, at + |s|, t)
  {
    if at + |s| + |t| <= |b| {
      var whole := b[at..at + |s| + |t|];
      assert whole[..|s|] == b[at..at + |s|];
      assert whole[|s|..] == b[at + |s|..at + |s| + |t|];
      assert whole == whole[..|s|] + whole[|s|..];
      if whole == s + t {
        assert whole[..|s|] == s && whole[|s|..] == t;
      }
    }
  }

  /** Two counted runs, one behind the other. */
  lemma AtFour(b: Bytes, at: nat, p: Bytes, q: Bytes, r: Bytes, s: Bytes)
    requires At(b, at, p + q + (r + s))
    ensures At(b, at, p) && At(b, at + |p|, q) && At(b, at + |p| + |q|, r) && At(b, at + |p| + |q| + |r|, s)
  {
    AtSplit(b, at, p + q, r + s);
    AtSplit(b, at, p, q);
    AtSplit(b, at + |p| + |q|, r, s);
  }

  lemma AtFive(b: Bytes, at: nat, p: Bytes, q: Bytes, r: Bytes, s: Bytes, t: Bytes)
    requires At(b, at, p + q + r + s + t)
    ensures At(b, at, p) && At(b, at + |p|, q) && At(b, at + |p| + |q|, r)
    ensures At(b, at + |p| + |q| + |r|, s) && At(b, at + |p| + |q| + |r| + |s|, t)
  {
    AtSplit(b, at, p + q + r + s, t);
    AtSplit(b, at, p + q + r, s);
    AtSplit(b, at, p + q, r);
    AtSplit(b, at, p, q);
  }

  lemma AtWithin(pre: Bytes, s: Bytes, post: Bytes)
    ensures At(pre + s + post, |pre|, s)
  {
  }

  lemma PrependToThree(x: Bytes, a: Bytes, b: Bytes, c: Bytes)
    ensures x + (a + b + c) == (x + a) + b + c
  {
  }

  lemma Regroup(head: Bytes, a: Bytes, b: Bytes, c: Bytes, d: Bytes)
    ensures head + a + b + c + d == head + (a + b + (c + d))
  {
  }
}
