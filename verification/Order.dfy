/** Keys in the order the store holds them: byte by byte, the shorter first. */
module Order {
  import opened Bytes

  predicate Less(a: Bytes, b: Bytes) {
    b != [] && (a == [] || a[0] < b[0] || (a[0] == b[0] && Less(a[1..], b[1..])))
  }

  lemma {:induction false} Irreflexive(a: Bytes)
    ensures !Less(a, a)
  {
    if a != [] { Irreflexive(a[1..]); }
  }

  lemma {:induction false} Trichotomy(a: Bytes, b: Bytes)
    ensures a == b || Less(a, b) || Less(b, a)
    ensures Less(a, b) ==> !Less(b, a) && a != b
  {
    if a != [] && b != [] && a[0] == b[0] {
      Trichotomy(a[1..], b[1..]);
      assert a == [a[0]] + a[1..] && b == [b[0]] + b[1..];
    }
  }

  lemma {:induction false} Transitive(a: Bytes, b: Bytes, c: Bytes)
    requires Less(a, b) && Less(b, c)
    ensures Less(a, c)
  {
    if a != [] && a[0] == b[0] == c[0] { Transitive(a[1..], b[1..], c[1..]); }
  }

  /** Equally long fronts settle it unless they are equal. */
  lemma {:induction false} LessAppended(a: Bytes, s: Bytes, b: Bytes, t: Bytes)
    requires |a| == |b|
    ensures Less(a + s, b + t) <==> Less(a, b) || (a == b && Less(s, t))
  {
    if a == [] {
      assert a + s == s && b + t == t;
    } else {
      LessAppended(a[1..], s, b[1..], t);
      assert (a + s)[1..] == a[1..] + s && (b + t)[1..] == b[1..] + t;
      assert a == [a[0]] + a[1..] && b == [b[0]] + b[1..];
    }
  }

  predicate HasPrefix(key: Bytes, prefix: Bytes) {
    |prefix| <= |key| && key[..|prefix|] == prefix
  }

  lemma {:induction false} PrefixIsNotPassed(key: Bytes, prefix: Bytes)
    requires HasPrefix(key, prefix)
    ensures !Less(key, prefix)
  {
    if prefix != [] {
      assert key[1..][..|prefix| - 1] == prefix[1..];
      assert key[0] == key[..|prefix|][0];
      PrefixIsNotPassed(key[1..], prefix[1..]);
    }
  }

  /** Between a prefix and a key that has it, every key has it. */
  lemma {:induction false} PrefixIsContiguous(prefix: Bytes, key: Bytes, later: Bytes)
    requires !Less(key, prefix) && Less(key, later) && HasPrefix(later, prefix)
    ensures HasPrefix(key, prefix)
  {
    if prefix != [] {
      assert later[0] == later[..|prefix|][0];
      assert later[1..][..|prefix| - 1] == prefix[1..];
      PrefixIsContiguous(prefix[1..], key[1..], later[1..]);
      assert key == [key[0]] + key[1..] && prefix == [prefix[0]] + prefix[1..];
    }
  }

  /** n in so many bytes, the greatest first. */
  function BeBytes(n: nat, width: nat): (bs: Bytes)
    ensures |bs| == width
  {
    if width == 0 then [] else BeBytes(n / 256, width - 1) + [n % 256]
  }

  /** Big-endian bytes order as the numbers do. */
  lemma {:induction false} BigEndianOrder(m: nat, n: nat, width: nat)
    requires m < Pow256(width) && n < Pow256(width)
    ensures Less(BeBytes(m, width), BeBytes(n, width)) <==> m < n
    ensures BeBytes(m, width) == BeBytes(n, width) <==> m == n
  {
    if width > 0 {
      var a, b := BeBytes(m / 256, width - 1), BeBytes(n / 256, width - 1);
      BigEndianOrder(m / 256, n / 256, width - 1);
      LessAppended(a, [m % 256], b, [n % 256]);
      assert BeBytes(m, width)[..width - 1] == a && BeBytes(n, width)[..width - 1] == b;
      assert BeBytes(m, width)[width - 1] == m % 256 && BeBytes(n, width)[width - 1] == n % 256;
    }
  }
}
