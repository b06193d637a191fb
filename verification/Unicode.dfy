/** Text as Python keeps it and as UTF-8 carries it (section 3.9 of the Unicode
    Standard): encode(), decode() and decode(errors='replace'). */
module Unicode {
  import opened Bytes

  /** A code point that UTF-8 can carry: no surrogate. */
  type Scalar = c: int | 0 <= c < 0xd800 || 0xe000 <= c < 0x11_0000

  type Text = seq<Scalar>

  const REPLACEMENT: Scalar := 0xfffd

  function Utf8One(c: Scalar): (b: Bytes)
    ensures 1 <= |b| <= 4
  {
    if c < 0x80 then [c]
    else if c < 0x800 then [0xc0 + c / 64, 0x80 + c % 64]
    else if c < 0x1_0000 then [0xe0 + c / 4096, 0x80 + c / 64 % 64, 0x80 + c % 64]
    else [0xf0 + c / 262144, 0x80 + c / 4096 % 64, 0x80 + c / 64 % 64, 0x80 + c % 64]
  }

  function Utf8(t: Text): Bytes {
    if t == [] then [] else Utf8One(t[0]) + Utf8(t[1..])
  }

  /** How many bytes a first byte calls for; 0 of one that begins nothing. */
  function Calls(first: byte): (n: nat)
    ensures n <= 4
  {
    if first < 0x80 then 1
    else if 0xc2 <= first < 0xe0 then 2
    else if 0xe0 <= first < 0xf0 then 3
    else if 0xf0 <= first < 0xf5 then 4
    else 0
  }

  /** The second byte: no form longer than it need be, no surrogate, nothing
      above the last code point. */
  predicate Second(first: byte, second: byte) {
    && Later(second)
    && (first == 0xe0 ==> second >= 0xa0)
    && (first == 0xed ==> second < 0xa0)
    && (first == 0xf0 ==> second >= 0x90)
    && (first == 0xf4 ==> second < 0x90)
  }

  predicate Later(b: byte) { 0x80 <= b < 0xc0 }

  /** How far b begins as some code point does. */
  function Good(b: Bytes): (n: nat)
    requires b != []
    ensures n <= |b| && n <= Calls(b[0])
  {
    var calls := Calls(b[0]);
    if calls <= 1 then calls
    else if |b| < 2 || !Second(b[0], b[1]) then 1
    else if calls == 2 || |b| < 3 || !Later(b[2]) then 2
    else if calls == 3 || |b| < 4 || !Later(b[3]) then 3
    else 4
  }

  /** A whole code point stands first. */
  predicate Begins(b: Bytes) {
    b != [] && Calls(b[0]) > 0 && Good(b) == Calls(b[0])
  }

  /** The six bits a later byte carries. */
  function Six(b: byte): (n: int)
    ensures Later(b) ==> 0 <= n < 64
  {
    b as int - 0x80
  }

  function FirstOf(b: Bytes): (c: Scalar)
    requires Begins(b)
  {
    var first: int := b[0];
    var calls := Calls(b[0]);
    if calls == 1 then first
    else if calls == 2 then (first - 0xc0) * 64 + Six(b[1])
    else if calls == 3 then (first - 0xe0) * 4096 + Six(b[1]) * 64 + Six(b[2])
    else (first - 0xf0) * 262144 + Six(b[1]) * 4096 + Six(b[2]) * 64 + Six(b[3])
  }

  /** What one turn goes over: a code point, or as much as began like one, but a
      byte at least. */
  function Over(b: Bytes): (n: nat)
    requires b != []
    ensures 0 < n <= |b|
  {
    if Good(b) == 0 then 1 else Good(b)
  }

  /** decode(errors='replace') */
  function Replaced(b: Bytes): Text
    decreases |b|
  {
    if b == [] then [] else [if Begins(b) then FirstOf(b) else REPLACEMENT] + Replaced(b[Over(b)..])
  }

  /** decode(); None is the UnicodeDecodeError. */
  function Decoded(b: Bytes): Option<Text>
    decreases |b|
  {
    if b == [] then Some([])
    else if !Begins(b) then None
    else
      match Decoded(b[Over(b)..])
      case None => None
      case Some(rest) => Some([FirstOf(b)] + rest)
  }

  lemma Sixes(c: Scalar)
    ensures c == c / 64 * 64 + c % 64
    ensures c / 64 == c / 4096 * 64 + c / 64 % 64
    ensures c / 4096 == c / 262144 * 64 + c / 4096 % 64
    ensures 0 <= c % 64 < 64 && 0 <= c / 64 % 64 < 64 && 0 <= c / 4096 % 64 < 64
  {
  }

  lemma OneShape(c: Scalar)
    ensures
      var x := Utf8One(c);
      && Calls(x[0]) == |x|
      && (|x| > 1 ==> Second(x[0], x[1])) && (|x| > 2 ==> Later(x[2])) && (|x| > 3 ==> Later(x[3]))
  {
    Sixes(c);
  }

  lemma OneValue(c: Scalar)
    ensures Begins(Utf8One(c)) && FirstOf(Utf8One(c)) == c
  {
    OneShape(c);
    Sixes(c);
  }

  lemma OneBegins(c: Scalar, rest: Bytes)
    ensures
      var x := Utf8One(c);
      var b := x + rest;
      Begins(b) && Over(b) == |x| && b[Over(b)..] == rest && FirstOf(b) == c
  {
    hide Utf8One, Second, Calls, Later;
    OneShape(c);
    OneValue(c);
    var x := Utf8One(c);
    var b := x + rest;
    assert forall i | 0 <= i < |x| :: b[i] == x[i];
  }

  lemma LowSix(high: nat, low: nat)
    requires low < 64
    ensures (high * 64 + low) / 64 == high && (high * 64 + low) % 64 == low
  {
  }

  lemma HigherSixes(c: nat)
    ensures c / 4096 == c / 64 / 64 && c / 262144 == c / 64 / 64 / 64
  {
  }

  lemma TwoAsWritten(p: byte, q: byte)
    requires Calls(p) == 2 && Second(p, q)
    ensures var c := (p as int - 0xc0) * 64 + Six(q); 0x80 <= c < 0x800 && c / 64 == p - 0xc0 && c % 64 == Six(q)
  {
  }

  lemma ThreeAsWritten(p: byte, q: byte, r: byte)
    requires Calls(p) == 3 && Second(p, q) && Later(r)
    ensures
      var c := (p as int - 0xe0) * 4096 + Six(q) * 64 + Six(r);
      0x800 <= c < 0x1_0000 && c / 4096 == p - 0xe0 && c / 64 % 64 == Six(q) && c % 64 == Six(r)
  {
  }

  lemma FourAsWritten(p: byte, q: byte, r: byte, s: byte)
    requires Calls(p) == 4 && Second(p, q) && Later(r) && Later(s)
    ensures
      var c := (p as int - 0xf0) * 262144 + Six(q) * 4096 + Six(r) * 64 + Six(s);
      && 0x1_0000 <= c && c / 262144 == p - 0xf0
      && c / 4096 % 64 == Six(q) && c / 64 % 64 == Six(r) && c % 64 == Six(s)
  {
    var a, x, y, z := p - 0xf0, Six(q), Six(r), Six(s);
    LowSix((a * 64 + x) * 64 + y, z);
    LowSix(a * 64 + x, y);
    LowSix(a, x);
    HigherSixes(((a * 64 + x) * 64 + y) * 64 + z);
  }

  /** The other way: what stands first is what its code point is written as. */
  lemma BeginsAsWritten(b: Bytes)
    requires Begins(b)
    ensures Over(b) == Calls(b[0]) && b[..Over(b)] == Utf8One(FirstOf(b))
  {
    hide Second;
    var calls := Calls(b[0]);
    if calls == 2 {
      TwoAsWritten(b[0], b[1]);
    } else if calls == 3 {
      ThreeAsWritten(b[0], b[1], b[2]);
    } else if calls == 4 {
      FourAsWritten(b[0], b[1], b[2], b[3]);
    }
  }

  lemma {:induction false} ReplacedInverts(t: Text, rest: Bytes)
    ensures Replaced(Utf8(t) + rest) == t + Replaced(rest)
    decreases t
  {
    hide Begins, Over, FirstOf, Utf8One;
    if t == [] {
      assert [] + rest == rest && [] + Replaced(rest) == Replaced(rest);
    } else {
      var more := Utf8(t[1..]) + rest;
      OneBegins(t[0], more);
      assert Utf8(t) + rest == Utf8One(t[0]) + more;
      ReplacedInverts(t[1..], rest);
      assert [t[0]] + (t[1..] + Replaced(rest)) == t + Replaced(rest);
    }
  }

  /** decode takes exactly what encode writes, and gives it back. */
  lemma {:induction false} DecodedIffWritten(b: Bytes, t: Text)
    ensures Decoded(b) == Some(t) <==> b == Utf8(t)
    decreases |b|
  {
    hide Begins, Over, FirstOf, Utf8One;
    if b != [] {
      if t != [] {
        OneBegins(t[0], Utf8(t[1..]));
        assert t == [t[0]] + t[1..];
      }
      if t != [] && Begins(b) {
        BeginsAsWritten(b);
        DecodedIffWritten(b[Over(b)..], t[1..]);
        assert b == b[..Over(b)] + b[Over(b)..];
      }
    }
  }

  /** A code point cut short is one replacement character. */
  lemma OneCutShort(c: Scalar, k: nat)
    requires 0 < k < |Utf8One(c)|
    ensures Replaced(Utf8One(c)[..k]) == [REPLACEMENT]
    ensures Utf8One(c)[k - 1] != 0
  {
    hide Utf8One, Second, Calls, Later;
    OneShape(c);
    NoZeroInside(c);
    var x := Utf8One(c)[..k];
    assert Good(x) == k && !Begins(x);
    assert Replaced(x[Over(x)..]) == [];
  }

  lemma NoZeroInside(c: Scalar)
    ensures |Utf8One(c)| > 1 ==> forall i | 0 <= i < |Utf8One(c)| :: Utf8One(c)[i] != 0
    ensures c != 0 ==> Utf8One(c)[|Utf8One(c)| - 1] != 0
  {
  }

  lemma {:induction false} Utf8More(t: Text, u: Text)
    ensures Utf8(t + u) == Utf8(t) + Utf8(u)
    decreases t
  {
    hide Utf8One;
    if t == [] {
      assert t + u == u;
    } else {
      assert (t + u)[1..] == t[1..] + u;
      Utf8More(t[1..], u);
      assert Utf8One(t[0]) + (Utf8(t[1..]) + Utf8(u)) == Utf8One(t[0]) + Utf8(t[1..]) + Utf8(u);
    }
  }

  /** How many code points stand whole in the first n bytes. */
  function Kept(t: Text, n: nat): (k: nat)
    requires n < |Utf8(t)|
    ensures k < |t|
    decreases t
  {
    var one := |Utf8One(t[0])|;
    if n < one then 0 else 1 + Kept(t[1..], n - one)
  }

  /** A text cut after n bytes: the code points kept, and a replacement character
      if one was cut in two. */
  lemma {:induction false} TextCutShort(t: Text, n: nat)
    requires n < |Utf8(t)|
    ensures
      var k := Kept(t, n);
      var whole := |Utf8(t[..k])|;
      && whole <= n < whole + |Utf8One(t[k])|
      && Replaced(Utf8(t)[..n]) == t[..k] + (if whole == n then [] else [0xfffd])
      && (if whole == n then Utf8(t)[..n] == Utf8(t[..k]) else Utf8(t)[n - 1] != 0)
    decreases t
  {
    hide Utf8One, Replaced;
    var x, later := Utf8One(t[0]), Utf8(t[1..]);
    if n < |x| {
      assert Utf8(t)[..n] == x[..n];
      if n == 0 { ReplacedNothing(); } else { OneCutShort(t[0], n); }
    } else {
      var k := Kept(t[1..], n - |x|);
      TextCutShort(t[1..], n - |x|);
      assert t[..k + 1] == [t[0]] + t[1..][..k];
      Utf8More([t[0]], t[1..][..k]);
      Utf8OfOne(t[0]);
      assert Utf8(t)[..n] == Utf8([t[0]]) + later[..n - |x|];
      ReplacedInverts([t[0]], later[..n - |x|]);
    }
  }

  lemma ReplacedNothing()
    ensures Replaced([]) == []
  {
  }

  lemma Utf8OfOne(c: Scalar)
    ensures Utf8([c]) == Utf8One(c)
  {
    assert Utf8([]) == [];
  }

  lemma {:induction false} EndsInNul(t: Text)
    requires t != []
    ensures var b := Utf8(t); b != [] && (b[|b| - 1] == 0 <==> t[|t| - 1] == 0)
    decreases t
  {
    if |t| == 1 {
      assert t == [t[0]];
      Utf8OfOne(t[0]);
      NoZeroInside(t[0]);
    } else {
      EndsInNul(t[1..]);
    }
  }
}
