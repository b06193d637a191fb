/** The Output keyspace under two encodings, as tools/keyspace-size writes it:
    readable text, and bytes. */
module Keyspace {
  import opened Bytes
  import opened Order
  import opened Store

  function HexDigit(d: nat): (c: byte)
    requires d < 16
  {
    if d < 10 then 48 + d else 87 + d
  }

  function Hex(bytes: Bytes): (text: Bytes)
    ensures |text| == 2 * |bytes|
  {
    if bytes == [] then [] else [HexDigit(bytes[0] / 16), HexDigit(bytes[0] % 16)] + Hex(bytes[1..])
  }

  function Decimal(n: nat): (text: Bytes)
    ensures text != []
  {
    if n < 10 then [48 + n] else Decimal(n / 10) + [48 + n % 10]
  }

  function Digits(n: nat, width: nat): (text: Bytes)
    ensures |text| == width
  {
    if width == 0 then [] else Digits(n / 10, width - 1) + [48 + n % 10]
  }

  /** {:05}: five digits, or all of them when there are more. */
  function FiveDigits(n: nat): Bytes {
    if n < 100_000 then Digits(n, 5) else Decimal(n)
  }

  /** o:hex(txid):00000 */
  function TextKey(txid: Bytes, index: u32): Bytes {
    [0x6f, 0x3a] + Hex(txid) + ([0x3a] + FiveDigits(index))
  }

  //
  // The two order alike.
  //

  lemma DigitOrder(d: nat, e: nat)
    requires d < 16 && e < 16
    ensures Less([HexDigit(d)], [HexDigit(e)]) <==> d < e
    ensures HexDigit(d) == HexDigit(e) <==> d == e
  {
    assert [HexDigit(d)][1..] == [] && [HexDigit(e)][1..] == [];
  }

  lemma HexPairOrder(a: byte, b: byte)
    ensures
      var p, q := [HexDigit(a / 16), HexDigit(a % 16)], [HexDigit(b / 16), HexDigit(b % 16)];
      (Less(p, q) <==> a < b) && (p == q <==> a == b)
  {
    var p, q := [HexDigit(a / 16), HexDigit(a % 16)], [HexDigit(b / 16), HexDigit(b % 16)];
    DigitOrder(a / 16, b / 16);
    DigitOrder(a % 16, b % 16);
    LessAppended([HexDigit(a / 16)], [HexDigit(a % 16)], [HexDigit(b / 16)], [HexDigit(b % 16)]);
    assert p == [HexDigit(a / 16)] + [HexDigit(a % 16)] && q == [HexDigit(b / 16)] + [HexDigit(b % 16)];
    assert p == q ==> p[0] == q[0] && p[1] == q[1];
  }

  lemma {:induction false} HexOrder(a: Bytes, b: Bytes)
    requires |a| == |b|
    ensures Less(Hex(a), Hex(b)) <==> Less(a, b)
    ensures Hex(a) == Hex(b) <==> a == b
  {
    if a != [] {
      var p, q := [HexDigit(a[0] / 16), HexDigit(a[0] % 16)], [HexDigit(b[0] / 16), HexDigit(b[0] % 16)];
      HexPairOrder(a[0], b[0]);
      HexOrder(a[1..], b[1..]);
      LessAppended(p, Hex(a[1..]), q, Hex(b[1..]));
      assert Hex(a)[..2] == p && Hex(b)[..2] == q && Hex(a)[2..] == Hex(a[1..]) && Hex(b)[2..] == Hex(b[1..]);
      assert a == [a[0]] + a[1..] && b == [b[0]] + b[1..];
    }
  }

  function Pow10(n: nat): (p: nat)
    ensures p >= 1
  {
    if n == 0 then 1 else 10 * Pow10(n - 1)
  }

  lemma {:induction false} DigitsOrder(m: nat, n: nat, width: nat)
    requires m < Pow10(width) && n < Pow10(width)
    ensures Less(Digits(m, width), Digits(n, width)) <==> m < n
    ensures Digits(m, width) == Digits(n, width) <==> m == n
  {
    if width > 0 {
      var a, b := Digits(m / 10, width - 1), Digits(n / 10, width - 1);
      DigitsOrder(m / 10, n / 10, width - 1);
      LessAppended(a, [48 + m % 10], b, [48 + n % 10]);
      assert Digits(m, width)[..width - 1] == a && Digits(n, width)[..width - 1] == b;
      assert Digits(m, width)[width - 1] == 48 + m % 10 && Digits(n, width)[width - 1] == 48 + n % 10;
    }
  }

  lemma SameFront(front: Bytes, s: Bytes, t: Bytes)
    ensures Less(front + s, front + t) <==> Less(s, t)
    ensures front + s == front + t <==> s == t
  {
    LessAppended(front, s, front, t);
    Irreflexive(front);
    assert (front + s)[|front|..] == s && (front + t)[|front|..] == t;
  }

  lemma SameLengthFronts(a: Bytes, s: Bytes, b: Bytes, t: Bytes)
    requires |a| == |b|
    ensures a + s == b + t <==> a == b && s == t
  {
    assert (a + s)[..|a|] == a && (b + t)[..|b|] == b;
    assert (a + s)[|a|..] == s && (b + t)[|b|..] == t;
  }

  lemma ByteSplit(a: Bytes, s: Bytes, b: Bytes, t: Bytes)
    requires |a| == |b|
    ensures Less([0x6f] + a + s, [0x6f] + b + t) <==> Less(a, b) || (a == b && Less(s, t))
    ensures [0x6f] + a + s == [0x6f] + b + t <==> a == b && s == t
  {
    hide Less;
    SameFront([0x6f], a, b);
    LessAppended([0x6f] + a, s, [0x6f] + b, t);
    SameLengthFronts([0x6f] + a, s, [0x6f] + b, t);
  }

  lemma TextSplit(a: Bytes, s: Bytes, b: Bytes, t: Bytes)
    requires |a| == |b|
    ensures Less([0x6f, 0x3a] + Hex(a) + ([0x3a] + s), [0x6f, 0x3a] + Hex(b) + ([0x3a] + t)) <==>
            Less(Hex(a), Hex(b)) || (Hex(a) == Hex(b) && Less(s, t))
    ensures [0x6f, 0x3a] + Hex(a) + ([0x3a] + s) == [0x6f, 0x3a] + Hex(b) + ([0x3a] + t) <==> Hex(a) == Hex(b) && s == t
  {
    hide Less;
    var front: Bytes := [0x6f, 0x3a];
    SameFront(front, Hex(a), Hex(b));
    SameFront([0x3a], s, t);
    LessAppended(front + Hex(a), [0x3a] + s, front + Hex(b), [0x3a] + t);
    SameLengthFronts(front + Hex(a), [0x3a] + s, front + Hex(b), [0x3a] + t);
  }

  //
  // Past five digits.
  //

  function DecimalWidth(n: nat): (w: nat)
    ensures w >= 1
  {
    if n < 10 then 1 else 1 + DecimalWidth(n / 10)
  }

  /** How many digits {:05} prints. */
  function TextWidth(n: nat): (w: nat)
    ensures w >= 1
  {
    if n < 100_000 then 5 else DecimalWidth(n)
  }

  lemma {:induction false} DecimalIsDigits(n: nat)
    ensures Decimal(n) == Digits(n, DecimalWidth(n))
    ensures n < Pow10(DecimalWidth(n))
  {
    if n < 10 {
      assert Digits(n, 1) == Digits(n / 10, 0) + [48 + n % 10];
      assert Pow10(1) == 10 * Pow10(0);
    } else {
      DecimalIsDigits(n / 10);
    }
  }

  lemma {:induction false} WidthGrows(m: nat, n: nat)
    requires m <= n
    ensures DecimalWidth(m) <= DecimalWidth(n)
  {
    if m >= 10 { WidthGrows(m / 10, n / 10); }
  }

  lemma FiveDigitsAreDigits(n: nat)
    ensures FiveDigits(n) == Digits(n, TextWidth(n))
    ensures n < Pow10(TextWidth(n))
  {
    assert Pow10(5) == 10 * Pow10(4) && Pow10(4) == 10 * Pow10(3) && Pow10(3) == 10 * Pow10(2);
    DecimalIsDigits(n);
  }

  lemma TextWidthGrows(m: nat, n: nat)
    requires m <= n
    ensures TextWidth(m) <= TextWidth(n)
  {
    WidthGrows(m, n);
    if n >= 100_000 {
      WidthGrows(100_000, n);
      assert DecimalWidth(100_000) == 6 by {
        assert DecimalWidth(1000) == 1 + DecimalWidth(100) && DecimalWidth(100) == 1 + DecimalWidth(10);
        assert DecimalWidth(100_000) == 1 + DecimalWidth(10_000) && DecimalWidth(10_000) == 1 + DecimalWidth(1000);
      }
    }
  }

  /** n with its last k digits off. */
  function WithoutLast(n: nat, k: nat): (front: nat)
    ensures k == 0 ==> front == n
  {
    if k == 0 then n else WithoutLast(n / 10, k - 1)
  }

  /** The first digits of a number are the digits of the number without its
      last ones. */
  lemma {:induction false} DigitsSplit(n: nat, width: nat, k: nat)
    requires n < Pow10(width + k)
    ensures Digits(n, width + k) == Digits(WithoutLast(n, k), width) + Digits(n, k)
    ensures WithoutLast(n, k) < Pow10(width)
    decreases k
  {
    if k == 0 {
      assert Digits(n, width) + Digits(n, 0) == Digits(n, width);
    } else {
      var front, last: Bytes := Digits(WithoutLast(n, k), width), [48 + n % 10];
      DigitsSplit(n / 10, width, k - 1);
      assert front + Digits(n / 10, k - 1) + last == front + (Digits(n / 10, k - 1) + last);
    }
  }

  /** Two texts, the longer one's of a greater number: the shorter comes first
      exactly when it is no more than the longer's first digits. */
  lemma TextOrder(m: u32, n: u32)
    requires m <= n
    ensures TextWidth(m) <= TextWidth(n)
    ensures
      var k := TextWidth(n) - TextWidth(m);
      && (Less(FiveDigits(m), FiveDigits(n)) <==> if k == 0 then m < n else m <= WithoutLast(n, k))
      && (FiveDigits(m) == FiveDigits(n) <==> m == n)
  {
    hide Less, FiveDigits, TextWidth;
    TextWidthGrows(m, n);
    FiveDigitsAreDigits(m);
    FiveDigitsAreDigits(n);
    var width, k := TextWidth(m), TextWidth(n) - TextWidth(m);
    DigitsSplit(n, width, k);
    DigitsOrder(m, WithoutLast(n, k), width);
    var text, front, back := Digits(m, width), Digits(WithoutLast(n, k), width), Digits(n, k);
    LessAppended(text, [], front, back);
    assert text + [] == text;
    EmptyFirst(back);
    if k == 0 {
      assert front + back == front;
    }
  }

  lemma EmptyFirst(t: Bytes)
    ensures Less([], t) <==> t != []
  {
  }

  /** Whether two indexes keep their order as text: the lesser is no more than
      the first digits of the greater, as many as its own text has. */
  predicate OrderSurvives(m: u32, n: u32) {
    var lo, hi := Min(m, n), if m <= n then n else m;
    TextWidth(lo) <= TextWidth(hi) && lo <= WithoutLast(hi, TextWidth(hi) - TextWidth(lo))
  }

  lemma IndexesAlike(m: u32, n: u32)
    ensures (Less(FiveDigits(m), FiveDigits(n)) <==> m < n) <==> OrderSurvives(m, n)
    ensures FiveDigits(m) == FiveDigits(n) <==> m == n
  {
    hide Less, FiveDigits, TextWidth;
    if m <= n {
      TextOrder(m, n);
    } else {
      TextOrder(n, m);
      Trichotomy(FiveDigits(m), FiveDigits(n));
    }
  }

  /** For any two keys of txids of one length: text and bytes compare alike
      exactly when the txids differ or the indexes keep their order as text. */
  lemma KeysOrderAlike(txid: Bytes, index: u32, other: Bytes, otherIndex: u32)
    requires |txid| == |other|
    ensures
      var asText := Less(TextKey(txid, index), TextKey(other, otherIndex));
      var asBytes := Less(OutputKey(txid, index), OutputKey(other, otherIndex));
      (asText <==> asBytes) <==> (txid != other || OrderSurvives(index, otherIndex))
    ensures TextKey(txid, index) == TextKey(other, otherIndex) <==> txid == other && index == otherIndex
    ensures OutputKey(txid, index) == OutputKey(other, otherIndex) <==> txid == other && index == otherIndex
  {
    hide Less, Hex, FiveDigits, BeBytes, OrderSurvives;
    HexOrder(txid, other);
    IndexesAlike(index, otherIndex);
    Pow256Values();
    BigEndianOrder(index, otherIndex, 4);
    TextSplit(txid, FiveDigits(index), other, FiveDigits(otherIndex));
    ByteSplit(txid, BeBytes(index, 4), other, BeBytes(otherIndex, 4));
    Irreflexive(txid);
  }

  /** Every pair below 100,000 keeps its order. */
  lemma FiveDigitsSurvive(m: u32, n: u32)
    requires m < 100_000 && n < 100_000
    ensures OrderSurvives(m, n)
  {
  }

  /** And that is the greatest bound under which every pair of keys does. */
  lemma KeysOrderAlikeBelow(txid: Bytes, bound: nat)
    requires bound <= 0x1_0000_0000
    ensures
      (forall m: u32, n: u32 | m < bound && n < bound ::
         Less(TextKey(txid, m), TextKey(txid, n)) <==> Less(OutputKey(txid, m), OutputKey(txid, n)))
      <==> bound <= 100_000
  {
    hide OrderSurvives, TextKey, OutputKey, Less;
    if bound <= 100_000 {
      forall m: u32, n: u32 | m < bound && n < bound
        ensures Less(TextKey(txid, m), TextKey(txid, n)) <==> Less(OutputKey(txid, m), OutputKey(txid, n))
      {
        FiveDigitsSurvive(m, n);
        KeysOrderAlike(txid, m, txid, n);
      }
    } else {
      SixDigitsTurn();
      KeysOrderAlike(txid, 99_999, txid, 100_000);
    }
  }

  lemma SixDigitsTurn()
    ensures !OrderSurvives(99_999, 100_000)
  {
    assert DecimalWidth(1000) == 1 + DecimalWidth(100) && DecimalWidth(100) == 1 + DecimalWidth(10);
    assert DecimalWidth(100_000) == 1 + DecimalWidth(10_000) && DecimalWidth(10_000) == 1 + DecimalWidth(1000);
    assert WithoutLast(100_000, 1) == WithoutLast(10_000, 0);
  }

  //
  // built
  //

  function Wrapped(n: u64, times: u64): u64 { n * times % 0x1_0000_0000_0000_0000 }

  function TxidOf(n: u64): (txid: Bytes)
    ensures |txid| == 32
  {
    BeBytes(n, 8) + BeBytes(Wrapped(n, 0x9E3779B97F4A7C15), 8)
    + BeBytes(Wrapped(n, 0xC2B2AE3D27D4EB4F), 8) + BeBytes(Wrapped(n, 0x165667B19E3779F9), 8)
  }

  function ScriptOf(n: u64): (script: Bytes)
    ensures |script| == 25
  {
    [0x76, 0xa9, 0x14] + TxidOf(n)[..20] + [0x88, 0xac]
  }

  /** The Output numbered n, under either encoding. */
  function Sampled(n: u64, asText: bool): Row {
    var index := n % 8;
    var value := (1_000_000 + n) % 0x1_0000_0000_0000_0000;
    if asText then Row(TextKey(TxidOf(n), index), Decimal(value) + [0x3a] + Hex(ScriptOf(n)))
    else Row(OutputKey(TxidOf(n), index), BeBytes(value, 8) + ScriptOf(n))
  }

  /** Two samples never share a key. */
  lemma SampledApart(m: u64, n: u64, asText: bool)
    ensures Sampled(m, asText).key == Sampled(n, asText).key <==> m == n
  {
    hide TextKey, OutputKey, BeBytes, Wrapped;
    if Sampled(m, asText).key == Sampled(n, asText).key {
      KeysOrderAlike(TxidOf(m), m % 8, TxidOf(n), n % 8);
      assert TxidOf(m)[..8] == BeBytes(m, 8) && TxidOf(n)[..8] == BeBytes(n, 8);
      Pow256Values();
      BigEndianOrder(m, n, 8);
    }
  }

  function Samples(count: nat, asText: bool): (rows: seq<Row>)
    requires count <= 0x1_0000_0000_0000_0000 - 1
    ensures |rows| == count
    ensures forall n {:trigger rows[n]} | 0 <= n < count :: rows[n] == Sampled(n, asText)
  {
    seq(count, n requires 0 <= n < count => Sampled(n, asText))
  }

  function PutsFor(rows: seq<Row>): seq<Op> {
    if rows == [] then []
    else
      var last := rows[|rows| - 1];
      PutsFor(rows[..|rows| - 1]) + [Put(last.key, last.value)]
  }

  lemma {:induction false} PutsForLatest(rows: seq<Row>)
    ensures MeantAll(map[], PutsFor(rows)) == Latest(rows)
  {
    if rows != [] {
      var n := |rows| - 1;
      PutsForLatest(rows[..n]);
      MeantMore(map[], PutsFor(rows[..n]), Put(rows[n].key, rows[n].value));
    }
  }

  /** The rows of a database into which every sample was put, one by one. */
  function BuiltRows(count: u64, asText: bool): (rows: seq<Row>)
    ensures Ascending(rows) && ContentsOf(rows) == Latest(Samples(count, asText))
  {
    WrittenAllMeant([], PutsFor(Samples(count, asText)));
    PutsForLatest(Samples(count, asText));
    WrittenAll([], PutsFor(Samples(count, asText)))
  }

  /** The loop, writing every 100,000 and once at the end. */
  method Built(count: u64, asText: bool) returns (db: Db)
    ensures fresh(db) && db.Valid()
    ensures db.rows == BuiltRows(count, asText)
  {
    hide Sampled;
    db := new Db();
    ghost var rows := Samples(count, asText);
    var batch: seq<Op> := [];
    assert rows[..0] == [];
    for n := 0 to count
      invariant db.Valid() && fresh(db)
      invariant MeantAll(db.Held(), batch) == Latest(rows[..n])
    {
      var one := Sampled(n, asText);
      MeantMore(db.Held(), batch, Put(one.key, one.value));
      assert rows[..n + 1][..n] == rows[..n];
      batch := batch + [Put(one.key, one.value)];
      if n % 100_000 == 99_999 {
        db.Write(batch);
        batch := [];
      }
    }
    assert rows[..count] == rows;
    db.Write(batch);
    ContentsFixTheRows(db.rows, BuiltRows(count, asText));
  }

  lemma {:induction false} ApartAreAsMany(rows: seq<Row>)
    requires forall i, j | 0 <= i < j < |rows| :: rows[i].key != rows[j].key
    ensures |Latest(rows)| == |rows|
    ensures forall k | k in Latest(rows) :: exists i :: 0 <= i < |rows| && rows[i].key == k
  {
    if rows != [] {
      var n := |rows| - 1;
      ApartAreAsMany(rows[..n]);
      var before := Latest(rows[..n]);
      assert rows[n].key !in before;
      assert Latest(rows).Keys == before.Keys + {rows[n].key};
    }
  }

  lemma SamplesApart(count: u64, asText: bool)
    ensures var rows := Samples(count, asText); forall i, j | 0 <= i < j < |rows| :: rows[i].key != rows[j].key
  {
    hide Sampled;
    var rows := Samples(count, asText);
    forall i, j | 0 <= i < j < count ensures rows[i].key != rows[j].key {
      SampledApart(i, j, asText);
    }
  }

  /** Whatever the count and wherever the batches ended, every Output is there
      under its own key with its own value, and nothing else is. */
  lemma BuiltHoldsEveryOutput(count: u64, asText: bool)
    ensures |Latest(Samples(count, asText))| == count
    ensures forall n: u64 | n < count ::
              var row := Sampled(n, asText);
              row.key in Latest(Samples(count, asText)) && Latest(Samples(count, asText))[row.key] == row.value
  {
    hide Sampled, Latest;
    var rows := Samples(count, asText);
    SamplesApart(count, asText);
    ApartAreAsMany(rows);
    forall n: u64 | n < count
      ensures Sampled(n, asText).key in Latest(rows) && Latest(rows)[Sampled(n, asText).key] == Sampled(n, asText).value
    {
      assert rows[n] == Sampled(n, asText);
      LatestIsTheLast(rows, n);
    }
  }

  /** Samples under either encoding stand in one order. */
  lemma SamplesOrderAlike(m: u64, n: u64)
    ensures Less(Sampled(m, true).key, Sampled(n, true).key) <==> Less(Sampled(m, false).key, Sampled(n, false).key)
  {
    hide TextKey, OutputKey;
    FiveDigitsSurvive(m % 8, n % 8);
    KeysOrderAlike(TxidOf(m), m % 8, TxidOf(n), n % 8);
  }

  ghost predicate IsSample(row: Row, n: u64, count: u64, asText: bool) {
    n < count && row == Sampled(n, asText)
  }

  /** The two encodings of one sample. */
  ghost predicate SameOutput(text: Row, bytes: Row, count: u64) {
    exists n: u64 :: IsSample(text, n, count, true) && IsSample(bytes, n, count, false)
  }

  lemma BuiltCount(count: u64, asText: bool)
    ensures |BuiltRows(count, asText)| == count
  {
    hide Latest, Sampled, BuiltRows;
    AsManyAsKeys(BuiltRows(count, asText));
    BuiltHoldsEveryOutput(count, asText);
  }

  lemma RowIsSample(count: u64, asText: bool, i: nat) returns (n: u64)
    requires i < count
    ensures i < |BuiltRows(count, asText)| && IsSample(BuiltRows(count, asText)[i], n, count, asText)
  {
    hide Sampled, Latest, BuiltRows;
    BuiltCount(count, asText);
    var rows, samples := BuiltRows(count, asText), Samples(count, asText);
    RowsAreContents(rows, i);
    SamplesApart(count, asText);
    ApartAreAsMany(samples);
    n :| 0 <= n < count && samples[n].key == rows[i].key;
    LatestIsTheLast(samples, n);
  }

  lemma SampleIsRow(count: u64, asText: bool, n: u64) returns (i: nat)
    requires n < count
    ensures i < count && i < |BuiltRows(count, asText)| && BuiltRows(count, asText)[i] == Sampled(n, asText)
  {
    hide Sampled, Latest, BuiltRows;
    BuiltCount(count, asText);
    BuiltHoldsEveryOutput(count, asText);
    var rows := BuiltRows(count, asText);
    ContentsAreRows(rows, Sampled(n, asText).key);
    i :| 0 <= i < |rows| && rows[i] == Sampled(n, asText);
  }

  /** Samples in earlier rows have lesser keys. */
  lemma RowsInOrder(count: u64, asText: bool, i: nat, j: nat, m: u64, n: u64)
    requires i < j < count
    requires j < |BuiltRows(count, asText)|
    requires IsSample(BuiltRows(count, asText)[i], m, count, asText)
    requires IsSample(BuiltRows(count, asText)[j], n, count, asText)
    ensures Less(Sampled(m, asText).key, Sampled(n, asText).key) && m != n
  {
    hide Sampled, Less, BuiltRows;
    var rows := BuiltRows(count, asText);
    assert Less(rows[i].key, rows[j].key);
    Irreflexive(rows[i].key);
  }

  /** Row i of both databases is the same sample. */
  lemma {:induction false} RowsPair(count: u64, i: nat) returns (n: u64)
    requires i < count
    ensures i < |BuiltRows(count, true)| && IsSample(BuiltRows(count, true)[i], n, count, true)
    ensures i < |BuiltRows(count, false)| && IsSample(BuiltRows(count, false)[i], n, count, false)
    decreases i, 1
  {
    hide Sampled, BuiltRows, Less;
    n := RowIsSample(count, true, i);
    var p := RowIsSample(count, false, i);
    if n != p {
      var j := SampleIsRow(count, false, n);
      var k := SampleIsRow(count, true, p);
      NotEarlier(count, true, i, n, j);
      NotEarlier(count, false, i, p, k);
      SampledApart(n, p, true);
      SampledApart(n, p, false);
      RowsInOrder(count, false, i, j, p, n);
      RowsInOrder(count, true, i, k, n, p);
      SamplesOrderAlike(p, n);
      Trichotomy(Sampled(n, true).key, Sampled(p, true).key);
    }
  }

  /** The sample of row i stands in no earlier row of the other database, those
      being the samples of its own earlier rows. */
  lemma {:induction false} NotEarlier(count: u64, asText: bool, i: nat, n: u64, j: nat)
    requires i < count && i < |BuiltRows(count, asText)| && IsSample(BuiltRows(count, asText)[i], n, count, asText)
    requires j < count && j < |BuiltRows(count, !asText)| && BuiltRows(count, !asText)[j] == Sampled(n, !asText)
    ensures j >= i
    decreases i, 0
  {
    hide Sampled, BuiltRows, Less;
    if j < i {
      var p := RowsPair(count, j);
      SampledApart(n, p, !asText);
      RowsInOrder(count, asText, j, i, p, n);
      assert false;
    }
  }

  /** The two databases hold as many rows, and row by row the same Outputs. */
  lemma BuiltAlike(count: u64)
    ensures
      var text, bytes := BuiltRows(count, true), BuiltRows(count, false);
      |text| == |bytes| == count && forall i | 0 <= i < count :: SameOutput(text[i], bytes[i], count)
  {
    hide Latest, Sampled, IsSample, BuiltRows;
    var text, bytes := BuiltRows(count, true), BuiltRows(count, false);
    BuiltCount(count, true);
    BuiltCount(count, false);
    forall i | 0 <= i < count ensures SameOutput(text[i], bytes[i], count) {
      var n := RowsPair(count, i);
      assert IsSample(text[i], n, count, true) && IsSample(bytes[i], n, count, false);
    }
  }
}
