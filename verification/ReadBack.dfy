/** The rows tools/keyspace-size writes, read back field by field: hex, decimal
    and big-endian numbers by the characters and bytes that stand there. */
module ReadBack {
  import opened Bytes
  import opened Order
  import opened Store
  import opened Keyspace

  function BeValue(b: Bytes): nat {
    if b == [] then 0 else 256 * BeValue(b[..|b| - 1]) + b[|b| - 1]
  }

  lemma {:induction false} BeRoundTrip(n: nat, width: nat)
    requires n < Pow256(width)
    ensures BeValue(BeBytes(n, width)) == n
  {
    if width > 0 {
      BeRoundTrip(n / 256, width - 1);
      assert BeBytes(n, width)[..width - 1] == BeBytes(n / 256, width - 1);
    }
  }

  /** '0' to '9' and 'a' to 'f'; minus one is none of them. */
  function HexValue(c: byte): int {
    if 0x30 <= c <= 0x39 then c as int - 0x30 else if 0x61 <= c <= 0x66 then c as int - 0x61 + 10 else -1
  }

  /** Two characters of a byte, its upper half first. */
  ghost predicate PairOf(high: byte, low: byte, b: byte) {
    HexValue(high) == b as int / 16 && HexValue(low) == b as int % 16
  }

  ghost predicate HexOf(text: Bytes, b: Bytes) {
    |text| == 2 * |b| && forall i | 0 <= i < |b| :: PairOf(text[2 * i], text[2 * i + 1], b[i])
  }

  lemma DigitRead(d: nat)
    requires d < 16
    ensures HexValue(HexDigit(d)) == d
  {
  }

  lemma {:induction false} HexRead(b: Bytes)
    ensures HexOf(Hex(b), b)
  {
    hide HexDigit, HexValue, PairOf;
    if b != [] {
      HexRead(b[1..]);
      var text, rest := Hex(b), Hex(b[1..]);
      assert text[2..] == rest;
      PairRead(b[0]);
      forall i | 0 <= i < |b| ensures PairOf(text[2 * i], text[2 * i + 1], b[i]) {
        if i > 0 {
          var j := i - 1;
          assert text[2 * i] == rest[2 * j] && text[2 * i + 1] == rest[2 * j + 1] && b[i] == b[1..][j];
        }
      }
    }
  }

  lemma PairRead(b: byte)
    ensures PairOf(HexDigit(b / 16), HexDigit(b % 16), b)
  {
    hide HexDigit, HexValue;
    DigitRead(b / 16);
    DigitRead(b % 16);
  }

  /** The number decimal digits stand for. */
  function DecimalValue(text: Bytes): int {
    if text == [] then 0 else 10 * DecimalValue(text[..|text| - 1]) + (text[|text| - 1] as int - 0x30)
  }

  ghost predicate AllDigits(text: Bytes) {
    forall i | 0 <= i < |text| :: 0x30 <= text[i] <= 0x39
  }

  /** Digits for n, and no nought before them beyond so many. */
  ghost predicate DecimalOf(text: Bytes, n: nat, least: nat) {
    AllDigits(text) && DecimalValue(text) == n && |text| >= least && (|text| > least ==> text[0] != 0x30)
  }

  lemma {:induction false} DecimalRead(n: nat)
    ensures DecimalOf(Decimal(n), n, 1)
  {
    if n >= 10 {
      DecimalRead(n / 10);
      var text, front := Decimal(n), Decimal(n / 10);
      assert text[..|text| - 1] == front;
      assert forall i | 0 <= i < |front| :: text[i] == front[i];
      if |front| == 1 { assert DecimalValue(front) == 10 * DecimalValue([]) + (front[0] as int - 0x30); }
    } else {
      assert DecimalValue([48 + n]) == 10 * DecimalValue([]) + n;
    }
  }

  lemma {:induction false} DigitsRead(n: nat, width: nat)
    requires n < Pow10(width)
    ensures AllDigits(Digits(n, width)) && DecimalValue(Digits(n, width)) == n
  {
    if width > 0 {
      DigitsRead(n / 10, width - 1);
      var text, front := Digits(n, width), Digits(n / 10, width - 1);
      assert text[..width - 1] == front;
      assert forall i | 0 <= i < |front| :: text[i] == front[i];
    }
  }

  lemma FiveDigitsRead(n: nat)
    ensures DecimalOf(FiveDigits(n), n, 5)
  {
    if n < 100_000 {
      assert Pow10(5) == 10 * Pow10(4) && Pow10(4) == 10 * Pow10(3) && Pow10(3) == 10 * Pow10(2);
      DigitsRead(n, 5);
    } else {
      DecimalRead(n);
      LongDecimal(n);
    }
  }

  lemma LongDecimal(n: nat)
    requires n >= 10_000
    ensures |Decimal(n)| >= 5
  {
    assert |Decimal(n)| == 1 + |Decimal(n / 10)| && |Decimal(n / 10)| == 1 + |Decimal(n / 100)| by {
      assert n / 10 / 10 == n / 100;
    }
    assert |Decimal(n / 100)| == 1 + |Decimal(n / 1000)| by { assert n / 100 / 10 == n / 1000; }
    assert |Decimal(n / 1000)| == 1 + |Decimal(n / 10_000)| by { assert n / 1000 / 10 == n / 10_000; }
  }

  /** The Output numbered n: its Id is n and three multiples of it, its index
      goes round by eights, its value counts up from a million, and its script
      pays the hash that is the Id's first twenty bytes. */
  ghost predicate IsOutput(n: u64, txid: Bytes, index: int, value: int, script: Bytes) {
    && |txid| == 32 && |script| == 25
    && BeValue(txid[..8]) == n
    && BeValue(txid[8..16]) == n * 0x9E37_79B9_7F4A_7C15 % 0x1_0000_0000_0000_0000
    && BeValue(txid[16..24]) == n * 0xC2B2_AE3D_27D4_EB4F % 0x1_0000_0000_0000_0000
    && BeValue(txid[24..]) == n * 0x1656_67B1_9E37_79F9 % 0x1_0000_0000_0000_0000
    && index == n % 8 && value == (n + 1_000_000) % 0x1_0000_0000_0000_0000
    && script[..3] == [0x76, 0xa9, 0x14] && script[3..23] == txid[..20] && script[23..] == [0x88, 0xac]
  }

  lemma OutputMade(n: u64)
    ensures IsOutput(n, TxidOf(n), n % 8, (1_000_000 + n) % 0x1_0000_0000_0000_0000, ScriptOf(n))
  {
    hide BeBytes, BeValue;
    Pow256Values();
    var a, b, c := Wrapped(n, 0x9E3779B97F4A7C15), Wrapped(n, 0xC2B2AE3D27D4EB4F), Wrapped(n, 0x165667B19E3779F9);
    BeRoundTrip(n, 8);
    BeRoundTrip(a, 8);
    BeRoundTrip(b, 8);
    BeRoundTrip(c, 8);
    var txid := TxidOf(n);
    assert txid[..8] == BeBytes(n, 8) && txid[8..16] == BeBytes(a, 8) && txid[16..24] == BeBytes(b, 8);
    assert txid[24..] == BeBytes(c, 8);
  }

  /** A byte row is read back as its Output. */
  lemma ByteRowRead(n: u64)
    ensures
      var row := Sampled(n, false);
      && |row.key| == 37 && row.key[0] == 0x6f && |row.value| == 33
      && IsOutput(n, row.key[1..33], BeValue(row.key[33..]), BeValue(row.value[..8]), row.value[8..])
  {
    hide BeBytes, BeValue, TxidOf, ScriptOf, IsOutput;
    Pow256Values();
    OutputMade(n);
    var row, value := Sampled(n, false), (1_000_000 + n) % 0x1_0000_0000_0000_0000;
    BeRoundTrip(n % 8, 4);
    BeRoundTrip(value, 8);
    assert row.key[1..33] == TxidOf(n) && row.key[33..] == BeBytes(n % 8, 4);
    assert row.value[..8] == BeBytes(value, 8) && row.value[8..] == ScriptOf(n);
  }

  /** A text row says of the same Output what the byte row says: the Id and the
      script in hex, the index in five digits, the value in as few as it takes,
      between "o:", ":" and ":". */
  lemma TextRowRead(n: u64)
    ensures
      var text, row := Sampled(n, true), Sampled(n, false);
      var m := |text.value| - 51;
      && |row.key| == 37 && |row.value| == 33
      && |text.key| == 72 && text.key[..2] == [0x6f, 0x3a] && text.key[66] == 0x3a
      && HexOf(text.key[2..66], row.key[1..33]) && DecimalOf(text.key[67..], BeValue(row.key[33..]), 5)
      && m > 0 && text.value[m] == 0x3a
      && DecimalOf(text.value[..m], BeValue(row.value[..8]), 1) && HexOf(text.value[m + 1..], row.value[8..])
  {
    hide BeBytes, BeValue, TxidOf, ScriptOf, Hex, Decimal, FiveDigits, HexOf, DecimalOf;
    Pow256Values();
    var text, row, value := Sampled(n, true), Sampled(n, false), (1_000_000 + n) % 0x1_0000_0000_0000_0000;
    BeRoundTrip(n % 8, 4);
    BeRoundTrip(value, 8);
    assert row.key[1..33] == TxidOf(n) && row.key[33..] == BeBytes(n % 8, 4);
    assert row.value[..8] == BeBytes(value, 8) && row.value[8..] == ScriptOf(n);
    HexRead(TxidOf(n));
    HexRead(ScriptOf(n));
    FiveDigitsRead(n % 8);
    FiveLong(n % 8);
    DecimalRead(value);
    var m := |Decimal(value)|;
    assert text.key[2..66] == Hex(TxidOf(n)) && text.key[67..] == FiveDigits(n % 8);
    assert text.value[..m] == Decimal(value) && text.value[m + 1..] == Hex(ScriptOf(n));
    assert |text.value| - 51 == m;
  }

  lemma FiveLong(n: nat)
    requires n < 100_000
    ensures |FiveDigits(n)| == 5
  {
  }
}
