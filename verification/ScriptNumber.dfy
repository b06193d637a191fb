/** Script numbers and their pushes: CScriptNum and CScript of
    tools/script_tests_data/script.h, script_num and parse_script of
    tools/script_tests_to_aver.py, height_push of tools/regtest/liar.py. */
module ScriptNumber {
  import opened Bits
  import opened Bytes
  import opened Runs

  type int64 = n: int | -0x8000_0000_0000_0000 <= n < 0x8000_0000_0000_0000

  function Abs(n: int): nat { if n < 0 then -n else n }

  /** As few little-endian bytes as hold n. */
  function Magnitude(n: nat): (m: Bytes)
    ensures m == [] <==> n == 0
  {
    if n == 0 then [] else [n % 256] + Magnitude(n / 256)
  }

  function Last(b: Bytes): byte
    requires b != []
  {
    b[|b| - 1]
  }

  function WithLast(b: Bytes, last: byte): Bytes
    requires b != []
  {
    b[..|b| - 1] + [last]
  }

  /** The number as Script writes it, the sign in the top bit of the last byte. */
  function Number(v: int): Bytes {
    var m := Magnitude(Abs(v));
    if m == [] then []
    else if Last(m) >= 0x80 then m + [if v < 0 then 0x80 else 0]
    else if v < 0 then WithLast(m, Last(m) + 0x80)
    else m
  }

  /** The number bytes stand for. */
  function Value(b: Bytes): int {
    if b == [] then 0
    else if Last(b) >= 0x80 then -(LeValue(WithLast(b, Last(b) - 0x80)) as int)
    else LeValue(b)
  }

  /** The check fRequireMinimal asks for. */
  predicate Minimal(b: Bytes) {
    b == [] || Last(b) % 0x80 != 0 || (|b| > 1 && b[|b| - 2] >= 0x80)
  }

  //
  // serialize and set_vch.
  //

  /** neg ? ~static_cast<uint64_t>(value) + 1 : value, in 64 bits. */
  function Absolute(value: int64): u64 {
    var cast := if value < 0 then value + 0x1_0000_0000_0000_0000 else value;
    if value < 0 then (0xffff_ffff_ffff_ffff - cast + 1) % 0x1_0000_0000_0000_0000 else cast
  }

  /** The loop serialize and script_num share: the low byte off, shift, again. */
  method AppendMagnitude(absolute: nat) returns (result: Bytes)
    ensures result == Magnitude(absolute)
  {
    result := [];
    var left := absolute;
    while left != 0
      invariant result + Magnitude(left) == Magnitude(absolute)
      decreases left
    {
      LowByteMasked(left);
      assert result + ([left % 256] + Magnitude(left / 256)) == result + [left % 256] + Magnitude(left / 256);
      result := result + [And(left, 0xff)];
      left := Shr(left, 8);
    }
  }

  lemma SetSignBit(b: byte)
    requires b < 0x80
    ensures Or(b, 0x80) == b + 0x80
  {
    hide Or;
    SmallPowers();
    OrAbove(b, 1, 7);
    SevenUp(1);
  }

  method Signed(absolute: Bytes, neg: bool) returns (result: Bytes)
    requires absolute != []
    ensures result == if Last(absolute) >= 0x80 then absolute + [if neg then 0x80 else 0]
                      else if neg then WithLast(absolute, Last(absolute) + 0x80) else absolute
  {
    result := absolute;
    var back := result[|result| - 1];
    SignBit(back);
    if And(back, 0x80) != 0 {
      result := result + [if neg then 0x80 else 0];
    } else if neg {
      SetSignBit(back);
      result := result[|result| - 1 := Or(back, 0x80)];
    }
  }

  method Serialize(value: int64) returns (result: Bytes)
    ensures result == Number(value)
  {
    if value == 0 { return []; }
    result := AppendMagnitude(Absolute(value));
    result := Signed(result, value < 0);
  }

  /** script_num of tools/script_tests_to_aver.py, over every integer. */
  method ScriptNum(n: int) returns (out: Bytes)
    ensures out == Number(n)
  {
    if n == 0 { return []; }
    out := AppendMagnitude(Abs(n));
    out := Signed(out, n < 0);
  }

  function ToInt64(u: u64): int64 {
    if u < 0x8000_0000_0000_0000 then u else u - 0x1_0000_0000_0000_0000
  }

  /** One byte more, shifted over all the others. */
  lemma OrByte(sum: nat, b: byte, i: nat)
    requires sum < Pow256(i)
    ensures Or(sum, Shl(b, 8 * i)) == sum + b * Pow256(i)
  {
    hide Or, Shl, Pow2, Pow256;
    PowersAgree(i);
    OrAbove(sum, b, 8 * i);
    ShlBytes(b, i);
  }

  /** The bytes shifted into their places and or'ed together, in 64 bits. */
  method Gathered(vch: Bytes) returns (result: u64)
    requires |vch| <= 8
    ensures result == LeValue(vch)
  {
    hide Or, Shl;
    var bits: nat := 0;
    for i := 0 to |vch|
      invariant bits == LeValue(vch[..i]) < Pow256(i)
    {
      assert vch[..i + 1] == vch[..i] + [vch[i]];
      LeValueSnoc(vch[..i], vch[i]);
      LeValueRoundTrip(vch[..i + 1]);
      OrByte(bits, vch[i], i);
      bits := Or(bits, Shl(vch[i], 8 * i));
    }
    assert vch[..|vch|] == vch;
    Pow256Values();
    WidthsGrow(|vch|, 8);
    return bits;
  }

  lemma {:induction false} WidthsGrow(m: nat, n: nat)
    requires m <= n
    ensures Pow256(m) <= Pow256(n)
  {
    if m < n { WidthsGrow(m, n - 1); }
  }

  /** The top byte's sign bit is the top bit of the whole, of 2^(8n + 7). */
  lemma SignBitOnTop(init: Bytes, last: byte)
    requires last >= 0x80
    ensures LeValue(init + [last]) == LeValue(init + [last - 0x80]) + Pow2(8 * |init| + 7)
    ensures LeValue(init + [last - 0x80]) < Pow2(8 * |init| + 7) == 0x80 * Pow256(|init|)
  {
    hide LeValue, Pow2, Pow256;
    var p := Pow256(|init|);
    LeValueSnoc(init, last);
    LeValueSnoc(init, last - 0x80);
    assert last * p == (last - 0x80) * p + 0x80 * p;
    TopBitClear(init, last - 0x80);
    PowersAgree(|init|);
    SevenMore(8 * |init|);
  }

  /** The value's top bit masked off, when it is set. */
  lemma TopBitMasked(init: Bytes, last: byte)
    requires last >= 0x80
    ensures AndNot(LeValue(init + [last]), Shl(0x80, 8 * |init|)) ==
        LeValue(init + [last - 0x80]) < 0x80 * Pow256(|init|)
  {
    hide AndNot, Shl, LeValue, Pow2, Pow256;
    SignBitOnTop(init, last);
    ShlBytes(0x80, |init|);
    TopBitOff(LeValue(init + [last - 0x80]), 8 * |init| + 7);
  }

  lemma SevenMore(k: nat)
    ensures Pow2(k + 7) == 0x80 * Pow2(k)
  {
    assert Pow2(k + 7) == 2 * Pow2(k + 6) && Pow2(k + 6) == 2 * Pow2(k + 5) && Pow2(k + 5) == 2 * Pow2(k + 4);
    assert Pow2(k + 4) == 2 * Pow2(k + 3) && Pow2(k + 3) == 2 * Pow2(k + 2) && Pow2(k + 2) == 2 * Pow2(k + 1);
  }

  lemma SevenByteBound(n: nat)
    requires n <= 7
    ensures 0x80 * Pow256(n) <= 0x8000_0000_0000_0000
  {
    WidthsGrow(n, 7);
    Pow256Values();
  }

  method SetVch(vch: Bytes) returns (value: int64)
    requires |vch| <= 8
    ensures value == Value(vch)
  {
    hide And, AndNot, Shl, LeValue, Pow256;
    if vch == [] { return 0; }
    var result := Gathered(vch);
    ghost var init := vch[..|vch| - 1];
    var back := vch[|vch| - 1];
    assert vch == init + [back];
    SevenByteBound(|init|);
    SignBit(back);
    if And(back, 0x80) != 0 {
      TopBitMasked(init, back);
      return -ToInt64(AndNot(result, Shl(0x80, 8 * (|vch| - 1))));
    }
    TopBitClear(init, back);
    return ToInt64(result);
  }

  lemma TopBitClear(init: Bytes, last: byte)
    requires last < 0x80
    ensures LeValue(init + [last]) < 0x80 * Pow256(|init|)
  {
    LeValueSnoc(init, last);
    LeValueRoundTrip(init);
    TopClear(last, Pow256(|init|), LeValue(init));
  }

  lemma TopClear(last: byte, p: nat, low: nat)
    requires last < 0x80 && low < p
    ensures low + last * p < 0x80 * p
  {
  }

  /** Undefined is a string past eight bytes that passes the checks: set_vch then
      shifts past the width of its result. */
  datatype Checked = Overflow | NotMinimal | Undefined | Num(value: int)

  /** The constructor from bytes, its two exceptions first. */
  method FromBytes(vch: Bytes, requireMinimal: bool, maxSize: nat) returns (c: Checked)
    ensures c == if |vch| > maxSize then Overflow
                 else if requireMinimal && !Minimal(vch) then NotMinimal
                 else if |vch| > 8 then Undefined
                 else Num(Value(vch))
  {
    hide And, Value;
    if |vch| > maxSize { return Overflow; }
    if requireMinimal && |vch| > 0 {
      SevenBitsMasked(vch[|vch| - 1]);
      if And(vch[|vch| - 1], 0x7f) == 0 {
        if |vch| <= 1 { return NotMinimal; }
        SignBit(vch[|vch| - 2]);
        if And(vch[|vch| - 2], 0x80) == 0 { return NotMinimal; }
      }
    }
    if |vch| > 8 { return Undefined; }
    var value := SetVch(vch);
    return Num(value);
  }

  //
  // The bijection.
  //

  lemma {:induction false} MagnitudeRoundTrip(n: nat)
    ensures LeValue(Magnitude(n)) == n
    ensures n != 0 ==> Last(Magnitude(n)) != 0
  {
    if n != 0 {
      MagnitudeRoundTrip(n / 256);
      assert Magnitude(n)[1..] == Magnitude(n / 256);
    }
  }

  lemma {:induction false} MagnitudeIsTheOnly(b: Bytes)
    requires b != [] ==> Last(b) != 0
    ensures Magnitude(LeValue(b)) == b
  {
    if b != [] {
      MagnitudeIsTheOnly(b[1..]);
      if |b| > 1 {
        assert Last(b[1..]) == Last(b);
        assert Magnitude(LeValue(b[1..])) != [];
      }
    }
  }

  lemma LastZero(b: Bytes)
    ensures LeValue(b + [0]) == LeValue(b)
  {
    LeValueSnoc(b, 0);
  }

  lemma ValueInvertsNumber(v: int)
    ensures Value(Number(v)) == v
    ensures Minimal(Number(v))
  {
    var m := Magnitude(Abs(v));
    MagnitudeRoundTrip(Abs(v));
    if m != [] {
      LastZero(m);
      assert WithLast(m + [0x80], 0) == m + [0];
      if Last(m) < 0x80 && v < 0 {
        assert WithLast(WithLast(m, Last(m) + 0x80), Last(m)) == m;
      }
    }
  }

  lemma MinimalIsNumber(b: Bytes)
    requires Minimal(b) && b != []
    ensures Number(Value(b)) == b
  {
    hide Pow256;
    var init, last := b[..|b| - 1], Last(b);
    var body := WithLast(b, last % 0x80);
    assert b == init + [last] && body == init + [last % 0x80];
    assert last < 0x80 ==> body == b;
    assert Abs(Value(b)) == LeValue(body);
    if last % 0x80 != 0 {
      MagnitudeIsTheOnly(body);
      MagnitudeRoundTrip(LeValue(body));
      if last >= 0x80 {
        assert Value(b) < 0;
        assert WithLast(body, last) == b;
      }
    } else {
      LastZero(init);
      MagnitudeIsTheOnly(init);
      assert Last(init) >= 0x80;
    }
  }

  /** The strings that pass the check are the ones that are written. */
  lemma MinimalIffWritten(b: Bytes)
    ensures Minimal(b) <==> Number(Value(b)) == b
  {
    if Minimal(b) && b != [] {
      MinimalIsNumber(b);
    }
    ValueInvertsNumber(Value(b));
  }

  /** No number is written two ways. */
  lemma NumberInjective(v: int, w: int)
    ensures Number(v) == Number(w) <==> v == w
  {
    ValueInvertsNumber(v);
    ValueInvertsNumber(w);
  }

  //
  // How long a number is.
  //

  lemma {:induction false} MagnitudeFits(n: nat, k: nat)
    ensures |Magnitude(n)| <= k <==> n < Pow256(k)
    decreases k
  {
    if n > 0 && k > 0 {
      MagnitudeFits(n / 256, k - 1);
    }
  }

  lemma Scaled(last: nat, low: nat, p: nat)
    requires low < p
    ensures low + last * p < 128 * p <==> last < 128
  {
    if last >= 128 {
      assert last * p == 128 * p + (last - 128) * p;
    } else {
      assert 128 * p == last * p + (128 - last) * p;
      assert (128 - last) * p >= p;
    }
  }

  /** At most k bytes, the sign among them, exactly below 2^(8k - 1). */
  lemma NumberFits(v: int, k: nat)
    requires k > 0
    ensures |Number(v)| <= k <==> Abs(v) < 0x80 * Pow256(k - 1)
  {
    var n, m := Abs(v), Magnitude(Abs(v));
    MagnitudeFits(n, k);
    MagnitudeFits(n, k - 1);
    MagnitudeRoundTrip(n);
    if |m| == k {
      var init := m[..k - 1];
      assert m == init + [Last(m)];
      LeValueSnoc(init, Last(m));
      LeValueRoundTrip(init);
      Scaled(Last(m), LeValue(init), Pow256(k - 1));
    }
  }

  /** A number arithmetic takes back is one of four bytes. */
  lemma FourBytes(v: int)
    ensures |Number(v)| <= 4 <==> Abs(v) <= 0x7fff_ffff
    ensures |Number(v)| <= 8 <==> Abs(v) <= 0x7fff_ffff_ffff_ffff
  {
    NumberFits(v, 4);
    NumberFits(v, 8);
    Pow256Values();
    assert Pow256(4) == 256 * Pow256(3);
  }

  //
  // Pushes.
  //

  /** The opcode and length a push of this many bytes begins with. */
  function PushSize(size: nat): Bytes {
    if size < 0x4c then [size]
    else if size <= 0xff then [0x4c, size]
    else if size <= 0xffff then [0x4d] + LeBytes(size, 2)
    else [0x4e] + LeBytes(size, 4)
  }

  /** push of tools/script_tests_to_aver.py; None is the OverflowError of a
      length past four bytes. */
  function Push(data: Bytes): Option<Bytes> {
    if |data| <= 0xffff_ffff then Some(PushSize(|data|) + data) else None
  }

  lemma PushSizeRead(n: u32, rest: Bytes)
    ensures
      var b := PushSize(n) + rest;
      && b != [] && b[0] <= 0x4e
      && (if b[0] < 0x4c then n == b[0] && b[1..] == rest
          else
            var width := if b[0] == 0x4c then 1 else if b[0] == 0x4d then 2 else 4;
            && |b| >= 1 + width
            && n == LeValue(b[1..1 + width]) && b[1 + width..] == rest)
  {
    if n >= 0x4c {
      var width := if n <= 0xff then 1 else if n <= 0xffff then 2 else 4;
      var b := PushSize(n) + rest;
      Pow256Values();
      LeRoundTrip(n, width);
      assert LeBytes(n, 1) == [n % 256] + LeBytes(n / 256, 0);
      assert b[1..1 + width] == LeBytes(n, width);
    }
  }

  /** No data is pushed two ways and no push begins another. */
  lemma PushPrefixFree(a: Bytes, s: Bytes, b: Bytes, t: Bytes)
    requires |a| <= 0xffff_ffff && |b| <= 0xffff_ffff
    requires Push(a).value + s == Push(b).value + t
    ensures a == b && s == t
  {
    hide LeValue, PushSize;
    assert Push(a).value + s == PushSize(|a|) + (a + s);
    assert Push(b).value + t == PushSize(|b|) + (b + t);
    PushSizeRead(|a|, a + s);
    PushSizeRead(|b|, b + t);
    assert a + s == b + t && |a| == |b|;
    assert a == (a + s)[..|a|] && s == (a + s)[|a|..];
    assert b == (b + t)[..|b|] && t == (b + t)[|b|..];
  }

  /** An integer as a Script pushes it. */
  function Pushed(n: int): Option<Bytes> {
    if n == -1 || 1 <= n <= 16 then Some([n + 0x50])
    else if n == 0 then Some([0])
    else Push(Number(n))
  }

  class Script {
    var bytes: Bytes

    constructor ()
      ensures bytes == []
    {
      bytes := [];
    }

    method AppendDataSize(size: u32)
      modifies this
      ensures bytes == old(bytes) + PushSize(size)
    {
      if size < 0x4c {
        bytes := bytes + [size];
      } else if size <= 0xff {
        bytes := bytes + [0x4c];
        bytes := bytes + [size];
      } else if size <= 0xffff {
        bytes := bytes + [0x4d];
        bytes := bytes + LeBytes(size, 2);
      } else {
        bytes := bytes + [0x4e];
        bytes := bytes + LeBytes(size, 4);
      }
    }

    /** operator<< of bytes. */
    method Append(data: Bytes)
      requires |data| <= 0xffff_ffff
      modifies this
      ensures bytes == old(bytes) + Push(data).value
    {
      AppendDataSize(|data|);
      bytes := bytes + data;
    }

    method PushInt64(n: int64)
      modifies this
      ensures Pushed(n).Some? && bytes == old(bytes) + Pushed(n).value
    {
      if n == -1 || 1 <= n <= 16 {
        bytes := bytes + [n + 0x50];
      } else if n == 0 {
        bytes := bytes + [0];
      } else {
        NumberFits(n, 9);
        assert Pow256(8) == 0x1_0000_0000_0000_0000 by { Pow256Values(); }
        var number := Serialize(n);
        Append(number);
      }
    }
  }

  /** parse_script on a word that is an integer: the same for every integer the
      C++ can be given, and for the others too. */
  method ParseInteger(n: int, before: Bytes) returns (out: Option<Bytes>)
    ensures out == match Pushed(n) case None => None case Some(p) => Some(before + p)
  {
    if n == -1 || 1 <= n <= 16 {
      return Some(before + [if n > 0 then n + 0x50 else 0x4f]);
    } else if n == 0 {
      return Some(before + [0]);
    }
    var number := ScriptNum(n);
    if |number| > 0xffff_ffff { return None; }
    return Some(before + (PushSize(|number|) + number));
  }

  /** No two integers are pushed alike. */
  lemma PushedInjective(v: int64, w: int64)
    ensures Pushed(v) == Pushed(w) <==> v == w
  {
    NumberFits(v, 9);
    NumberFits(w, 9);
    Pow256Values();
    ValueInvertsNumber(v);
    ValueInvertsNumber(w);
    PushedForm(v);
    PushedForm(w);
  }

  lemma PushedForm(v: int64)
    ensures Pushed(v).Some? && Pushed(v).value != []
    ensures
      var p := Pushed(v).value;
      if v == -1 || 1 <= v <= 16 then p[0] >= 0x4f else p[0] < 0x4c && Number(v) == p[1..]
  {
    NumberFits(v, 9);
    Pow256Values();
  }

  //
  // height_push
  //

  function BitLength(n: nat): nat {
    if n == 0 then 0 else 1 + BitLength(n / 2)
  }

  /** BIP34's push of the Height; None is the OverflowError of a negative one
      and the ValueError of a length past one byte. */
  function HeightPush(height: int): Option<Bytes> {
    if 1 <= height <= 16 then Some([0x50 + height])
    else if height < 0 then None
    else
      var n := LeBytes(height, (BitLength(height) + 8) / 8);
      if |n| < 256 then Some([|n|] + n) else None
  }

  lemma EightBits(n: nat)
    requires n >= 256
    ensures BitLength(n) == 8 + BitLength(n / 256)
  {
    hide BitLength;
    FourBits(n);
    FourBits(n / 16);
    assert n / 16 / 16 == n / 256;
  }

  lemma FourBits(n: nat)
    requires n >= 16
    ensures BitLength(n) == 4 + BitLength(n / 16)
  {
    hide BitLength;
    BitShift(n);
    BitShift(n / 2);
    BitShift(n / 4);
    BitShift(n / 8);
    assert n / 2 / 2 == n / 4 && n / 4 / 2 == n / 8 && n / 8 / 2 == n / 16;
  }

  lemma BitShift(n: nat)
    requires n > 0
    ensures BitLength(n) == 1 + BitLength(n / 2)
  {
  }

  lemma OneByteBits(n: nat)
    requires 0 < n < 256
    ensures 1 <= BitLength(n) <= 8
    ensures BitLength(n) == 8 <==> n >= 128
  {
    BitsBelow(n, 8);
    BitsBelow(n, 7);
    assert Pow2(8) == 256 && Pow2(7) == 128;
  }

  lemma {:induction false} BitsBelow(n: nat, k: nat)
    ensures BitLength(n) <= k <==> n < Pow2(k)
    decreases k
  {
    if n > 0 && k > 0 { BitsBelow(n / 2, k - 1); }
  }

  /** The closed form is the byte loop's: a byte more when the top bit is set. */
  lemma {:induction false} BytesOfBits(n: nat)
    requires n > 0
    ensures (BitLength(n) + 8) / 8 == |Magnitude(n)| + (if Last(Magnitude(n)) >= 0x80 then 1 else 0)
  {
    if n >= 256 {
      EightBits(n);
      BytesOfBits(n / 256);
      assert Last(Magnitude(n)) == Last(Magnitude(n / 256));
    } else {
      OneByteBits(n);
      assert Magnitude(n) == [n];
    }
  }

  lemma {:induction false} PaddedMagnitude(n: nat, more: nat)
    requires more <= 1
    ensures LeBytes(n, |Magnitude(n)| + more) == Magnitude(n) + (if more == 1 then [0] else [])
  {
    if n == 0 {
      assert LeBytes(0, more) == if more == 1 then [0] else [];
    } else {
      PaddedMagnitude(n / 256, more);
      assert |Magnitude(n)| + more == 1 + (|Magnitude(n / 256)| + more);
    }
  }

  lemma HeightIsNumber(height: nat)
    requires height > 0
    ensures LeBytes(height, (BitLength(height) + 8) / 8) == Number(height)
  {
    BytesOfBits(height);
    PaddedMagnitude(height, if Last(Magnitude(height)) >= 0x80 then 1 else 0);
  }

  lemma NoughtPushed()
    ensures HeightPush(0) == Some([1, 0])
  {
    assert BitLength(0) == 0;
    var n := LeBytes(0, (BitLength(0) + 8) / 8);
    assert n == [0] + LeBytes(0, 0) == [0];
    assert HeightPush(0) == Some([|n|] + n);
    assert [|n|] + n == [1, 0];
  }

  /** The Height is pushed as a Script would push it exactly when it is above
      nought: for nought 01 00 here and 00 there, below it an error here. */
  lemma HeightPushIsPushed(height: int64)
    ensures HeightPush(height) == Pushed(height) <==> height > 0
    ensures height < 0 ==> HeightPush(height) == None
    ensures HeightPush(0) == Some([1, 0])
  {
    NoughtPushed();
    if height < 0 {
      PushedForm(height);
    } else if height > 16 {
      HeightIsNumber(height);
      FourBytes(height);
    }
  }

  //
  // bad_height_block's edit.
  //

  /** height ^ 1 */
  function Beside(height: nat): nat {
    if height % 2 == 0 then height + 1 else height - 1
  }

  lemma BesideBits(n: nat)
    requires n >= 2
    ensures BitLength(Beside(n)) == BitLength(n)
  {
    assert Beside(n) / 2 == n / 2;
  }

  /** The low byte of a pushed Height flipped pushes the Height beside it,
      except that sixteen is then not pushed as sixteen is. */
  lemma FlippedHeight(height: int64)
    requires height >= 17
    ensures
      var p := HeightPush(height);
      p.Some? && (HeightPush(Beside(height)) == Some(FlipAt(p.value, 1)) <==> height != 17)
  {
    hide BitLength, Number, Pow256;
    var width := (BitLength(height) + 8) / 8;
    BesideBits(height);
    HeightIsNumber(height);
    FourBytes(height);
    assert Beside(height) / 256 == height / 256;
    assert LeBytes(Beside(height), width) == [Flip(height % 256)] + LeBytes(height / 256, width - 1);
    assert FlipAt(HeightPush(height).value, 1) == [width] + LeBytes(Beside(height), width);
  }
}
