/** legacy_coinbase and legacy_spend of tools/regtest/liar.py: two
    Transactions put together byte by byte, with no Witness. */
module LegacyTx {
  import opened Bytes
  import opened CompactSize
  import opened Runs
  import opened ScriptNumber
  import opened Transaction

  const FINAL: u32 := 0xffff_ffff

  /** The coinbase the bytes are meant to be: its script opens with the Height. */
  function CoinbaseWire(script: Bytes, outputs: seq<Output>): Wire {
    Wire(1, None, [Input(Zeros(32), FINAL, script, FINAL)], outputs, [], 0)
  }

  /** An Output as the callers name it, its value a signed number. */
  datatype Payment = Payment(value: int, script: Bytes)

  /** What struct.pack and compact_bytes can write of it. */
  predicate PackableOne(one: Payment) {
    -0x8000_0000_0000_0000 <= one.value < 0x8000_0000_0000_0000 && |one.script| <= 0xffff_ffff
  }

  predicate Packable(payments: seq<Payment>) {
    |payments| <= 0xffff_ffff && forall i | 0 <= i < |payments| :: PackableOne(payments[i])
  }

  /** A signed number in two's complement. */
  function AsU64(n: int64): (u: u64)
    ensures (u - n) % 0x1_0000_0000_0000_0000 == 0
  {
    if n < 0 then n + 0x1_0000_0000_0000_0000 else n
  }

  /** The Outputs on the wire. */
  function Paying(payments: seq<Payment>): (outputs: seq<Output>)
    requires Packable(payments)
    ensures |outputs| == |payments|
    ensures forall i {:trigger outputs[i]} | 0 <= i < |payments| ::
              outputs[i] == Output(AsU64(payments[i].value), payments[i].script)
  {
    seq(|payments|, i requires 0 <= i < |payments| =>
      assert PackableOne(payments[i]); Output(AsU64(payments[i].value), payments[i].script))
  }

  lemma OneInput(one: Input)
    ensures Joined(InputParts([one])) == EncodeInput(one)
  {
    var parts := InputParts([one]);
    assert parts == [EncodeInput(one)];
    assert Joined(parts) == EncodeInput(one) + Joined([]);
  }

  /** None is the OverflowError of a negative Height and the struct.error of a
      payment that cannot be packed. */
  method LegacyCoinbase(height: int64, payments: seq<Payment>) returns (tx: Option<Bytes>)
    ensures tx.Some? <==> height >= 0 && Packable(payments)
    ensures tx.Some? ==> HeightPush(height).Some? && |HeightPush(height).value| <= 9
    ensures tx.Some? ==> tx.value == Encode(CoinbaseWire(HeightPush(height).value + [0], Paying(payments)))
  {
    hide HeightPush, Number, Pushed, LeBytes;
    HeightPushIsShort(height);
    var push := HeightPush(height);
    if push.None? { return None; }
    var script := push.value + [0];
    var out := LeBytes(1, 4) + [1] + Zeros(32) + [0xff, 0xff, 0xff, 0xff]
      + [|script|] + script + [0xff, 0xff, 0xff, 0xff];
    CoinbaseHead(script);
    if |payments| > 0xffff_ffff { return None; }
    out := out + ShortSize(|payments|).value;
    var body := PackOutputs(out, payments);
    if body.None? { return None; }
    EncodeCoinbase(script, Paying(payments));
    return Some(body.value + LeBytes(0, 4));
  }

  /** The loop over the Outputs. */
  method PackOutputs(head: Bytes, payments: seq<Payment>) returns (out: Option<Bytes>)
    requires |payments| <= 0xffff_ffff
    ensures out.Some? <==> Packable(payments)
    ensures out.Some? ==> out.value == head + Joined(OutputParts(Paying(payments)))
  {
    hide LeBytes, Size;
    var packed := head;
    for i := 0 to |payments|
      invariant forall j | 0 <= j < i :: PackableOne(payments[j])
      invariant packed == head + Joined(OutputParts(Paying(payments[..i])))
    {
      var one := payments[i];
      if !(-0x8000_0000_0000_0000 <= one.value < 0x8000_0000_0000_0000) || |one.script| > 0xffff_ffff {
        assert !PackableOne(payments[i]);
        return None;
      }
      ShortSizeAgrees(|one.script|);
      PayingMore(payments, i);
      packed := packed + (LeBytes(AsU64(one.value), 8) + (ShortSize(|one.script|).value + one.script));
    }
    assert payments[..|payments|] == payments;
    return Some(packed);
  }

  /** One payment more. */
  lemma PayingMore(payments: seq<Payment>, i: nat)
    requires i < |payments| <= 0xffff_ffff && forall j | 0 <= j <= i :: PackableOne(payments[j])
    ensures
      Joined(OutputParts(Paying(payments[..i + 1]))) ==
      Joined(OutputParts(Paying(payments[..i]))) + EncodeOutput(Output(AsU64(payments[i].value), payments[i].script))
  {
    hide EncodeOutput;
    var parts := OutputParts(Paying(payments[..i + 1]));
    assert parts[..i] == OutputParts(Paying(payments[..i]));
    JoinedMore(parts, i);
    JoinedAll(parts);
  }

  lemma HeightPushIsShort(height: int64)
    ensures HeightPush(height).Some? <==> height >= 0
    ensures height >= 0 ==> |HeightPush(height).value| <= 9
  {
    if height == 0 {
      assert |LeBytes(0, (BitLength(0) + 8) / 8)| == 1;
    } else if height > 16 {
      HeightIsNumber(height);
      FourBytes(height);
    }
  }

  function Ahead(script: Bytes): Bytes {
    LeBytes(1, 4) + (Size(1) + EncodeInput(Input(Zeros(32), FINAL, script, FINAL)))
  }

  lemma CoinbaseHead(script: Bytes)
    requires |script| < 0xfd
    ensures LeBytes(1, 4) + [1] + Zeros(32) + [0xff, 0xff, 0xff, 0xff] + [|script|] + script
        + [0xff, 0xff, 0xff, 0xff] == Ahead(script)
  {
    Ones();
    hide LeBytes;
    assert Size(|script|) == [|script|] && Size(1) == [1];
  }

  lemma Ones()
    ensures LeBytes(FINAL, 4) == [0xff, 0xff, 0xff, 0xff]
  {
    assert LeBytes(0xff, 1) == [0xff] + LeBytes(0, 0);
    assert LeBytes(0xffff, 2) == [0xff] + LeBytes(0xff, 1);
    assert LeBytes(0xff_ffff, 3) == [0xff] + LeBytes(0xffff, 2);
  }

  lemma EncodeCoinbase(script: Bytes, outputs: seq<Output>)
    ensures Encode(CoinbaseWire(script, outputs)) ==
        Ahead(script) + Size(|outputs|) + Joined(OutputParts(outputs)) + LeBytes(0, 4)
  {
    hide LeBytes, Size, EncodeInput, OutputParts;
    var one := Input(Zeros(32), FINAL, script, FINAL);
    OneInput(one);
    Assembled(LeBytes(1, 4), Size(1), EncodeInput(one), Size(|outputs|), Joined(OutputParts(outputs)), LeBytes(0, 4));
    assert EncodeStacks([]) == [];
  }

  /** A marker and stacks that are not there change nothing. */
  lemma Assembled(version: Bytes, n: Bytes, vin: Bytes, m: Bytes, vout: Bytes, lock: Bytes)
    ensures version + [] + (n + vin + (m + vout)) + [] + lock == version + (n + vin) + m + vout + lock
  {
    assert version + [] == version;
    assert version + (n + vin + (m + vout)) + [] == version + (n + vin + (m + vout));
  }

  function SpendWire(txid: Hash, vout: u32, sequence: u32, locktime: u32, version: u32): Wire {
    Wire(version, None, [Input(txid, vout, [], sequence)], [Output(0, [0x6a])], [], locktime)
  }

  predicate FitsU32(n: int) { 0 <= n <= 0xffff_ffff }
  predicate FitsI32(n: int) { -0x8000_0000 <= n < 0x8000_0000 }

  function AsU32(n: int): (u: u32)
    requires FitsI32(n)
    ensures (u - n) % 0x1_0000_0000 == 0
  {
    if n < 0 then n + 0x1_0000_0000 else n
  }

  /** None is the struct.error of a field that does not fit. */
  function LegacySpend(txid: Hash, vout: int, sequence: int, locktime: int, version: int): Option<Bytes> {
    if FitsU32(vout) && FitsU32(sequence) && FitsU32(locktime) && FitsI32(version) then
      Some(LeBytes(AsU32(version), 4) + [1] + txid + LeBytes(vout, 4) + [0]
           + LeBytes(sequence, 4) + [1] + LeBytes(0, 8) + [1, 0x6a] + LeBytes(locktime, 4))
    else None
  }

  /** The spend is what it is meant to be, and the walker walks it as that; it
      fails exactly when a field does not fit. */
  lemma LegacySpendIsEncoded(pre: Bytes, txid: Hash, vout: int, sequence: int, locktime: int, version: int, post: Bytes)
    ensures
      LegacySpend(txid, vout, sequence, locktime, version).Some? <==>
      && 0 <= vout < 0x1_0000_0000 && 0 <= sequence < 0x1_0000_0000 && 0 <= locktime < 0x1_0000_0000
      && -0x8000_0000 <= version < 0x8000_0000
    ensures
      LegacySpend(txid, vout, sequence, locktime, version).Some? ==>
        var w := SpendWire(txid, vout, sequence, locktime, AsU32(version));
        var tx := LegacySpend(txid, vout, sequence, locktime, version).value;
        tx == Encode(w) && ExtentAt(pre + tx + post, |pre|) == ExtentOf(|pre|, w)
  {
    if LegacySpend(txid, vout, sequence, locktime, version).Some? {
      var w := SpendWire(txid, vout, sequence, locktime, AsU32(version));
      SpendEncoded(txid, vout, sequence, locktime, AsU32(version));
      AtWithin(pre, Encode(w), post);
      ExtentInvertsEncode(pre + Encode(w) + post, |pre|, w);
    }
  }

  lemma SpendEncoded(txid: Hash, vout: u32, sequence: u32, locktime: u32, version: u32)
    ensures
      LeBytes(version, 4) + [1] + txid + LeBytes(vout, 4) + [0]
      + LeBytes(sequence, 4) + [1] + LeBytes(0, 8) + [1, 0x6a] + LeBytes(locktime, 4)
      == Encode(SpendWire(txid, vout, sequence, locktime, version))
  {
    hide LeBytes, EncodeInput, EncodeOutput, Joined;
    var w := SpendWire(txid, vout, sequence, locktime, version);
    var one, other := w.inputs[0], w.outputs[0];
    OneInput(one);
    OneOutput(other);
    Assembled(LeBytes(version, 4), Size(1), EncodeInput(one), Size(1), EncodeOutput(other), LeBytes(locktime, 4));
    NoStacks();
    SpendParts(txid, vout, sequence);
    SpendAssembled(LeBytes(version, 4), txid, LeBytes(vout, 4), LeBytes(sequence, 4), LeBytes(0, 8),
        LeBytes(locktime, 4));
  }

  lemma OneOutput(one: Output)
    ensures Joined(OutputParts([one])) == EncodeOutput(one)
  {
    assert OutputParts([one]) == [EncodeOutput(one)];
    assert Joined([EncodeOutput(one)]) == EncodeOutput(one) + Joined([]);
  }

  lemma SpendParts(txid: Hash, vout: u32, sequence: u32)
    ensures EncodeInput(Input(txid, vout, [], sequence)) == txid + LeBytes(vout, 4) + [0] + LeBytes(sequence, 4)
    ensures EncodeOutput(Output(0, [0x6a])) == LeBytes(0, 8) + [1, 0x6a]
    ensures Size(1) == [1]
  {
    hide LeBytes;
    assert Size(0) == [0] && Size(1) == [1];
    assert WithLength([]) == [0] && WithLength([0x6a]) == [1, 0x6a];
  }

  lemma SpendAssembled(version: Bytes, txid: Bytes, vout: Bytes, sequence: Bytes, value: Bytes, lock: Bytes)
    ensures version + ([1] + (txid + vout + [0] + sequence)) + [1] + (value + [1, 0x6a]) + lock ==
            version + [1] + txid + vout + [0] + sequence + [1] + value + [1, 0x6a] + lock
  {
    assert [1] + (txid + vout + [0] + sequence) == [1] + txid + vout + [0] + sequence;
  }

  /** The coinbase, wherever it stands, is walked as a Transaction of one Input
      whose script opens with the push BIP34 asks for. */
  lemma LegacyCoinbaseWalked(pre: Bytes, height: int64, payments: seq<Payment>, post: Bytes)
    requires height > 0 && Packable(payments)
    ensures HeightPush(height).Some? && Pushed(height) == HeightPush(height)
    ensures
      var w := CoinbaseWire(HeightPush(height).value + [0], Paying(payments));
      ExtentAt(pre + Encode(w) + post, |pre|) == ExtentOf(|pre|, w)
  {
    HeightPushIsPushed(height);
    HeightPushIsShort(height);
    hide HeightPush, Pushed;
    var w := CoinbaseWire(HeightPush(height).value + [0], Paying(payments));
    AtWithin(pre, Encode(w), post);
    ExtentInvertsEncode(pre + Encode(w) + post, |pre|, w);
  }

  //
  // The two Transactions of a script test, byte by byte.
  //

  lemma SmallNumbers()
    ensures LeBytes(0, 4) == [0, 0, 0, 0] && LeBytes(1, 4) == [1, 0, 0, 0]
  {
    assert LeBytes(0, 4) == [0] + LeBytes(0, 3) && LeBytes(0, 3) == [0] + LeBytes(0, 2);
    assert LeBytes(0, 2) == [0] + LeBytes(0, 1) && LeBytes(0, 1) == [0] + LeBytes(0, 0);
    assert LeBytes(1, 4) == [1] + LeBytes(0, 3);
  }

  lemma OneOfEach(w: Wire)
    requires |w.inputs| == 1 && |w.outputs| == 1 && w.locktime == 0 && w.version == 1
    ensures Encode(w) == [1, 0, 0, 0] + Marker(w.flag) + ([1] + EncodeInput(w.inputs[0]) + [1]
                         + EncodeOutput(w.outputs[0])) + EncodeStacks(w.stacks) + [0, 0, 0, 0]
  {
    hide LeBytes, EncodeInput, EncodeOutput, EncodeStacks, Marker, Joined;
    SmallNumbers();
    OneInput(w.inputs[0]);
    OneOutput(w.outputs[0]);
    assert w.inputs == [w.inputs[0]] && w.outputs == [w.outputs[0]] && Size(1) == [1];
    assert [1] + EncodeInput(w.inputs[0]) + ([1] + EncodeOutput(w.outputs[0]))
        == [1] + EncodeInput(w.inputs[0]) + [1] + EncodeOutput(w.outputs[0]);
  }

  /** Core's crediting Transaction: version 1, one Input of no Transaction at
      index ff ff ff ff whose script is two noughts, one Output. */
  lemma CreditingPrinted(pubkey: Bytes, value: u64)
    ensures
      Encode(OnWire(Crediting(pubkey, value))) ==
      [1, 0, 0, 0] + [1] + Zeros(32) + [0xff, 0xff, 0xff, 0xff] + [2, 0, 0] + [0xff, 0xff, 0xff, 0xff]
      + [1] + LeBytes(value, 8) + WithLength(pubkey) + [0, 0, 0, 0]
  {
    hide LeBytes, EncodeInput, EncodeOutput, Joined, Encode;
    var w := OnWire(Crediting(pubkey, value));
    OneOfEach(w);
    NoStacks();
    CreditInput(w.inputs[0]);
    CreditOutput(w.outputs[0]);
  }

  lemma CreditInput(one: Input)
    requires one.txid == Zeros(32) && one.index == 0xffff_ffff == one.sequence && one.script == [0, 0]
    ensures EncodeInput(one) == Zeros(32) + [0xff, 0xff, 0xff, 0xff] + [2, 0, 0] + [0xff, 0xff, 0xff, 0xff]
  {
    Ones();
    hide LeBytes;
    assert Size(2) == [2] && WithLength([0, 0]) == [2, 0, 0];
  }

  lemma CreditOutput(one: Output)
    ensures EncodeOutput(one) == LeBytes(one.value, 8) + WithLength(one.script)
  {
  }

  /** Core's spending Transaction: the crediting one's digest at index nought, the
      script given, one Output with no script, and the one stack, marked 00 01,
      exactly when it has an item. */
  lemma SpendingPrinted(h: Hasher, sig: Bytes, items: Stack, creditRaw: Bytes, value: u64)
    ensures
      Encode(OnWire(Spending(h, sig, items, creditRaw, value))) ==
      [1, 0, 0, 0] + (if items == [] then [] else [0, 1])
      + ([1] + (h(creditRaw) + [0, 0, 0, 0] + WithLength(sig) + [0xff, 0xff, 0xff, 0xff])
         + [1] + (LeBytes(value, 8) + [0]))
      + (if items == [] then [] else Size(|items|) + Joined(ItemParts(items))) + [0, 0, 0, 0]
  {
    hide LeBytes, EncodeInput, EncodeOutput, Joined, Encode, ItemParts, Size, WithLength;
    var tx := Spending(h, sig, items, creditRaw, value);
    var w := OnWire(tx);
    assert tx.witnesses.value[0] == items;
    OneOfEach(w);
    NoStacks();
    OneStack(items);
    SpendInput(w.inputs[0]);
    CreditOutput(w.outputs[0]);
    EmptyScript();
  }

  lemma EmptyScript()
    ensures WithLength([]) == [0]
  {
    assert Size(0) == [0];
  }

  lemma SpendInput(one: Input)
    requires one.index == 0 && one.sequence == 0xffff_ffff
    ensures EncodeInput(one) == one.txid + [0, 0, 0, 0] + WithLength(one.script) + [0xff, 0xff, 0xff, 0xff]
  {
    Ones();
    SmallNumbers();
    hide LeBytes, WithLength;
  }

  lemma OneStack(items: Stack)
    ensures EncodeStacks([items]) == Size(|items|) + Joined(ItemParts(items))
  {
    hide Size, ItemParts;
    var parts := StackParts([items]);
    assert parts == [EncodeStack(items)];
    assert Joined(parts) == parts[0] + Joined(parts[1..]) && Joined(parts[1..]) == [];
  }
}
