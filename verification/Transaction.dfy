/** A Transaction on the wire: the printer of tools/witness_tests_to_aver.py and
    the in-place walker of tools/regtest/liar.py. */
module Transaction {
  import opened Bytes
  import opened CompactSize
  import opened Runs

  datatype Input = Input(txid: Hash, index: u32, script: Bytes, sequence: u32)
  datatype Output = Output(value: u64, script: Bytes)
  type Stack = seq<Bytes>

  /** What serialise is given; witnesses may be left out, and nothing makes them
      one to an Input. */
  datatype Tx = Tx(version: u32, inputs: seq<Input>, outputs: seq<Output>, locktime: u32, witnesses: Option<seq<Stack>>)

  /** What can stand on the wire: the marker with whatever flag byte follows it,
      and the stacks that are there. */
  datatype Wire = Wire(version: u32, flag: Option<byte>, inputs: seq<Input>, outputs: seq<Output>, stacks: seq<Stack>,
      locktime: u32)

  //
  // Lengths a CompactSize can carry.
  //

  ghost predicate Countable(n: nat) { n < 0x1_0000_0000_0000_0000 }

  ghost predicate SizedInputs(inputs: seq<Input>) {
    Countable(|inputs|) && forall i | 0 <= i < |inputs| :: Countable(|inputs[i].script|)
  }

  ghost predicate SizedOutputs(outputs: seq<Output>) {
    Countable(|outputs|) && forall i | 0 <= i < |outputs| :: Countable(|outputs[i].script|)
  }

  ghost predicate SizedStack(items: Stack) {
    Countable(|items|) && forall i | 0 <= i < |items| :: Countable(|items[i]|)
  }

  ghost predicate SizedStacks(stacks: seq<Stack>) {
    forall i | 0 <= i < |stacks| :: SizedStack(stacks[i])
  }

  ghost predicate Sized(w: Wire) {
    SizedInputs(w.inputs) && SizedOutputs(w.outputs) && SizedStacks(w.stacks)
  }

  ghost predicate SizedTx(tx: Tx) {
    SizedInputs(tx.inputs) && SizedOutputs(tx.outputs) && (tx.witnesses.Some? ==> SizedStacks(tx.witnesses.value))
  }

  /** BIP144: an Input at least, and one stack to an Input exactly when marked. */
  ghost predicate WellFormed(w: Wire) {
    && Sized(w)
    && |w.inputs| > 0
    && |w.stacks| == (if w.flag.Some? then |w.inputs| else 0)
  }

  //
  // The printer.
  //

  function WithLength(payload: Bytes): Bytes {
    Size(|payload|) + payload
  }

  function EncodeInput(i: Input): Bytes {
    i.txid + LeBytes(i.index, 4) + WithLength(i.script) + LeBytes(i.sequence, 4)
  }

  function EncodeOutput(o: Output): Bytes {
    LeBytes(o.value, 8) + WithLength(o.script)
  }

  function InputParts(inputs: seq<Input>): (parts: seq<Bytes>)
    ensures |parts| == |inputs|
    ensures forall i {:trigger parts[i]} | 0 <= i < |inputs| :: parts[i] == EncodeInput(inputs[i])
  {
    seq(|inputs|, i requires 0 <= i < |inputs| => EncodeInput(inputs[i]))
  }

  function OutputParts(outputs: seq<Output>): (parts: seq<Bytes>)
    ensures |parts| == |outputs|
    ensures forall i {:trigger parts[i]} | 0 <= i < |outputs| :: parts[i] == EncodeOutput(outputs[i])
  {
    seq(|outputs|, i requires 0 <= i < |outputs| => EncodeOutput(outputs[i]))
  }

  function ItemParts(items: Stack): (parts: seq<Bytes>)
    ensures |parts| == |items|
    ensures forall i {:trigger parts[i]} | 0 <= i < |items| :: parts[i] == WithLength(items[i])
  {
    seq(|items|, i requires 0 <= i < |items| => WithLength(items[i]))
  }

  /** One stack: its count, then its items. */
  function EncodeStack(items: Stack): Bytes {
    Size(|items|) + Joined(ItemParts(items))
  }

  function StackParts(stacks: seq<Stack>): (parts: seq<Bytes>)
    ensures |parts| == |stacks|
    ensures forall i {:trigger parts[i]} | 0 <= i < |stacks| :: parts[i] == EncodeStack(stacks[i])
  {
    seq(|stacks|, i requires 0 <= i < |stacks| => EncodeStack(stacks[i]))
  }

  function EncodeStacks(stacks: seq<Stack>): Bytes {
    Joined(StackParts(stacks))
  }

  function Marker(flag: Option<byte>): Bytes {
    if flag.Some? then [0, flag.value] else []
  }

  /** Inputs and Outputs with their counts: what stands in [vin_at, wit_at). */
  function EncodeBody(inputs: seq<Input>, outputs: seq<Output>): Bytes {
    Size(|inputs|) + Joined(InputParts(inputs)) + (Size(|outputs|) + Joined(OutputParts(outputs)))
  }

  function Encode(w: Wire): Bytes {
    LeBytes(w.version, 4) + Marker(w.flag) + EncodeBody(w.inputs, w.outputs) + EncodeStacks(w.stacks)
        + LeBytes(w.locktime, 4)
  }

  /** any(len(w) for w in witnesses) */
  predicate Carries(tx: Tx) {
    tx.witnesses.Some? && exists i | 0 <= i < |tx.witnesses.value| :: tx.witnesses.value[i] != []
  }

  function OnWire(tx: Tx): Wire {
    if Carries(tx) then Wire(tx.version, Some(1), tx.inputs, tx.outputs, tx.witnesses.value, tx.locktime)
    else Wire(tx.version, None, tx.inputs, tx.outputs, [], tx.locktime)
  }

  /** The bytes a Transaction Id is taken over (BIP141). */
  function Stripped(w: Wire): Wire {
    w.(flag := None, stacks := [])
  }

  method AppendInputs(head: Bytes, inputs: seq<Input>) returns (out: Bytes)
    ensures out == head + Joined(InputParts(inputs))
  {
    hide LeBytes, WithLength;
    out := head;
    ghost var parts := InputParts(inputs);
    for i := 0 to |inputs|
      invariant out == head + Joined(parts[..i])
    {
      JoinedMore(parts, i);
      var one := inputs[i];
      ghost var was := out;
      out := out + (one.txid + LeBytes(one.index, 4) + WithLength(one.script));
      out := out + LeBytes(one.sequence, 4);
      assert out == was + EncodeInput(one);
    }
    JoinedAll(parts);
  }

  method AppendOutputs(head: Bytes, outputs: seq<Output>) returns (out: Bytes)
    ensures out == head + Joined(OutputParts(outputs))
  {
    hide LeBytes, WithLength;
    out := head;
    ghost var parts := OutputParts(outputs);
    for i := 0 to |outputs|
      invariant out == head + Joined(parts[..i])
    {
      JoinedMore(parts, i);
      out := out + (LeBytes(outputs[i].value, 8) + WithLength(outputs[i].script));
    }
    JoinedAll(parts);
  }

  method AppendStack(head: Bytes, items: Stack) returns (out: Bytes)
    ensures out == head + EncodeStack(items)
  {
    hide WithLength, Size;
    out := head + Size(|items|);
    ghost var pre, parts := out, ItemParts(items);
    for j := 0 to |items|
      invariant out == pre + Joined(parts[..j])
    {
      JoinedMore(parts, j);
      out := out + WithLength(items[j]);
    }
    JoinedAll(parts);
  }

  method AppendStacks(head: Bytes, stacks: seq<Stack>) returns (out: Bytes)
    ensures out == head + EncodeStacks(stacks)
  {
    hide EncodeStack;
    out := head;
    ghost var parts := StackParts(stacks);
    for i := 0 to |stacks|
      invariant out == head + Joined(parts[..i])
    {
      JoinedMore(parts, i);
      out := AppendStack(out, stacks[i]);
    }
    JoinedAll(parts);
  }

  /** The parts serialise puts one behind another. */
  lemma PartsInOrder(tx: Tx)
    ensures
      var head := LeBytes(tx.version, 4) + if Carries(tx) then [0, 1] else [];
      Encode(OnWire(tx)) ==
      head + Size(|tx.inputs|) + Joined(InputParts(tx.inputs)) + Size(|tx.outputs|) + Joined(OutputParts(tx.outputs))
      + (if Carries(tx) then EncodeStacks(tx.witnesses.value) else []) + LeBytes(tx.locktime, 4)
  {
    hide LeBytes, Size, Joined, InputParts, OutputParts, Carries;
    var head := LeBytes(tx.version, 4) + if Carries(tx) then [0, 1] else [];
    Regroup(head, Size(|tx.inputs|), Joined(InputParts(tx.inputs)), Size(|tx.outputs|),
        Joined(OutputParts(tx.outputs)));
    NoStacks();
  }

  lemma NoStacks()
    ensures EncodeStacks([]) == []
  {
  }

  /** serialise, each loop of it in a method of its own. */
  method Serialise(tx: Tx) returns (out: Bytes)
    ensures out == Encode(OnWire(tx))
  {
    hide LeBytes, Size, Joined, InputParts, OutputParts, EncodeStacks, Encode, OnWire;
    PartsInOrder(tx);
    out := LeBytes(tx.version, 4);
    var carries := tx.witnesses.Some?
      && exists i | 0 <= i < |tx.witnesses.value| :: tx.witnesses.value[i] != [];
    if carries {
      out := out + [0, 1];
    }
    out := AppendInputs(out + Size(|tx.inputs|), tx.inputs);
    out := AppendOutputs(out + Size(|tx.outputs|), tx.outputs);
    if carries {
      out := AppendStacks(out, tx.witnesses.value);
    }
    out := out + LeBytes(tx.locktime, 4);
  }

  //
  // The walker.
  //

  /** Over one Input, Output, item or stack from at. */
  function InputStep(b: Bytes, at: nat): Place {
    match Compact(b, at + 36)
    case Cut => Off
    case Read(length, next) => To(next + length + 4)
  }

  function OutputStep(b: Bytes, at: nat): Place {
    match Compact(b, at + 8)
    case Cut => Off
    case Read(length, next) => To(next + length)
  }

  function ItemStep(b: Bytes, at: nat): Place {
    match Compact(b, at)
    case Cut => Off
    case Read(length, next) => To(next + length)
  }

  function StackStep(b: Bytes, at: nat): Place {
    match Compact(b, at)
    case Cut => Off
    case Read(items, next) => SkipEach(ItemSteps(b), next, items)
  }

  function InputSteps(b: Bytes): nat -> Place { (at: nat) => InputStep(b, at) }
  function OutputSteps(b: Bytes): nat -> Place { (at: nat) => OutputStep(b, at) }
  function ItemSteps(b: Bytes): nat -> Place { (at: nat) => ItemStep(b, at) }
  function StackSteps(b: Bytes): nat -> Place { (at: nat) => StackStep(b, at) }

  /** The Inputs' count and where the Outputs end. */
  function BodyAt(b: Bytes, vinAt: nat): Reading {
    match Compact(b, vinAt)
    case Cut => Cut
    case Read(nIn, at) =>
      match SkipEach(InputSteps(b), at, nIn)
      case Off => Cut
      case To(voutAt) =>
        match Compact(b, voutAt)
        case Cut => Cut
        case Read(nOut, from) =>
          match SkipEach(OutputSteps(b), from, nOut)
          case Off => Cut
          case To(witAt) => Read(nIn, witAt)
  }

  /** What tx_extent answers; Broken is the IndexError. */
  datatype Extent = Broken | Extent(end: nat, marker: bool, nIn: nat, vinAt: nat, witAt: nat, lockAt: nat)

  /** Where everything stands in the Transaction at this offset. */
  function ExtentAt(b: Bytes, at: nat): Extent {
    if at + 4 >= |b| then Broken
    else
      var marker := b[at + 4] == 0;
      var vinAt := if marker then at + 6 else at + 4;
      match BodyAt(b, vinAt)
      case Cut => Broken
      case Read(nIn, witAt) =>
        match if marker then SkipEach(StackSteps(b), witAt, nIn) else To(witAt)
        case Off => Broken
        case To(lockAt) => Extent(lockAt + 4, marker, nIn, vinAt, witAt, lockAt)
  }

  method OverInputs(b: Bytes, start: nat, nIn: nat) returns (end: Place)
    ensures end == SkipEach(InputSteps(b), start, nIn)
  {
    var at: nat := start;
    ghost var step := InputSteps(b);
    for i := 0 to nIn
      invariant SkipEach(step, start, nIn) == SkipEach(step, at, nIn - i)
    {
      var length := Compact(b, at + 36);
      assert step(at) == InputStep(b, at);
      if length.Cut? { return Off; }
      at := length.at + length.value + 4;
    }
    return To(at);
  }

  method OverOutputs(b: Bytes, start: nat, nOut: nat) returns (end: Place)
    ensures end == SkipEach(OutputSteps(b), start, nOut)
  {
    var at: nat := start;
    ghost var step := OutputSteps(b);
    for i := 0 to nOut
      invariant SkipEach(step, start, nOut) == SkipEach(step, at, nOut - i)
    {
      var length := Compact(b, at + 8);
      assert step(at) == OutputStep(b, at);
      if length.Cut? { return Off; }
      at := length.at + length.value;
    }
    return To(at);
  }

  method OverItems(b: Bytes, start: nat, items: nat) returns (end: Place)
    ensures end == SkipEach(ItemSteps(b), start, items)
  {
    var at: nat := start;
    ghost var step := ItemSteps(b);
    for j := 0 to items
      invariant SkipEach(step, start, items) == SkipEach(step, at, items - j)
    {
      var length := Compact(b, at);
      assert step(at) == ItemStep(b, at);
      if length.Cut? { return Off; }
      at := length.at + length.value;
    }
    return To(at);
  }

  method OverStacks(b: Bytes, witAt: nat, nIn: nat) returns (end: Place)
    ensures end == SkipEach(StackSteps(b), witAt, nIn)
  {
    var at: nat := witAt;
    ghost var step := StackSteps(b);
    for i := 0 to nIn
      invariant SkipEach(step, witAt, nIn) == SkipEach(step, at, nIn - i)
    {
      var items := Compact(b, at);
      assert step(at) == StackStep(b, at);
      if items.Cut? { return Off; }
      var next := OverItems(b, items.at, items.value);
      if next.Off? { return Off; }
      at := next.at;
    }
    return To(at);
  }

  /** The walk as the source makes it, one offset advancing. */
  method TxExtent(b: Bytes, start: nat) returns (e: Extent)
    ensures e == ExtentAt(b, start)
  {
    var at: nat := start + 4;
    if at >= |b| { return Broken; }
    var marker := b[at] == 0;
    if marker { at := at + 2; }
    var vinAt := at;
    var nIn := Compact(b, at);
    if nIn.Cut? { return Broken; }
    var voutAt := OverInputs(b, nIn.at, nIn.value);
    if voutAt.Off? { return Broken; }
    var nOut := Compact(b, voutAt.at);
    if nOut.Cut? { return Broken; }
    var outEnd := OverOutputs(b, nOut.at, nOut.value);
    if outEnd.Off? { return Broken; }
    at := outEnd.at;
    var witAt := at;
    if marker {
      var lockAt := OverStacks(b, at, nIn.value);
      if lockAt.Off? { return Broken; }
      at := lockAt.at;
    }
    return Extent(at + 4, marker, nIn.value, vinAt, witAt, at);
  }

  //
  // Each part is skipped to its end.
  //

  lemma InputSkipped(b: Bytes, at: nat, one: Input)
    requires Countable(|one.script|)
    requires At(b, at, EncodeInput(one))
    ensures InputStep(b, at) == To(at + |EncodeInput(one)|)
  {
    var outpoint := one.txid + LeBytes(one.index, 4);
    var sequence := LeBytes(one.sequence, 4);
    AtSplit(b, at, outpoint + WithLength(one.script), sequence);
    AtSplit(b, at, outpoint, WithLength(one.script));
    AtSplit(b, at + 36, Size(|one.script|), one.script);
    CompactInverts(b, at + 36, |one.script|);
  }

  lemma OutputSkipped(b: Bytes, at: nat, one: Output)
    requires Countable(|one.script|)
    requires At(b, at, EncodeOutput(one))
    ensures OutputStep(b, at) == To(at + |EncodeOutput(one)|)
  {
    AtSplit(b, at, LeBytes(one.value, 8), WithLength(one.script));
    AtSplit(b, at + 8, Size(|one.script|), one.script);
    CompactInverts(b, at + 8, |one.script|);
  }

  lemma ItemSkipped(b: Bytes, at: nat, item: Bytes)
    requires Countable(|item|)
    requires At(b, at, WithLength(item))
    ensures ItemStep(b, at) == To(at + |WithLength(item)|)
  {
    AtSplit(b, at, Size(|item|), item);
    CompactInverts(b, at, |item|);
  }

  lemma InputsSkipped(b: Bytes, at: nat, inputs: seq<Input>)
    requires SizedInputs(inputs) && At(b, at, Joined(InputParts(inputs)))
    ensures SkipEach(InputSteps(b), at, |inputs|) == To(at + |Joined(InputParts(inputs))|)
  {
    var step, parts := InputSteps(b), InputParts(inputs);
    forall i | 0 <= i < |parts| ensures Skips(step, b, parts[i]) {
      forall p: nat | At(b, p, parts[i]) ensures step(p) == To(p + |parts[i]|) {
        InputSkipped(b, p, inputs[i]);
      }
    }
    EachSkipped(step, b, at, parts);
  }

  lemma OutputsSkipped(b: Bytes, at: nat, outputs: seq<Output>)
    requires SizedOutputs(outputs) && At(b, at, Joined(OutputParts(outputs)))
    ensures SkipEach(OutputSteps(b), at, |outputs|) == To(at + |Joined(OutputParts(outputs))|)
  {
    var step, parts := OutputSteps(b), OutputParts(outputs);
    forall i | 0 <= i < |parts| ensures Skips(step, b, parts[i]) {
      forall p: nat | At(b, p, parts[i]) ensures step(p) == To(p + |parts[i]|) {
        OutputSkipped(b, p, outputs[i]);
      }
    }
    EachSkipped(step, b, at, parts);
  }

  lemma ItemsSkipped(b: Bytes, at: nat, items: Stack)
    requires SizedStack(items) && At(b, at, Joined(ItemParts(items)))
    ensures SkipEach(ItemSteps(b), at, |items|) == To(at + |Joined(ItemParts(items))|)
  {
    var step, parts := ItemSteps(b), ItemParts(items);
    forall i | 0 <= i < |parts| ensures Skips(step, b, parts[i]) {
      forall p: nat | At(b, p, parts[i]) ensures step(p) == To(p + |parts[i]|) {
        ItemSkipped(b, p, items[i]);
      }
    }
    EachSkipped(step, b, at, parts);
  }

  lemma StackSkipped(b: Bytes, at: nat, items: Stack)
    requires SizedStack(items) && At(b, at, EncodeStack(items))
    ensures StackStep(b, at) == To(at + |EncodeStack(items)|)
  {
    hide Size, Compact, Joined, ItemParts, ItemSteps, SkipEach, At;
    var count := Size(|items|);
    AtSplit(b, at, count, Joined(ItemParts(items)));
    CompactInverts(b, at, |items|);
    ItemsSkipped(b, at + |count|, items);
  }

  lemma StacksSkipped(b: Bytes, at: nat, stacks: seq<Stack>)
    requires SizedStacks(stacks) && At(b, at, EncodeStacks(stacks))
    ensures SkipEach(StackSteps(b), at, |stacks|) == To(at + |EncodeStacks(stacks)|)
  {
    var step, parts := StackSteps(b), StackParts(stacks);
    forall i | 0 <= i < |parts| ensures Skips(step, b, parts[i]) {
      forall p: nat | At(b, p, parts[i]) ensures step(p) == To(p + |parts[i]|) {
        StackSkipped(b, p, stacks[i]);
      }
    }
    EachSkipped(step, b, at, parts);
  }

  lemma StackStepGoesForward(b: Bytes)
    ensures GoesForward(StackSteps(b))
  {
    assert GoesForward(ItemSteps(b));
    forall p: nat | StackSteps(b)(p).To? ensures StackSteps(b)(p).at > p {
      var items := Compact(b, p);
      CountGoesForward(ItemSteps(b), items.at, items.value);
    }
  }

  lemma BodyAtFrom(b: Bytes, at: nat, n: nat, vinAt: nat, voutAt: nat, m: nat, from: nat, witAt: nat)
    requires Compact(b, at) == Read(n, vinAt)
    requires SkipEach(InputSteps(b), vinAt, n) == To(voutAt)
    requires Compact(b, voutAt) == Read(m, from)
    requires SkipEach(OutputSteps(b), from, m) == To(witAt)
    ensures BodyAt(b, at) == Read(n, witAt)
  {
  }

  lemma CountedRuns(b: Bytes, at: nat, n: u64, vin: Bytes, m: u64, vout: Bytes, vinAt: nat, voutAt: nat, from: nat)
    requires At(b, at, Size(n) + vin + (Size(m) + vout))
    requires vinAt == at + |Size(n)| && voutAt == vinAt + |vin| && from == voutAt + |Size(m)|
    ensures At(b, vinAt, vin) && At(b, from, vout)
    ensures Compact(b, at) == Read(n, vinAt)
    ensures Compact(b, voutAt) == Read(m, from)
  {
    hide At, Size, Compact;
    AtFour(b, at, Size(n), vin, Size(m), vout);
    CompactInverts(b, at, n);
    CompactInverts(b, voutAt, m);
  }

  /** Over the Inputs and the Outputs, to where the stacks begin. */
  lemma BodyWalked(b: Bytes, at: nat, inputs: seq<Input>, outputs: seq<Output>)
    requires SizedInputs(inputs) && SizedOutputs(outputs)
    requires At(b, at, EncodeBody(inputs, outputs))
    ensures BodyAt(b, at) == Read(|inputs|, at + |EncodeBody(inputs, outputs)|)
  {
    var n, m := |inputs|, |outputs|;
    var vin, vout := Joined(InputParts(inputs)), Joined(OutputParts(outputs));
    var vinAt := at + |Size(n)|;
    var voutAt := vinAt + |vin|;
    var from := voutAt + |Size(m)|;
    var witAt := from + |vout|;
    CountedRuns(b, at, n, vin, m, vout, vinAt, voutAt, from);
    InputsSkipped(b, vinAt, inputs);
    OutputsSkipped(b, from, outputs);
    BodyAtFrom(b, at, n, vinAt, voutAt, m, from, witAt);
    assert witAt == at + |EncodeBody(inputs, outputs)|;
  }

  /** What the walk answers once the body is read. */
  lemma ExtentFrom(b: Bytes, at: nat, marker: bool, vinAt: nat, n: nat, witAt: nat, lockAt: Place)
    requires at + 4 < |b| && marker == (b[at + 4] == 0)
    requires vinAt == if marker then at + 6 else at + 4
    requires BodyAt(b, vinAt) == Read(n, witAt)
    requires lockAt == if marker then SkipEach(StackSteps(b), witAt, n) else To(witAt)
    ensures ExtentAt(b, at) == match lockAt case Off => Broken case To(l) => Extent(l + 4, marker, n, vinAt, witAt, l)
  {
  }

  //
  // The walker inverts the printer.
  //

  /** Where the Inputs, the stacks and the lock time of a printed one begin. */
  function VinAt(at: nat, w: Wire): nat {
    if w.flag.Some? then at + 6 else at + 4
  }

  function WitAt(at: nat, w: Wire): nat {
    VinAt(at, w) + |EncodeBody(w.inputs, w.outputs)|
  }

  function LockAt(at: nat, w: Wire): nat {
    WitAt(at, w) + |EncodeStacks(w.stacks)|
  }

  /** The parts of a printed Transaction, each where it stands. */
  ghost predicate Laid(b: Bytes, at: nat, w: Wire) {
    && At(b, at, LeBytes(w.version, 4))
    && At(b, at + 4, Marker(w.flag))
    && At(b, VinAt(at, w), EncodeBody(w.inputs, w.outputs))
    && At(b, WitAt(at, w), EncodeStacks(w.stacks))
    && At(b, LockAt(at, w), LeBytes(w.locktime, 4))
  }

  lemma EncodeLength(at: nat, w: Wire)
    ensures LockAt(at, w) + 4 == at + |Encode(w)|
  {
  }

  lemma LaidOut(b: Bytes, at: nat, w: Wire)
    requires At(b, at, Encode(w))
    ensures Laid(b, at, w)
  {
    var version, marker, lock := LeBytes(w.version, 4), Marker(w.flag), LeBytes(w.locktime, 4);
    var body, stacks := EncodeBody(w.inputs, w.outputs), EncodeStacks(w.stacks);
    AtFive(b, at, version, marker, body, stacks, lock);
    assert at + |version| == at + 4;
    assert VinAt(at, w) == at + |version| + |marker|;
    assert WitAt(at, w) == at + |version| + |marker| + |body|;
    assert LockAt(at, w) == at + |version| + |marker| + |body| + |stacks|;
  }

  /** The byte after the version is zero for the marker or for no Inputs. */
  lemma MarkerRead(b: Bytes, at: nat, w: Wire)
    requires Laid(b, at, w)
    ensures at + 4 < |b|
    ensures b[at + 4] == 0 <==> w.flag.Some? || |w.inputs| == 0
  {
    if w.flag.Some? {
      assert b[at + 4] == b[at + 4..at + 6][0] == Marker(w.flag)[0];
    } else {
      var body := EncodeBody(w.inputs, w.outputs);
      assert b[at + 4] == b[at + 4..at + 4 + |body|][0] == body[0] == Size(|w.inputs|)[0];
    }
  }

  /** As far as the stacks. */
  lemma HeadWalked(b: Bytes, at: nat, w: Wire)
    requires Sized(w) && Laid(b, at, w)
    ensures at + 4 < |b| && (b[at + 4] == 0 <==> w.flag.Some? || |w.inputs| == 0)
    ensures BodyAt(b, VinAt(at, w)) == Read(|w.inputs|, WitAt(at, w))
  {
    MarkerRead(b, at, w);
    BodyWalked(b, VinAt(at, w), w.inputs, w.outputs);
  }

  /** What tx_extent owes a printed Transaction. */
  function ExtentOf(at: nat, w: Wire): Extent {
    Extent(LockAt(at, w) + 4, w.flag.Some?, |w.inputs|, VinAt(at, w), WitAt(at, w), LockAt(at, w))
  }

  /** Whatever the flag byte and whatever the stacks hold. */
  lemma ExtentInvertsEncode(b: Bytes, at: nat, w: Wire)
    requires WellFormed(w)
    requires At(b, at, Encode(w))
    ensures ExtentAt(b, at) == ExtentOf(at, w)
    ensures ExtentOf(at, w).end == at + |Encode(w)|
  {
    LaidOut(b, at, w);
    HeadWalked(b, at, w);
    var witAt, lockAt := WitAt(at, w), LockAt(at, w);
    StacksSkipped(b, witAt, w.stacks);
    ExtentFrom(b, at, w.flag.Some?, VinAt(at, w), |w.inputs|, witAt, To(lockAt));
    EncodeLength(at, w);
  }

  /** What bad_height_block and every Id are taken over: version, Inputs and
      Outputs, lock time. */
  function StrippedBytes(b: Bytes, at: nat, e: Extent): Bytes
    requires e.Extent?
  {
    Slice(b, at, at + 4) + Slice(b, e.vinAt, e.witAt) + Slice(b, e.lockAt, e.end)
  }

  lemma StrippedRead(b: Bytes, at: nat, w: Wire)
    requires WellFormed(w)
    requires At(b, at, Encode(w))
    ensures ExtentAt(b, at).Extent?
    ensures StrippedBytes(b, at, ExtentAt(b, at)) == Encode(Stripped(w))
  {
    hide EncodeBody, EncodeStacks, LeBytes, Encode, ExtentAt;
    ExtentInvertsEncode(b, at, w);
    EncodeLength(at, w);
    LaidOut(b, at, w);
    var e := ExtentAt(b, at);
    assert Slice(b, at, at + 4) == LeBytes(w.version, 4);
    assert Slice(b, e.vinAt, e.witAt) == EncodeBody(w.inputs, w.outputs);
    assert Slice(b, e.lockAt, e.end) == LeBytes(w.locktime, 4);
    EncodeStripped(w);
  }

  lemma EncodeStripped(w: Wire)
    ensures Encode(Stripped(w)) == LeBytes(w.version, 4) + EncodeBody(w.inputs, w.outputs) + LeBytes(w.locktime, 4)
  {
    var v, body, lock := LeBytes(w.version, 4), EncodeBody(w.inputs, w.outputs), LeBytes(w.locktime, 4);
    assert Encode(Stripped(w)) == v + [] + body + [] + lock;
    assert v + [] == v && v + body + [] == v + body;
  }

  /** Walked to the right end, and marked exactly when a stack was printed. */
  ghost predicate WalkedRight(b: Bytes, at: nat, tx: Tx) {
    && ExtentAt(b, at).Extent?
    && ExtentAt(b, at).end == at + |Encode(OnWire(tx))|
    && ExtentAt(b, at).marker == Carries(tx)
  }

  /** An Input, and one stack to an Input if any is printed. */
  ghost predicate Readable(tx: Tx) {
    |tx.inputs| > 0 && (Carries(tx) ==> |tx.witnesses.value| == |tx.inputs|)
  }

  /** The walker inverts the printer for exactly these Transactions: with no
      Input the count reads as the marker, and with the stacks one too many or
      one too few the walk ends inside or beyond the Transaction. */
  lemma ExtentInvertsSerialise(pre: Bytes, tx: Tx, post: Bytes)
    requires SizedTx(tx)
    ensures
      var b := pre + Encode(OnWire(tx)) + post;
      WalkedRight(b, |pre|, tx) <==> Readable(tx)
  {
    var w := OnWire(tx);
    var b := pre + Encode(w) + post;
    AtWithin(pre, Encode(w), post);
    if Readable(tx) {
      ExtentInvertsEncode(b, |pre|, w);
    } else if Carries(tx) {
      if |tx.witnesses.value| != |tx.inputs| {
        StacksMiscounted(b, |pre|, w);
      }
    } else {
      LaidOut(b, |pre|, w);
      MarkerRead(b, |pre|, w);
    }
  }

  lemma StacksMiscounted(b: Bytes, at: nat, w: Wire)
    requires Sized(w) && At(b, at, Encode(w))
    requires w.flag.Some? && |w.stacks| != |w.inputs|
    ensures ExtentAt(b, at).Extent? ==> ExtentAt(b, at).end != at + |Encode(w)|
  {
    LaidOut(b, at, w);
    HeadWalked(b, at, w);
    var witAt, n := WitAt(at, w), |w.inputs|;
    StacksSkipped(b, witAt, w.stacks);
    StackStepGoesForward(b);
    CountsEndApart(StackSteps(b), witAt, n, |w.stacks|);
    ExtentFrom(b, at, true, at + 6, n, witAt, SkipEach(StackSteps(b), witAt, n));
    EncodeLength(at, w);
  }

  /** A Witness never moves the stripped form: serialise without Witnesses. */
  lemma StrippedIsSerialiseWithout(tx: Tx)
    ensures Encode(Stripped(OnWire(tx))) == Encode(OnWire(tx.(witnesses := None)))
  {
  }

  /** Walked where it stands, a printed Transaction strips to what serialise
      prints of it without Witnesses. */
  lemma StrippedOfSerialised(pre: Bytes, tx: Tx, post: Bytes)
    requires SizedTx(tx) && Readable(tx)
    ensures
      var b := pre + Encode(OnWire(tx)) + post;
      var e := ExtentAt(b, |pre|);
      e.Extent? && StrippedBytes(b, |pre|, e) == Encode(OnWire(tx.(witnesses := None)))
  {
    AtWithin(pre, Encode(OnWire(tx)), post);
    StrippedRead(pre + Encode(OnWire(tx)) + post, |pre|, OnWire(tx));
    StrippedIsSerialiseWithout(tx);
  }

  //
  // The two Transactions a script test is made of.
  //

  function Crediting(scriptPubkey: Bytes, value: u64): Tx {
    Tx(1, [Input(Zeros(32), 0xffff_ffff, [0, 0], 0xffff_ffff)], [Output(value, scriptPubkey)], 0, None)
  }

  function Spending(h: Hasher, scriptSig: Bytes, items: Stack, creditRaw: Bytes, value: u64): Tx {
    Tx(1, [Input(h(creditRaw), 0, scriptSig, 0xffff_ffff)], [Output(value, [])], 0, Some([items]))
  }

  /** Both are walked right wherever they stand; the spending one is marked
      exactly when its Witness has an item, and strips to the same bytes
      whatever that Witness is. */
  lemma ScriptTestWalked(pre: Bytes, post: Bytes, h: Hasher, pubkey: Bytes, sig: Bytes, items: Stack, other: Stack,
      value: u64)
    requires Countable(|pubkey|) && Countable(|sig|) && SizedStack(items)
    ensures
      var credit := Crediting(pubkey, value);
      var spend := Spending(h, sig, items, Encode(OnWire(credit)), value);
      && !Carries(credit) && WalkedRight(pre + Encode(OnWire(credit)) + post, |pre|, credit)
      && (Carries(spend) <==> items != []) && WalkedRight(pre + Encode(OnWire(spend)) + post, |pre|, spend)
      && Stripped(OnWire(spend)) == Stripped(OnWire(spend.(witnesses := Some([other]))))
  {
    var credit := Crediting(pubkey, value);
    var spend := Spending(h, sig, items, Encode(OnWire(credit)), value);
    hide Encode, WalkedRight;
    assert spend.witnesses.value[0] == items;
    ExtentInvertsSerialise(pre, credit, post);
    ExtentInvertsSerialise(pre, spend, post);
  }
}
