/** What serialise prints can be read one way only, whatever stands behind it. */
module Codec {
  import opened Bytes
  import opened CompactSize
  import opened Runs
  import opened Transaction

  /** Neither begins the other, unless they are one. */
  ghost predicate Apart(p: Bytes, q: Bytes) {
    forall s: Bytes, t: Bytes {:trigger p + s, q + t} | p + s == q + t :: p == q
  }

  lemma FixedFree(x: Bytes, y: Bytes, s: Bytes, t: Bytes)
    requires |x| == |y| && x + s == y + t
    ensures x == y && s == t
  {
    assert x == (x + s)[..|x|] && y == (y + t)[..|x|];
    assert s == (x + s)[|x|..] && t == (y + t)[|x|..];
  }

  lemma Grouped(x: Bytes, y: Bytes, z: Bytes)
    ensures x + y + z == x + (y + z)
  {
  }

  lemma FiveGrouped(a: Bytes, b: Bytes, c: Bytes, d: Bytes, e: Bytes, s: Bytes)
    ensures a + b + c + d + e + s == a + (b + (c + (d + (e + s))))
  {
  }

  lemma NumberFree(m: nat, n: nat, width: nat, s: Bytes, t: Bytes)
    requires m < Pow256(width) && n < Pow256(width)
    requires LeBytes(m, width) + s == LeBytes(n, width) + t
    ensures m == n && s == t
  {
    FixedFree(LeBytes(m, width), LeBytes(n, width), s, t);
    LeRoundTrip(m, width);
    LeRoundTrip(n, width);
  }

  lemma LengthFree(x: Bytes, y: Bytes, s: Bytes, t: Bytes)
    requires Countable(|x|) && Countable(|y|)
    requires WithLength(x) + s == WithLength(y) + t
    ensures x == y && s == t
  {
    hide Size;
    Grouped(Size(|x|), x, s);
    Grouped(Size(|y|), y, t);
    SizePrefixFree(|x|, |y|, x + s, y + t);
    FixedFree(x, y, s, t);
  }

  /** As many parts, each apart from the one in its place. */
  lemma {:induction false} JoinedFree(p: seq<Bytes>, q: seq<Bytes>, s: Bytes, t: Bytes)
    requires |p| == |q| && forall i | 0 <= i < |p| :: Apart(p[i], q[i])
    requires Joined(p) + s == Joined(q) + t
    ensures p == q && s == t
    decreases |p|
  {
    if p == [] {
      assert [] + s == s && [] + t == t;
    } else {
      var x, y := Joined(p[1..]) + s, Joined(q[1..]) + t;
      assert p[0] + x == Joined(p) + s && q[0] + y == Joined(q) + t;
      assert Apart(p[0], q[0]);
      FixedFree(p[0], q[0], x, y);
      JoinedFree(p[1..], q[1..], s, t);
      assert p == [p[0]] + p[1..] && q == [q[0]] + q[1..];
    }
  }

  /** A run with its count before it. */
  lemma CountedFree(p: seq<Bytes>, q: seq<Bytes>, s: Bytes, t: Bytes)
    requires Countable(|p|) && Countable(|q|)
    requires forall i | 0 <= i < |p| && i < |q| :: Apart(p[i], q[i])
    requires Size(|p|) + Joined(p) + s == Size(|q|) + Joined(q) + t
    ensures p == q && s == t
  {
    hide Size, Apart, Joined;
    Grouped(Size(|p|), Joined(p), s);
    Grouped(Size(|q|), Joined(q), t);
    SizePrefixFree(|p|, |q|, Joined(p) + s, Joined(q) + t);
    JoinedFree(p, q, s, t);
  }

  lemma InputFree(i: Input, j: Input, s: Bytes, t: Bytes)
    requires Countable(|i.script|) && Countable(|j.script|)
    requires EncodeInput(i) + s == EncodeInput(j) + t
    ensures i == j && s == t
  {
    hide LeBytes, WithLength, Pow256;
    Pow256Values();
    var si, sj := LeBytes(i.sequence, 4) + s, LeBytes(j.sequence, 4) + t;
    var ci, cj := WithLength(i.script) + si, WithLength(j.script) + sj;
    var ni, nj := LeBytes(i.index, 4) + ci, LeBytes(j.index, 4) + cj;
    assert i.txid + ni == EncodeInput(i) + s && j.txid + nj == EncodeInput(j) + t;
    FixedFree(i.txid, j.txid, ni, nj);
    NumberFree(i.index, j.index, 4, ci, cj);
    LengthFree(i.script, j.script, si, sj);
    NumberFree(i.sequence, j.sequence, 4, s, t);
  }

  lemma OutputFree(o: Output, p: Output, s: Bytes, t: Bytes)
    requires Countable(|o.script|) && Countable(|p.script|)
    requires EncodeOutput(o) + s == EncodeOutput(p) + t
    ensures o == p && s == t
  {
    hide LeBytes, WithLength, Pow256;
    Pow256Values();
    var so, sp := WithLength(o.script) + s, WithLength(p.script) + t;
    assert LeBytes(o.value, 8) + so == EncodeOutput(o) + s && LeBytes(p.value, 8) + sp == EncodeOutput(p) + t;
    NumberFree(o.value, p.value, 8, so, sp);
    LengthFree(o.script, p.script, s, t);
  }

  lemma InputsFree(a: seq<Input>, b: seq<Input>, s: Bytes, t: Bytes)
    requires SizedInputs(a) && SizedInputs(b)
    requires Size(|a|) + Joined(InputParts(a)) + s == Size(|b|) + Joined(InputParts(b)) + t
    ensures a == b && s == t
  {
    hide EncodeInput, Joined, Size;
    var p, q := InputParts(a), InputParts(b);
    forall i | 0 <= i < |p| && i < |q| ensures Apart(p[i], q[i]) {
      forall x: Bytes, y: Bytes | p[i] + x == q[i] + y ensures p[i] == q[i] { InputFree(a[i], b[i], x, y); }
    }
    CountedFree(p, q, s, t);
    forall i | 0 <= i < |a| ensures a[i] == b[i] {
      assert p[i] == q[i];
      InputFree(a[i], b[i], [], []);
    }
  }

  lemma OutputsFree(a: seq<Output>, b: seq<Output>, s: Bytes, t: Bytes)
    requires SizedOutputs(a) && SizedOutputs(b)
    requires Size(|a|) + Joined(OutputParts(a)) + s == Size(|b|) + Joined(OutputParts(b)) + t
    ensures a == b && s == t
  {
    hide EncodeOutput, Joined, Size;
    var p, q := OutputParts(a), OutputParts(b);
    forall i | 0 <= i < |p| && i < |q| ensures Apart(p[i], q[i]) {
      forall x: Bytes, y: Bytes | p[i] + x == q[i] + y ensures p[i] == q[i] { OutputFree(a[i], b[i], x, y); }
    }
    CountedFree(p, q, s, t);
    forall i | 0 <= i < |a| ensures a[i] == b[i] {
      assert p[i] == q[i];
      OutputFree(a[i], b[i], [], []);
    }
  }

  lemma StackFree(a: Stack, b: Stack, s: Bytes, t: Bytes)
    requires SizedStack(a) && SizedStack(b)
    requires EncodeStack(a) + s == EncodeStack(b) + t
    ensures a == b && s == t
  {
    hide WithLength, Joined, Size;
    var p, q := ItemParts(a), ItemParts(b);
    forall i | 0 <= i < |p| && i < |q| ensures Apart(p[i], q[i]) {
      forall x: Bytes, y: Bytes | p[i] + x == q[i] + y ensures p[i] == q[i] { LengthFree(a[i], b[i], x, y); }
    }
    CountedFree(p, q, s, t);
    forall i | 0 <= i < |a| ensures a[i] == b[i] {
      assert p[i] == q[i];
      LengthFree(a[i], b[i], [], []);
    }
  }

  /** No count stands before the stacks: there are as many as there are Inputs. */
  lemma StacksFree(a: seq<Stack>, b: seq<Stack>, s: Bytes, t: Bytes)
    requires SizedStacks(a) && SizedStacks(b) && |a| == |b|
    requires EncodeStacks(a) + s == EncodeStacks(b) + t
    ensures a == b && s == t
  {
    hide EncodeStack, Joined;
    var p, q := StackParts(a), StackParts(b);
    forall i | 0 <= i < |p| ensures Apart(p[i], q[i]) {
      forall x: Bytes, y: Bytes | p[i] + x == q[i] + y ensures p[i] == q[i] { StackFree(a[i], b[i], x, y); }
    }
    JoinedFree(p, q, s, t);
    forall i | 0 <= i < |a| ensures a[i] == b[i] {
      assert p[i] == q[i];
      StackFree(a[i], b[i], [], []);
    }
  }

  lemma BodyFree(v: Wire, w: Wire, s: Bytes, t: Bytes)
    requires Sized(v) && Sized(w)
    requires EncodeBody(v.inputs, v.outputs) + s == EncodeBody(w.inputs, w.outputs) + t
    ensures v.inputs == w.inputs && v.outputs == w.outputs && s == t
  {
    hide Size, Joined, InputParts, OutputParts, SizedInputs, SizedOutputs, SizedStacks;
    var x := Size(|v.outputs|) + Joined(OutputParts(v.outputs)) + s;
    var y := Size(|w.outputs|) + Joined(OutputParts(w.outputs)) + t;
    assert Size(|v.inputs|) + Joined(InputParts(v.inputs)) + x == EncodeBody(v.inputs, v.outputs) + s;
    assert Size(|w.inputs|) + Joined(InputParts(w.inputs)) + y == EncodeBody(w.inputs, w.outputs) + t;
    InputsFree(v.inputs, w.inputs, x, y);
    OutputsFree(v.outputs, w.outputs, s, t);
  }

  lemma BodyBegins(inputs: seq<Input>, outputs: seq<Output>, s: Bytes)
    ensures
      var b := EncodeBody(inputs, outputs) + s;
      b != [] && (b[0] == 0 <==> inputs == [])
  {
    hide Joined, InputParts, OutputParts;
  }

  /** An Input at least is what keeps its count from being read as a marker. */
  lemma MarkerFree(v: Wire, w: Wire, s: Bytes, t: Bytes)
    requires |v.inputs| > 0 && |w.inputs| > 0
    requires
      Marker(v.flag) + (EncodeBody(v.inputs, v.outputs) + s) == Marker(w.flag) + (EncodeBody(w.inputs, w.outputs) + t)
    ensures v.flag == w.flag
    ensures EncodeBody(v.inputs, v.outputs) + s == EncodeBody(w.inputs, w.outputs) + t
  {
    hide EncodeBody;
    var x, y := EncodeBody(v.inputs, v.outputs) + s, EncodeBody(w.inputs, w.outputs) + t;
    BodyBegins(v.inputs, v.outputs, s);
    BodyBegins(w.inputs, w.outputs, t);
    var b := Marker(v.flag) + x;
    assert b[0] == 0 <==> v.flag.Some?;
    assert b[0] == 0 <==> w.flag.Some?;
    FixedFree(Marker(v.flag), Marker(w.flag), x, y);
  }

  /** No well-formed Transaction is printed two ways, and no printed one begins
      another, whatever their flags and stacks. */
  lemma EncodePrefixFree(v: Wire, w: Wire, s: Bytes, t: Bytes)
    requires WellFormed(v) && WellFormed(w)
    requires Encode(v) + s == Encode(w) + t
    ensures v == w && s == t
  {
    hide LeBytes, Marker, EncodeBody, EncodeStacks, SizedInputs, SizedOutputs, SizedStacks, Pow256;
    Pow256Values();
    var lv, lw := LeBytes(v.locktime, 4) + s, LeBytes(w.locktime, 4) + t;
    var wv, ww := EncodeStacks(v.stacks) + lv, EncodeStacks(w.stacks) + lw;
    var bv, bw := EncodeBody(v.inputs, v.outputs) + wv, EncodeBody(w.inputs, w.outputs) + ww;
    FiveGrouped(LeBytes(v.version, 4), Marker(v.flag), EncodeBody(v.inputs, v.outputs), EncodeStacks(v.stacks),
        LeBytes(v.locktime, 4), s);
    FiveGrouped(LeBytes(w.version, 4), Marker(w.flag), EncodeBody(w.inputs, w.outputs), EncodeStacks(w.stacks),
        LeBytes(w.locktime, 4), t);
    NumberFree(v.version, w.version, 4, Marker(v.flag) + bv, Marker(w.flag) + bw);
    MarkerFree(v, w, wv, ww);
    BodyFree(v, w, wv, ww);
    StacksFree(v.stacks, w.stacks, lv, lw);
    NumberFree(v.locktime, w.locktime, 4, s, t);
  }

  lemma ReadableOnWire(tx: Tx)
    requires SizedTx(tx) && Readable(tx)
    ensures WellFormed(OnWire(tx))
  {
  }

  /** serialise, then: two Transactions are printed alike exactly when they
      differ at most in how they carry no Witness. */
  lemma SerialisedAlike(a: Tx, b: Tx)
    requires SizedTx(a) && SizedTx(b) && Readable(a) && Readable(b)
    ensures Encode(OnWire(a)) == Encode(OnWire(b)) <==>
            a.(witnesses := None) == b.(witnesses := None) && Carries(a) == Carries(b)
            && (Carries(a) ==> a.witnesses == b.witnesses)
  {
    hide Encode;
    if Encode(OnWire(a)) == Encode(OnWire(b)) {
      assert Encode(OnWire(a)) + [] == Encode(OnWire(b)) + [];
      ReadableOnWire(a);
      ReadableOnWire(b);
      EncodePrefixFree(OnWire(a), OnWire(b), [], []);
    }
  }

  /** One Input and no Outputs, its stack one empty item. */
  function OneInput(version: u32, locktime: u32): Tx {
    Tx(version, [Input(Zeros(7) + [36] + Zeros(24), 0, [], 0)], [], locktime, Some([[[]]]))
  }

  /** No Input and one Output, whose script is most of the above. */
  function NoInput(version: u32, locktime: u32): Tx {
    Tx(version, [], [Output(1, Zeros(34) + [1, 0])], locktime, None)
  }

  /** Without an Input the law fails, every version and lock time alike. */
  lemma NoInputReadsTwoWays(version: u32, locktime: u32)
    ensures
      var a, b := OneInput(version, locktime), NoInput(version, locktime);
      SizedTx(a) && SizedTx(b) && Readable(a) && !Readable(b) && Encode(OnWire(a)) == Encode(OnWire(b))
  {
    hide Encode, EncodeBody, EncodeStacks, Marker, SizedTx, Readable, Carries;
    var a, b := OneInput(version, locktime), NoInput(version, locktime);
    BothSized(version, locktime);
    MiddlePrinted(a.inputs[0], b.outputs[0]);
    PrintedAround(OnWire(a));
    PrintedAround(OnWire(b));
  }

  lemma BothSized(version: u32, locktime: u32)
    ensures
      var a, b := OneInput(version, locktime), NoInput(version, locktime);
      SizedTx(a) && SizedTx(b) && Carries(a) && !Carries(b) && Readable(a) && !Readable(b)
  {
    assert OneInput(version, locktime).witnesses.value[0] != [];
  }

  lemma MiddlePrinted(i: Input, o: Output)
    requires i == Input(Zeros(7) + [36] + Zeros(24), 0, [], 0) && o == Output(1, Zeros(34) + [1, 0])
    ensures Marker(Some(1)) + EncodeBody([i], []) + EncodeStacks([[[]]])
            == Marker(None) + EncodeBody([], [o]) + EncodeStacks([])
  {
    hide EncodeBody, EncodeStacks;
    OneInputPrinted(i);
    NoInputPrinted(o);
    var middle: Bytes := [0, 1, 1] + Zeros(7) + [36] + Zeros(34) + [1, 0];
    assert Marker(Some(1)) + EncodeBody([i], []) + EncodeStacks([[[]]]) == middle;
    assert Marker(None) + EncodeBody([], [o]) + EncodeStacks([]) == middle;
  }

  lemma PrintedAround(w: Wire)
    ensures Encode(w) == LeBytes(w.version, 4) + (Marker(w.flag) + EncodeBody(w.inputs, w.outputs)
                         + EncodeStacks(w.stacks)) + LeBytes(w.locktime, 4)
  {
    hide LeBytes, EncodeBody, EncodeStacks, Marker;
  }

  lemma OneInputPrinted(i: Input)
    requires i.index == 0 && i.script == [] && i.sequence == 0
    ensures EncodeBody([i], []) == [1] + i.txid + Zeros(10)
    ensures EncodeStacks([[[]]]) == [1, 0]
  {
    NoughtBytes(4);
    hide LeBytes;
    var parts := InputParts([i]);
    assert Joined(parts) == parts[0] + Joined(parts[1..]);
    var stack := StackParts([[[]]]);
    assert Joined(stack) == stack[0] + Joined(stack[1..]);
    var items := ItemParts([[]]);
    assert Joined(items) == items[0] + Joined(items[1..]);
  }

  lemma NoInputPrinted(o: Output)
    requires o.value == 1 && |o.script| == 36
    ensures EncodeBody([], [o]) == [0, 1, 1] + Zeros(7) + [36] + o.script
    ensures EncodeStacks([]) == []
  {
    hide EncodeOutput, LeBytes;
    var parts := OutputParts([o]);
    assert Joined(parts) == parts[0] + Joined(parts[1..]);
    OneOutputPrinted(o);
  }

  lemma OneOutputPrinted(o: Output)
    requires o.value == 1 && |o.script| == 36
    ensures EncodeOutput(o) == [1] + Zeros(7) + [36] + o.script
  {
    OneAndNoughts();
    hide LeBytes, Zeros;
    assert WithLength(o.script) == [36] + o.script;
  }

  lemma {:induction false} NoughtBytes(width: nat)
    ensures LeBytes(0, width) == Zeros(width)
  {
    if width > 0 { NoughtBytes(width - 1); }
  }

  lemma OneAndNoughts()
    ensures LeBytes(1, 8) == [1] + Zeros(7)
  {
    NoughtBytes(7);
  }
}
