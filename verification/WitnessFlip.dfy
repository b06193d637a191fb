/** wrong_witness_body of tools/regtest/liar.py: the Block with one byte of one
    Witness item flipped in place. */
module WitnessFlip {
  import opened Bytes
  import opened CompactSize
  import opened Runs
  import opened Transaction
  import Merkle
  import opened LyingBlock

  //
  // The search, over one item, one stack, one Transaction.
  //

  /** The first item with a byte to flip is found; out[p] past the end is the
      IndexError. */
  function ItemScan(b: Bytes, at: nat, found: Found): Scan {
    match Compact(b, at)
    case Cut => Stopped
    case Read(length, next) =>
      if length > 0 && found.Nothing? then
        if next < |b| then Scan(next + length, Byte(next)) else Stopped
      else Scan(next + length, found)
  }

  function StackScan(b: Bytes, at: nat, found: Found): Scan {
    match Compact(b, at)
    case Cut => Stopped
    case Read(items, next) => ScanEach(ItemScans(b), next, items, found)
  }

  /** Any Transaction but the first. */
  function TxScan(b: Bytes, at: nat, found: Found): Scan {
    var e := ExtentAt(b, at);
    if e.Broken? then Stopped
    else if e.marker && found.Nothing? then
      match ScanEach(StackScans(b), e.witAt, e.nIn, Nothing)
      case Stopped => Stopped
      case Scan(_, now) => Scan(e.end, now)
    else Scan(e.end, found)
  }

  function ItemScans(b: Bytes): (nat, Found) -> Scan { (at: nat, found: Found) => ItemScan(b, at, found) }
  function StackScans(b: Bytes): (nat, Found) -> Scan { (at: nat, found: Found) => StackScan(b, at, found) }
  function TxScans(b: Bytes): (nat, Found) -> Scan { (at: nat, found: Found) => TxScan(b, at, found) }

  /** b with the byte that was found flipped. */
  function FlipFound(b: Bytes, found: Found): (f: Bytes)
    ensures |f| == |b|
  {
    if found.Byte? then FlipAt(b, found.at) else b
  }

  /** The coinbase is walked over and never searched. */
  function FirstScan(b: Bytes, at: nat): Scan {
    var e := ExtentAt(b, at);
    if e.Broken? then Stopped else Scan(e.end, Nothing)
  }

  function SearchBlock(block: Bytes, at: nat, count: nat): Scan {
    if count == 0 then Scan(at, Nothing)
    else
      match FirstScan(block, at)
      case Stopped => Stopped
      case Scan(next, now) => ScanEach(TxScans(block), next, count - 1, now)
  }

  function WrongWitnessBody(block: Bytes): Served {
    match Compact(block, 80)
    case Cut => Failed
    case Read(count, at) =>
      match SearchBlock(block, at, count)
      case Stopped => Failed
      case Scan(_, found) => Body(FlipFound(block, found))
  }

  //
  // The loops, with the flip written into the copy.
  //

  /** The copy is the Block with what was found flipped, and says whether. */
  ghost predicate Holds(out: array<byte>, block: Bytes, found: Found, lied: bool)
    reads out
  {
    out[..] == FlipFound(block, found) && (lied <==> found.Byte?)
  }

  /** What a search of the honest Block came to, the flip now in the copy. */
  ghost predicate Answers(answer: Scan, ok: bool, next: nat, out: array<byte>, block: Bytes, lied: bool)
    reads out
  {
    match answer
    case Stopped => !ok
    case Scan(end, now) => ok && next == end && Holds(out, block, now, lied)
  }

  method FlipItem(block: Bytes, start: nat, items: nat, out: array<byte>, before: bool, ghost found: Found)
    returns (ok: bool, p: nat, lied: bool)
    requires Holds(out, block, found, before)
    modifies out
    ensures Answers(ScanEach(ItemScans(block), start, items, found), ok, p, out, block, lied)
  {
    hide Compact;
    p, lied := start, before;
    ghost var now, step := found, ItemScans(block);
    for j := 0 to items
      invariant Holds(out, block, now, lied)
      invariant ScanEach(step, start, items, found) == ScanEach(step, p, items - j, now)
    {
      var length := Compact(block, p);
      assert step(p, now) == ItemScan(block, p, now);
      if length.Cut? { return false, p, lied; }
      p := length.at;
      if length.value > 0 && !lied {
        if p >= out.Length { return false, p, lied; }
        out[p] := Flip(out[p]);
        lied := true;
        now := Byte(p);
      }
      p := p + length.value;
    }
    ok := true;
  }

  method FlipWitness(block: Bytes, witAt: nat, nIn: nat, out: array<byte>) returns (ok: bool, p: nat, lied: bool)
    requires out[..] == block
    modifies out
    ensures Answers(ScanEach(StackScans(block), witAt, nIn, Nothing), ok, p, out, block, lied)
  {
    p, lied := witAt, false;
    ghost var now, step := Nothing, StackScans(block);
    for i := 0 to nIn
      invariant Holds(out, block, now, lied)
      invariant ScanEach(step, witAt, nIn, Nothing) == ScanEach(step, p, nIn - i, now)
    {
      var items := Compact(block, p);
      ghost var one := step(p, now);
      assert one == StackScan(block, p, now);
      if items.Cut? { return false, p, lied; }
      ok, p, lied := FlipItem(block, items.at, items.value, out, lied, now);
      if !ok { return; }
      now := one.found;
    }
    ok := true;
  }

  /** One turn of the loop. */
  function TxTurn(block: Bytes, at: nat, first: bool, found: Found): Scan {
    if first then FirstScan(block, at) else TxScan(block, at, found)
  }

  method FlipTx(block: Bytes, at: nat, first: bool, out: array<byte>, before: bool, ghost found: Found)
    returns (ok: bool, next: nat, lied: bool)
    requires Holds(out, block, found, before) && (first ==> found == Nothing)
    modifies out
    ensures Answers(TxTurn(block, at, first, found), ok, next, out, block, lied)
  {
    ok, next, lied := false, at, before;
    var e := TxExtent(block, at);
    if e.Broken? { return; }
    if !first && e.marker && !lied {
      var walked, p;
      walked, p, lied := FlipWitness(block, e.witAt, e.nIn, out);
      if !walked { return; }
    }
    ok, next := true, e.end;
  }

  lemma TurnTaken(block: Bytes, start: nat, count: nat, i: nat, at: nat, found: Found, next: nat, now: Found)
    requires i < count && TxTurn(block, at, i == 0, found) == Scan(next, now)
    requires if i == 0 then at == start && found == Nothing
             else SearchBlock(block, start, count) == ScanEach(TxScans(block), at, count - i, found)
    ensures SearchBlock(block, start, count) == ScanEach(TxScans(block), next, count - i - 1, now)
  {
    if i > 0 {
      ScannedOne(TxScans(block), at, count - i, found, next, now);
    }
  }

  lemma TurnStopped(block: Bytes, start: nat, count: nat, i: nat, at: nat, found: Found)
    requires i < count && TxTurn(block, at, i == 0, found) == Stopped
    requires if i == 0 then at == start && found == Nothing
             else SearchBlock(block, start, count) == ScanEach(TxScans(block), at, count - i, found)
    ensures SearchBlock(block, start, count) == Stopped
  {
  }

  method FlipEach(block: Bytes, start: nat, count: nat, out: array<byte>) returns (ok: bool, at: nat, lied: bool)
    requires out[..] == block
    modifies out
    ensures Answers(SearchBlock(block, start, count), ok, at, out, block, lied)
  {
    at, lied := start, false;
    ghost var found, step := Nothing, TxScans(block);
    for i := 0 to count
      invariant Holds(out, block, found, lied)
      invariant if i == 0 then at == start && found == Nothing
                else SearchBlock(block, start, count) == ScanEach(step, at, count - i, found)
    {
      ghost var was, one := at, TxTurn(block, at, i == 0, found);
      ok, at, lied := FlipTx(block, at, i == 0, out, lied, found);
      if !ok {
        TurnStopped(block, start, count, i, was, found);
        return;
      }
      TurnTaken(block, start, count, i, was, found, at, one.found);
      found := one.found;
    }
    ok := true;
  }

  method ServeWrongWitnessBody(block: Bytes) returns (ok: bool, out: array<byte>)
    ensures fresh(out)
    ensures (if ok then Body(out[..]) else Failed) == WrongWitnessBody(block)
  {
    out := new byte[|block|](i requires 0 <= i < |block| => block[i]);
    assert out[..] == block;
    var count := Compact(block, 80);
    if count.Cut? { return false, out; }
    var at, lied;
    ok, at, lied := FlipEach(block, count.at, count.value, out);
  }

  //
  // The same flip said of the Block and not of its bytes.
  //

  ghost predicate HasItem(items: Stack) {
    exists i | 0 <= i < |items| :: items[i] != []
  }

  ghost predicate HasWitness(stacks: seq<Stack>) {
    exists i | 0 <= i < |stacks| :: HasItem(stacks[i])
  }

  /** The first item that has a byte, or as many as there are. */
  function FirstItem(items: Stack): (k: nat)
    ensures k <= |items|
  {
    if items == [] || items[0] != [] then 0 else 1 + FirstItem(items[1..])
  }

  function FirstStack(stacks: seq<Stack>): (k: nat)
    ensures k <= |stacks|
  {
    if stacks == [] || FirstItem(stacks[0]) < |stacks[0]| then 0 else 1 + FirstStack(stacks[1..])
  }

  /** The first Transaction that carries a Witness byte. */
  function FirstWitness(txs: seq<Wire>): (k: nat)
    ensures k <= |txs|
  {
    if txs == [] || FirstStack(txs[0].stacks) < |txs[0].stacks| then 0 else 1 + FirstWitness(txs[1..])
  }

  lemma {:induction false} FirstItemIsFirst(items: Stack)
    ensures FirstItem(items) < |items| <==> HasItem(items)
    ensures FirstItem(items) < |items| ==> items[FirstItem(items)] != []
    ensures forall i | 0 <= i < FirstItem(items) :: items[i] == []
  {
    if items != [] && items[0] == [] {
      FirstItemIsFirst(items[1..]);
      assert forall i | 1 <= i < |items| :: items[i] == items[1..][i - 1];
    }
  }

  lemma {:induction false} FirstStackIsFirst(stacks: seq<Stack>)
    ensures FirstStack(stacks) < |stacks| <==> HasWitness(stacks)
    ensures FirstStack(stacks) < |stacks| ==> HasItem(stacks[FirstStack(stacks)])
    ensures forall i | 0 <= i < FirstStack(stacks) :: !HasItem(stacks[i])
  {
    if stacks != [] {
      FirstItemIsFirst(stacks[0]);
      FirstStackIsFirst(stacks[1..]);
      assert forall i | 1 <= i < |stacks| :: stacks[i] == stacks[1..][i - 1];
    }
  }

  lemma {:induction false} FirstWitnessIsFirst(txs: seq<Wire>)
    ensures FirstWitness(txs) < |txs| <==> exists i | 0 <= i < |txs| :: HasWitness(txs[i].stacks)
    ensures FirstWitness(txs) < |txs| ==> HasWitness(txs[FirstWitness(txs)].stacks)
    ensures forall i | 0 <= i < FirstWitness(txs) :: !HasWitness(txs[i].stacks)
  {
    if txs != [] {
      FirstStackIsFirst(txs[0].stacks);
      FirstWitnessIsFirst(txs[1..]);
      assert forall i | 1 <= i < |txs| :: txs[i] == txs[1..][i - 1];
    }
  }

  function FlipItems(items: Stack): (flipped: Stack)
    ensures |flipped| == |items|
  {
    var k := FirstItem(items);
    if k < |items| then items[k := FlipAt(items[k], 0)] else items
  }

  function FlipStacks(stacks: seq<Stack>): (flipped: seq<Stack>)
    ensures |flipped| == |stacks|
  {
    var k := FirstStack(stacks);
    if k < |stacks| then stacks[k := FlipItems(stacks[k])] else stacks
  }

  function FlipWire(w: Wire): Wire {
    w.(stacks := FlipStacks(w.stacks))
  }

  function FlipTxs(txs: seq<Wire>): (flipped: seq<Wire>)
    ensures |flipped| == |txs|
  {
    var k := FirstWitness(txs);
    if k < |txs| then txs[k := FlipWire(txs[k])] else txs
  }

  /** The Block with the first Witness byte behind the coinbase flipped. */
  function FlipBlock(blk: Block): (f: Block)
    ensures |f.txs| == |blk.txs|
  {
    if blk.txs == [] then blk else Block(blk.header, [blk.txs[0]] + FlipTxs(blk.txs[1..]))
  }

  //
  // Where the byte stands, and what flipping it there is.
  //

  function InStack(items: Stack): nat {
    var k := FirstItem(items);
    if k < |items| then |Size(|items|)| + (Before(ItemParts(items), k) + |Size(|items[k]|)|) else 0
  }

  function InStacks(stacks: seq<Stack>): nat {
    var k := FirstStack(stacks);
    if k < |stacks| then Before(StackParts(stacks), k) + InStack(stacks[k]) else 0
  }

  function InWire(w: Wire): nat {
    WitAt(0, w) + InStacks(w.stacks)
  }

  lemma ItemFlipped(item: Bytes)
    requires item != []
    ensures |Size(|item|)| < |WithLength(item)|
    ensures FlipAt(WithLength(item), |Size(|item|)|) == WithLength(FlipAt(item, 0))
  {
    FlipRight(Size(|item|), item, 0);
  }

  lemma StackFlipped(items: Stack)
    requires HasItem(items)
    ensures InStack(items) < |EncodeStack(items)|
    ensures FlipAt(EncodeStack(items), InStack(items)) == EncodeStack(FlipItems(items))
  {
    hide FlipAt, Joined, ItemParts, Before;
    FirstItemIsFirst(items);
    var k := FirstItem(items);
    var q := |Size(|items[k]|)|;
    ItemFlipped(items[k]);
    FlipBehind(Size(|items|), ItemParts(items), ItemParts(FlipItems(items)), k, q);
  }

  lemma StackPartFlipped(stacks: seq<Stack>, k: nat)
    requires k < |stacks| && HasItem(stacks[k])
    ensures PartFlipped(StackParts(stacks), StackParts(stacks[k := FlipItems(stacks[k])]), k, InStack(stacks[k]))
  {
    StackFlipped(stacks[k]);
  }

  lemma StacksFlipped(stacks: seq<Stack>)
    requires HasWitness(stacks)
    ensures InStacks(stacks) < |EncodeStacks(stacks)|
    ensures FlipAt(EncodeStacks(stacks), InStacks(stacks)) == EncodeStacks(FlipStacks(stacks))
  {
    hide FlipAt, Joined, Before, StackParts, FirstStack, InStack;
    FirstStackIsFirst(stacks);
    var k := FirstStack(stacks);
    StackPartFlipped(stacks, k);
    FlipJoined(StackParts(stacks), StackParts(FlipStacks(stacks)), k, InStack(stacks[k]));
  }

  /** The Transaction as far as its stacks. */
  function ToStacks(w: Wire): Bytes {
    LeBytes(w.version, 4) + Marker(w.flag) + EncodeBody(w.inputs, w.outputs)
  }

  lemma EncodeRestacked(w: Wire, stacks: seq<Stack>)
    ensures Encode(w.(stacks := stacks)) == ToStacks(w) + EncodeStacks(stacks) + LeBytes(w.locktime, 4)
    ensures |ToStacks(w)| == WitAt(0, w)
  {
  }

  lemma WireFlipped(w: Wire)
    requires HasWitness(w.stacks)
    ensures InWire(w) < |Encode(w)|
    ensures FlipAt(Encode(w), InWire(w)) == Encode(FlipWire(w))
  {
    StacksFlipped(w.stacks);
    EncodeRestacked(w, w.stacks);
    EncodeRestacked(w, FlipStacks(w.stacks));
    FlipWithin(ToStacks(w), EncodeStacks(w.stacks), LeBytes(w.locktime, 4), InStacks(w.stacks));
  }

  lemma TxPartFlipped(txs: seq<Wire>, k: nat)
    requires k < |txs| && HasWitness(txs[k].stacks)
    ensures PartFlipped(Encodings(txs), Encodings(txs[k := FlipWire(txs[k])]), k, InWire(txs[k]))
  {
    WireFlipped(txs[k]);
  }

  //
  // The search comes to exactly that byte.
  //

  lemma ItemScanned(b: Bytes, item: Bytes, found: Found)
    requires Countable(|item|)
    ensures found.Byte? || item == [] ==> Passes(ItemScans(b), b, WithLength(item), found)
    ensures item != [] ==> Finds(ItemScans(b), b, WithLength(item), |Size(|item|)|)
  {
    forall at: nat | At(b, at, WithLength(item)) ensures Compact(b, at) == Read(|item|, at + |Size(|item|)|) {
      AtSplit(b, at, Size(|item|), item);
      CompactInverts(b, at, |item|);
    }
  }

  lemma StackPasses(b: Bytes, items: Stack, found: Found)
    requires SizedStack(items) && (found.Byte? || !HasItem(items))
    ensures Passes(StackScans(b), b, EncodeStack(items), found)
  {
    hide Compact, Size, Joined, ItemScan, ScanEach;
    var step, parts := ItemScans(b), ItemParts(items);
    forall i | 0 <= i < |parts| ensures Passes(step, b, parts[i], found) {
      ItemScanned(b, items[i], found);
    }
    forall at: nat | At(b, at, EncodeStack(items))
      ensures StackScan(b, at, found) == Scan(at + |EncodeStack(items)|, found)
    {
      AtSplit(b, at, Size(|items|), Joined(parts));
      CompactInverts(b, at, |items|);
      EachPassed(step, b, at + |Size(|items|)|, parts, found);
    }
  }

  lemma StackPassesOn(b: Bytes, items: Stack)
    requires SizedStack(items)
    ensures PassesOn(StackScans(b), b, EncodeStack(items))
  {
    forall p: nat ensures Passes(StackScans(b), b, EncodeStack(items), Byte(p)) {
      StackPasses(b, items, Byte(p));
    }
  }

  lemma ItemsFind(b: Bytes, items: Stack)
    requires SizedStack(items) && HasItem(items)
    ensures
      var k := FirstItem(items);
      k < |items| && FindsIn(ItemScans(b), b, ItemParts(items), k, |Size(|items[k]|)|)
  {
    var step, parts, k := ItemScans(b), ItemParts(items), FirstItem(items);
    FirstItemIsFirst(items);
    forall i | 0 <= i < k ensures Passes(step, b, parts[i], Nothing) {
      ItemScanned(b, items[i], Nothing);
    }
    forall i | k < i < |items| ensures PassesOn(step, b, parts[i]) {
      forall p: nat ensures Passes(step, b, parts[i], Byte(p)) {
        ItemScanned(b, items[i], Byte(p));
      }
    }
    ItemScanned(b, items[k], Nothing);
  }

  lemma StackScanFrom(b: Bytes, at: nat, n: nat, next: nat, end: nat, now: Found)
    requires Compact(b, at) == Read(n, next)
    requires ScanEach(ItemScans(b), next, n, Nothing) == Scan(end, now)
    ensures StackScan(b, at, Nothing) == Scan(end, now)
  {
  }

  /** In this stack, wherever it stands. */
  lemma StackFoundAt(b: Bytes, at: nat, items: Stack)
    requires SizedStack(items) && HasItem(items)
    requires At(b, at, EncodeStack(items))
    ensures StackScan(b, at, Nothing) == Scan(at + |EncodeStack(items)|, Byte(at + InStack(items)))
  {
    hide At, ScanEach, ItemScans, FindsIn, Joined, ItemParts, Before;
    var parts, k, next := ItemParts(items), FirstItem(items), at + |Size(|items|)|;
    ItemsFind(b, items);
    var q := |Size(|items[k]|)|;
    AtSplit(b, at, Size(|items|), Joined(parts));
    CompactInverts(b, at, |items|);
    OneFound(ItemScans(b), b, next, parts, k, q);
    StackScanFrom(b, at, |items|, next, next + |Joined(parts)|, Byte(next + (Before(parts, k) + q)));
  }

  lemma StackFinds(b: Bytes, items: Stack)
    requires SizedStack(items) && HasItem(items)
    ensures Finds(StackScans(b), b, EncodeStack(items), InStack(items))
  {
    forall at: nat | At(b, at, EncodeStack(items))
      ensures StackScans(b)(at, Nothing) == Scan(at + |EncodeStack(items)|, Byte(at + InStack(items)))
    {
      StackFoundAt(b, at, items);
    }
  }

  lemma StacksPassed(b: Bytes, at: nat, stacks: seq<Stack>)
    requires SizedStacks(stacks) && !HasWitness(stacks) && At(b, at, EncodeStacks(stacks))
    ensures ScanEach(StackScans(b), at, |stacks|, Nothing) == Scan(at + |EncodeStacks(stacks)|, Nothing)
  {
    var step, parts := StackScans(b), StackParts(stacks);
    forall i | 0 <= i < |parts| ensures Passes(step, b, parts[i], Nothing) {
      StackPasses(b, stacks[i], Nothing);
    }
    EachPassed(step, b, at, parts, Nothing);
  }

  lemma StacksFind(b: Bytes, stacks: seq<Stack>)
    requires SizedStacks(stacks) && HasWitness(stacks)
    ensures
      var k := FirstStack(stacks);
      k < |stacks| && FindsIn(StackScans(b), b, StackParts(stacks), k, InStack(stacks[k]))
  {
    var step, parts, k := StackScans(b), StackParts(stacks), FirstStack(stacks);
    FirstStackIsFirst(stacks);
    forall i | 0 <= i < k ensures Passes(step, b, parts[i], Nothing) {
      StackPasses(b, stacks[i], Nothing);
    }
    forall i | k < i < |stacks| ensures PassesOn(step, b, parts[i]) {
      StackPassesOn(b, stacks[i]);
    }
    StackFinds(b, stacks[k]);
  }

  lemma StacksFound(b: Bytes, at: nat, stacks: seq<Stack>)
    requires SizedStacks(stacks) && HasWitness(stacks) && At(b, at, EncodeStacks(stacks))
    ensures ScanEach(StackScans(b), at, |stacks|, Nothing) ==
        Scan(at + |EncodeStacks(stacks)|, Byte(at + InStacks(stacks)))
  {
    hide At, ScanEach, FindsIn, Joined, StackParts, Before;
    var k := FirstStack(stacks);
    StacksFind(b, stacks);
    OneFound(StackScans(b), b, at, StackParts(stacks), k, InStack(stacks[k]));
  }

  lemma WirePasses(b: Bytes, w: Wire, found: Found)
    requires WellFormed(w) && (found.Byte? || !HasWitness(w.stacks))
    ensures Passes(TxScans(b), b, Encode(w), found)
  {
    forall at: nat | At(b, at, Encode(w)) ensures TxScan(b, at, found) == Scan(at + |Encode(w)|, found) {
      ExtentInvertsEncode(b, at, w);
      if w.flag.Some? && found.Nothing? {
        LaidOut(b, at, w);
        StacksPassed(b, WitAt(at, w), w.stacks);
      }
    }
  }

  lemma WirePassesOn(b: Bytes, w: Wire)
    requires WellFormed(w)
    ensures PassesOn(TxScans(b), b, Encode(w))
  {
    forall p: nat ensures Passes(TxScans(b), b, Encode(w), Byte(p)) {
      WirePasses(b, w, Byte(p));
    }
  }

  lemma WireFoundAt(b: Bytes, at: nat, w: Wire)
    requires WellFormed(w) && HasWitness(w.stacks)
    requires At(b, at, Encode(w))
    ensures TxScan(b, at, Nothing) == Scan(at + |Encode(w)|, Byte(at + InWire(w)))
  {
    hide At, ScanEach, EncodeStacks, EncodeBody;
    ExtentInvertsEncode(b, at, w);
    LaidOut(b, at, w);
    StacksFound(b, WitAt(at, w), w.stacks);
    assert WitAt(at, w) == at + WitAt(0, w);
  }

  lemma WireFinds(b: Bytes, w: Wire)
    requires WellFormed(w) && HasWitness(w.stacks)
    ensures Finds(TxScans(b), b, Encode(w), InWire(w))
  {
    forall at: nat | At(b, at, Encode(w))
      ensures TxScans(b)(at, Nothing) == Scan(at + |Encode(w)|, Byte(at + InWire(w)))
    {
      WireFoundAt(b, at, w);
    }
  }

  lemma TxsFind(b: Bytes, txs: seq<Wire>, k: nat)
    requires forall i | 0 <= i < |txs| :: WellFormed(txs[i])
    requires k < |txs| && HasWitness(txs[k].stacks)
    requires forall i | 0 <= i < k :: !HasWitness(txs[i].stacks)
    ensures FindsIn(TxScans(b), b, Encodings(txs), k, InWire(txs[k]))
  {
    var step, parts := TxScans(b), Encodings(txs);
    forall i | 0 <= i < k ensures Passes(step, b, parts[i], Nothing) {
      WirePasses(b, txs[i], Nothing);
    }
    forall i | k < i < |txs| ensures PassesOn(step, b, parts[i]) {
      WirePassesOn(b, txs[i]);
    }
    WireFinds(b, txs[k]);
  }

  lemma TxsPass(b: Bytes, txs: seq<Wire>)
    requires forall i | 0 <= i < |txs| :: WellFormed(txs[i]) && !HasWitness(txs[i].stacks)
    ensures forall i | 0 <= i < |txs| :: Passes(TxScans(b), b, Encodings(txs)[i], Nothing)
  {
    forall i | 0 <= i < |txs| ensures Passes(TxScans(b), b, Encodings(txs)[i], Nothing) {
      WirePasses(b, txs[i], Nothing);
    }
  }

  /** What the search comes to in Transactions standing at this offset. */
  function FirstByte(at: nat, txs: seq<Wire>): Found {
    var k := FirstWitness(txs);
    if k < |txs| then Byte(at + (Before(Encodings(txs), k) + InWire(txs[k]))) else Nothing
  }

  lemma TxsSearched(b: Bytes, at: nat, txs: seq<Wire>)
    requires forall i | 0 <= i < |txs| :: WellFormed(txs[i])
    requires At(b, at, EncodeTxs(txs))
    ensures ScanEach(TxScans(b), at, |Encodings(txs)|, Nothing) == Scan(at + |EncodeTxs(txs)|, FirstByte(at, txs))
  {
    hide At, ScanEach, TxScans, Encodings, Joined, Before, InWire;
    var k := FirstWitness(txs);
    FirstWitnessIsFirst(txs);
    if k < |txs| {
      TxsFind(b, txs, k);
      OneFound(TxScans(b), b, at, Encodings(txs), k, InWire(txs[k]));
    } else {
      TxsPass(b, txs);
      EachPassed(TxScans(b), b, at, Encodings(txs), Nothing);
    }
  }

  //
  // The theorems.
  //

  lemma FlipItemsSized(items: Stack)
    ensures SizedStack(items) ==> SizedStack(FlipItems(items))
  {
  }

  lemma FlipWireWellFormed(w: Wire)
    ensures WellFormed(w) ==> WellFormed(FlipWire(w))
  {
    var k := FirstStack(w.stacks);
    if k < |w.stacks| {
      FlipItemsSized(w.stacks[k]);
    }
  }

  /** Transaction i as it was or flipped. */
  lemma FlippedTx(txs: seq<Wire>, i: nat)
    requires 0 < i < |txs|
    ensures FlipTxs(txs[1..])[i - 1] == txs[i] || FlipTxs(txs[1..])[i - 1] == FlipWire(txs[i])
  {
    assert txs[1..][i - 1] == txs[i];
  }

  lemma FlippedWellFormed(blk: Block)
    requires WellFormedBlock(blk)
    ensures WellFormedBlock(FlipBlock(blk))
    ensures StrippedForms(FlipBlock(blk).txs) == StrippedForms(blk.txs)
  {
    var txs, f := blk.txs, FlipBlock(blk);
    forall i | 0 <= i < |txs| ensures WellFormed(f.txs[i]) && Stripped(f.txs[i]) == Stripped(txs[i]) {
      if i > 0 {
        FlippedTx(txs, i);
        FlipWireWellFormed(txs[i]);
      }
    }
    SameStripped(txs, f.txs);
  }

  /** The bytes before the second Transaction. */
  function Head(blk: Block): Bytes
    requires blk.txs != []
  {
    blk.header + Size(|blk.txs|) + Encode(blk.txs[0])
  }

  lemma BehindTheFirst(blk: Block)
    requires blk.txs != []
    ensures EncodeBlock(blk) == Head(blk) + EncodeTxs(blk.txs[1..])
  {
    assert Encodings(blk.txs)[1..] == Encodings(blk.txs[1..]);
  }

  /** What the search answers for a well-formed Block. */
  function ToFlip(blk: Block): Found {
    if blk.txs == [] then Nothing else FirstByte(|Head(blk)|, blk.txs[1..])
  }

  lemma RestSearched(blk: Block)
    requires WellFormedBlock(blk) && blk.txs != []
    ensures SearchBlock(EncodeBlock(blk), 80 + |Size(|blk.txs|)|, |blk.txs|) == Scan(|EncodeBlock(blk)|, ToFlip(blk))
  {
    var b, first, rest := EncodeBlock(blk), blk.txs[0], blk.txs[1..];
    var at := 80 + |Size(|blk.txs|)|;
    BehindTheFirst(blk);
    var next := |Head(blk)|;
    RestLaidOut(blk, at);
    TxsSearched(b, next, rest);
    SearchFrom(b, at, |blk.txs|, next, |b|, ToFlip(blk));
  }

  lemma SearchFrom(b: Bytes, at: nat, n: nat, next: nat, end: nat, now: Found)
    requires n > 0 && FirstScan(b, at) == Scan(next, Nothing)
    requires ScanEach(TxScans(b), next, n - 1, Nothing) == Scan(end, now)
    ensures SearchBlock(b, at, n) == Scan(end, now)
  {
  }

  lemma RestLaidOut(blk: Block, at: nat)
    requires WellFormedBlock(blk) && blk.txs != [] && at == 80 + |Size(|blk.txs|)|
    ensures FirstScan(EncodeBlock(blk), at) == Scan(|Head(blk)|, Nothing)
    ensures At(EncodeBlock(blk), |Head(blk)|, EncodeTxs(blk.txs[1..]))
    ensures forall i | 0 <= i < |blk.txs[1..]| :: WellFormed(blk.txs[1..][i])
  {
    hide Encode, ExtentAt, EncodeBody, EncodeStacks, Size, WellFormed;
    var b, first, rest := EncodeBlock(blk), blk.txs[0], blk.txs[1..];
    BlockLaidOut(blk);
    assert Encodings(blk.txs)[1..] == Encodings(rest);
    AtSplit(b, at, Encode(first), EncodeTxs(rest));
    ExtentInvertsEncode(b, at, first);
    assert |Head(blk)| == at + |Encode(first)|;
  }

  lemma BlockSearched(blk: Block)
    requires WellFormedBlock(blk)
    ensures WrongWitnessBody(EncodeBlock(blk)) == Body(FlipFound(EncodeBlock(blk), ToFlip(blk)))
  {
    BlockLaidOut(blk);
    if blk.txs != [] {
      RestSearched(blk);
    }
  }

  lemma BlockFlippedAt(blk: Block, k: nat)
    requires blk.txs != [] && k == FirstWitness(blk.txs[1..]) < |blk.txs[1..]|
    ensures
      var rest := blk.txs[1..];
      var p := |Head(blk)| + (Before(Encodings(rest), k) + InWire(rest[k]));
      p < |EncodeBlock(blk)| && FlipAt(EncodeBlock(blk), p) == EncodeBlock(FlipBlock(blk))
  {
    hide FlipAt, Joined, Encodings, Before, InWire, FlipWire, Encode;
    var rest, f := blk.txs[1..], FlipBlock(blk);
    FirstWitnessIsFirst(rest);
    BehindTheFirst(blk);
    BehindTheFirst(f);
    assert f.txs[1..] == rest[k := FlipWire(rest[k])];
    TxPartFlipped(rest, k);
    FlipBehind(Head(blk), Encodings(rest), Encodings(f.txs[1..]), k, InWire(rest[k]));
  }

  lemma BlockFlipped(blk: Block)
    ensures FlipFound(EncodeBlock(blk), ToFlip(blk)) == EncodeBlock(FlipBlock(blk))
    ensures ToFlip(blk).Byte? ==> ToFlip(blk).at < |EncodeBlock(blk)|
  {
    hide FlipAt, EncodeBlock, Before, InWire, FlipWire, Encodings;
    if ToFlip(blk).Byte? {
      BlockFlippedAt(blk, FirstWitness(blk.txs[1..]));
    } else {
      assert FlipBlock(blk).txs == blk.txs;
    }
  }

  /** Whatever the Block, the bytes served are the Block with that one Witness
      byte flipped, and it is again a well-formed one. */
  lemma WrongWitnessBodyFlipsTheBlock(blk: Block)
    requires WellFormedBlock(blk)
    ensures WrongWitnessBody(EncodeBlock(blk)) == Body(EncodeBlock(FlipBlock(blk)))
    ensures WellFormedBlock(FlipBlock(blk))
    ensures |EncodeBlock(FlipBlock(blk))| == |EncodeBlock(blk)|
  {
    BlockSearched(blk);
    BlockFlipped(blk);
    FlippedWellFormed(blk);
  }

  /** No Id moves, nor the Merkle Root over them. */
  lemma FlipKeepsEveryId(blk: Block, h: Hasher)
    requires WellFormedBlock(blk)
    ensures
      var was := WalkBlock(EncodeBlock(blk));
      var served := WrongWitnessBody(EncodeBlock(blk));
      && served.Body? && |served.bytes| == |EncodeBlock(blk)|
      && var now := WalkBlock(served.bytes);
      && was.Walk? && now.Walk? && now.end == was.end == |served.bytes|
      && now.stripped == was.stripped && |now.stripped| == |blk.txs|
      && Ids(h, now.stripped) == Ids(h, was.stripped)
      && (blk.txs != [] ==> Merkle.Root(h, Ids(h, now.stripped)) == Merkle.Root(h, Ids(h, was.stripped)))
  {
    WrongWitnessBodyFlipsTheBlock(blk);
    FlippedWellFormed(blk);
    BlockWalked(blk);
    BlockWalked(FlipBlock(blk));
  }

  /** Exactly the byte at p moved. */
  ghost predicate OneByteApart(a: Bytes, b: Bytes, p: nat) {
    && |a| == |b| && p < |a|
    && a[p] != b[p]
    && forall q | 0 <= q < |a| && q != p :: a[q] == b[q]
  }

  /** A byte of some Transaction behind the coinbase is there to flip. */
  ghost predicate CarriesWitness(blk: Block) {
    exists i | 1 <= i < |blk.txs| :: HasWitness(blk.txs[i].stacks)
  }

  lemma ToFlipIffCarries(blk: Block)
    ensures ToFlip(blk).Byte? <==> CarriesWitness(blk)
  {
    if blk.txs != [] {
      var rest := blk.txs[1..];
      FirstWitnessIsFirst(rest);
      assert forall i | 1 <= i < |blk.txs| :: blk.txs[i] == rest[i - 1];
      assert forall i | 0 <= i < |rest| :: rest[i] == blk.txs[i + 1];
    }
  }

  lemma FoundIsOneApart(b: Bytes, found: Found)
    requires found.Byte? ==> found.at < |b|
    ensures found.Byte? <==> exists p: nat :: OneByteApart(b, FlipFound(b, found), p)
    ensures found.Nothing? <==> FlipFound(b, found) == b
  {
    if found.Byte? {
      assert OneByteApart(b, FlipFound(b, found), found.at);
    }
  }

  /** One byte moves exactly when a Transaction behind the coinbase carries a
      Witness item with a byte in it; otherwise nothing does. */
  lemma FlipMovesAtMostOneByte(blk: Block)
    requires WellFormedBlock(blk)
    ensures
      var b := EncodeBlock(blk);
      var served := WrongWitnessBody(b);
      && served.Body?
      && (CarriesWitness(blk) <==> exists p: nat :: OneByteApart(b, served.bytes, p))
      && (!CarriesWitness(blk) <==> served.bytes == b)
  {
    BlockSearched(blk);
    BlockFlipped(blk);
    ToFlipIffCarries(blk);
    FoundIsOneApart(EncodeBlock(blk), ToFlip(blk));
  }
}
