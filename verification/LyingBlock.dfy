/** lying_body of tools/regtest/liar.py: a Block with one Transaction
    re-serialised so that no Transaction Id moves. */
module LyingBlock {
  import opened Bytes
  import opened CompactSize
  import opened Runs
  import opened Transaction
  import opened Codec
  import Merkle

  datatype Block = Block(header: Bytes, txs: seq<Wire>)

  ghost predicate WellFormedBlock(blk: Block) {
    && |blk.header| == 80
    && Countable(|blk.txs|)
    && forall i | 0 <= i < |blk.txs| :: WellFormed(blk.txs[i])
  }

  /** Each Transaction's own bytes. */
  function Encodings(txs: seq<Wire>): (parts: seq<Bytes>)
    ensures |parts| == |txs|
    ensures forall i {:trigger parts[i]} | 0 <= i < |txs| :: parts[i] == Encode(txs[i])
  {
    seq(|txs|, i requires 0 <= i < |txs| => Encode(txs[i]))
  }

  function EncodeTxs(txs: seq<Wire>): Bytes {
    Joined(Encodings(txs))
  }

  function EncodeBlock(blk: Block): Bytes {
    blk.header + Size(|blk.txs|) + EncodeTxs(blk.txs)
  }

  lemma BlockLaidOut(blk: Block)
    requires WellFormedBlock(blk)
    ensures Compact(EncodeBlock(blk), 80) == Read(|blk.txs|, 80 + |Size(|blk.txs|)|)
    ensures At(EncodeBlock(blk), 80 + |Size(|blk.txs|)|, EncodeTxs(blk.txs))
    ensures EncodeBlock(blk)[..80 + |Size(|blk.txs|)|] == blk.header + Size(|blk.txs|)
  {
    var b, count := EncodeBlock(blk), Size(|blk.txs|);
    assert b == b[..] && At(b, 0, b);
    AtSplit(b, 0, blk.header + count, EncodeTxs(blk.txs));
    AtSplit(b, 0, blk.header, count);
    CompactInverts(b, 80, |blk.txs|);
  }

  //
  // What a reader of the Block takes its Ids over.
  //

  /** One Transaction's stripped form and where the next one stands. */
  datatype Form = NoForm | Form(stripped: Bytes, next: nat)

  function FormAt(b: Bytes, at: nat): Form {
    var e := ExtentAt(b, at);
    if e.Broken? then NoForm else Form(StrippedBytes(b, at, e), e.end)
  }

  /** The walk over one Block, as a function of where it stands. */
  function Forms(b: Bytes): nat -> Form {
    (at: nat) => FormAt(b, at)
  }

  datatype Walk = Lost | Walk(stripped: seq<Bytes>, end: nat)

  /** n Transactions from at: each one's stripped form, and where they end. */
  function WalkFrom(read: nat -> Form, at: nat, n: nat): Walk
    decreases n
  {
    if n == 0 then Walk([], at)
    else
      match read(at)
      case NoForm => Lost
      case Form(form, next) =>
        match WalkFrom(read, next, n - 1)
        case Lost => Lost
        case Walk(rest, end) => Walk([form] + rest, end)
  }

  function WalkBlock(b: Bytes): Walk {
    match Compact(b, 80)
    case Cut => Lost
    case Read(count, at) => WalkFrom(Forms(b), at, count)
  }

  function StrippedForms(txs: seq<Wire>): (forms: seq<Bytes>)
    ensures |forms| == |txs|
    ensures forall i {:trigger forms[i]} | 0 <= i < |txs| :: forms[i] == Encode(Stripped(txs[i]))
  {
    seq(|txs|, i requires 0 <= i < |txs| => Encode(Stripped(txs[i])))
  }

  /** BIP141: the Ids, whatever the digest. */
  function Ids(h: Hasher, forms: seq<Bytes>): (ids: seq<Hash>)
    ensures |ids| == |forms|
    ensures forall i {:trigger ids[i]} | 0 <= i < |ids| :: ids[i] == h(forms[i])
  {
    if forms == [] then [] else [h(forms[0])] + Ids(h, forms[1..])
  }

  /** Wherever these bytes stand in b, they are read as one Transaction. */
  ghost predicate Reads(read: nat -> Form, b: Bytes, tx: Bytes, form: Bytes) {
    forall at: nat {:trigger At(b, at, tx)} | At(b, at, tx) :: read(at) == Form(form, at + |tx|)
  }

  lemma WireReads(b: Bytes, w: Wire)
    requires WellFormed(w)
    ensures Reads(Forms(b), b, Encode(w), Encode(Stripped(w)))
  {
    forall at: nat | At(b, at, Encode(w))
      ensures Forms(b)(at) == Form(Encode(Stripped(w)), at + |Encode(w)|)
    {
      ExtentInvertsEncode(b, at, w);
      StrippedRead(b, at, w);
    }
  }

  lemma {:induction false} PartsWalked(read: nat -> Form, b: Bytes, at: nat, parts: seq<Bytes>, forms: seq<Bytes>)
    requires |forms| == |parts|
    requires forall i | 0 <= i < |parts| :: Reads(read, b, parts[i], forms[i])
    requires At(b, at, Joined(parts))
    ensures WalkFrom(read, at, |parts|) == Walk(forms, at + |Joined(parts)|)
    decreases |parts|
  {
    if parts != [] {
      AtSplit(b, at, parts[0], Joined(parts[1..]));
      assert Reads(read, b, parts[0], forms[0]);
      PartsWalked(read, b, at + |parts[0]|, parts[1..], forms[1..]);
    }
  }

  /** A well-formed Block is walked exactly to its end. */
  lemma BlockWalked(blk: Block)
    requires WellFormedBlock(blk)
    ensures WalkBlock(EncodeBlock(blk)) == Walk(StrippedForms(blk.txs), |EncodeBlock(blk)|)
  {
    BlockLaidOut(blk);
    var b := EncodeBlock(blk);
    forall i | 0 <= i < |blk.txs| ensures Reads(Forms(b), b, Encodings(blk.txs)[i], StrippedForms(blk.txs)[i]) {
      WireReads(b, blk.txs[i]);
    }
    PartsWalked(Forms(b), b, 80 + |Size(|blk.txs|)|, Encodings(blk.txs), StrippedForms(blk.txs));
  }

  lemma SameStripped(txs: seq<Wire>, other: seq<Wire>)
    requires |txs| == |other|
    requires forall i | 0 <= i < |txs| :: Stripped(txs[i]) == Stripped(other[i])
    ensures StrippedForms(txs) == StrippedForms(other)
  {
  }

  //
  // lying_body
  //

  datatype Mode = WitnessFlag | EmptyWitness

  /** The IndexError of a Block that ends too soon, or the bytes served. */
  datatype Served = Failed | Body(bytes: Bytes)

  datatype Retold = Retold(tx: Bytes, lied: bool)

  /** One turn of the loop: the Transaction as it is, or re-serialised. */
  function LieTx(block: Bytes, at: nat, e: Extent, mode: Mode, lied: bool): Retold
    requires e.Extent?
  {
    var tx := Slice(block, at, e.end);
    if !lied && mode.WitnessFlag? && e.marker then
      Retold(Slice(tx, 0, 5) + [2] + Slice(tx, 6, |tx|), true)
    else if !lied && mode.EmptyWitness? && e.marker then
      Retold(Slice(block, at, e.witAt) + Zeros(e.nIn) + Slice(block, e.lockAt, e.end), true)
    else if !lied && mode.EmptyWitness? then
      Retold(Slice(tx, 0, 4) + [0, 1] + Slice(block, e.vinAt, e.lockAt) + Zeros(e.nIn)
          + Slice(block, e.lockAt, e.end), true)
    else Retold(tx, lied)
  }

  /** A body with these bytes before it. */
  function Behind(head: Bytes, served: Served): Served {
    match served
    case Failed => Failed
    case Body(rest) => Body(head + rest)
  }

  lemma BehindBoth(head: Bytes, next: Bytes, served: Served)
    ensures Behind(head, Behind(next, served)) == Behind(head + next, served)
  {
    if served.Body? {
      assert head + (next + served.bytes) == head + next + served.bytes;
    }
  }

  /** One turn of the loop: what is added to the body, and where it goes on. */
  datatype Turn = Stuck | Turn(told: Retold, next: nat)

  function LieTurn(block: Bytes, mode: Mode, at: nat, lied: bool): Turn {
    var e := ExtentAt(block, at);
    if e.Broken? then Stuck else Turn(LieTx(block, at, e, mode, lied), e.end)
  }

  function Turns(block: Bytes, mode: Mode): (nat, bool) -> Turn {
    (at: nat, lied: bool) => LieTurn(block, mode, at, lied)
  }

  function LieFrom(turn: (nat, bool) -> Turn, at: nat, n: nat, lied: bool): Served
    decreases n
  {
    if n == 0 then Body([])
    else
      match turn(at, lied)
      case Stuck => Failed
      case Turn(told, next) => Behind(told.tx, LieFrom(turn, next, n - 1, told.lied))
  }

  function LyingBody(block: Bytes, mode: Mode): Served {
    match Compact(block, 80)
    case Cut => Failed
    case Read(count, at) => Behind(Slice(block, 0, at), LieFrom(Turns(block, mode), at, count, false))
  }

  /** The body as the source builds it, Transaction by Transaction. */
  method ServeLyingBody(block: Bytes, mode: Mode) returns (r: Served)
    ensures r == LyingBody(block, mode)
  {
    hide LieTx, ExtentAt, Compact, Slice;
    var count := Compact(block, 80);
    if count.Cut? { return Failed; }
    var at: nat := count.at;
    var out := Slice(block, 0, at);
    var lied := false;
    ghost var turn := Turns(block, mode);
    for i := 0 to count.value
      invariant LyingBody(block, mode) == Behind(out, LieFrom(turn, at, count.value - i, lied))
    {
      var e := TxExtent(block, at);
      assert turn(at, lied) == LieTurn(block, mode, at, lied);
      if e.Broken? { return Failed; }
      var one := LieTx(block, at, e, mode, lied);
      BehindBoth(out, one.tx, LieFrom(turn, e.end, count.value - i - 1, one.lied));
      out := out + one.tx;
      lied := one.lied;
      at := e.end;
    }
    assert out + [] == out;
    return Body(out);
  }

  /** Whether this Transaction is one the mode can lie about. */
  predicate CanLie(w: Wire, mode: Mode) {
    mode.EmptyWitness? || w.flag.Some?
  }

  /** The lie, said of the Transaction and not of its bytes. */
  function LieWire(w: Wire, mode: Mode): (lie: Wire)
    ensures Stripped(lie) == Stripped(w)
    ensures WellFormed(w) && CanLie(w, mode) ==> WellFormed(lie)
  {
    match mode
    case WitnessFlag => w.(flag := Some(2))
    case EmptyWitness => w.(flag := Some(if w.flag.Some? then w.flag.value else 1), stacks := seq(|w.inputs|, _ => []))
  }

  /** The first Transaction the mode can lie about, or as many as there are. */
  function FirstLie(txs: seq<Wire>, mode: Mode): (k: nat)
    ensures k <= |txs|
    ensures k < |txs| ==> CanLie(txs[k], mode)
    ensures forall i | 0 <= i < k :: !CanLie(txs[i], mode)
  {
    if txs == [] || CanLie(txs[0], mode) then 0 else 1 + FirstLie(txs[1..], mode)
  }

  function Lied(txs: seq<Wire>, mode: Mode): (lied: seq<Wire>)
    ensures |lied| == |txs|
    ensures forall i | 0 <= i < |txs| && i != FirstLie(txs, mode) :: lied[i] == txs[i]
  {
    var k := FirstLie(txs, mode);
    if k < |txs| then txs[k := LieWire(txs[k], mode)] else txs
  }

  lemma {:induction false} JoinedZeros(parts: seq<Bytes>)
    requires forall i | 0 <= i < |parts| :: parts[i] == [0]
    ensures Joined(parts) == Zeros(|parts|)
  {
    if parts != [] {
      JoinedZeros(parts[1..]);
    }
  }

  lemma EmptyStacksAreZeros(n: nat)
    ensures EncodeStacks(seq(n, _ => [])) == Zeros(n)
  {
    var parts := StackParts(seq(n, _ => []));
    assert EncodeStack([]) == [0];
    JoinedZeros(parts);
  }

  /** The three places LieTx cuts a printed Transaction at. */
  lemma PartsRead(b: Bytes, at: nat, w: Wire)
    requires At(b, at, Encode(w))
    ensures
      var e := ExtentOf(at, w);
      && e.end == at + |Encode(w)|
      && Slice(b, at, e.end) == Encode(w)
      && Slice(b, at, e.witAt) == LeBytes(w.version, 4) + Marker(w.flag) + EncodeBody(w.inputs, w.outputs)
      && Slice(b, e.vinAt, e.lockAt) == EncodeBody(w.inputs, w.outputs) + EncodeStacks(w.stacks)
      && Slice(b, e.lockAt, e.end) == LeBytes(w.locktime, 4)
  {
    hide EncodeBody, EncodeStacks, LeBytes;
    var e := ExtentOf(at, w);
    var version, marker, lock := LeBytes(w.version, 4), Marker(w.flag), LeBytes(w.locktime, 4);
    var body, stacks := EncodeBody(w.inputs, w.outputs), EncodeStacks(w.stacks);
    LaidOut(b, at, w);
    EncodeLength(at, w);
    AtSplit(b, e.vinAt, body, stacks);
    AtSplit(b, at, version, marker);
    AtSplit(b, at, version + marker, body);
    assert at + |version + marker| == e.vinAt;
  }

  lemma LieTold(b: Bytes, at: nat, w: Wire, mode: Mode, lied: bool)
    requires WellFormed(w)
    requires At(b, at, Encode(w))
    ensures LieTx(b, at, ExtentOf(at, w), mode, lied) ==
            if !lied && CanLie(w, mode) then Retold(Encode(LieWire(w, mode)), true) else Retold(Encode(w), lied)
  {
    PartsRead(b, at, w);
    if !lied && CanLie(w, mode) {
      if mode.WitnessFlag? {
        FlagLie(w);
      } else {
        EmptyStacksAreZeros(|w.inputs|);
        if w.flag.None? {
          VersionCut(w);
          assert EncodeStacks(w.stacks) == [];
        }
      }
    }
  }

  lemma VersionCut(w: Wire)
    ensures Slice(Encode(w), 0, 4) == LeBytes(w.version, 4)
  {
    assert Encode(w)[..4] == LeBytes(w.version, 4);
  }

  lemma FlagLie(w: Wire)
    requires w.flag.Some?
    ensures
      var tx := Encode(w);
      && |tx| > 6
      && Slice(tx, 0, 5) + [2] + Slice(tx, 6, |tx|) == Encode(LieWire(w, WitnessFlag))
      && Encode(LieWire(w, WitnessFlag)) == tx[5 := 2]
  {
    FifthByte(LeBytes(w.version, 4), w.flag.value, 2, EncodeBody(w.inputs, w.outputs), EncodeStacks(w.stacks),
        LeBytes(w.locktime, 4));
  }

  lemma FifthByte(version: Bytes, flag: byte, other: byte, body: Bytes, stacks: Bytes, lock: Bytes)
    requires |version| == 4 && |lock| == 4
    ensures
      var tx := version + [0, flag] + body + stacks + lock;
      && |tx| > 6
      && version + [0, other] + body + stacks + lock == tx[5 := other]
      && tx[..5] + [other] + tx[6..] == tx[5 := other]
  {
  }

  /** What a turn answers for these bytes, wherever they stand in b. */
  ghost predicate Tells(turn: (nat, bool) -> Turn, b: Bytes, tx: Bytes, lied: bool, told: Retold) {
    forall at: nat {:trigger At(b, at, tx)} | At(b, at, tx) :: turn(at, lied) == Turn(told, at + |tx|)
  }

  lemma WireTells(b: Bytes, w: Wire, mode: Mode, lied: bool)
    requires WellFormed(w)
    ensures Tells(Turns(b, mode), b, Encode(w), lied,
                  if !lied && CanLie(w, mode) then Retold(Encode(LieWire(w, mode)), true) else Retold(Encode(w), lied))
  {
    var told := if !lied && CanLie(w, mode) then Retold(Encode(LieWire(w, mode)), true) else Retold(Encode(w), lied);
    forall at: nat | At(b, at, Encode(w))
      ensures Turns(b, mode)(at, lied) == Turn(told, at + |Encode(w)|)
    {
      ExtentInvertsEncode(b, at, w);
      LieTold(b, at, w, mode, lied);
    }
  }

  /** Honest before k, a lie at k, honest after it. */
  lemma {:induction false} PartsTold(turn: (nat, bool) -> Turn, b: Bytes, at: nat, parts: seq<Bytes>, k: nat,
      lie: Bytes, lied: bool)
    requires k <= |parts|
    requires forall i | 0 <= i < |parts| :: Tells(turn, b, parts[i], true, Retold(parts[i], true))
    requires !lied ==> forall i | 0 <= i < k :: Tells(turn, b, parts[i], false, Retold(parts[i], false))
    requires !lied && k < |parts| ==> Tells(turn, b, parts[k], false, Retold(lie, true))
    requires At(b, at, Joined(parts))
    ensures LieFrom(turn, at, |parts|, lied) == Body(Joined(if !lied && k < |parts| then parts[k := lie] else parts))
    decreases |parts|
  {
    if parts != [] {
      AtSplit(b, at, parts[0], Joined(parts[1..]));
      var first := !lied && k == 0;
      assert Tells(turn, b, parts[0], lied, if first then Retold(lie, true) else Retold(parts[0], lied));
      var rest := if k == 0 then 0 else k - 1;
      PartsTold(turn, b, at + |parts[0]|, parts[1..], rest, lie, lied || k == 0);
      if !lied && k < |parts| {
        assert parts[k := lie][1..] == if k == 0 then parts[1..] else parts[1..][rest := lie];
      }
    }
  }

  lemma PartsTell(b: Bytes, txs: seq<Wire>, mode: Mode)
    requires forall i | 0 <= i < |txs| :: WellFormed(txs[i])
    ensures
      var turn, parts, k := Turns(b, mode), Encodings(txs), FirstLie(txs, mode);
      && (forall i | 0 <= i < |parts| :: Tells(turn, b, parts[i], true, Retold(parts[i], true)))
      && (forall i | 0 <= i < k :: Tells(turn, b, parts[i], false, Retold(parts[i], false)))
  {
    var turn, parts, k := Turns(b, mode), Encodings(txs), FirstLie(txs, mode);
    forall i | 0 <= i < |txs| ensures Tells(turn, b, parts[i], true, Retold(parts[i], true)) {
      WireTells(b, txs[i], mode, true);
    }
    forall i | 0 <= i < k ensures Tells(turn, b, parts[i], false, Retold(parts[i], false)) {
      WireTells(b, txs[i], mode, false);
    }
  }

  lemma LiesTold(b: Bytes, at: nat, txs: seq<Wire>, mode: Mode)
    requires forall i | 0 <= i < |txs| :: WellFormed(txs[i])
    requires At(b, at, EncodeTxs(txs))
    ensures LieFrom(Turns(b, mode), at, |txs|, false) == Body(EncodeTxs(Lied(txs, mode)))
  {
    var turn, parts, k := Turns(b, mode), Encodings(txs), FirstLie(txs, mode);
    PartsTell(b, txs, mode);
    if k < |txs| {
      var lie := LieWire(txs[k], mode);
      WireTells(b, txs[k], mode, false);
      LiedEncodings(txs, mode);
      PartsTold(turn, b, at, parts, k, Encode(lie), false);
    } else {
      PartsTold(turn, b, at, parts, k, [], false);
    }
  }

  lemma LiedEncodings(txs: seq<Wire>, mode: Mode)
    requires FirstLie(txs, mode) < |txs|
    ensures
      var k := FirstLie(txs, mode);
      Encodings(Lied(txs, mode)) == Encodings(txs)[k := Encode(LieWire(txs[k], mode))]
  {
  }

  function LiedBlock(blk: Block, mode: Mode): Block {
    Block(blk.header, Lied(blk.txs, mode))
  }

  /** Whatever the Block, the bytes served are the Block with the lie told of
      one Transaction, and it is again a well-formed one. */
  lemma LyingBodyTellsOneLie(blk: Block, mode: Mode)
    requires WellFormedBlock(blk)
    ensures LyingBody(EncodeBlock(blk), mode) == Body(EncodeBlock(LiedBlock(blk, mode)))
    ensures WellFormedBlock(LiedBlock(blk, mode))
  {
    BlockLaidOut(blk);
    LiesTold(EncodeBlock(blk), 80 + |Size(|blk.txs|)|, blk.txs, mode);
  }

  /** No Id moves, nor the Merkle Root over them: the served Block is walked to its own end, in as many
      Transactions, each with the stripped form it had. */
  lemma LieKeepsEveryId(blk: Block, mode: Mode, h: Hasher)
    requires WellFormedBlock(blk)
    ensures
      var was := WalkBlock(EncodeBlock(blk));
      var served := LyingBody(EncodeBlock(blk), mode);
      && served.Body?
      && var now := WalkBlock(served.bytes);
      && was.Walk? && was.end == |EncodeBlock(blk)| && |was.stripped| == |blk.txs|
      && now.Walk? && now.end == |served.bytes|
      && now.stripped == was.stripped
      && Ids(h, now.stripped) == Ids(h, was.stripped)
      && (blk.txs != [] ==> Merkle.Root(h, Ids(h, now.stripped)) == Merkle.Root(h, Ids(h, was.stripped)))
  {
    LyingBodyTellsOneLie(blk, mode);
    BlockWalked(blk);
    BlockWalked(LiedBlock(blk, mode));
    SameStripped(blk.txs, Lied(blk.txs, mode));
  }

  /** Where the flag byte of Transaction k stands. */
  function FlagAt(blk: Block, k: nat): nat
    requires k <= |blk.txs|
  {
    |blk.header + Size(|blk.txs|)| + |EncodeTxs(blk.txs[..k])| + 5
  }

  /** witnessflag: nothing, or one byte of the first Transaction that carries
      the marker, made 2. */
  lemma FlagLieMovesOneByte(blk: Block)
    requires WellFormedBlock(blk)
    ensures
      var k := FirstLie(blk.txs, WitnessFlag);
      var b := EncodeBlock(blk);
      if k < |blk.txs| then FlagAt(blk, k) < |b| && LyingBody(b, WitnessFlag) == Body(b[FlagAt(blk, k) := 2])
      else LyingBody(b, WitnessFlag) == Body(b)
  {
    LyingBodyTellsOneLie(blk, WitnessFlag);
    var k := FirstLie(blk.txs, WitnessFlag);
    if k < |blk.txs| {
      FlagSpliced(blk.header + Size(|blk.txs|), blk.txs, k);
    }
  }

  lemma FlagSpliced(head: Bytes, txs: seq<Wire>, k: nat)
    requires k < |txs| && txs[k].flag.Some?
    ensures
      var was := head + EncodeTxs(txs);
      var p := |head| + |EncodeTxs(txs[..k])| + 5;
      p < |was| && head + EncodeTxs(txs[k := LieWire(txs[k], WitnessFlag)]) == was[p := 2]
  {
    var parts, tx, lie := Encodings(txs), Encode(txs[k]), Encode(LieWire(txs[k], WitnessFlag));
    FlagLie(txs[k]);
    assert Encodings(txs[k := LieWire(txs[k], WitnessFlag)]) == parts[k := lie];
    assert Encodings(txs[..k]) == parts[..k];
    ByteSpliced(head, parts, k, 5, 2, lie);
  }

  lemma ByteSpliced(head: Bytes, parts: seq<Bytes>, k: nat, p: nat, x: byte, part: Bytes)
    requires k < |parts| && p < |parts[k]| && part == parts[k][p := x]
    ensures |head| + |Joined(parts[..k])| + p < |head + Joined(parts)|
    ensures head + Joined(parts[k := part]) == (head + Joined(parts))[|head| + |Joined(parts[..k])| + p := x]
  {
    JoinedSplice(parts, k);
    PartReplaced(parts, k, part);
    OneByteMoved(head, Joined(parts[..k]), parts[k], Joined(parts[k + 1..]), p, x);
  }

  lemma OneByteMoved(head: Bytes, pre: Bytes, tx: Bytes, post: Bytes, p: nat, x: byte)
    requires p < |tx|
    ensures head + (pre + tx[p := x] + post) == (head + (pre + tx + post))[|head| + |pre| + p := x]
  {
    var was := head + (pre + tx + post);
    assert was == (head + pre) + (tx + post);
    assert head + (pre + tx[p := x] + post) == (head + pre) + (tx[p := x] + post);
  }

  /** emptywitness: the first Transaction and no other; every stack it now
      carries is empty, and it carries as many as it has Inputs. */
  lemma EmptyWitnessChangesTheFirst(blk: Block)
    requires WellFormedBlock(blk) && blk.txs != []
    ensures LiedBlock(blk, EmptyWitness).txs[1..] == blk.txs[1..]
    ensures
      var w := LiedBlock(blk, EmptyWitness).txs[0];
      && w.flag.Some? && |w.stacks| == |w.inputs|
      && (forall i | 0 <= i < |w.stacks| :: w.stacks[i] == [])
      && LyingBody(EncodeBlock(blk), EmptyWitness) ==
          Body(blk.header + Size(|blk.txs|) + (Encode(w) + EncodeTxs(blk.txs[1..])))
  {
    LyingBodyTellsOneLie(blk, EmptyWitness);
    var lied := Lied(blk.txs, EmptyWitness);
    assert FirstLie(blk.txs, EmptyWitness) == 0;
    assert Encodings(lied)[1..] == Encodings(blk.txs[1..]);
  }

  /** No well-formed Block is printed two ways, and none begins another. */
  lemma BlockPrefixFree(a: Block, b: Block, s: Bytes, t: Bytes)
    requires WellFormedBlock(a) && WellFormedBlock(b)
    requires EncodeBlock(a) + s == EncodeBlock(b) + t
    ensures a == b && s == t
  {
    hide Encode, Joined, Size, WellFormed;
    var p, q := Encodings(a.txs), Encodings(b.txs);
    var x, y := Size(|p|) + Joined(p) + s, Size(|q|) + Joined(q) + t;
    assert a.header + x == EncodeBlock(a) + s && b.header + y == EncodeBlock(b) + t;
    FixedFree(a.header, b.header, x, y);
    forall i | 0 <= i < |p| && i < |q| ensures Apart(p[i], q[i]) {
      forall x: Bytes, y: Bytes | p[i] + x == q[i] + y ensures p[i] == q[i] {
        EncodePrefixFree(a.txs[i], b.txs[i], x, y);
      }
    }
    CountedFree(p, q, s, t);
    forall i | 0 <= i < |a.txs| ensures a.txs[i] == b.txs[i] {
      assert p[i] == q[i];
      EncodePrefixFree(a.txs[i], b.txs[i], [], []);
    }
  }

  /** What the lie is for: it is no Transaction's serialisation, whatever stands
      behind either, so a reader that takes only those refuses it. */
  lemma LieIsNoSerialisation(w: Wire, mode: Mode, tx: Tx, s: Bytes, t: Bytes)
    requires WellFormed(w) && CanLie(w, mode)
    requires SizedTx(tx) && Readable(tx)
    ensures Encode(LieWire(w, mode)) + s != Encode(OnWire(tx)) + t
  {
    var lie, honest := LieWire(w, mode), OnWire(tx);
    hide Encode;
    if Encode(lie) + s == Encode(honest) + t {
      EncodePrefixFree(lie, honest, s, t);
      assert false;
    }
  }

  /** A Block of Transactions that serialise printed. */
  function Serialised(header: Bytes, txs: seq<Tx>): Block {
    Block(header, seq(|txs|, i requires 0 <= i < |txs| => OnWire(txs[i])))
  }

  /** Served, no Block with a Transaction to lie about is one of Transactions that
      serialise printed, nor the beginning of one. */
  lemma LiedBlockIsNoBlock(blk: Block, mode: Mode, header: Bytes, txs: seq<Tx>, s: Bytes, t: Bytes)
    requires WellFormedBlock(blk) && FirstLie(blk.txs, mode) < |blk.txs|
    requires |header| == 80 && Countable(|txs|) && forall i | 0 <= i < |txs| ::
               SizedTx(txs[i]) && Readable(txs[i])
    ensures
      var served := LyingBody(EncodeBlock(blk), mode);
      served.Body? && served.bytes + s != EncodeBlock(Serialised(header, txs)) + t
  {
    hide LyingBody, EncodeBlock, LieWire, OnWire, SizedTx, Readable, WellFormed;
    LyingBodyTellsOneLie(blk, mode);
    var lied, honest, k := LiedBlock(blk, mode), Serialised(header, txs), FirstLie(blk.txs, mode);
    forall i | 0 <= i < |txs| ensures WellFormed(honest.txs[i]) { ReadableOnWire(txs[i]); }
    if EncodeBlock(lied) + s == EncodeBlock(honest) + t {
      BlockPrefixFree(lied, honest, s, t);
      assert WellFormed(blk.txs[k]) && lied.txs[k] == LieWire(blk.txs[k], mode) == OnWire(txs[k]);
      LieIsNoSerialisation(blk.txs[k], mode, txs[k], [], []);
      assert false;
    }
  }
}
