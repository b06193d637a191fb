/** Messages on the wire: the printers msg and wire, the incremental reader
    frames of tools/regtest/liar.py, and the checking reader receive of
    tools/regtest/suite_support.py. */
module Framing {
  import opened Bytes
  import opened Runs
  import opened Unicode

  const MAGIC: Bytes := [0xfa, 0xbf, 0xb5, 0xda]
  const LONGEST := 4_000_000

  /** command.ljust(12, NUL): a longer one is not cut. */
  function Padded(command: Bytes): (p: Bytes)
    ensures |p| == if |command| <= 12 then 12 else |command|
  {
    if |command| <= 12 then command + Zeros(12 - |command|) else command
  }

  /** rstrip(NUL) */
  function Trimmed(padded: Bytes): (s: Bytes)
    ensures |s| <= |padded| && s == padded[..|s|]
    ensures s != [] ==> s[|s| - 1] != 0
    ensures forall i | |s| <= i < |padded| :: padded[i] == 0
  {
    if padded != [] && padded[|padded| - 1] == 0 then Trimmed(padded[..|padded| - 1]) else padded
  }

  function Checksum(h: Hasher, payload: Bytes, corrupt: bool): (c: Bytes)
    ensures |c| == 4
  {
    var c := h(payload)[..4];
    if corrupt then [if c[0] == 255 then 0 else c[0] + 1] + c[1..] else c
  }

  function Header(h: Hasher, command: Bytes, payload: Bytes, corrupt: bool): Bytes {
    MAGIC + Padded(command) + LeBytes(|payload|, 4) + Checksum(h, payload, corrupt)
  }

  function Framed(h: Hasher, command: Bytes, payload: Bytes, corrupt: bool): Bytes {
    Header(h, command, payload, corrupt) + payload
  }

  /** msg; wire is the same with nothing corrupted. None is the struct.error of
      a payload whose length four bytes cannot hold. */
  function Msg(h: Hasher, command: Text, payload: Bytes, corrupt: bool): Option<Bytes> {
    if |payload| <= 0xffff_ffff then Some(Framed(h, Utf8(command), payload, corrupt)) else None
  }

  function Wire(h: Hasher, command: Text, payload: Bytes): Option<Bytes> {
    Msg(h, command, payload, false)
  }

  function CommandOf(frame: Bytes): Text {
    if |frame| >= 16 then Replaced(Trimmed(frame[4..16])) else []
  }

  ghost predicate Unpadded(command: Text) {
    command != [] ==> command[|command| - 1] != 0
  }

  function WithoutNuls(t: Text): (s: Text)
    ensures s <= t && (s == t <==> Unpadded(t))
  {
    if t != [] && t[|t| - 1] == 0 then WithoutNuls(t[..|t| - 1]) else t
  }

  lemma {:induction false} TrimmedZeros(b: Bytes, m: nat)
    ensures Trimmed(b + Zeros(m)) == Trimmed(b)
    decreases m
  {
    var z := b + Zeros(m);
    if m == 0 {
      assert z == b;
    } else {
      assert z[|z| - 1] == 0 && z[..|z| - 1] == b + Zeros(m - 1);
      TrimmedZeros(b, m - 1);
    }
  }

  lemma {:induction false} TrimmedText(t: Text)
    ensures Trimmed(Utf8(t)) == Utf8(WithoutNuls(t))
    decreases t
  {
    if t != [] {
      var init, b := t[..|t| - 1], Utf8(t);
      EndsInNul(t);
      if t[|t| - 1] == 0 {
        assert t == init + [0];
        Utf8More(init, [0]);
        Utf8OfOne(0);
        assert b[..|b| - 1] == Utf8(init);
        TrimmedText(init);
      }
    }
  }

  lemma TrimmedPadded(command: Text)
    requires |Utf8(command)| <= 12
    ensures Trimmed(Padded(Utf8(command))) == Utf8(WithoutNuls(command))
  {
    hide Utf8, Trimmed, WithoutNuls, Zeros;
    TrimmedZeros(Utf8(command), 12 - |Utf8(command)|);
    TrimmedText(command);
  }

  lemma ReplacedText(t: Text)
    ensures Replaced(Utf8(t)) == t
  {
    ReplacedInverts(t, []);
    assert Utf8(t) + [] == Utf8(t) && t + [] == t;
  }

  /** The fields of a frame whose command fits. */
  lemma FieldsRead(h: Hasher, command: Bytes, payload: Bytes, corrupt: bool, rest: Bytes)
    requires |command| <= 12
    ensures
      var b := Framed(h, command, payload, corrupt) + rest;
      && |Header(h, command, payload, corrupt)| == 24
      && b[..4] == MAGIC && b[4..16] == Padded(command)
      && b[16..20] == LeBytes(|payload|, 4) && b[20..24] == Checksum(h, payload, corrupt)
      && b[24..24 + |payload|] == payload && b[24 + |payload|..] == rest
  {
    hide LeBytes, Checksum, Padded;
  }

  /** A Message byte by byte, for a command of at most twelve bytes: four fixed
      bytes, the command filled up with NULs, the length from its low byte up, the
      digest's first four bytes (its first one more if made wrong), the payload. */
  ghost predicate LaidOut(h: Hasher, frame: Bytes, command: Bytes, payload: Bytes, corrupt: bool) {
    && |frame| == 24 + |payload|
    && frame[0] == 0xfa && frame[1] == 0xbf && frame[2] == 0xb5 && frame[3] == 0xda
    && (forall i | 0 <= i < 12 :: frame[4 + i] == if i < |command| then command[i] else 0)
    && frame[16] as int + 0x100 * frame[17] as int + 0x1_0000 * frame[18] as int + 0x100_0000 * frame[19] as int
       == |payload|
    && frame[20] as int == (if corrupt then (h(payload)[0] as int + 1) % 256 else h(payload)[0] as int)
    && frame[21] == h(payload)[1] && frame[22] == h(payload)[2] && frame[23] == h(payload)[3]
    && frame[24..] == payload
  }

  lemma FourBytesRead(b: Bytes)
    requires |b| == 4
    ensures LeValue(b) == b[0] as int + 0x100 * b[1] as int + 0x1_0000 * b[2] as int + 0x100_0000 * b[3] as int
  {
    assert b[1..][1..] == b[2..] && b[2..][1..] == b[3..] && b[3..][1..] == [];
    assert LeValue(b[3..]) == b[3] as int;
    assert LeValue(b[2..]) == b[2] as int + 256 * LeValue(b[3..]);
    assert LeValue(b[1..]) == b[1] as int + 256 * LeValue(b[2..]);
  }

  lemma ChecksumRead(h: Hasher, payload: Bytes, corrupt: bool)
    ensures
      var c := Checksum(h, payload, corrupt);
      && c[0] as int == (if corrupt then (h(payload)[0] as int + 1) % 256 else h(payload)[0] as int)
      && c[1] == h(payload)[1] && c[2] == h(payload)[2] && c[3] == h(payload)[3]
  {
  }

  lemma FramedIsLaidOut(h: Hasher, command: Bytes, payload: Bytes, corrupt: bool)
    requires |command| <= 12 && |payload| <= 0xffff_ffff
    ensures LaidOut(h, Framed(h, command, payload, corrupt), command, payload, corrupt)
  {
    hide Framed, Header, LeBytes, LeValue, Checksum, Padded;
    var f := Framed(h, command, payload, corrupt);
    assert f + [] == f;
    FieldsRead(h, command, payload, corrupt, []);
    FramedLength(h, command, payload, corrupt);
    FourBytesRead(f[16..20]);
    Pow256Values();
    LeRoundTrip(|payload|, 4);
    ChecksumRead(h, payload, corrupt);
    PaddedRead(command);
    assert f[0] == f[..4][0] && f[1] == f[..4][1] && f[2] == f[..4][2] && f[3] == f[..4][3];
    forall i | 0 <= i < 12 ensures f[4 + i] == if i < |command| then command[i] else 0 {
      assert f[4 + i] == f[4..16][i];
    }
    assert f[20] == f[20..24][0] && f[21] == f[20..24][1] && f[22] == f[20..24][2] && f[23] == f[20..24][3];
    assert f[24..] == f[24..24 + |payload|];
  }

  lemma PaddedRead(command: Bytes)
    requires |command| <= 12
    ensures forall i | 0 <= i < 12 :: Padded(command)[i] == if i < |command| then command[i] else 0
  {
  }

  lemma FramedLength(h: Hasher, command: Bytes, payload: Bytes, corrupt: bool)
    requires |command| <= 12
    ensures |Framed(h, command, payload, corrupt)| == 24 + |payload|
  {
    hide LeBytes, Checksum, Padded;
  }

  /** No other string is laid out so. */
  lemma LaidOutOnce(h: Hasher, f: Bytes, g: Bytes, command: Bytes, payload: Bytes, corrupt: bool)
    requires LaidOut(h, f, command, payload, corrupt) && LaidOut(h, g, command, payload, corrupt)
    ensures f == g
  {
    FourApart(f[16], f[17], f[18], f[19], g[16], g[17], g[18], g[19]);
    forall i | 0 <= i < |f| ensures f[i] == g[i] {
      if 4 <= i < 16 {
        var j := i - 4;
        assert f[4 + j] == (if j < |command| then command[j] else 0) == g[4 + j];
      } else if i >= 24 {
        assert f[i] == f[24..][i - 24] && g[i] == g[24..][i - 24];
      }
    }
  }

  lemma FourApart(a: byte, b: byte, c: byte, d: byte, a': byte, b': byte, c': byte, d': byte)
    requires a as int + 0x100 * b as int + 0x1_0000 * c as int + 0x100_0000 * d as int
          == a' as int + 0x100 * b' as int + 0x1_0000 * c' as int + 0x100_0000 * d' as int
    ensures a == a' && b == b' && c == c' && d == d'
  {
    LowByteApart(a, b as int + 0x100 * c as int + 0x1_0000 * d as int,
        a', b' as int + 0x100 * c' as int + 0x1_0000 * d' as int);
    LowByteApart(b, c as int + 0x100 * d as int, b', c' as int + 0x100 * d' as int);
    LowByteApart(c, d as int, c', d' as int);
  }

  lemma LowByteApart(low: byte, rest: nat, low': byte, rest': nat)
    requires low as int + 0x100 * rest == low' as int + 0x100 * rest'
    ensures low == low' && rest == rest'
  {
    LowByte(low, rest);
    LowByte(low', rest');
  }

  /** msg and wire print the one string laid out as a Message, and fail exactly
      on a payload four bytes cannot count. */
  lemma MsgIsLaidOut(h: Hasher, command: Text, payload: Bytes, corrupt: bool, frame: Bytes)
    ensures Msg(h, command, payload, corrupt).None? <==> |payload| > 0xffff_ffff
    ensures |Utf8(command)| <= 12 && |payload| <= 0xffff_ffff ==>
              (Msg(h, command, payload, corrupt) == Some(frame) <==> LaidOut(h, frame, Utf8(command), payload, corrupt))
    ensures Wire(h, command, payload) == Msg(h, command, payload, false)
  {
    hide Framed, LaidOut, Utf8;
    var name := Utf8(command);
    if |name| <= 12 && |payload| <= 0xffff_ffff {
      FramedIsLaidOut(h, name, payload, corrupt);
      if LaidOut(h, frame, name, payload, corrupt) {
        LaidOutOnce(h, frame, Framed(h, name, payload, corrupt), name, payload, corrupt);
      }
    }
  }

  /** A command of more than twelve bytes that reads as itself: the character the
      cut goes through is the one that stands for such. */
  ghost predicate CutInReplacement(command: Text) {
    command != [] && command[|command| - 1] == REPLACEMENT && 13 <= |Utf8(command)| <= 14
  }

  lemma CutRead(command: Text)
    requires |Utf8(command)| > 12
    ensures Replaced(Trimmed(Utf8(command)[..12])) == command <==> CutInReplacement(command)
  {
    hide Replaced, Trimmed, Utf8;
    var k := Kept(command, 12);
    TextCutShort(command, 12);
    LastOne(command);
    var whole, cut := |Utf8(command[..k])|, Utf8(command)[..12];
    if k < |command| - 1 {
      KeptShort(command, k);
    }
    if whole == 12 {
      TrimmedText(command[..k]);
      ReplacedText(WithoutNuls(command[..k]));
    } else {
      assert cut[|cut| - 1] == Utf8(command)[11] != 0;
      NothingTrimmed(cut);
      assert command[..k] + [REPLACEMENT] == command <==> k == |command| - 1 && command[k] == REPLACEMENT;
    }
  }

  lemma NothingTrimmed(b: Bytes)
    requires b != [] && b[|b| - 1] != 0
    ensures Trimmed(b) == b
  {
  }

  /** The last code point's own bytes, behind the rest. */
  lemma LastOne(t: Text)
    requires t != []
    ensures |Utf8(t)| == |Utf8(t[..|t| - 1])| + |Utf8One(t[|t| - 1])|
    ensures t[|t| - 1] == REPLACEMENT ==> |Utf8(t)| == |Utf8(t[..|t| - 1])| + 3
  {
    var init, last := t[..|t| - 1], t[|t| - 1];
    assert t == init + [last];
    Utf8More(init, [last]);
    Utf8OfOne(last);
  }

  lemma KeptShort(t: Text, k: nat)
    requires k < |t| - 1
    ensures |Utf8(t[..|t| - 1])| >= |Utf8(t[..k])| + |Utf8One(t[k])|
  {
    var init := t[..|t| - 1];
    assert init == t[..k + 1] + init[k + 1..];
    Utf8More(t[..k + 1], init[k + 1..]);
    assert t[..k + 1][..k] == t[..k];
    LastOne(t[..k + 1]);
  }

  /** A frame names the command it was made with exactly when that is at most
      twelve bytes with no NUL at its end, or is cut inside a replacement
      character and so reads as one. */
  lemma CommandRead(h: Hasher, command: Text, payload: Bytes, corrupt: bool)
    ensures
      CommandOf(Framed(h, Utf8(command), payload, corrupt)) == command <==>
      (|Utf8(command)| <= 12 && Unpadded(command)) || CutInReplacement(command)
  {
    hide Replaced, Trimmed, LeBytes, Checksum;
    var name := Utf8(command);
    var frame := Framed(h, name, payload, corrupt);
    if |name| <= 12 {
      FieldsRead(h, name, payload, corrupt, []);
      assert frame + [] == frame;
      TrimmedPadded(command);
      ReplacedText(WithoutNuls(command));
    } else {
      assert frame[4..16] == name[..12];
      CutRead(command);
    }
  }

  //
  // frames: one frame at a time, however many a read returns.
  //

  /** The frames a buffer holds, and what is left of it. */
  datatype Cuts = Cuts(frames: seq<Bytes>, rest: Bytes)

  function LengthAt(buf: Bytes): nat
    requires |buf| >= 20
  {
    LeValue(buf[16..20])
  }

  predicate Whole(buf: Bytes) {
    |buf| >= 24 && |buf| >= 24 + LengthAt(buf)
  }

  function Cut(buf: Bytes): Cuts
    decreases |buf|
  {
    if Whole(buf) then
      var n := 24 + LengthAt(buf);
      var later := Cut(buf[n..]);
      Cuts([buf[..n]] + later.frames, later.rest)
    else Cuts([], buf)
  }

  /** Nothing is lost and nothing is made up. */
  lemma {:induction false} CutKeepsEveryByte(buf: Bytes)
    ensures Joined(Cut(buf).frames) + Cut(buf).rest == buf
    ensures !Whole(Cut(buf).rest)
    decreases |buf|
  {
    hide Cut, LeValue, Joined;
    if Whole(buf) {
      var n := 24 + LengthAt(buf);
      FirstCut(buf, n);
      CutKeepsEveryByte(buf[n..]);
      JoinedFirst(buf[..n], Cut(buf[n..]).frames);
      assert buf == buf[..n] + buf[n..];
    } else {
      NoCut(buf);
      JoinedNone();
    }
  }

  lemma JoinedFirst(part: Bytes, parts: seq<Bytes>)
    ensures Joined([part] + parts) == part + Joined(parts)
  {
    assert ([part] + parts)[1..] == parts;
  }

  lemma JoinedNone()
    ensures Joined([]) == []
  {
  }

  lemma NoCut(buf: Bytes)
    requires !Whole(buf)
    ensures Cut(buf) == Cuts([], buf)
  {
  }

  lemma FirstCut(buf: Bytes, n: nat)
    requires Whole(buf) && n == 24 + LengthAt(buf)
    ensures Cut(buf) == Cuts([buf[..n]] + Cut(buf[n..]).frames, Cut(buf[n..]).rest)
  {
  }

  /** Cutting what is there and then the rest is cutting it all at once. */
  lemma {:induction false} CutAppend(x: Bytes, y: Bytes)
    ensures
      var first := Cut(x);
      var more := Cut(first.rest + y);
      Cut(x + y) == Cuts(first.frames + more.frames, more.rest)
    decreases |x|
  {
    hide Cut, LeValue;
    if Whole(x) {
      var n := 24 + LengthAt(x);
      assert (x + y)[16..20] == x[16..20];
      assert (x + y)[..n] == x[..n] && (x + y)[n..] == x[n..] + y;
      FirstCut(x, n);
      FirstCut(x + y, n);
      CutAppend(x[n..], y);
      var later := Cut(x[n..]);
      var more := Cut(later.rest + y);
      assert [x[..n]] + (later.frames + more.frames) == [x[..n]] + later.frames + more.frames;
    } else {
      NoCut(x);
      assert [] + Cut(x + y).frames == Cut(x + y).frames;
    }
  }

  /** What one recv answers: some bytes, none when the Peer has closed, or the
      socket's timeout. */
  datatype Read = Chunk(bytes: Bytes) | Idle

  /** How the reading stands: for more, at an end, or with the timeout raised. */
  datatype End = Waiting | Returned | Raised

  /** Every byte heard, how many frames had been there at each on_idle call, and
      how it ended. */
  datatype Heard = Heard(bytes: Bytes, idled: seq<nat>, end: End)

  /** The reading from here, these bytes heard before. */
  function Hear(got: Bytes, recvs: seq<Read>, onIdle: bool): Heard
    decreases recvs
  {
    if recvs == [] then Heard(got, [], Waiting)
    else
      match recvs[0]
      case Idle =>
        if onIdle then IdledFirst([|Cut(got).frames|], Hear(got, recvs[1..], onIdle)) else Heard(got, [], Raised)
      case Chunk(bytes) =>
        if bytes == [] then Heard(got, [], Returned) else Hear(got + bytes, recvs[1..], onIdle)
  }

  function IdledFirst(idled: seq<nat>, later: Heard): Heard {
    later.(idled := idled + later.idled)
  }

  /** The generator over one connection: what it yields, what it keeps in its
      buffer, how many frames it had yielded at each on_idle call, and how it
      came to an end. */
  method Frames(recvs: seq<Read>, onIdle: bool)
    returns (yielded: seq<Bytes>, buf: Bytes, idled: seq<nat>, end: End)
    ensures Hear([], recvs, onIdle) == Heard(Joined(yielded) + buf, idled, end)
    ensures Cut(Joined(yielded) + buf) == Cuts(yielded, buf)
  {
    yielded, buf, idled, end := [], [], [], Waiting;
    ghost var got: Bytes := [];
    var i := 0;
    while true
      invariant 0 <= i <= |recvs|
      invariant Cut(got) == Cuts(yielded + Cut(buf).frames, Cut(buf).rest)
      invariant Hear([], recvs, onIdle) == IdledFirst(idled, Hear(got, recvs[i..], onIdle))
      decreases |recvs| - i
    {
      yielded, buf := CutAll(yielded, buf);
      assert Cut(got) == Cuts(yielded, buf) by { assert yielded + [] == yielded; }
      CutKeepsEveryByte(got);
      assert idled + [] == idled;
      if i == |recvs| { return; }
      var read := recvs[i];
      assert recvs[i..][0] == read && recvs[i..][1..] == recvs[i + 1..];
      i := i + 1;
      if read.Idle? {
        if !onIdle { end := Raised; return; }
        IdledMore(idled, |yielded|, Hear(got, recvs[i..], onIdle));
        idled := idled + [|yielded|];
        assert yielded + [] == yielded;
      } else if read.bytes == [] {
        end := Returned;
        return;
      } else {
        CutAppend(got, read.bytes);
        got := got + read.bytes;
        buf := buf + read.bytes;
      }
    }
  }

  lemma IdledMore(idled: seq<nat>, n: nat, later: Heard)
    ensures IdledFirst(idled, IdledFirst([n], later)) == IdledFirst(idled + [n], later)
  {
    assert idled + ([n] + later.idled) == idled + [n] + later.idled;
  }

  /** The inner loop: every whole frame out of the buffer. */
  method CutAll(before: seq<Bytes>, start: Bytes) returns (yielded: seq<Bytes>, buf: Bytes)
    ensures yielded == before + Cut(start).frames && buf == Cut(start).rest
    ensures Cut(buf) == Cuts([], buf)
  {
    yielded, buf := before, start;
    while |buf| >= 24
      invariant before + Cut(start).frames == yielded + Cut(buf).frames
      invariant Cut(start).rest == Cut(buf).rest
      decreases |buf|
    {
      var length := LeValue(buf[16..20]);
      if |buf| < 24 + length { break; }
      FirstCut(buf, 24 + length);
      assert yielded + ([buf[..24 + length]] + Cut(buf[24 + length..]).frames)
          == yielded + [buf[..24 + length]] + Cut(buf[24 + length..]).frames;
      yielded := yielded + [buf[..24 + length]];
      buf := buf[24 + length..];
    }
  }

  /** The bytes of the reads, idling left out. */
  function Chunks(recvs: seq<Read>): seq<Bytes> {
    if recvs == [] then []
    else (if recvs[0].Chunk? then [recvs[0].bytes] else []) + Chunks(recvs[1..])
  }

  function Idles(recvs: seq<Read>): nat {
    if recvs == [] then 0 else (if recvs[0].Idle? then 1 else 0) + Idles(recvs[1..])
  }

  lemma HeardOne(got: Bytes, recvs: seq<Read>, onIdle: bool)
    requires recvs != [] && GoesOn(recvs[0], onIdle)
    ensures
      var heard := Hear(got, recvs, onIdle);
      if recvs[0].Idle? then heard == IdledFirst([|Cut(got).frames|], Hear(got, recvs[1..], onIdle))
      else heard == Hear(got + recvs[0].bytes, recvs[1..], onIdle)
  {
  }

  lemma ChunksOne(got: Bytes, recvs: seq<Read>)
    requires recvs != []
    ensures
      if recvs[0].Idle? then Chunks(recvs) == Chunks(recvs[1..])
      else got + Joined(Chunks(recvs)) == got + recvs[0].bytes + Joined(Chunks(recvs[1..]))
  {
    if recvs[0].Chunk? {
      assert Chunks(recvs)[1..] == Chunks(recvs[1..]);
      assert got + recvs[0].bytes + Joined(Chunks(recvs[1..])) == got + (recvs[0].bytes + Joined(Chunks(recvs[1..])));
    } else {
      assert [] + Chunks(recvs[1..]) == Chunks(recvs[1..]);
    }
  }

  /** The reading goes on after this: some bytes, or a timeout with a handler. */
  predicate GoesOn(read: Read, onIdle: bool) {
    if read.Idle? then onIdle else read.bytes != []
  }

  /** What a read the reading does not go on after makes of it, or none at all. */
  function EndAt(rest: seq<Read>): End {
    if rest == [] then Waiting else if rest[0].Idle? then Raised else Returned
  }

  /** How many reads there are before the one that ends the reading. */
  function Heeded(recvs: seq<Read>, onIdle: bool): (k: nat)
    ensures k <= |recvs|
    ensures forall i | 0 <= i < k :: GoesOn(recvs[i], onIdle)
    ensures k < |recvs| ==> !GoesOn(recvs[k], onIdle)
  {
    if recvs == [] || !GoesOn(recvs[0], onIdle) then 0 else 1 + Heeded(recvs[1..], onIdle)
  }

  lemma {:induction false} HeardBefore(got: Bytes, recvs: seq<Read>, rest: seq<Read>, onIdle: bool)
    requires forall i | 0 <= i < |recvs| :: GoesOn(recvs[i], onIdle)
    requires rest != [] ==> !GoesOn(rest[0], onIdle)
    ensures
      var heard := Hear(got, recvs + rest, onIdle);
      heard.bytes == got + Joined(Chunks(recvs)) && |heard.idled| == Idles(recvs) && heard.end == EndAt(rest)
    decreases recvs
  {
    var all := recvs + rest;
    if recvs == [] {
      assert all == rest && got + [] == got;
    } else {
      hide Cut, Hear, Joined, Chunks;
      assert all[1..] == recvs[1..] + rest && all[0] == recvs[0];
      HeardOne(got, all, onIdle);
      ChunksOne(got, recvs);
      HeardBefore(if recvs[0].Chunk? then got + recvs[0].bytes else got, recvs[1..], rest, onIdle);
    }
  }

  /** However a stream is cut into reads and wherever it idles, with a handler or
      without, what is heard is the bytes up to the read that ends it: Frames
      yields what Cut makes of them and of nothing else. */
  lemma ChunkingIsNothing(got: Bytes, recvs: seq<Read>, onIdle: bool)
    ensures
      var heard, k := Hear(got, recvs, onIdle), Heeded(recvs, onIdle);
      && heard.bytes == got + Joined(Chunks(recvs[..k]))
      && |heard.idled| == Idles(recvs[..k]) && (!onIdle ==> heard.idled == [])
      && heard.end == EndAt(recvs[k..])
  {
    hide Hear, Joined, Chunks;
    var k := Heeded(recvs, onIdle);
    assert recvs == recvs[..k] + recvs[k..];
    HeardBefore(got, recvs[..k], recvs[k..], onIdle);
    if !onIdle { NothingIdles(recvs[..k]); }
  }

  lemma {:induction false} NothingIdles(recvs: seq<Read>)
    requires forall i | 0 <= i < |recvs| :: GoesOn(recvs[i], false)
    ensures Idles(recvs) == 0
    decreases recvs
  {
    if recvs != [] { NothingIdles(recvs[1..]); }
  }

  /** What was sent, one msg behind another. */
  datatype Sending = Sending(command: Text, payload: Bytes, corrupt: bool)

  ghost predicate Sendable(s: Sending) {
    |Utf8(s.command)| <= 12 && |s.payload| <= 0xffff_ffff
  }

  function Sent(h: Hasher, sendings: seq<Sending>): (parts: seq<Bytes>)
    ensures |parts| == |sendings|
    ensures forall i {:trigger parts[i]} | 0 <= i < |parts| ::
              parts[i] == Framed(h, Utf8(sendings[i].command), sendings[i].payload, sendings[i].corrupt)
  {
    seq(|sendings|, i requires 0 <= i < |sendings| =>
        Framed(h, Utf8(sendings[i].command), sendings[i].payload, sendings[i].corrupt))
  }

  lemma OneCut(h: Hasher, s: Sending, rest: Bytes)
    requires Sendable(s)
    ensures
      var frame := Framed(h, Utf8(s.command), s.payload, s.corrupt);
      Cut(frame + rest) == Cuts([frame] + Cut(rest).frames, Cut(rest).rest)
  {
    hide LeValue, LeBytes, Cut;
    var frame := Framed(h, Utf8(s.command), s.payload, s.corrupt);
    FieldsRead(h, Utf8(s.command), s.payload, s.corrupt, rest);
    Pow256Values();
    LeRoundTrip(|s.payload|, 4);
    var n := 24 + |s.payload|;
    assert LengthAt(frame + rest) == |s.payload|;
    assert |frame| == n && (frame + rest)[..n] == frame && (frame + rest)[n..] == rest;
    FirstCut(frame + rest, n);
  }

  /** A stream of Messages is cut into exactly those Messages, whatever comes
      behind them. */
  lemma {:induction false} StreamIsCutIntoMessages(h: Hasher, sendings: seq<Sending>, tail: Bytes)
    requires forall i | 0 <= i < |sendings| :: Sendable(sendings[i])
    ensures Cut(Joined(Sent(h, sendings)) + tail) == Cuts(Sent(h, sendings) + Cut(tail).frames, Cut(tail).rest)
  {
    hide Cut, Framed, LeBytes, Joined, Sent, Utf8;
    if sendings == [] {
      JoinedNone();
      assert Sent(h, sendings) == [];
      assert [] + tail == tail && [] + Cut(tail).frames == Cut(tail).frames;
    } else {
      var parts, rest := Sent(h, sendings), Joined(Sent(h, sendings[1..]));
      assert parts[1..] == Sent(h, sendings[1..]);
      JoinedFirst(parts[0], parts[1..]);
      assert parts == [parts[0]] + parts[1..];
      StreamIsCutIntoMessages(h, sendings[1..], tail);
      assert parts[0] + rest + tail == parts[0] + (rest + tail);
      OneCut(h, sendings[0], rest + tail);
      assert [parts[0]] + (parts[1..] + Cut(tail).frames) == parts + Cut(tail).frames;
    }
  }

  /** Each yielded frame names the command that was sent exactly when that has
      no NUL at its end. */
  lemma YieldedNamesItsCommand(h: Hasher, sendings: seq<Sending>, i: nat)
    requires i < |sendings| && Sendable(sendings[i])
    ensures CommandOf(Sent(h, sendings)[i]) == sendings[i].command <==> Unpadded(sendings[i].command)
  {
    CommandRead(h, sendings[i].command, sendings[i].payload, sendings[i].corrupt);
  }

  //
  // receive: one Message, checked.
  //

  /** A connected Peer: the bytes it will send before it closes. A recv answers
      any of them it likes, but one at least and none only at the end. */
  class Peer {
    var stream: Bytes

    constructor (bytes: Bytes)
      ensures stream == bytes
    {
      stream := bytes;
    }

    method Recv(n: nat) returns (chunk: Bytes)
      requires n > 0
      modifies this
      ensures |chunk| <= n && old(stream) == chunk + stream
      ensures chunk == [] <==> old(stream) == []
    {
      if stream == [] { return []; }
      var k :| 1 <= k <= n && k <= |stream|;
      chunk := stream[..k];
      stream := stream[k..];
    }
  }

  /** exact: all of the bytes asked for, or None when the Peer closes first. */
  method Exact(peer: Peer, size: nat) returns (data: Option<Bytes>)
    modifies peer
    ensures
      var was := old(peer.stream);
      if size <= |was| then data == Some(was[..size]) && peer.stream == was[size..]
      else data == None && peer.stream == []
  {
    var got: Bytes := [];
    while |got| < size
      invariant |got| <= size && got + peer.stream == old(peer.stream)
      decreases size - |got|
    {
      ghost var before := peer.stream;
      var chunk := peer.Recv(size - |got|);
      if chunk == [] { return None; }
      assert got + before == (got + chunk) + peer.stream;
      got := got + chunk;
    }
    return Some(got);
  }

  /** What receive answers; the rest are its assertions and errors. */
  datatype Receipt = PeerClosed | TooLong | NotText | NotAsWired | Received(command: Text, body: Bytes)

  datatype Reception = Reception(receipt: Receipt, rest: Bytes)

  /** What one receive makes of the bytes to come. */
  function ReceiveFrom(h: Hasher, stream: Bytes): Reception {
    if |stream| < 24 then Reception(PeerClosed, [])
    else if LengthAt(stream) > LONGEST then Reception(TooLong, stream[24..])
    else
      var n := 24 + LengthAt(stream);
      if |stream| < n then Reception(PeerClosed, [])
      else
        match Decoded(Trimmed(stream[4..16]))
        case None => Reception(NotText, stream[n..])
        case Some(command) =>
          if Wire(h, command, stream[24..n]) != Some(stream[..n]) then Reception(NotAsWired, stream[n..])
          else Reception(Received(command, stream[24..n]), stream[n..])
  }

  method Receive(h: Hasher, peer: Peer) returns (receipt: Receipt)
    modifies peer
    ensures ReceiveFrom(h, old(peer.stream)) == Reception(receipt, peer.stream)
  {
    hide LeValue, Trimmed, Decoded, Wire;
    ghost var was := peer.stream;
    var header := Exact(peer, 24);
    if header.None? { return PeerClosed; }
    assert header.value[16..20] == was[16..20] && header.value[4..16] == was[4..16];
    var size := LeValue(header.value[16..20]);
    if size > LONGEST { return TooLong; }
    var body := Exact(peer, size);
    if body.None? { return PeerClosed; }
    assert header.value + body.value == was[..24 + size];
    assert peer.stream == was[24 + size..];
    var command := Decoded(Trimmed(header.value[4..16]));
    if command.None? { return NotText; }
    if Wire(h, command.value, body.value) != Some(header.value + body.value) { return NotAsWired; }
    return Received(command.value, body.value);
  }

  /** receive answers a Message exactly when the stream opens with its wire,
      for a command of at most twelve bytes with no NUL at its end and a body
      no longer than it takes. */
  lemma ReceiveInvertsWire(h: Hasher, stream: Bytes, command: Text, body: Bytes, rest: Bytes)
    ensures
      ReceiveFrom(h, stream) == Reception(Received(command, body), rest) <==>
      && stream == Framed(h, Utf8(command), body, false) + rest
      && |Utf8(command)| <= 12 && Unpadded(command) && |body| <= LONGEST
  {
    hide LeValue, Trimmed, Decoded, Framed, Utf8;
    if ReceiveFrom(h, stream) == Reception(Received(command, body), rest) {
      var name := Trimmed(stream[4..16]);
      assert stream == stream[..24 + LengthAt(stream)] + stream[24 + LengthAt(stream)..];
      DecodedIffWritten(name, command);
      TrimmedEnds(stream[4..16]);
      if command != [] { EndsInNul(command); }
    } else if stream == Framed(h, Utf8(command), body, false) + rest && |Utf8(command)| <= 12 && Unpadded(command)
        && |body| <= LONGEST {
      WiredIsReceived(h, command, body, rest);
    }
  }

  /** The same, byte by byte: what is received stood there laid out with its own
      digest's first four bytes, and whatever stands there so is received. */
  lemma ReceivesWhatIsLaidOut(h: Hasher, stream: Bytes, command: Text, body: Bytes, rest: Bytes)
    ensures
      ReceiveFrom(h, stream) == Reception(Received(command, body), rest) <==>
      && |stream| >= 24 + |body| && stream[24 + |body|..] == rest
      && LaidOut(h, stream[..24 + |body|], Utf8(command), body, false)
      && |Utf8(command)| <= 12 && Unpadded(command) && |body| <= 4_000_000
  {
    hide ReceiveFrom, LaidOut, Framed, Utf8;
    ReceiveInvertsWire(h, stream, command, body, rest);
    var n, name := 24 + |body|, Utf8(command);
    if |name| <= 12 && |body| <= 4_000_000 {
      FramedIsLaidOut(h, name, body, false);
      FramedLength(h, name, body, false);
      var f := Framed(h, name, body, false);
      if stream == f + rest {
        assert stream[..n] == f;
      }
      if |stream| >= n && LaidOut(h, stream[..n], name, body, false) {
        LaidOutOnce(h, stream[..n], f, name, body, false);
        assert stream == stream[..n] + stream[n..];
      }
    }
  }

  lemma TrimmedEnds(padded: Bytes)
    ensures var s := Trimmed(padded); |s| <= |padded| && (s != [] ==> s[|s| - 1] != 0)
  {
  }

  lemma WiredIsReceived(h: Hasher, command: Text, body: Bytes, rest: Bytes)
    requires |Utf8(command)| <= 12 && Unpadded(command) && |body| <= LONGEST
    ensures ReceiveFrom(h, Framed(h, Utf8(command), body, false) + rest) == Reception(Received(command, body), rest)
  {
    hide LeValue, LeBytes, Padded, Trimmed, Decoded, Utf8;
    var name := Utf8(command);
    var frame := Framed(h, name, body, false);
    var stream := frame + rest;
    FieldsRead(h, name, body, false, rest);
    Pow256Values();
    LeRoundTrip(|body|, 4);
    TrimmedPadded(command);
    DecodedIffWritten(name, command);
    assert stream[..24 + |body|] == frame;
  }

  /** A checksum made wrong is noticed by receive, though frames yields it. */
  lemma CorruptIsRefused(h: Hasher, command: Text, body: Bytes, rest: Bytes)
    requires |Utf8(command)| <= 12 && |body| <= LONGEST
    ensures ReceiveFrom(h, Framed(h, Utf8(command), body, true) + rest) == Reception(NotAsWired, rest)
  {
    hide LeValue, LeBytes, Padded, Trimmed, Decoded, Utf8;
    var frame := Framed(h, Utf8(command), body, true);
    FieldsRead(h, Utf8(command), body, true, rest);
    Pow256Values();
    LeRoundTrip(|body|, 4);
    var read := WithoutNuls(command);
    TrimmedPadded(command);
    TrimmedEnds(Padded(Utf8(command)));
    DecodedIffWritten(Utf8(read), read);
    FieldsRead(h, Utf8(read), body, false, []);
    var other := Framed(h, Utf8(read), body, false);
    assert other + [] == other;
    assert (frame + rest)[..24 + |body|] == frame;
    assert frame[20..24] == (frame + rest)[20..24];
    assert Checksum(h, body, true)[0] != Checksum(h, body, false)[0];
  }

  /** The two readers agree: what receive takes off a stream, frames yields
      first, naming the same command over the same body. */
  lemma ReadersAgree(h: Hasher, stream: Bytes)
    requires ReceiveFrom(h, stream).receipt.Received?
    ensures
      var r := ReceiveFrom(h, stream);
      var cuts := Cut(stream);
      && cuts.frames != [] && |cuts.frames[0]| >= 24
      && CommandOf(cuts.frames[0]) == r.receipt.command && cuts.frames[0][24..] == r.receipt.body
      && Cut(r.rest) == Cuts(cuts.frames[1..], cuts.rest)
  {
    hide LeValue, Trimmed, Decoded, Replaced;
    var n, command := 24 + LengthAt(stream), ReceiveFrom(h, stream).receipt.command;
    FirstCut(stream, n);
    var frame := stream[..n];
    assert frame[4..16] == stream[4..16];
    DecodedIffWritten(Trimmed(stream[4..16]), command);
    ReplacedText(command);
  }

  /** So many Messages received one after another, or as far as the first
      that is refused. */
  function ReceiveMany(h: Hasher, stream: Bytes, n: nat): seq<Receipt> {
    if n == 0 then []
    else
      var r := ReceiveFrom(h, stream);
      if r.receipt.Received? then [r.receipt] + ReceiveMany(h, r.rest, n - 1) else [r.receipt]
  }

  ghost predicate Receivable(s: Sending) {
    |Utf8(s.command)| <= 12 && Unpadded(s.command) && !s.corrupt && |s.payload| <= LONGEST
  }

  /** The frame names this command over this body. */
  ghost predicate Names(frame: Bytes, s: Sending) {
    |frame| >= 24 && CommandOf(frame) == s.command && frame[24..] == s.payload
  }

  /** Over a whole stream, what is received is what was sent, and frames
      yields the same commands over the same bodies. */
  lemma {:induction false} ReceivedIsWhatWasSent(h: Hasher, sendings: seq<Sending>, tail: Bytes)
    requires forall i | 0 <= i < |sendings| :: Receivable(sendings[i])
    ensures
      var stream := Joined(Sent(h, sendings)) + tail;
      var receipts, cuts := ReceiveMany(h, stream, |sendings|), Cut(stream);
      && |receipts| == |sendings| <= |cuts.frames|
      && forall i | 0 <= i < |sendings| ::
           receipts[i] == Received(sendings[i].command, sendings[i].payload) && Names(cuts.frames[i], sendings[i])
  {
    hide ReceiveFrom, Cut, Framed, CommandOf;
    if sendings != [] {
      var s, parts, rest := sendings[0], Sent(h, sendings), Joined(Sent(h, sendings[1..])) + tail;
      assert parts[1..] == Sent(h, sendings[1..]);
      assert Joined(parts) + tail == parts[0] + rest;
      WiredIsReceived(h, s.command, s.payload, rest);
      ReadersAgree(h, parts[0] + rest);
      ReceivedIsWhatWasSent(h, sendings[1..], tail);
      var frames := Cut(parts[0] + rest).frames;
      assert forall i | 1 <= i < |sendings| :: sendings[i] == sendings[1..][i - 1] && frames[i] == frames[1..][i - 1];
    }
  }

  //
  // read_message of cmpctblock-capture.py: no bound and no checksum.
  //

  datatype Capture = HeaderCut | BodyCut | BadText | Captured(command: Text, body: Bytes)

  /** The body in reads of 65536 bytes at most. */
  method Body(peer: Peer, length: nat) returns (body: Option<Bytes>)
    modifies peer
    ensures
      var was := old(peer.stream);
      if length <= |was| then body == Some(was[..length]) && peer.stream == was[length..]
      else body == None && peer.stream == []
  {
    var got: Bytes := [];
    while |got| < length
      invariant |got| <= length && got + peer.stream == old(peer.stream)
      decreases length - |got|
    {
      ghost var before := peer.stream;
      var chunk := peer.Recv(Min(65536, length - |got|));
      if chunk == [] { return None; }
      assert got + before == (got + chunk) + peer.stream;
      got := got + chunk;
    }
    return Some(got);
  }

  function CaptureFrom(stream: Bytes): Capture {
    if |stream| < 24 then HeaderCut
    else
      match Decoded(Trimmed(stream[4..16]))
      case None => BadText
      case Some(command) =>
        if !Whole(stream) then BodyCut else Captured(command, stream[24..24 + LengthAt(stream)])
  }

  method ReadMessage(peer: Peer) returns (c: Capture)
    modifies peer
    ensures c == CaptureFrom(old(peer.stream))
    ensures
      var was := old(peer.stream);
      peer.stream == match c
                     case HeaderCut => []
                     case BodyCut => []
                     case BadText => was[24..]
                     case Captured(_, body) => was[24 + |body|..]
  {
    ghost var was := peer.stream;
    var head := Exact(peer, 24);
    if head.None? { return HeaderCut; }
    assert head.value[16..20] == was[16..20] && head.value[4..16] == was[4..16];
    var command := Decoded(Trimmed(head.value[4..16]));
    if command.None? { return BadText; }
    var length := LeValue(head.value[16..20]);
    var body := Body(peer, length);
    if body.None? { return BodyCut; }
    assert body.value == was[24..24 + length] && peer.stream == was[24 + length..];
    return Captured(command.value, body.value);
  }

  /** The reader that checks answers what this one does, or refuses: it takes
      exactly the captured Messages that are short enough and wired as they
      should be. */
  lemma ReceiveIsCaptureChecked(h: Hasher, stream: Bytes)
    ensures
      var c, r := CaptureFrom(stream), ReceiveFrom(h, stream);
      r.receipt.Received? <==>
      && c.Captured? && |c.body| <= LONGEST
      && Wire(h, c.command, c.body) == Some(stream[..24 + |c.body|])
    ensures
      var c, r := CaptureFrom(stream), ReceiveFrom(h, stream);
      r.receipt.Received? ==> r == Reception(Received(c.command, c.body), stream[24 + |c.body|..])
  {
    hide LeValue, Trimmed, Wire;
  }
}
