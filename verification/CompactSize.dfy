/** CompactSize, as BIP144 writes it: three printers and two readers. */
module CompactSize {
  import opened Bytes

  /** compact_size of tools/witness_tests_to_aver.py. From 2^64 on to_bytes is an
      OverflowError there; here the eight bytes are what they can hold, and
      whatever is said of reading a count back asks for one below it. */
  function Size(n: nat): (s: Bytes)
    ensures |s| == (if n < 0xfd then 1 else if n <= 0xffff then 3 else if n <= 0xffff_ffff then 5 else 9)
    ensures s[0] == 0 <==> n == 0
  {
    if n < 0xfd then [n]
    else if n <= 0xffff then [0xfd] + LeBytes(n, 2)
    else if n <= 0xffff_ffff then [0xfe] + LeBytes(n, 4)
    else [0xff] + LeBytes(n, 8)
  }

  /** compact_bytes of liar.py, which stops at four bytes: struct.error above. */
  function ShortSize(n: u64): Option<Bytes> {
    if n < 0xfd then Some([n])
    else if n <= 0xffff then Some([0xfd] + LeBytes(n, 2))
    else if n <= 0xffff_ffff then Some([0xfe] + LeBytes(n, 4))
    else None
  }

  function Width(first: byte): nat
    requires first >= 0xfd
  {
    if first == 0xfd then 2 else if first == 0xfe then 4 else 8
  }

  /** A number and where the next byte is, or past the end of the string. */
  datatype Reading = Cut | Read(value: nat, at: nat)

  /** compact of liar.py: an IndexError past the end, but a number cut short by
      the end is read from the bytes there are. */
  function Compact(b: Bytes, at: nat): (r: Reading)
    ensures r.Read? ==> r.at > at
  {
    if at >= |b| then Cut
    else if b[at] < 0xfd then Read(b[at], at + 1)
    else
      var width := Width(b[at]);
      Read(NumberAt(b, at + 1, width), at + 1 + width)
  }

  /** compact_size of cmpctblock-capture.py: struct.unpack refuses a short slice. */
  function CompactStrict(b: Bytes, at: nat): Reading {
    if at >= |b| then Cut
    else if b[at] < 253 then Read(b[at], at + 1)
    else
      var width := if b[at] == 253 then 2 else if b[at] == 254 then 4 else 8;
      var s := Slice(b, at + 1, at + 1 + width);
      if |s| == width then Read(LeValue(s), at + 1 + width) else Cut
  }

  /** The reader inverts the printer wherever the number stands. */
  lemma CompactInverts(b: Bytes, at: nat, n: u64)
    requires At(b, at, Size(n))
    ensures Compact(b, at) == Read(n, at + |Size(n)|)
  {
    var s := Size(n);
    assert b[at] == b[at..at + |s|][0] == s[0];
    if n >= 0xfd {
      var width := |s| - 1;
      assert Width(s[0]) == width;
      assert b[at + 1..at + 1 + width] == b[at..at + |s|][1..] == s[1..] == LeBytes(n, width);
      Pow256Values();
      LeRoundTrip(n, width);
      NumberAtIsSliced(b, at + 1, width);
    }
  }

  /** No number is printed two ways, and no printed number begins another. */
  lemma SizePrefixFree(m: u64, n: u64, s: Bytes, t: Bytes)
    requires Size(m) + s == Size(n) + t
    ensures m == n && s == t
  {
    hide Size, Compact;
    var b := Size(m) + s;
    assert b == [] + Size(m) + s && b == [] + Size(n) + t;
    AtWithin([], Size(m), s);
    AtWithin([], Size(n), t);
    CompactInverts(b, 0, m);
    CompactInverts(b, 0, n);
    assert s == b[|Size(m)|..] == t;
  }

  lemma ShortSizeAgrees(n: u64)
    ensures ShortSize(n) == Some(Size(n)) <==> n <= 0xffff_ffff
  {
  }

  /** The two readers differ exactly where the string ends inside the number. */
  lemma ReadersAgree(b: Bytes, at: nat)
    ensures Compact(b, at) == CompactStrict(b, at) <==> (Compact(b, at).Read? ==> Compact(b, at).at <= |b|)
    ensures CompactStrict(b, at).Read? ==> Compact(b, at) == CompactStrict(b, at)
  {
    if at < |b| && b[at] >= 0xfd {
      NumberAtIsSliced(b, at + 1, Width(b[at]));
    }
  }
}
