/** One part behind another: how a run of them is printed, walked over, and
    searched, whatever the parts are. */
module Runs {
  import opened Bytes

  function Joined(parts: seq<Bytes>): Bytes {
    if parts == [] then [] else parts[0] + Joined(parts[1..])
  }

  lemma {:induction false} JoinedSplice(parts: seq<Bytes>, k: nat)
    requires k < |parts|
    ensures Joined(parts) == Joined(parts[..k]) + parts[k] + Joined(parts[k + 1..])
  {
    if k > 0 {
      JoinedSplice(parts[1..], k - 1);
      var pre, post := parts[1..][..k - 1], parts[1..][k..];
      assert pre == parts[..k][1..] && post == parts[k + 1..] && parts[..k][0] == parts[0];
      PrependToThree(parts[0], Joined(pre), parts[k], Joined(post));
    } else {
      assert parts[..0] == [] && Joined(parts[..0]) == [];
    }
  }

  /** One part more, as a loop adds it. */
  lemma JoinedMore(parts: seq<Bytes>, i: nat)
    requires i < |parts|
    ensures Joined(parts[..i + 1]) == Joined(parts[..i]) + parts[i]
  {
    var init := parts[..i + 1];
    JoinedSplice(init, i);
    assert init[..i] == parts[..i] && init[i + 1..] == [];
  }

  lemma JoinedAll(parts: seq<Bytes>)
    ensures Joined(parts[..|parts|]) == Joined(parts)
  {
    assert parts[..|parts|] == parts;
  }

  /** A part rewritten in place moves what it moves and nothing else. */
  lemma PartReplaced(parts: seq<Bytes>, k: nat, part: Bytes)
    requires k < |parts|
    ensures Joined(parts[k := part]) == Joined(parts[..k]) + part + Joined(parts[k + 1..])
  {
    var moved := parts[k := part];
    JoinedSplice(moved, k);
    assert moved[..k] == parts[..k] && moved[k + 1..] == parts[k + 1..];
  }

  //
  // Walking over.
  //

  /** Where a walk stands, or the IndexError of a string that ends too soon. */
  datatype Place = Off | To(at: nat)

  /** n parts from at, each skipped by the one step. */
  function SkipEach(step: nat -> Place, at: nat, n: nat): Place
    decreases n
  {
    if n == 0 then To(at)
    else
      match step(at)
      case Off => Off
      case To(next) => SkipEach(step, next, n - 1)
  }

  /** The step comes to the end of this part wherever it stands in b. */
  ghost predicate Skips(step: nat -> Place, b: Bytes, part: Bytes) {
    forall at: nat {:trigger At(b, at, part)} | At(b, at, part) :: step(at) == To(at + |part|)
  }

  lemma {:induction false} EachSkipped(step: nat -> Place, b: Bytes, at: nat, parts: seq<Bytes>)
    requires forall i | 0 <= i < |parts| :: Skips(step, b, parts[i])
    requires At(b, at, Joined(parts))
    ensures SkipEach(step, at, |parts|) == To(at + |Joined(parts)|)
    decreases |parts|
  {
    if parts != [] {
      AtSplit(b, at, parts[0], Joined(parts[1..]));
      assert Skips(step, b, parts[0]);
      EachSkipped(step, b, at + |parts[0]|, parts[1..]);
    }
  }

  ghost predicate GoesForward(step: nat -> Place) {
    forall p: nat :: step(p).To? ==> step(p).at > p
  }

  lemma {:induction false} CountGoesForward(step: nat -> Place, at: nat, n: nat)
    requires GoesForward(step)
    ensures SkipEach(step, at, n).To? ==> SkipEach(step, at, n).at >= at + n
    decreases n
  {
    if n > 0 && step(at).To? {
      CountGoesForward(step, step(at).at, n - 1);
    }
  }

  /** A step that always goes forward never ends two counts at one place. */
  lemma {:induction false} CountsEndApart(step: nat -> Place, at: nat, m: nat, n: nat)
    requires GoesForward(step)
    requires m != n && SkipEach(step, at, n).To?
    ensures SkipEach(step, at, m) != SkipEach(step, at, n)
    decreases n
  {
    CountGoesForward(step, at, n);
    CountGoesForward(step, at, m);
    if n > 0 && m > 0 {
      CountsEndApart(step, step(at).at, m - 1, n - 1);
    }
  }

  //
  // Searching for one byte and walking on.
  //

  /** The byte found, if one is. */
  datatype Found = Nothing | Byte(at: nat)

  /** Where the search stands and what it has found; Stopped is the IndexError. */
  datatype Scan = Stopped | Scan(at: nat, found: Found)

  function ScanEach(step: (nat, Found) -> Scan, at: nat, n: nat, found: Found): Scan
    decreases n
  {
    if n == 0 then Scan(at, found)
    else
      match step(at, found)
      case Stopped => Stopped
      case Scan(next, now) => ScanEach(step, next, n - 1, now)
  }

  /** The step goes over this part and finds nothing more in it. */
  ghost predicate Passes(step: (nat, Found) -> Scan, b: Bytes, part: Bytes, found: Found) {
    forall at: nat {:trigger At(b, at, part)} | At(b, at, part) :: step(at, found) == Scan(at + |part|, found)
  }

  /** The step finds the byte q into this part. */
  ghost predicate Finds(step: (nat, Found) -> Scan, b: Bytes, part: Bytes, q: nat) {
    forall at: nat {:trigger At(b, at, part)} | At(b, at, part) :: step(at, Nothing) == Scan(at + |part|, Byte(at + q))
  }

  /** Once the byte is found, wherever, the step only goes over this part. */
  ghost predicate PassesOn(step: (nat, Found) -> Scan, b: Bytes, part: Bytes) {
    forall p: nat :: Passes(step, b, part, Byte(p))
  }

  lemma {:induction false} EachPassed(step: (nat, Found) -> Scan, b: Bytes, at: nat, parts: seq<Bytes>, found: Found)
    requires forall i | 0 <= i < |parts| :: Passes(step, b, parts[i], found)
    requires At(b, at, Joined(parts))
    ensures ScanEach(step, at, |parts|, found) == Scan(at + |Joined(parts)|, found)
    decreases |parts|
  {
    if parts != [] {
      AtSplit(b, at, parts[0], Joined(parts[1..]));
      assert Passes(step, b, parts[0], found);
      EachPassed(step, b, at + |parts[0]|, parts[1..], found);
    }
  }

  /** How far into the run part k stands. */
  function Before(parts: seq<Bytes>, k: nat): nat
    requires k <= |parts|
    decreases k
  {
    if k == 0 then 0 else |parts[0]| + Before(parts[1..], k - 1)
  }

  /** Nothing before part k, the byte in part k, nothing more after it. */
  ghost predicate FindsIn(step: (nat, Found) -> Scan, b: Bytes, parts: seq<Bytes>, k: nat, q: nat)
    requires k < |parts|
  {
    && (forall i | 0 <= i < k :: Passes(step, b, parts[i], Nothing))
    && Finds(step, b, parts[k], q)
    && (forall i | k < i < |parts| :: PassesOn(step, b, parts[i]))
  }

  lemma {:induction false} OneFound(step: (nat, Found) -> Scan, b: Bytes, at: nat, parts: seq<Bytes>, k: nat, q: nat)
    requires k < |parts| && FindsIn(step, b, parts, k, q)
    requires At(b, at, Joined(parts))
    ensures ScanEach(step, at, |parts|, Nothing) == Scan(at + |Joined(parts)|, Byte(at + (Before(parts, k) + q)))
    decreases k
  {
    var first, rest := parts[0], parts[1..];
    AtSplit(b, at, first, Joined(rest));
    var next := at + |first|;
    if k == 0 {
      NothingMore(step, b, next, rest, at + q);
      ScannedOne(step, at, |parts|, Nothing, next, Byte(at + q));
    } else {
      assert Passes(step, b, first, Nothing);
      FindsInRest(step, b, parts, k, q);
      OneFound(step, b, next, rest, k - 1, q);
      ScannedOne(step, at, |parts|, Nothing, next, Nothing);
    }
  }

  lemma NothingMore(step: (nat, Found) -> Scan, b: Bytes, at: nat, parts: seq<Bytes>, p: nat)
    requires forall i | 0 <= i < |parts| :: PassesOn(step, b, parts[i])
    requires At(b, at, Joined(parts))
    ensures ScanEach(step, at, |parts|, Byte(p)) == Scan(at + |Joined(parts)|, Byte(p))
  {
    forall i | 0 <= i < |parts| ensures Passes(step, b, parts[i], Byte(p)) {
      assert PassesOn(step, b, parts[i]);
    }
    EachPassed(step, b, at, parts, Byte(p));
  }

  lemma ScannedOne(step: (nat, Found) -> Scan, at: nat, n: nat, found: Found, next: nat, now: Found)
    requires n > 0 && step(at, found) == Scan(next, now)
    ensures ScanEach(step, at, n, found) == ScanEach(step, next, n - 1, now)
  {
  }

  lemma FindsInRest(step: (nat, Found) -> Scan, b: Bytes, parts: seq<Bytes>, k: nat, q: nat)
    requires 0 < k < |parts| && FindsIn(step, b, parts, k, q)
    ensures FindsIn(step, b, parts[1..], k - 1, q)
  {
  }

  //
  // The byte flipped.
  //

  /** x ^ 0x01 */
  function Flip(x: byte): (y: byte)
    ensures y != x && y / 2 == x / 2
  {
    if x % 2 == 0 then x + 1 else x - 1
  }

  /** b with the byte at p flipped. */
  function FlipAt(b: Bytes, p: nat): (f: Bytes)
    ensures |f| == |b|
  {
    if p < |b| then b[p := Flip(b[p])] else b
  }

  lemma FlipLeft(x: Bytes, y: Bytes, p: nat)
    requires p < |x|
    ensures FlipAt(x + y, p) == FlipAt(x, p) + y
  {
  }

  lemma FlipRight(x: Bytes, y: Bytes, p: nat)
    ensures FlipAt(x + y, |x| + p) == x + FlipAt(y, p)
  {
  }

  /** Part k, and no other, is flipped at q. */
  ghost predicate PartFlipped(parts: seq<Bytes>, moved: seq<Bytes>, k: nat, q: nat) {
    && k < |parts| == |moved|
    && q < |parts[k]| && moved[k] == FlipAt(parts[k], q)
    && forall i | 0 <= i < |parts| && i != k :: moved[i] == parts[i]
  }

  /** A flip in one part is a flip of the run. */
  lemma {:induction false} FlipJoined(parts: seq<Bytes>, moved: seq<Bytes>, k: nat, q: nat)
    requires PartFlipped(parts, moved, k, q)
    ensures Before(parts, k) + q < |Joined(parts)|
    ensures FlipAt(Joined(parts), Before(parts, k) + q) == Joined(moved)
    decreases k
  {
    hide FlipAt;
    var rest := Joined(parts[1..]);
    if k == 0 {
      assert moved[1..] == parts[1..];
      FlipLeft(parts[0], rest, q);
    } else {
      FlipJoined(parts[1..], moved[1..], k - 1, q);
      FlipRight(parts[0], rest, Before(parts[1..], k - 1) + q);
    }
  }

  /** The same with bytes before the run and behind it. */
  lemma FlipWithin(head: Bytes, mid: Bytes, tail: Bytes, q: nat)
    requires q < |mid|
    ensures |head| + q < |head + mid + tail|
    ensures FlipAt(head + mid + tail, |head| + q) == head + FlipAt(mid, q) + tail
  {
    FlipLeft(head + mid, tail, |head| + q);
    FlipRight(head, mid, q);
  }

  lemma FlipBehind(head: Bytes, parts: seq<Bytes>, moved: seq<Bytes>, k: nat, q: nat)
    requires PartFlipped(parts, moved, k, q)
    ensures
      var p := |head| + (Before(parts, k) + q);
      p < |head + Joined(parts)| && FlipAt(head + Joined(parts), p) == head + Joined(moved)
  {
    FlipJoined(parts, moved, k, q);
    FlipRight(head, Joined(parts), Before(parts, k) + q);
  }
}
