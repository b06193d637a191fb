/** The ordered key-value store behind providers/kv/src/lib.rs: batches written
    at once, a scan by prefix, and batches undone. */
module Store {
  import opened Bytes
  import opened Order

  datatype Row = Row(key: Bytes, value: Bytes)

  /** One entry of a WriteBatch. */
  datatype Op = Put(key: Bytes, value: Bytes) | Delete(key: Bytes)

  type Contents = map<Bytes, Bytes>

  ghost predicate Ascending(rows: seq<Row>) {
    forall i, j | 0 <= i < j < |rows| :: Less(rows[i].key, rows[j].key)
  }

  function ContentsOf(rows: seq<Row>): Contents {
    if rows == [] then map[] else ContentsOf(rows[1..])[rows[0].key := rows[0].value]
  }

  //
  // One key written or deleted, the rows kept in order.
  //

  function PutRow(rows: seq<Row>, key: Bytes, value: Bytes): seq<Row> {
    if rows == [] || Less(key, rows[0].key) then [Row(key, value)] + rows
    else if key == rows[0].key then [Row(key, value)] + rows[1..]
    else [rows[0]] + PutRow(rows[1..], key, value)
  }

  function DeleteRow(rows: seq<Row>, key: Bytes): seq<Row> {
    if rows == [] then []
    else if key == rows[0].key then rows[1..]
    else [rows[0]] + DeleteRow(rows[1..], key)
  }

  function Written(rows: seq<Row>, op: Op): seq<Row> {
    match op
    case Put(key, value) => PutRow(rows, key, value)
    case Delete(key) => DeleteRow(rows, key)
  }

  /** What a batch does, in the order it was filled. */
  function WrittenAll(rows: seq<Row>, batch: seq<Op>): seq<Row>
    decreases batch
  {
    if batch == [] then rows else WrittenAll(Written(rows, batch[0]), batch[1..])
  }

  function Meant(m: Contents, op: Op): Contents {
    match op
    case Put(key, value) => m[key := value]
    case Delete(key) => m - {key}
  }

  function MeantAll(m: Contents, batch: seq<Op>): Contents
    decreases batch
  {
    if batch == [] then m else MeantAll(Meant(m, batch[0]), batch[1..])
  }

  /** Every key is the first's or comes after it. */
  ghost predicate Above(key: Bytes, rows: seq<Row>) {
    forall i | 0 <= i < |rows| :: Less(key, rows[i].key)
  }

  lemma AscendingCons(row: Row, rows: seq<Row>)
    ensures Ascending([row] + rows) <==> Above(row.key, rows) && Ascending(rows)
  {
    var all := [row] + rows;
    assert forall i | 0 <= i < |rows| :: rows[i] == all[i + 1];
    if Ascending(all) {
      forall i, j | 0 <= i < j < |rows| ensures Less(rows[i].key, rows[j].key) {
        assert Less(all[i + 1].key, all[j + 1].key);
      }
      forall i | 0 <= i < |rows| ensures Less(row.key, rows[i].key) {
        assert Less(all[0].key, all[i + 1].key);
      }
    }
  }

  lemma AscendingTail(rows: seq<Row>)
    requires rows != [] && Ascending(rows)
    ensures Above(rows[0].key, rows[1..]) && Ascending(rows[1..])
  {
    assert rows == [rows[0]] + rows[1..];
    AscendingCons(rows[0], rows[1..]);
  }

  lemma AboveTail(low: Bytes, rows: seq<Row>)
    requires rows != [] && Above(low, rows)
    ensures Less(low, rows[0].key) && Above(low, rows[1..])
  {
  }

  lemma AboveAll(low: Bytes, key: Bytes, rows: seq<Row>)
    requires Less(low, key) && Above(key, rows)
    ensures Above(low, rows)
  {
    forall i | 0 <= i < |rows| ensures Less(low, rows[i].key) {
      Transitive(low, key, rows[i].key);
    }
  }

  lemma {:induction false} AboveIsAbsent(key: Bytes, rows: seq<Row>)
    requires Above(key, rows)
    ensures key !in ContentsOf(rows)
  {
    if rows != [] {
      Irreflexive(key);
      AboveIsAbsent(key, rows[1..]);
    }
  }

  lemma {:induction false} PutRowMeant(rows: seq<Row>, key: Bytes, value: Bytes)
    requires Ascending(rows)
    ensures ContentsOf(PutRow(rows, key, value)) == ContentsOf(rows)[key := value]
    ensures Ascending(PutRow(rows, key, value))
    ensures forall low | Less(low, key) && Above(low, rows) :: Above(low, PutRow(rows, key, value))
  {
    hide Less;
    if rows == [] {
      AscendingCons(Row(key, value), []);
    } else {
      var first, rest := rows[0], rows[1..];
      AscendingTail(rows);
      if Less(key, first.key) {
        PutFirst(rows, key, value);
      } else if key == first.key {
        AscendingCons(Row(key, value), rest);
      } else {
        Trichotomy(key, first.key);
        PutRowMeant(rest, key, value);
        AscendingCons(first, PutRow(rest, key, value));
      }
    }
  }

  lemma PutFirst(rows: seq<Row>, key: Bytes, value: Bytes)
    requires rows != [] && Ascending(rows) && Less(key, rows[0].key)
    ensures Ascending([Row(key, value)] + rows)
  {
    AscendingTail(rows);
    AboveAll(key, rows[0].key, rows[1..]);
    AscendingCons(Row(key, value), rows);
  }

  lemma {:induction false} DeleteRowMeant(rows: seq<Row>, key: Bytes)
    requires Ascending(rows)
    ensures ContentsOf(DeleteRow(rows, key)) == ContentsOf(rows) - {key}
    ensures Ascending(DeleteRow(rows, key))
    ensures forall low | Above(low, rows) :: Above(low, DeleteRow(rows, key))
  {
    hide Less;
    if rows != [] {
      var first, rest := rows[0], rows[1..];
      AscendingTail(rows);
      if key == first.key {
        AboveIsAbsent(key, rest);
      } else {
        DeleteRowMeant(rest, key);
        var fewer := DeleteRow(rest, key);
        AscendingCons(first, fewer);
        forall low | Above(low, rows) ensures Above(low, [first] + fewer) {
          AboveTail(low, rows);
        }
      }
    }
  }

  lemma WrittenMeant(rows: seq<Row>, op: Op)
    requires Ascending(rows)
    ensures Ascending(Written(rows, op)) && ContentsOf(Written(rows, op)) == Meant(ContentsOf(rows), op)
  {
    match op
    case Put(key, value) => PutRowMeant(rows, key, value);
    case Delete(key) => DeleteRowMeant(rows, key);
  }

  lemma {:induction false} WrittenAllMeant(rows: seq<Row>, batch: seq<Op>)
    requires Ascending(rows)
    ensures Ascending(WrittenAll(rows, batch))
    ensures ContentsOf(WrittenAll(rows, batch)) == MeantAll(ContentsOf(rows), batch)
    decreases batch
  {
    hide Ascending, Written, Meant;
    if batch != [] {
      WrittenMeant(rows, batch[0]);
      WrittenAllMeant(Written(rows, batch[0]), batch[1..]);
    }
  }

  lemma {:induction false} MeantMore(m: Contents, batch: seq<Op>, op: Op)
    ensures MeantAll(m, batch + [op]) == Meant(MeantAll(m, batch), op)
    decreases batch
  {
    hide Meant;
    if batch == [] {
      assert batch + [op] == [op];
      assert MeantAll(m, [op]) == MeantAll(Meant(m, op), []);
    } else {
      MeantMore(Meant(m, batch[0]), batch[1..], op);
      assert (batch + [op])[1..] == batch[1..] + [op];
    }
  }

  /** The last put to each key. */
  function Latest(puts: seq<Row>): Contents {
    if puts == [] then map[]
    else
      var last := puts[|puts| - 1];
      Latest(puts[..|puts| - 1])[last.key := last.value]
  }

  function KeySet(keys: seq<Bytes>): set<Bytes> {
    set k | k in keys
  }

  /** The row of this key, if there is one: every key stands in one row. */
  lemma {:induction false} RowsAreContents(rows: seq<Row>, i: nat)
    requires Ascending(rows) && i < |rows|
    ensures rows[i].key in ContentsOf(rows) && ContentsOf(rows)[rows[i].key] == rows[i].value
  {
    if i > 0 {
      AscendingTail(rows);
      RowsAreContents(rows[1..], i - 1);
      Trichotomy(rows[0].key, rows[i].key);
      assert Less(rows[0].key, rows[i].key);
    }
  }

  lemma {:induction false} ContentsAreRows(rows: seq<Row>, key: Bytes)
    requires key in ContentsOf(rows)
    ensures Row(key, ContentsOf(rows)[key]) in rows
  {
    if key != rows[0].key {
      ContentsAreRows(rows[1..], key);
    }
  }

  lemma RowsIffHeld(rows: seq<Row>)
    requires Ascending(rows)
    ensures forall row :: row in rows <==> row.key in ContentsOf(rows) && ContentsOf(rows)[row.key] == row.value
  {
    forall row | row in rows ensures row.key in ContentsOf(rows) && ContentsOf(rows)[row.key] == row.value {
      var i :| 0 <= i < |rows| && rows[i] == row;
      RowsAreContents(rows, i);
    }
    forall row: Row | row.key in ContentsOf(rows) && ContentsOf(rows)[row.key] == row.value ensures row in rows {
      ContentsAreRows(rows, row.key);
    }
  }

  lemma {:induction false} AsManyAsKeys(rows: seq<Row>)
    requires Ascending(rows)
    ensures |ContentsOf(rows)| == |rows|
  {
    if rows != [] {
      AscendingTail(rows);
      AboveIsAbsent(rows[0].key, rows[1..]);
      AsManyAsKeys(rows[1..]);
      assert ContentsOf(rows).Keys == ContentsOf(rows[1..]).Keys + {rows[0].key};
    }
  }

  /** The first row holds the least key. */
  lemma FirstIsLeast(rows: seq<Row>, key: Bytes)
    requires Ascending(rows) && rows != [] && key in ContentsOf(rows) && key != rows[0].key
    ensures Less(rows[0].key, key)
  {
    ContentsAreRows(rows, key);
    var i :| 0 <= i < |rows| && rows[i] == Row(key, ContentsOf(rows)[key]);
    assert Less(rows[0].key, rows[i].key);
  }

  lemma TailContents(rows: seq<Row>)
    requires Ascending(rows) && rows != []
    ensures ContentsOf(rows[1..]) == ContentsOf(rows) - {rows[0].key}
    ensures Ascending(rows[1..])
  {
    AscendingTail(rows);
    AboveIsAbsent(rows[0].key, rows[1..]);
  }

  /** In order, the contents are held by one list of rows only. */
  lemma {:induction false} ContentsFixTheRows(a: seq<Row>, b: seq<Row>)
    requires Ascending(a) && Ascending(b) && ContentsOf(a) == ContentsOf(b)
    ensures a == b
  {
    hide Less, Ascending;
    AsManyAsKeys(a);
    AsManyAsKeys(b);
    if a != [] {
      RowsAreContents(a, 0);
      RowsAreContents(b, 0);
      if a[0].key != b[0].key {
        FirstIsLeast(a, b[0].key);
        FirstIsLeast(b, a[0].key);
        Trichotomy(a[0].key, b[0].key);
      }
      TailContents(a);
      TailContents(b);
      ContentsFixTheRows(a[1..], b[1..]);
    }
  }

  //
  // The provider.
  //

  /** The open database. Its errors are the world's and are left out. */
  class Db {
    var rows: seq<Row>

    ghost predicate Valid()
      reads this
    {
      Ascending(rows)
    }

    ghost function Held(): Contents
      reads this
    {
      ContentsOf(rows)
    }

    constructor ()
      ensures Valid() && Held() == map[]
    {
      rows := [];
    }

    /** write_opt: the whole batch, in the order it was filled. */
    method Write(batch: seq<Op>)
      requires Valid()
      modifies this
      ensures Valid() && Held() == MeantAll(old(Held()), batch)
    {
      WrittenAllMeant(rows, batch);
      rows := WrittenAll(rows, batch);
    }

    method Get(key: Bytes) returns (found: Option<Bytes>)
      requires Valid()
      ensures found == if key in Held() then Some(Held()[key]) else None
    {
      var i := 0;
      while i < |rows| && rows[i].key != key
        invariant 0 <= i <= |rows|
        invariant forall j | 0 <= j < i :: rows[j].key != key
      {
        i := i + 1;
      }
      if i < |rows| {
        RowsAreContents(rows, i);
        return Some(rows[i].value);
      }
      if key in Held() { ContentsAreRows(rows, key); }
      return None;
    }

    method GetAll(keys: seq<Bytes>) returns (found: seq<Option<Bytes>>)
      requires Valid()
      ensures |found| == |keys|
      ensures forall i | 0 <= i < |keys| :: found[i] == if keys[i] in Held() then Some(Held()[keys[i]]) else None
    {
      found := [];
      for i := 0 to |keys|
        invariant |found| == i
        invariant forall j | 0 <= j < i :: found[j] == if keys[j] in Held() then Some(Held()[keys[j]]) else None
      {
        var one := Get(keys[i]);
        found := found + [one];
      }
    }

    method PutAll(entries: seq<Row>)
      requires Valid()
      modifies this
      ensures Valid() && Held() == old(Held()) + Latest(entries)
    {
      var batch := PutsOf(Held(), entries);
      Write(batch);
    }

    /** The puts go in before the deletes. */
    method ApplyAll(puts: seq<Row>, deletes: seq<Bytes>)
      requires Valid()
      modifies this
      ensures Valid() && Held() == old(Held()) + Latest(puts) - KeySet(deletes)
    {
      var batch := PutsOf(Held(), puts);
      batch := DeletesAfter(Held(), batch, deletes);
      Write(batch);
    }

    method DeleteAll(keys: seq<Bytes>)
      requires Valid()
      modifies this
      ensures Valid() && Held() == old(Held()) - KeySet(keys)
    {
      var batch := DeletesAfter(Held(), [], keys);
      Write(batch);
    }

    method Count() returns (held: nat)
      requires Valid()
      ensures held == |Held()|
    {
      held := 0;
      for i := 0 to |rows|
        invariant held == i
      {
        held := held + 1;
      }
      AsManyAsKeys(rows);
    }

    /** Seek to the prefix and stop at the first key without it. */
    method Prefixed(prefix: Bytes) returns (found: seq<Row>)
      requires Valid()
      ensures found == Filtered(rows, prefix) && Ascending(found)
      ensures forall row ::
                row in found <==> row.key in Held() && Held()[row.key] == row.value && HasPrefix(row.key, prefix)
    {
      found := Scan(rows, prefix);
      FilteredIsExact(rows, prefix);
      RowsIffHeld(rows);
    }
  }

  /** The iterator's loop. */
  method Scan(rows: seq<Row>, prefix: Bytes) returns (found: seq<Row>)
    requires Ascending(rows)
    ensures found == Filtered(rows, prefix)
  {
    hide Ascending, HasPrefix, Less;
    found := [];
    var i := Seek(rows, prefix);
    ghost var start := i;
    SeekSkipsNothing(rows, prefix);
    while i < |rows|
      invariant start <= i <= |rows|
      invariant Filtered(rows, prefix) == found + Filtered(rows[i..], prefix)
    {
      var row := rows[i];
      if !HasPrefix(row.key, prefix) {
        NothingFurther(rows, prefix, i);
        break;
      }
      assert rows[i..][0] == row && rows[i..][1..] == rows[i + 1..];
      assert found + ([row] + Filtered(rows[i + 1..], prefix)) == found + [row] + Filtered(rows[i + 1..], prefix);
      found := found + [row];
      i := i + 1;
    }
    assert i == |rows| ==> rows[i..] == [];
    assert found + [] == found;
  }

  /** The loop over the puts. */
  method PutsOf(ghost m: Contents, entries: seq<Row>) returns (batch: seq<Op>)
    ensures MeantAll(m, batch) == m + Latest(entries)
  {
    batch := [];
    assert m + map[] == m;
    for i := 0 to |entries|
      invariant MeantAll(m, batch) == m + Latest(entries[..i])
    {
      assert entries[..i + 1][..i] == entries[..i];
      MeantMore(m, batch, Put(entries[i].key, entries[i].value));
      batch := batch + [Put(entries[i].key, entries[i].value)];
    }
    assert entries[..|entries|] == entries;
  }

  /** The loop over the deletes. */
  method DeletesAfter(ghost m: Contents, before: seq<Op>, keys: seq<Bytes>) returns (batch: seq<Op>)
    ensures MeantAll(m, batch) == MeantAll(m, before) - KeySet(keys)
  {
    batch := before;
    for i := 0 to |keys|
      invariant MeantAll(m, batch) == MeantAll(m, before) - KeySet(keys[..i])
    {
      assert KeySet(keys[..i + 1]) == KeySet(keys[..i]) + {keys[i]};
      MeantMore(m, batch, Delete(keys[i]));
      batch := batch + [Delete(keys[i])];
    }
    assert keys[..|keys|] == keys;
  }

  //
  // The scan is the filter.
  //

  /** Where an iterator from this key begins. */
  function Seek(rows: seq<Row>, from: Bytes): (i: nat)
    ensures i <= |rows|
  {
    if rows == [] || !Less(rows[0].key, from) then 0 else 1 + Seek(rows[1..], from)
  }

  /** Every row whose key has the prefix, in order. */
  function Filtered(rows: seq<Row>, prefix: Bytes): seq<Row> {
    if rows == [] then []
    else (if HasPrefix(rows[0].key, prefix) then [rows[0]] else []) + Filtered(rows[1..], prefix)
  }

  lemma {:induction false} SeekSkipsNothing(rows: seq<Row>, prefix: Bytes)
    requires Ascending(rows)
    ensures Filtered(rows, prefix) == Filtered(rows[Seek(rows, prefix)..], prefix)
    ensures forall i | Seek(rows, prefix) <= i < |rows| :: !Less(rows[i].key, prefix)
  {
    if rows != [] {
      AscendingTail(rows);
      if Less(rows[0].key, prefix) {
        SeekSkipsNothing(rows[1..], prefix);
        if HasPrefix(rows[0].key, prefix) { PrefixIsNotPassed(rows[0].key, prefix); }
        var k := Seek(rows[1..], prefix);
        assert rows[1..][k..] == rows[k + 1..];
        assert forall i | 1 <= i < |rows| :: rows[i] == rows[1..][i - 1];
        assert [] + Filtered(rows[1..], prefix) == Filtered(rows[1..], prefix);
      } else {
        forall i | 0 < i < |rows| ensures !Less(rows[i].key, prefix) {
          if Less(rows[i].key, prefix) {
            Transitive(rows[0].key, rows[i].key, prefix);
          }
        }
      }
    }
  }

  lemma {:induction false} NoneFiltered(rows: seq<Row>, prefix: Bytes)
    requires forall i | 0 <= i < |rows| :: !HasPrefix(rows[i].key, prefix)
    ensures Filtered(rows, prefix) == []
  {
    if rows != [] {
      assert !HasPrefix(rows[0].key, prefix);
      NoneFiltered(rows[1..], prefix);
    }
  }

  lemma NothingFurther(rows: seq<Row>, prefix: Bytes, i: nat)
    requires Ascending(rows) && i < |rows|
    requires !Less(rows[i].key, prefix) && !HasPrefix(rows[i].key, prefix)
    ensures Filtered(rows[i..], prefix) == []
  {
    var rest := rows[i..];
    forall j | 0 <= j < |rest| ensures !HasPrefix(rest[j].key, prefix) {
      if j > 0 && HasPrefix(rest[j].key, prefix) {
        assert Less(rows[i].key, rows[i + j].key);
        PrefixIsContiguous(prefix, rows[i].key, rest[j].key);
      }
    }
    NoneFiltered(rest, prefix);
  }

  /** The scan answers every row with the prefix, no other, in key order. */
  lemma {:induction false} FilteredIsExact(rows: seq<Row>, prefix: Bytes)
    requires Ascending(rows)
    ensures Ascending(Filtered(rows, prefix))
    ensures forall row :: row in Filtered(rows, prefix) <==> row in rows && HasPrefix(row.key, prefix)
  {
    if rows != [] {
      var first, rest := rows[0], rows[1..];
      AscendingTail(rows);
      FilteredIsExact(rest, prefix);
      var later := Filtered(rest, prefix);
      assert rows == [first] + rest;
      if HasPrefix(first.key, prefix) {
        forall i | 0 <= i < |later| ensures Less(first.key, later[i].key) {
          assert later[i] in rest;
        }
        AscendingCons(first, later);
      } else {
        assert [] + later == later;
      }
    }
  }

  /** 'o', the Transaction Id, the index big-endian. */
  function OutputKey(txid: Bytes, index: u32): Bytes {
    [0x6f] + txid + BeBytes(index, 4)
  }

  lemma OutputKeyOrder(txid: Bytes, m: u32, n: u32)
    ensures Less(OutputKey(txid, m), OutputKey(txid, n)) <==> m < n
    ensures HasPrefix(OutputKey(txid, m), [0x6f] + txid)
  {
    Pow256Values();
    BigEndianOrder(m, n, 4);
    LessAppended([0x6f] + txid, BeBytes(m, 4), [0x6f] + txid, BeBytes(n, 4));
    Irreflexive([0x6f] + txid);
  }

  /** One Transaction's Outputs come off the scan in index order, each once. */
  lemma ScannedInIndexOrder(rows: seq<Row>, txid: Bytes, i: nat, j: nat, m: u32, n: u32)
    requires Ascending(rows)
    requires
      var found := Filtered(rows, [0x6f] + txid);
      i < |found| && j < |found| && found[i].key == OutputKey(txid, m) && found[j].key == OutputKey(txid, n)
    ensures i < j <==> m < n
  {
    var found := Filtered(rows, [0x6f] + txid);
    hide Filtered, OutputKey, Less;
    FilteredIsExact(rows, [0x6f] + txid);
    OutputKeyOrder(txid, m, n);
    OutputKeyOrder(txid, n, m);
    if i < j {
      assert Less(found[i].key, found[j].key);
    } else if j < i {
      assert Less(found[j].key, found[i].key);
    }
  }

  //
  // Undoing.
  //

  datatype Batch = Batch(puts: seq<Row>, deletes: seq<Bytes>)

  /** What ApplyAll does, said of the contents. */
  function Applied(m: Contents, b: Batch): Contents {
    m + Latest(b.puts) - KeySet(b.deletes)
  }

  function KeysOf(puts: seq<Row>): (keys: seq<Bytes>)
    ensures |keys| == |puts|
    ensures forall i {:trigger keys[i]} | 0 <= i < |puts| :: keys[i] == puts[i].key
  {
    seq(|puts|, i requires 0 <= i < |puts| => puts[i].key)
  }

  /** The entries a batch takes away. */
  function Removed(m: Contents, deletes: seq<Bytes>): seq<Row> {
    if deletes == [] then []
    else
      var last := deletes[|deletes| - 1];
      Removed(m, deletes[..|deletes| - 1]) + (if last in m then [Row(last, m[last])] else [])
  }

  /** The batch that undoes one, noted before it is applied. */
  function Undo(m: Contents, b: Batch): Batch {
    Batch(Removed(m, b.deletes), KeysOf(b.puts))
  }

  lemma {:induction false} LatestKeys(puts: seq<Row>)
    ensures Latest(puts).Keys == KeySet(KeysOf(puts))
  {
    if puts != [] {
      var n := |puts| - 1;
      LatestKeys(puts[..n]);
      assert KeysOf(puts) == KeysOf(puts[..n]) + [puts[n].key];
    }
  }

  /** A later put wins. */
  lemma {:induction false} LatestIsTheLast(puts: seq<Row>, i: nat)
    requires i < |puts|
    requires forall j | i < j < |puts| :: puts[j].key != puts[i].key
    ensures puts[i].key in Latest(puts) && Latest(puts)[puts[i].key] == puts[i].value
  {
    if i < |puts| - 1 {
      LatestIsTheLast(puts[..|puts| - 1], i);
    }
  }

  lemma {:induction false} RemovedIsThose(m: Contents, deletes: seq<Bytes>)
    ensures Latest(Removed(m, deletes)) == map k | k in m && k in KeySet(deletes) :: m[k]
  {
    if deletes != [] {
      var n := |deletes| - 1;
      var last, before := deletes[n], Removed(m, deletes[..n]);
      RemovedIsThose(m, deletes[..n]);
      assert KeySet(deletes) == KeySet(deletes[..n]) + {last};
      if last in m {
        assert (before + [Row(last, m[last])])[..|before|] == before;
      } else {
        assert before + [] == before;
      }
    }
  }

  /** The undo restores the contents exactly when no key the batch put was
      already there. */
  lemma UndoRestores(m: Contents, b: Batch)
    ensures Applied(Applied(m, b), Undo(m, b)) == m <==> m.Keys !! KeySet(KeysOf(b.puts))
  {
    hide Latest, Removed, KeysOf, KeySet;
    LatestKeys(b.puts);
    RemovedIsThose(m, b.deletes);
    var back := Applied(Applied(m, b), Undo(m, b));
    if m.Keys !! KeySet(KeysOf(b.puts)) {
      assert back.Keys == m.Keys;
      assert forall k | k in m :: back[k] == m[k];
    } else {
      var k :| k in m.Keys && k in KeySet(KeysOf(b.puts));
      assert k !in back;
    }
  }

  function AppliedAll(m: Contents, batches: seq<Batch>): Contents
    decreases batches
  {
    if batches == [] then m else AppliedAll(Applied(m, batches[0]), batches[1..])
  }

  /** Each batch's undo, noted as it was applied, the last first. */
  function UndoStack(m: Contents, batches: seq<Batch>): seq<Batch>
    decreases batches
  {
    if batches == [] then [] else UndoStack(Applied(m, batches[0]), batches[1..]) + [Undo(m, batches[0])]
  }

  /** No batch puts a key that is there when its turn comes. */
  ghost predicate PutsNewKeys(m: Contents, batches: seq<Batch>)
    decreases batches
  {
    batches == [] || (m.Keys !! KeySet(KeysOf(batches[0].puts)) && PutsNewKeys(Applied(m, batches[0]), batches[1..]))
  }

  lemma {:induction false} AppliedAllMore(m: Contents, batches: seq<Batch>, b: Batch)
    ensures AppliedAll(m, batches + [b]) == Applied(AppliedAll(m, batches), b)
    decreases batches
  {
    hide Applied;
    if batches == [] {
      assert batches + [b] == [b];
      assert AppliedAll(m, [b]) == AppliedAll(Applied(m, b), []);
    } else {
      AppliedAllMore(Applied(m, batches[0]), batches[1..], b);
      assert (batches + [b])[1..] == batches[1..] + [b];
    }
  }

  /** The contents after every batch and then every undo. */
  function Unwound(m: Contents, batches: seq<Batch>): Contents {
    AppliedAll(AppliedAll(m, batches), UndoStack(m, batches))
  }

  /** One batch around the rest. */
  lemma UnwoundFirst(m: Contents, batches: seq<Batch>)
    requires batches != []
    ensures Unwound(m, batches) == Applied(Unwound(Applied(m, batches[0]), batches[1..]), Undo(m, batches[0]))
  {
    hide Applied, Undo;
    var next := Applied(m, batches[0]);
    AppliedAllMore(AppliedAll(m, batches), UndoStack(next, batches[1..]), Undo(m, batches[0]));
  }

  /** The first batch to name this key puts it. */
  predicate PutBeforeDeleted(key: Bytes, batches: seq<Batch>) {
    && batches != []
    && (key in KeySet(KeysOf(batches[0].puts)) || (key !in batches[0].deletes && PutBeforeDeleted(key, batches[1..])))
  }

  /** One batch undone, key by key: a key it put is gone, a held key it deleted
      is back, and any other is as the rest left it. */
  lemma UndoneAt(m: Contents, b: Batch, later: Contents, key: Bytes)
    ensures
      var back := Applied(later, Undo(m, b));
      if key in KeySet(KeysOf(b.puts)) then key !in back
      else if key in b.deletes && key in m then key in back && back[key] == m[key]
      else (key in back <==> key in later) && (key in back ==> back[key] == later[key])
  {
    hide Latest, Removed, KeysOf;
    RemovedIsThose(m, b.deletes);
  }

  lemma AppliedAt(m: Contents, b: Batch, key: Bytes)
    requires key !in KeySet(KeysOf(b.puts))
    ensures key in Applied(m, b) <==> key in m && key !in b.deletes
    ensures key in Applied(m, b) ==> Applied(m, b)[key] == m[key]
  {
    hide Latest, KeysOf;
    LatestKeys(b.puts);
  }

  /** What becomes of each key: gone if a batch put it before any deleted it, and
      otherwise what it was. */
  lemma {:induction false} UnwoundAt(m: Contents, batches: seq<Batch>, key: Bytes)
    ensures key in Unwound(m, batches) <==> key in m && !PutBeforeDeleted(key, batches)
    ensures key in Unwound(m, batches) ==> Unwound(m, batches)[key] == m[key]
    decreases batches
  {
    hide Unwound, Applied, Undo, KeySet, KeysOf;
    if batches == [] {
      NoneUnwound(m);
    } else {
      var b, next := batches[0], Applied(m, batches[0]);
      UnwoundFirst(m, batches);
      UndoneAt(m, b, Unwound(next, batches[1..]), key);
      if key !in KeySet(KeysOf(b.puts)) {
        AppliedAt(m, b, key);
        UnwoundAt(next, batches[1..], key);
      }
    }
  }

  lemma NoneUnwound(m: Contents)
    ensures Unwound(m, []) == m
  {
  }

  /** A stack of batches undone last first leaves what was there before exactly
      when no key held then is put by the first batch to name it. */
  lemma UndoStackRestores(m: Contents, batches: seq<Batch>)
    ensures Unwound(m, batches) == m <==> forall key | key in m :: !PutBeforeDeleted(key, batches)
  {
    hide Unwound, PutBeforeDeleted;
    forall key: Bytes
      ensures key in Unwound(m, batches) <==> key in m && !PutBeforeDeleted(key, batches)
      ensures key in Unwound(m, batches) ==> Unwound(m, batches)[key] == m[key]
    {
      UnwoundAt(m, batches, key);
    }
  }

  /** So it does when every batch puts only keys that are new in its turn. */
  lemma {:induction false} NewKeysAreNotPutBeforeDeleted(m: Contents, batches: seq<Batch>, key: Bytes)
    requires PutsNewKeys(m, batches) && key in m
    ensures !PutBeforeDeleted(key, batches)
    decreases batches
  {
    hide Applied, KeysOf;
    if batches != [] && key !in batches[0].deletes {
      AppliedAt(m, batches[0], key);
      NewKeysAreNotPutBeforeDeleted(Applied(m, batches[0]), batches[1..], key);
    }
  }

  lemma NewKeysAreRestored(m: Contents, batches: seq<Batch>)
    requires PutsNewKeys(m, batches)
    ensures Unwound(m, batches) == m
  {
    hide Unwound, PutBeforeDeleted, PutsNewKeys;
    UndoStackRestores(m, batches);
    forall key | key in m ensures !PutBeforeDeleted(key, batches) {
      NewKeysAreNotPutBeforeDeleted(m, batches, key);
    }
  }
}
