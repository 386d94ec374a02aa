/**
 The tables that hold pulled trade data, keyed as the database's unique indexes key them, and the
 two ways of loading a file into them: the batch replace (delete the slice, insert in chunks) and
 the older row-by-row upsert.
 */
module Tables {
  import opened Common

  /** A (day, account, market) slice, the unit of replacement. */
  datatype DaySlice = DaySlice(tradeDay: string, fundAccount: string, market: Market)

  /** A unique key: the slice, then the columns that are unique inside it. */
  datatype Key<+R> = Key(slice: DaySlice, row: R)

  /** What both loaders set, and the columns that neither sets (null when a row is created). */
  datatype Row<+W> = Row(written: W, extra: Option<string>)

  type Table<R(==), W> = map<Key<R>, Row<W>>

  const WRITE_CHUNK_SIZE: nat := 1000

  // ---- statements -------------------------------------------------------

  /** deleteMany: the slice is gone. */
  function DeleteSlice<R, W>(t: Table<R, W>, slice: DaySlice): Table<R, W> {
    map k | k in t && k.slice != slice :: t[k]
  }

  /** createMany: rows are inserted in order; a key that is taken fails the statement. */
  function CreateMany<R, W>(t: Table<R, W>, slice: DaySlice, data: seq<(R, W)>): Option<Table<R, W>>
    decreases data
  {
    if data == [] then Some(t)
    else if Key(slice, data[0].0) in t then None
    else CreateMany(t[Key(slice, data[0].0) := Row(data[0].1, None)], slice, data[1..])
  }

  function CreateChunks<R, W>(t: Table<R, W>, slice: DaySlice, chunks: seq<seq<(R, W)>>): Option<Table<R, W>>
    decreases chunks
  {
    if chunks == [] then Some(t)
    else
      match CreateMany(t, slice, chunks[0])
      case None => None
      case Some(u) => CreateChunks(u, slice, chunks[1..])
  }

  /** upsert: an update keeps the columns it does not set. */
  function Upsert<R, W>(t: Table<R, W>, key: Key<R>, w: W): Table<R, W> {
    t[key := Row(w, if key in t then t[key].extra else None)]
  }

  function UpsertAll<R, W>(t: Table<R, W>, slice: DaySlice, data: seq<(R, W)>): Table<R, W>
    decreases data
  {
    if data == [] then t
    else UpsertAll(Upsert(t, Key(slice, data[0].0), data[0].1), slice, data[1..])
  }

  // ---- what a file stands for ----------------------------------------

  ghost predicate DistinctKeys<R, W>(data: seq<(R, W)>) {
    forall i, j :: 0 <= i < j < |data| ==> data[i].0 != data[j].0
  }

  function KeysOf<R, W>(data: seq<(R, W)>): (keys: set<R>) {
    set i | 0 <= i < |data| :: data[i].0
  }

  /** The freshly created rows of a file. */
  function Rows<R, W>(slice: DaySlice, data: seq<(R, W)>): Table<R, W> {
    if data == [] then map[]
    else Rows(slice, data[1..])[Key(slice, data[0].0) := Row(data[0].1, None)]
  }

  /** The committed outcome of replacing a slice: nothing when two rows of the file share a key. */
  ghost function Replaced<R, W>(t: Table<R, W>, slice: DaySlice, data: seq<(R, W)>): Option<Table<R, W>> {
    if DistinctKeys(data) then Some(DeleteSlice(t, slice) + Rows(slice, data)) else None
  }

  /** The rows of one slice, by the key inside the slice. */
  function Slice<R, W>(t: Table<R, W>, slice: DaySlice): map<R, Row<W>> {
    map k | k in t && k.slice == slice :: k.row := t[k]
  }

  /** The columns that both loaders write. */
  function Written<R, W>(t: Table<R, W>): map<Key<R>, W> {
    map k | k in t :: t[k].written
  }

  // ---- chunks ---------------------------------------------------------------

  function Chunks<T>(data: seq<T>): seq<seq<T>> {
    if data == [] then []
    else if |data| <= WRITE_CHUNK_SIZE then [data]
    else [data[..WRITE_CHUNK_SIZE]] + Chunks(data[WRITE_CHUNK_SIZE..])
  }

  function Flatten<T>(chunks: seq<seq<T>>): seq<T> {
    if chunks == [] then [] else chunks[0] + Flatten(chunks[1..])
  }

  /** The chunks put together are the data; each holds 1 to 1000 rows and only the last may hold fewer than 1000. */
  lemma {:induction false} ChunksOfData<T>(data: seq<T>)
    ensures Flatten(Chunks(data)) == data
    ensures forall c :: 0 <= c < |Chunks(data)| ==> 0 < |Chunks(data)[c]| <= WRITE_CHUNK_SIZE
    ensures forall c :: 0 <= c < |Chunks(data)| - 1 ==> |Chunks(data)[c]| == WRITE_CHUNK_SIZE
    decreases |data|
  {
    if |data| > WRITE_CHUNK_SIZE {
      ChunksOfData(data[WRITE_CHUNK_SIZE..]);
      assert Chunks(data)[1..] == Chunks(data[WRITE_CHUNK_SIZE..]);
    } else if data != [] {
      assert Flatten(Chunks(data)[1..]) == [];
    }
  }

  /** The i-th chunk begins at row 1000 * i. */
  lemma {:induction false} ChunksAppend<T>(data: seq<T>, done: nat)
    requires done < |data| && done % WRITE_CHUNK_SIZE == 0
    ensures Chunks(data[..done]) + Chunks(data[done..]) == Chunks(data)
    decreases |data|
  {
    if done == 0 {
      assert data[..done] == [] && data[done..] == data;
    } else {
      var tail := data[WRITE_CHUNK_SIZE..];
      var rest := done - WRITE_CHUNK_SIZE;
      assert data[done..] == tail[rest..];
      assert data[..done][WRITE_CHUNK_SIZE..] == tail[..rest];
      assert data[..done][..WRITE_CHUNK_SIZE] == data[..WRITE_CHUNK_SIZE];
      ChunksAppend(tail, rest);
      if done == WRITE_CHUNK_SIZE {
        assert data[..done] == data[..WRITE_CHUNK_SIZE] && tail[..rest] == [];
      }
    }
  }

  // ---- the batch replace --------------------------------------------------

  lemma {:induction false} CreateManyAppend<R, W>(t: Table<R, W>, slice: DaySlice, a: seq<(R, W)>, b: seq<(R, W)>)
    ensures CreateMany(t, slice, a + b) ==
            match CreateMany(t, slice, a)
            case None => None
            case Some(u) => CreateMany(u, slice, b)
    decreases a
  {
    if a == [] {
      assert a + b == b;
    } else {
      assert (a + b)[1..] == a[1..] + b;
      if Key(slice, a[0].0) !in t {
        CreateManyAppend(t[Key(slice, a[0].0) := Row(a[0].1, None)], slice, a[1..], b);
      }
    }
  }

  /** Inserting chunk by chunk in one transaction is inserting everything at once. */
  lemma {:induction false} ChunkingIsInvisible<R, W>(t: Table<R, W>, slice: DaySlice, chunks: seq<seq<(R, W)>>)
    ensures CreateChunks(t, slice, chunks) == CreateMany(t, slice, Flatten(chunks))
    decreases chunks
  {
    if chunks != [] {
      CreateManyAppend(t, slice, chunks[0], Flatten(chunks[1..]));
      match CreateMany(t, slice, chunks[0])
      case None =>
      case Some(u) => ChunkingIsInvisible(u, slice, chunks[1..]);
    }
  }

  ghost predicate NoClash<R, W>(t: Table<R, W>, slice: DaySlice, data: seq<(R, W)>) {
    DistinctKeys(data) && forall i :: 0 <= i < |data| ==> Key(slice, data[i].0) !in t
  }

  lemma {:induction false} RowsKeys<R, W>(slice: DaySlice, data: seq<(R, W)>, key: Key<R>)
    ensures key in Rows(slice, data) <==> key.slice == slice && key.row in KeysOf(data)
  {
    if data != [] {
      RowsKeys(slice, data[1..], key);
      assert forall i :: 0 <= i < |data| - 1 ==> data[1..][i] == data[i + 1];
      if key.slice == slice && key.row in KeysOf(data) {
        var i :| 0 <= i < |data| && data[i].0 == key.row;
        assert i > 0 ==> data[1..][i - 1].0 == key.row;
      }
    }
  }

  /** Every row comes from the file. */
  lemma {:induction false} RowFromFile<R, W>(slice: DaySlice, data: seq<(R, W)>, key: Key<R>)
    requires key in Rows(slice, data)
    ensures exists i :: 0 <= i < |data| && data[i].0 == key.row && Rows(slice, data)[key] == Row(data[i].1, None)
  {
    if key == Key(slice, data[0].0) {
      assert data[0].0 == key.row;
    } else {
      RowFromFile(slice, data[1..], key);
      var rest := data[1..];
      var i :| 0 <= i < |rest| && rest[i].0 == key.row && Rows(slice, rest)[key] == Row(rest[i].1, None);
      assert data[i + 1] == rest[i];
    }
  }

  lemma NoClashTail<R, W>(t: Table<R, W>, slice: DaySlice, data: seq<(R, W)>)
    requires data != [] && Key(slice, data[0].0) !in t
    ensures NoClash(t, slice, data) <==> NoClash(t[Key(slice, data[0].0) := Row(data[0].1, None)], slice, data[1..])
  {
    var u := t[Key(slice, data[0].0) := Row(data[0].1, None)];
    if NoClash(u, slice, data[1..]) {
      forall i, j | 0 <= i < j < |data|
        ensures data[i].0 != data[j].0
      {
        assert data[1..][j - 1] == data[j];
        if i > 0 {
          assert data[1..][i - 1] == data[i];
        }
      }
      forall i | 0 <= i < |data|
        ensures Key(slice, data[i].0) !in t
      {
        if i > 0 {
          assert data[1..][i - 1] == data[i];
        }
      }
    }
  }

  /** An insertion succeeds exactly when no key clashes, and then adds exactly the file's rows. */
  lemma {:induction false} CreateManyExact<R, W>(t: Table<R, W>, slice: DaySlice, data: seq<(R, W)>)
    ensures CreateMany(t, slice, data).Some? <==> NoClash(t, slice, data)
    ensures NoClash(t, slice, data) ==> CreateMany(t, slice, data).value == t + Rows(slice, data)
    decreases data
  {
    if data == [] {
      assert t + map[] == t;
    } else if Key(slice, data[0].0) !in t {
      var key, row := Key(slice, data[0].0), Row(data[0].1, None);
      NoClashTail(t, slice, data);
      CreateManyExact(t[key := row], slice, data[1..]);
      if NoClash(t, slice, data) {
        RowsKeys(slice, data[1..], key);
        assert forall i :: 0 <= i < |data| - 1 ==> data[1..][i] == data[i + 1];
        assert key !in Rows(slice, data[1..]);
        assert t[key := row] + Rows(slice, data[1..]) == t + Rows(slice, data);
      }
    }
  }

  /** One delete and the chunked inserts commit exactly the replaced table, or nothing on a key clash. */
  lemma ReplaceExact<R, W>(t: Table<R, W>, slice: DaySlice, data: seq<(R, W)>)
    ensures CreateChunks(DeleteSlice(t, slice), slice, Chunks(data)) == Replaced(t, slice, data)
  {
    ChunksOfData(data);
    ChunkingIsInvisible(DeleteSlice(t, slice), slice, Chunks(data));
    CreateManyExact(DeleteSlice(t, slice), slice, data);
  }

  lemma RowsSlice<R, W>(slice: DaySlice, data: seq<(R, W)>)
    ensures Slice(Rows(slice, data), slice).Keys == KeysOf(data)
    ensures forall k :: k in Rows(slice, data) ==> k.slice == slice
  {
    var rows := Rows(slice, data);
    forall k: Key<R>
      ensures k in rows <==> k.slice == slice && k.row in KeysOf(data)
    {
      RowsKeys(slice, data, k);
    }
    forall r: R
      ensures r in Slice(rows, slice) <==> r in KeysOf(data)
    {
      assert r in Slice(rows, slice) <==> Key(slice, r) in rows;
    }
    assert Slice(rows, slice).Keys == KeysOf(data);
  }

  lemma SliceOfReplaced<R, W>(t: Table<R, W>, slice: DaySlice, rows: Table<R, W>)
    requires forall k :: k in rows ==> k.slice == slice
    ensures Slice(DeleteSlice(t, slice) + rows, slice) == Slice(rows, slice)
  {
    var after := DeleteSlice(t, slice) + rows;
    assert forall k: Key<R> :: k.slice == slice ==> (k in after <==> k in rows);
    assert forall r :: r in Slice(after, slice) <==> Key(slice, r) in after;
    assert forall r :: r in Slice(rows, slice) <==> Key(slice, r) in rows;
  }

  lemma OtherSliceOfReplaced<R, W>(t: Table<R, W>, slice: DaySlice, rows: Table<R, W>, other: DaySlice)
    requires other != slice && forall k :: k in rows ==> k.slice == slice
    ensures Slice(DeleteSlice(t, slice) + rows, other) == Slice(t, other)
  {
    var after := DeleteSlice(t, slice) + rows;
    assert forall k: Key<R> :: k.slice == other ==> (k in after <==> k in t);
    assert forall r :: r in Slice(after, other) <==> Key(other, r) in after;
    assert forall r :: r in Slice(t, other) <==> Key(other, r) in t;
  }

  /** The replaced slice holds the file's rows and no other; every other slice is unchanged. */
  lemma ReplacedSlices<R, W>(t: Table<R, W>, slice: DaySlice, data: seq<(R, W)>, other: DaySlice)
    requires DistinctKeys(data)
    ensures Slice(Replaced(t, slice, data).value, slice) == Slice(Rows(slice, data), slice)
    ensures Slice(Rows(slice, data), slice).Keys == KeysOf(data)
    ensures other != slice ==> Slice(Replaced(t, slice, data).value, other) == Slice(t, other)
  {
    RowsSlice(slice, data);
    SliceOfReplaced(t, slice, Rows(slice, data));
    if other != slice {
      OtherSliceOfReplaced(t, slice, Rows(slice, data), other);
    }
  }

  /** Loading one file twice is loading it once. */
  lemma ReplaceIdempotent<R, W>(t: Table<R, W>, slice: DaySlice, data: seq<(R, W)>)
    requires DistinctKeys(data)
    ensures Replaced(Replaced(t, slice, data).value, slice, data) == Replaced(t, slice, data)
  {
    var rows, after := Rows(slice, data), Replaced(t, slice, data).value;
    forall k | k in rows
      ensures k.slice == slice
    {
      RowsKeys(slice, data, k);
    }
    assert DeleteSlice(after, slice) == DeleteSlice(t, slice);
  }

  // ---- the row-by-row upsert ------------------------------------------------

  lemma {:induction false} UpsertAllAppend<R, W>(t: Table<R, W>, slice: DaySlice, a: seq<(R, W)>, d: (R, W))
    ensures UpsertAll(t, slice, a + [d]) == Upsert(UpsertAll(t, slice, a), Key(slice, d.0), d.1)
    decreases a
  {
    if a == [] {
      assert (a + [d])[1..] == [];
    } else {
      assert (a + [d])[1..] == a[1..] + [d];
      UpsertAllAppend(Upsert(t, Key(slice, a[0].0), a[0].1), slice, a[1..], d);
    }
  }

  /** The rows a file leaves behind when rows with one key overwrite each other, the last one staying. */
  function LastRows<R, W>(slice: DaySlice, data: seq<(R, W)>): Table<R, W> {
    if data == [] then map[]
    else
      var d := data[|data| - 1];
      LastRows(slice, data[..|data| - 1])[Key(slice, d.0) := Row(d.1, None)]
  }

  /** The i-th row is the last one with its key. */
  ghost predicate IsLast<R, W>(data: seq<(R, W)>, i: nat)
    requires i < |data|
  {
    forall j :: i < j < |data| ==> data[j].0 != data[i].0
  }

  lemma KeysOfSnoc<R, W>(data: seq<(R, W)>, r: R)
    requires data != []
    ensures r in KeysOf(data) <==> r in KeysOf(data[..|data| - 1]) || r == data[|data| - 1].0
  {
    var before := data[..|data| - 1];
    if r in KeysOf(data) {
      var i :| 0 <= i < |data| && data[i].0 == r;
      assert i < |before| ==> before[i].0 == r;
    }
    if r in KeysOf(before) {
      var i :| 0 <= i < |before| && before[i].0 == r;
      assert data[i].0 == r;
    }
    if r == data[|data| - 1].0 {
      assert data[|data| - 1].0 == r;
    }
  }

  /** The rows that stay have the file's keys. */
  lemma {:induction false} LastRowsKeys<R, W>(slice: DaySlice, data: seq<(R, W)>, k: Key<R>)
    ensures k in LastRows(slice, data) <==> k.slice == slice && k.row in KeysOf(data)
    decreases data
  {
    hide KeysOf;
    if data == [] {
      NoKeys<R, W>(k.row);
    } else {
      LastRowsKeys(slice, data[..|data| - 1], k);
      KeysOfSnoc(data, k.row);
    }
  }

  lemma NoKeys<R, W>(r: R)
    ensures r !in KeysOf<R, W>([])
  {
  }

  /** Each key holds its last row. */
  lemma {:induction false} LastRowsExact<R, W>(slice: DaySlice, data: seq<(R, W)>, i: nat)
    requires i < |data| && IsLast(data, i)
    ensures Key(slice, data[i].0) in LastRows(slice, data)
    ensures LastRows(slice, data)[Key(slice, data[i].0)] == Row(data[i].1, None)
    decreases data
  {
    if i < |data| - 1 {
      var before := data[..|data| - 1];
      assert data[|data| - 1].0 != data[i].0 && before[i] == data[i];
      assert IsLast(before, i);
      LastRowsExact(slice, before, i);
    }
  }

  lemma {:induction false} RowsSnoc<R, W>(slice: DaySlice, data: seq<(R, W)>, d: (R, W))
    requires forall i :: 0 <= i < |data| ==> data[i].0 != d.0
    ensures Rows(slice, data + [d]) == Rows(slice, data)[Key(slice, d.0) := Row(d.1, None)]
    decreases data
  {
    if data == [] {
      assert (data + [d])[1..] == [];
    } else {
      assert (data + [d])[1..] == data[1..] + [d];
      RowsSnoc(slice, data[1..], d);
    }
  }

  /** Without repeated keys the rows that stay are the file's rows. */
  lemma {:induction false} LastRowsOfDistinct<R, W>(slice: DaySlice, data: seq<(R, W)>)
    requires DistinctKeys(data)
    ensures LastRows(slice, data) == Rows(slice, data)
    decreases data
  {
    if data != [] {
      var before, d := data[..|data| - 1], data[|data| - 1];
      LastRowsOfDistinct(slice, before);
      RowsSnoc(slice, before, d);
      assert data == before + [d];
    }
  }

  /** The upsert loop overwrites what both loaders write with the file's rows, the last row of each key staying. */
  lemma {:induction false} UpsertAllExact<R, W>(t: Table<R, W>, slice: DaySlice, data: seq<(R, W)>)
    ensures Written(UpsertAll(t, slice, data)) == Written(t) + Written(LastRows(slice, data))
    decreases data
  {
    if data == [] {
      assert Written(t) + map[] == Written(t);
    } else {
      var before, d := data[..|data| - 1], data[|data| - 1];
      assert data == before + [d];
      UpsertAllAppend(t, slice, before, d);
      UpsertAllExact(t, slice, before);
      WrittenUpsert(UpsertAll(t, slice, before), Key(slice, d.0), d.1);
      assert Written(LastRows(slice, data)) == Written(LastRows(slice, before))[Key(slice, d.0) := d.1];
    }
  }

  lemma Overwritten<R, W>(w: map<Key<R>, W>, a: map<Key<R>, W>, b: map<Key<R>, W>)
    requires forall k: Key<R> :: k in a ==> k in b
    ensures w + a + b == w + b
  {
    assert forall k: Key<R> :: k in w + a + b <==> k in w + b;
  }

  /** An upsert loop that stopped part way is repaired by running it again from the first row. */
  lemma RerunRepairs<R, W>(t: Table<R, W>, slice: DaySlice, a: seq<(R, W)>, b: seq<(R, W)>)
    ensures Written(UpsertAll(UpsertAll(t, slice, a), slice, a + b)) == Written(UpsertAll(t, slice, a + b))
  {
    UpsertAllExact(t, slice, a);
    UpsertAllExact(t, slice, a + b);
    UpsertAllExact(UpsertAll(t, slice, a), slice, a + b);
    var before, whole := Written(LastRows(slice, a)), Written(LastRows(slice, a + b));
    forall k: Key<R> | k in before
      ensures k in whole
    {
      LastRowsKeys(slice, a, k);
      LastRowsKeys(slice, a + b, k);
      var i :| 0 <= i < |a| && a[i].0 == k.row;
      assert (a + b)[i].0 == k.row;
    }
    Overwritten(Written(t), before, whole);
  }

  lemma WrittenUpsert<R, W>(t: Table<R, W>, key: Key<R>, w: W)
    ensures Written(Upsert(t, key, w)) == Written(t)[key := w]
  {
  }

  /** A row of the slice that the file no longer lists. */
  predicate Stale<R(==), W>(key: Key<R>, slice: DaySlice, data: seq<(R, W)>) {
    key.slice == slice && key.row !in KeysOf(data)
  }

  function WithoutStale<R(==), W>(w: map<Key<R>, W>, slice: DaySlice, data: seq<(R, W)>): map<Key<R>, W> {
    map k | k in w && !Stale(k, slice, data) :: w[k]
  }

  /** Replace equals upsert with the stale rows of the slice removed; so the two agree exactly when there were none. */
  lemma ReplaceRefinesUpsert<R, W>(t: Table<R, W>, slice: DaySlice, data: seq<(R, W)>)
    requires DistinctKeys(data)
    ensures Written(Replaced(t, slice, data).value) == WithoutStale(Written(UpsertAll(t, slice, data)), slice, data)
    ensures Written(Replaced(t, slice, data).value) == Written(UpsertAll(t, slice, data))
            <==> forall k :: k in t ==> !Stale(k, slice, data)
  {
    UpsertAllExact(t, slice, data);
    LastRowsOfDistinct(slice, data);
    var rows := Rows(slice, data);
    var replaced, legacy := Written(Replaced(t, slice, data).value), Written(UpsertAll(t, slice, data));
    forall k: Key<R>
      ensures k in rows <==> k.slice == slice && k.row in KeysOf(data)
    {
      RowsKeys(slice, data, k);
    }
    WithoutStaleRows(t, rows, slice, data);
    if k :| k in t && Stale(k, slice, data) {
      assert k in legacy && k !in replaced;
    } else {
      assert WithoutStale(legacy, slice, data) == legacy;
    }
  }

  lemma WithoutStaleRows<R, W>(t: Table<R, W>, rows: Table<R, W>, slice: DaySlice, data: seq<(R, W)>)
    requires forall k :: k in rows <==> k.slice == slice && k.row in KeysOf(data)
    ensures Written(DeleteSlice(t, slice) + rows) == WithoutStale(Written(t) + Written(rows), slice, data)
  {
    hide KeysOf;
    var replaced, kept := Written(DeleteSlice(t, slice) + rows), WithoutStale(Written(t) + Written(rows), slice, data);
    assert forall k: Key<R> :: k in replaced <==> k in kept;
  }

  /**
   When rows of the file share a key the loaders part: the replace commits nothing, while the upsert keeps
   the last row of every key and touches no row that the file does not list.
   */
  lemma SharedKey<R, W>(t: Table<R, W>, slice: DaySlice, data: seq<(R, W)>, i: nat, other: Key<R>)
    requires i < |data| && IsLast(data, i) && (other.slice != slice || other.row !in KeysOf(data))
    ensures Replaced(t, slice, data) == None <==> !DistinctKeys(data)
    ensures var w := Written(UpsertAll(t, slice, data));
            && Key(slice, data[i].0) in w && w[Key(slice, data[i].0)] == data[i].1
            && (other in w <==> other in t) && (other in t ==> w[other] == t[other].written)
  {
    UpsertAllExact(t, slice, data);
    LastRowsExact(slice, data, i);
    LastRowsKeys(slice, data, other);
  }

  lemma {:induction false} LastIndex<R, W>(data: seq<(R, W)>, r: R) returns (i: nat)
    requires r in KeysOf(data)
    ensures i < |data| && data[i].0 == r && IsLast(data, i)
    decreases data
  {
    i := |data| - 1;
    if data[i].0 != r {
      var before := data[..i];
      KeysOfSnoc(data, r);
      i := LastIndex(before, r);
      assert before[i] == data[i];
      assert forall j :: i < j < |before| ==> before[j].0 != before[i].0 && before[j] == data[j];
    }
  }

  lemma NothingNew<R, W>(w: map<Key<R>, W>, more: map<Key<R>, W>)
    requires forall k: Key<R> :: k in more ==> k in w && w[k] == more[k]
    ensures w + more == w
  {
    assert forall k: Key<R> :: k in w + more <==> k in w;
  }

  /**
   On a file with a repeated key the replace commits nothing, so the two loaders agree exactly when the upsert
   changes nothing either: when the table already holds the last row of every key.
   */
  lemma LoadersAgreeOnRepeated<R, W>(t: Table<R, W>, slice: DaySlice, data: seq<(R, W)>)
    requires !DistinctKeys(data)
    ensures CreateChunks(DeleteSlice(t, slice), slice, Chunks(data)) == None
    ensures Written(UpsertAll(t, slice, data)) == Written(t) <==>
            forall i :: 0 <= i < |data| && IsLast(data, i) ==>
              Key(slice, data[i].0) in t && t[Key(slice, data[i].0)].written == data[i].1
  {
    ReplaceExact(t, slice, data);
    UpsertAllExact(t, slice, data);
    var last := Written(LastRows(slice, data));
    if Written(UpsertAll(t, slice, data)) == Written(t) {
      forall i | 0 <= i < |data| && IsLast(data, i)
        ensures Key(slice, data[i].0) in t && t[Key(slice, data[i].0)].written == data[i].1
      {
        LastRowsExact(slice, data, i);
        assert Key(slice, data[i].0) in Written(t) + last;
        assert (Written(t) + last)[Key(slice, data[i].0)] == data[i].1;
      }
    }
    if forall i :: 0 <= i < |data| && IsLast(data, i) ==>
         Key(slice, data[i].0) in t && t[Key(slice, data[i].0)].written == data[i].1 {
      forall k: Key<R> | k in last
        ensures k in Written(t) && Written(t)[k] == last[k]
      {
        LastRowsKeys(slice, data, k);
        var i := LastIndex(data, k.row);
        LastRowsExact(slice, data, i);
        assert k == Key(slice, data[i].0);
      }
      NothingNew(Written(t), last);
    }
  }

  // ---- columns computed from a file's rows --------------------------------------

  /** The same keys with every row changed in one way. */
  function Mapped<R, W>(data: seq<(R, W)>, f: W -> W): seq<(R, W)> {
    seq(|data|, i requires 0 <= i < |data| => (data[i].0, f(data[i].1)))
  }

  function MappedSlice<R, W>(rows: map<R, Row<W>>, f: W -> W): map<R, Row<W>> {
    map r | r in rows :: rows[r].(written := f(rows[r].written))
  }

  lemma {:induction false} RowsOfMapped<R, W>(slice: DaySlice, data: seq<(R, W)>, f: W -> W, k: Key<R>)
    ensures k in Rows(slice, Mapped(data, f)) <==> k in Rows(slice, data)
    ensures k in Rows(slice, data) ==>
              Rows(slice, Mapped(data, f))[k] == Rows(slice, data)[k].(written := f(Rows(slice, data)[k].written))
    decreases data
  {
    if data != [] {
      assert Mapped(data, f)[1..] == Mapped(data[1..], f);
      RowsOfMapped(slice, data[1..], f, k);
    }
  }

  /** Changing every row of a file in one way changes every row of its slice in that way. */
  lemma SliceOfMapped<R, W>(slice: DaySlice, data: seq<(R, W)>, f: W -> W)
    ensures DistinctKeys(Mapped(data, f)) <==> DistinctKeys(data)
    ensures Slice(Rows(slice, Mapped(data, f)), slice) == MappedSlice(Slice(Rows(slice, data), slice), f)
  {
    var x, y := Slice(Rows(slice, Mapped(data, f)), slice), MappedSlice(Slice(Rows(slice, data), slice), f);
    assert forall i :: 0 <= i < |data| ==> Mapped(data, f)[i].0 == data[i].0;
    forall r: R
      ensures r in x <==> r in y
      ensures r in x ==> x[r] == y[r]
    {
      RowsOfMapped(slice, data, f, Key(slice, r));
      assert r in x <==> Key(slice, r) in Rows(slice, Mapped(data, f));
      assert r in Slice(Rows(slice, data), slice) <==> Key(slice, r) in Rows(slice, data);
    }
  }

  // ---- what loading leaves, record by record of the file --------------------------

  /** The rows of the records that count, in their order. */
  function Counted<Raw, R, W>(raw: seq<Raw>, counts: Raw -> bool, row: Raw -> (R, W)): seq<(R, W)> {
    if raw == [] then []
    else
      var last := raw[|raw| - 1];
      Counted(raw[..|raw| - 1], counts, row) + if counts(last) then [row(last)] else []
  }

  /** The file lists a key: a record that counts has it. */
  ghost predicate Lists<Raw, R, W>(raw: seq<Raw>, counts: Raw -> bool, row: Raw -> (R, W), r: R) {
    exists i :: 0 <= i < |raw| && counts(raw[i]) && row(raw[i]).0 == r
  }

  /** The record counts and no later one that counts has its key. */
  ghost predicate Final<Raw, R, W>(raw: seq<Raw>, counts: Raw -> bool, row: Raw -> (R, W), i: nat)
    requires i < |raw|
  {
    counts(raw[i]) && forall j :: i < j < |raw| && counts(raw[j]) ==> row(raw[j]).0 != row(raw[i]).0
  }

  /** No two records that count have one key. */
  ghost predicate DistinctRecords<Raw, R, W>(raw: seq<Raw>, counts: Raw -> bool, row: Raw -> (R, W)) {
    forall i, j :: 0 <= i < j < |raw| && counts(raw[i]) && counts(raw[j]) ==> row(raw[i]).0 != row(raw[j]).0
  }

  /** The slice holds a new row for each record that counts and no other; the other slices are as they were. */
  ghost predicate Stored<Raw, R, W>(t: Table<R, W>, u: Table<R, W>, slice: DaySlice, raw: seq<Raw>,
                                    counts: Raw -> bool, row: Raw -> (R, W))
  {
    && (forall k :: k in u ==> if k.slice == slice then Lists(raw, counts, row, k.row) else k in t)
    && (forall k :: k in t && k.slice != slice ==> k in u && u[k] == t[k])
    && (forall i :: 0 <= i < |raw| && counts(raw[i]) ==>
          var k := Key(slice, row(raw[i]).0); k in u && u[k] == Row(row(raw[i]).1, None))
  }

  /** The last record of each key is in the table, over the row there was, and all other rows are as they were. */
  ghost predicate Upserted<Raw, R, W>(t: Table<R, W>, u: Table<R, W>, slice: DaySlice, raw: seq<Raw>,
                                      counts: Raw -> bool, row: Raw -> (R, W))
  {
    && (forall k :: k in u ==> k in t || (k.slice == slice && Lists(raw, counts, row, k.row)))
    && (forall k :: k in t ==> k in u && ((k.slice == slice && Lists(raw, counts, row, k.row)) || u[k] == t[k]))
    && (forall i :: 0 <= i < |raw| && Final(raw, counts, row, i) ==>
          var k := Key(slice, row(raw[i]).0);
          k in u && u[k] == Row(row(raw[i]).1, if k in t then t[k].extra else None))
  }

  lemma ListsMore<Raw, R, W>(raw: seq<Raw>, counts: Raw -> bool, row: Raw -> (R, W), r: R)
    requires raw != []
    ensures Lists(raw, counts, row, r) <==>
            || Lists(raw[..|raw| - 1], counts, row, r)
            || (counts(raw[|raw| - 1]) && row(raw[|raw| - 1]).0 == r)
  {
    var before := raw[..|raw| - 1];
    if Lists(raw, counts, row, r) {
      var i :| 0 <= i < |raw| && counts(raw[i]) && row(raw[i]).0 == r;
      assert i < |before| ==> before[i] == raw[i];
    }
    if Lists(before, counts, row, r) {
      var i :| 0 <= i < |before| && counts(before[i]) && row(before[i]).0 == r;
      assert raw[i] == before[i];
    }
  }

  lemma {:induction false} CountedKeys<Raw, R, W>(raw: seq<Raw>, counts: Raw -> bool, row: Raw -> (R, W), r: R)
    ensures r in KeysOf(Counted(raw, counts, row)) <==> Lists(raw, counts, row, r)
    decreases raw
  {
    hide KeysOf, Lists;
    if raw == [] {
      NoRecords(counts, row, r);
    } else {
      var data := Counted(raw, counts, row);
      CountedKeys(raw[..|raw| - 1], counts, row, r);
      ListsMore(raw, counts, row, r);
      if counts(raw[|raw| - 1]) {
        assert data[..|data| - 1] == Counted(raw[..|raw| - 1], counts, row);
        KeysOfSnoc(data, r);
      } else {
        assert data == Counted(raw[..|raw| - 1], counts, row);
      }
    }
  }

  lemma NoRecords<Raw, R, W>(counts: Raw -> bool, row: Raw -> (R, W), r: R)
    ensures r !in KeysOf(Counted([], counts, row)) && !Lists([], counts, row, r)
  {
  }

  /** The rows of a file have distinct keys exactly when its records have. */
  lemma {:induction false} CountedDistinct<Raw, R, W>(raw: seq<Raw>, counts: Raw -> bool, row: Raw -> (R, W))
    ensures DistinctKeys(Counted(raw, counts, row)) <==> DistinctRecords(raw, counts, row)
    decreases raw
  {
    if raw != [] {
      var before, last := raw[..|raw| - 1], raw[|raw| - 1];
      var data, rows := Counted(before, counts, row), Counted(raw, counts, row);
      CountedDistinct(before, counts, row);
      CountedKeys(before, counts, row, row(last).0);
      DistinctMore(raw, counts, row);
      assert rows == data + if counts(last) then [row(last)] else [];
      DistinctKeysMore(data, row(last));
      assert !counts(last) ==> rows == data;
    }
  }

  lemma DistinctKeysMore<R, W>(data: seq<(R, W)>, d: (R, W))
    ensures DistinctKeys(data + [d]) <==> DistinctKeys(data) && d.0 !in KeysOf(data)
  {
    var more := data + [d];
    assert forall i :: 0 <= i < |data| ==> more[i] == data[i];
    if DistinctKeys(more) {
      assert forall i :: 0 <= i < |data| ==> more[i].0 != more[|data|].0;
    }
  }

  lemma DistinctMore<Raw, R, W>(raw: seq<Raw>, counts: Raw -> bool, row: Raw -> (R, W))
    requires raw != []
    ensures var last := raw[|raw| - 1];
            DistinctRecords(raw, counts, row) <==>
            && DistinctRecords(raw[..|raw| - 1], counts, row)
            && (counts(last) ==> !Lists(raw[..|raw| - 1], counts, row, row(last).0))
  {
    var before := raw[..|raw| - 1];
    assert forall i :: 0 <= i < |before| ==> before[i] == raw[i];
    if DistinctRecords(raw, counts, row) {
      assert forall i, j :: 0 <= i < j < |before| && counts(before[i]) && counts(before[j]) ==>
          row(raw[i]).0 != row(raw[j]).0;
    }
  }

  lemma FinalBefore<Raw, R, W>(raw: seq<Raw>, counts: Raw -> bool, row: Raw -> (R, W), i: nat)
    requires i < |raw| - 1 && Final(raw, counts, row, i)
    ensures Final(raw[..|raw| - 1], counts, row, i)
    ensures counts(raw[|raw| - 1]) ==> row(raw[|raw| - 1]).0 != row(raw[i]).0
  {
    var before := raw[..|raw| - 1];
    assert forall j :: 0 <= j < |before| ==> before[j] == raw[j];
  }

  /** One more record. */
  lemma UpsertedMore<Raw, R, W>(t: Table<R, W>, u: Table<R, W>, slice: DaySlice, raw: seq<Raw>, counts: Raw -> bool,
                                row: Raw -> (R, W))
    requires raw != [] && Upserted(t, u, slice, raw[..|raw| - 1], counts, row)
    ensures var last := raw[|raw| - 1];
            var v := if counts(last) then Upsert(u, Key(slice, row(last).0), row(last).1) else u;
            Upserted(t, v, slice, raw, counts, row)
  {
    hide Lists, Final;
    var before, last := raw[..|raw| - 1], raw[|raw| - 1];
    var key := Key(slice, row(last).0);
    var v := if counts(last) then Upsert(u, key, row(last).1) else u;
    forall k | k in v
      ensures k in t || (k.slice == slice && Lists(raw, counts, row, k.row))
    {
      ListsMore(raw, counts, row, k.row);
    }
    forall k | k in t
      ensures k in v && ((k.slice == slice && Lists(raw, counts, row, k.row)) || v[k] == t[k])
    {
      ListsMore(raw, counts, row, k.row);
    }
    forall i | 0 <= i < |raw| && Final(raw, counts, row, i)
      ensures var k := Key(slice, row(raw[i]).0);
              k in v && v[k] == Row(row(raw[i]).1, if k in t then t[k].extra else None)
    {
      if i < |before| {
        FinalBefore(raw, counts, row, i);
        assert raw[i] == before[i];
      } else {
        FinalCounts(raw, counts, row, i);
        ExtraKept(t, u, slice, before, counts, row, key);
      }
    }
  }

  lemma FinalCounts<Raw, R, W>(raw: seq<Raw>, counts: Raw -> bool, row: Raw -> (R, W), i: nat)
    requires i < |raw| && Final(raw, counts, row, i)
    ensures counts(raw[i])
  {
  }

  lemma {:induction false} LastOf<Raw, R, W>(raw: seq<Raw>, counts: Raw -> bool, row: Raw -> (R, W), r: R)
    returns (i: nat)
    requires Lists(raw, counts, row, r)
    ensures i < |raw| && Final(raw, counts, row, i) && row(raw[i]).0 == r
    decreases raw
  {
    var before, last := raw[..|raw| - 1], raw[|raw| - 1];
    ListsMore(raw, counts, row, r);
    i := |before|;
    if !(counts(last) && row(last).0 == r) {
      i := LastOf(before, counts, row, r);
      assert forall j :: 0 <= j < |before| ==> before[j] == raw[j];
    }
  }

  /** The columns that loading does not set are kept. */
  lemma ExtraKept<Raw, R, W>(t: Table<R, W>, u: Table<R, W>, slice: DaySlice, raw: seq<Raw>, counts: Raw -> bool,
                             row: Raw -> (R, W), k: Key<R>)
    requires Upserted(t, u, slice, raw, counts, row)
    ensures (if k in u then u[k].extra else None) == if k in t then t[k].extra else None
  {
    hide Final;
    if k in u && k.slice == slice && Lists(raw, counts, row, k.row) {
      var i := LastOf(raw, counts, row, k.row);
      assert k == Key(slice, row(raw[i]).0);
    }
  }

  /** The upsert loop over a file's rows leaves the last record of each key. */
  lemma {:induction false} UpsertAllLoads<Raw, R, W>(t: Table<R, W>, slice: DaySlice, raw: seq<Raw>,
                                                     counts: Raw -> bool, row: Raw -> (R, W))
    ensures Upserted(t, UpsertAll(t, slice, Counted(raw, counts, row)), slice, raw, counts, row)
    decreases raw
  {
    hide Upserted;
    if raw == [] {
      NothingUpserted(t, slice, counts, row);
    } else {
      var before, last := raw[..|raw| - 1], raw[|raw| - 1];
      UpsertAllLoads(t, slice, before, counts, row);
      UpsertedMore(t, UpsertAll(t, slice, Counted(before, counts, row)), slice, raw, counts, row);
      if counts(last) {
        UpsertAllAppend(t, slice, Counted(before, counts, row), row(last));
      } else {
        assert Counted(raw, counts, row) == Counted(before, counts, row);
      }
    }
  }

  lemma NothingUpserted<Raw, R, W>(t: Table<R, W>, slice: DaySlice, counts: Raw -> bool, row: Raw -> (R, W))
    ensures Upserted(t, UpsertAll(t, slice, Counted([], counts, row)), slice, [], counts, row)
  {
  }

  lemma {:induction false} CountedRow<Raw, R, W>(slice: DaySlice, raw: seq<Raw>, counts: Raw -> bool,
                                                 row: Raw -> (R, W), i: nat)
    requires i < |raw| && Final(raw, counts, row, i)
    ensures var k := Key(slice, row(raw[i]).0);
            var rows := LastRows(slice, Counted(raw, counts, row));
            k in rows && rows[k] == Row(row(raw[i]).1, None)
    decreases raw
  {
    var before, last := raw[..|raw| - 1], raw[|raw| - 1];
    var data := Counted(raw, counts, row);
    if counts(last) {
      assert data[..|data| - 1] == Counted(before, counts, row);
    } else {
      assert data == Counted(before, counts, row);
    }
    if i < |before| {
      FinalBefore(raw, counts, row, i);
      assert raw[i] == before[i];
      CountedRow(slice, before, counts, row, i);
    }
  }

  /** The batch replace stores each record that counts, and nothing else, unless two have one key. */
  lemma ReplacedStores<Raw, R, W>(t: Table<R, W>, slice: DaySlice, raw: seq<Raw>, counts: Raw -> bool,
                                  row: Raw -> (R, W))
    ensures Replaced(t, slice, Counted(raw, counts, row)).Some? <==> DistinctRecords(raw, counts, row)
    ensures DistinctRecords(raw, counts, row) ==>
              Stored(t, Replaced(t, slice, Counted(raw, counts, row)).value, slice, raw, counts, row)
  {
    hide Lists, KeysOf;
    var data := Counted(raw, counts, row);
    CountedDistinct(raw, counts, row);
    if DistinctRecords(raw, counts, row) {
      LastRowsOfDistinct(slice, data);
      var u := Replaced(t, slice, data).value;
      forall k | k in u
        ensures if k.slice == slice then Lists(raw, counts, row, k.row) else k in t
      {
        RowsKeys(slice, data, k);
        CountedKeys(raw, counts, row, k.row);
      }
      forall k | k in t && k.slice != slice
        ensures k in u && u[k] == t[k]
      {
        RowsKeys(slice, data, k);
      }
      forall i | 0 <= i < |raw| && counts(raw[i])
        ensures var k := Key(slice, row(raw[i]).0); k in u && u[k] == Row(row(raw[i]).1, None)
      {
        CountedRow(slice, raw, counts, row, i);
      }
    }
  }
}
