/** Streaming ingestion of orders (services/coordinator/src/ingest.ts): rows are read one by
    one, buffered, and written in batches by INSERT IGNORE against UNIQUE(order_id). */
module Ingest {
  import opened Vocabulary

  /** A parsed row of the file; the empty string is an absent fault. */
  datatype CsvRow = CsvRow(orderId: string, sku: string, qty: int, amount: string, failAt: string, compFailAt: string)

  /** A row of saga_orders as ingestion writes it. */
  datatype OrderRow = OrderRow(
    orderId: string, sku: string, qty: int, amount: string,
    failAt: Option<string>, compFailAt: Option<string>, sourceBatch: string)

  function OrNull(text: string): Option<string> {
    if text == "" then None else Some(text)
  }

  function ToRow(row: CsvRow, batchId: string): OrderRow {
    OrderRow(row.orderId, row.sku, row.qty, row.amount, OrNull(row.failAt), OrNull(row.compFailAt), batchId)
  }

  function ToRows(rows: seq<CsvRow>, batchId: string): seq<OrderRow> {
    seq(|rows|, i requires 0 <= i < |rows| => ToRow(rows[i], batchId))
  }

  /** The stored row says, column by column, what the line says; a fault column is NULL exactly
      when its text is empty. */
  predicate Records(row: OrderRow, line: CsvRow, batchId: string) {
    && row.orderId == line.orderId && row.sku == line.sku && row.qty == line.qty && row.amount == line.amount
    && (row.failAt.None? <==> line.failAt == "") && (row.failAt.Some? ==> row.failAt.value == line.failAt)
    && (row.compFailAt.None? <==> line.compFailAt == "")
    && (row.compFailAt.Some? ==> row.compFailAt.value == line.compFailAt)
    && row.sourceBatch == batchId
  }

  // ---- INSERT IGNORE ----------------------------------------------------------

  /** Two order ids are the same to the UNIQUE key when the column's collation, which
      ignores case, gives them the same sort key. */
  type Collation = string -> string

  predicate HasKey(t: seq<OrderRow>, id: string, key: Collation) {
    exists j :: 0 <= j < |t| && key(t[j].orderId) == key(id)
  }

  /** One statement: each row in turn, unless its key is there already. */
  function Merge(t: seq<OrderRow>, batch: seq<OrderRow>, key: Collation): (u: seq<OrderRow>)
    ensures t <= u
    ensures |u| - |t| <= |batch|
  {
    if batch == [] then t
    else
      var u := Merge(t, batch[..|batch| - 1], key);
      var row := batch[|batch| - 1];
      if HasKey(u, row.orderId, key) then u else u + [row]
  }

  ghost predicate Unique(t: seq<OrderRow>, key: Collation) {
    forall j, k :: 0 <= j < k < |t| ==> key(t[j].orderId) != key(t[k].orderId)
  }

  /** The rows of a batch whose key is new to the table and to the rows before them. */
  function FirstOccurrences(t: seq<OrderRow>, batch: seq<OrderRow>, key: Collation): seq<OrderRow> {
    if batch == [] then []
    else
      var n := |batch| - 1;
      FirstOccurrences(t, batch[..n], key)
      + if HasKey(t, batch[n].orderId, key) || HasKey(batch[..n], batch[n].orderId, key) then [] else [batch[n]]
  }

  lemma {:induction false} MergeKeys(t: seq<OrderRow>, batch: seq<OrderRow>, key: Collation, id: string)
    ensures HasKey(Merge(t, batch, key), id, key) <==> HasKey(t, id, key) || HasKey(batch, id, key)
  {
    if batch != [] {
      var n := |batch| - 1;
      var u := Merge(t, batch[..n], key);
      MergeKeys(t, batch[..n], key, id);
      AppendKey(batch[..n], batch[n], key, id);
      assert batch == batch[..n] + [batch[n]];
      AppendKey(u, batch[n], key, id);
      if HasKey(u, batch[n].orderId, key) && key(id) == key(batch[n].orderId) {
        var j :| 0 <= j < |u| && key(u[j].orderId) == key(batch[n].orderId);
      }
    }
  }

  lemma AppendKey(t: seq<OrderRow>, row: OrderRow, key: Collation, id: string)
    ensures HasKey(t + [row], id, key) <==> HasKey(t, id, key) || key(row.orderId) == key(id)
  {
    var u := t + [row];
    if HasKey(t, id, key) {
      var j :| 0 <= j < |t| && key(t[j].orderId) == key(id);
      assert u[j] == t[j];
    }
    if key(row.orderId) == key(id) {
      assert u[|t|] == row;
    }
  }

  /** The first occurrence of every new key wins, in file order, after what was there. */
  lemma {:induction false} FirstOccurrenceWins(t: seq<OrderRow>, batch: seq<OrderRow>, key: Collation)
    ensures Merge(t, batch, key) == t + FirstOccurrences(t, batch, key)
  {
    if batch != [] {
      var n := |batch| - 1;
      FirstOccurrenceWins(t, batch[..n], key);
      MergeKeys(t, batch[..n], key, batch[n].orderId);
    }
  }

  /** No line before i has the key of line i, and no row of the table has it. */
  predicate FirstNew(t: seq<OrderRow>, file: seq<CsvRow>, i: nat, key: Collation)
    requires i < |file|
  {
    && (forall j :: 0 <= j < |t| ==> key(t[j].orderId) != key(file[i].orderId))
    && (forall h :: 0 <= h < i ==> key(file[h].orderId) != key(file[i].orderId))
  }

  /** Row j of the loaded table is the record of the line that was first with its key. */
  ghost predicate FromFirstLine(t: seq<OrderRow>, u: seq<OrderRow>, j: nat, file: seq<CsvRow>, batchId: string,
      key: Collation)
    requires j < |u|
  {
    exists i :: 0 <= i < |file| && FirstNew(t, file, i, key) && Records(u[j], file[i], batchId)
  }

  /** Every line's key is in the table. */
  ghost predicate AllLoaded(u: seq<OrderRow>, file: seq<CsvRow>, key: Collation) {
    forall i :: 0 <= i < |file| ==> exists j :: 0 <= j < |u| && key(u[j].orderId) == key(file[i].orderId)
  }

  lemma ExtendFile(t: seq<OrderRow>, u: seq<OrderRow>, v: seq<OrderRow>, j: nat, file: seq<CsvRow>, batchId: string,
      key: Collation)
    requires |file| > 0 && j < |u| <= |v| && v[j] == u[j]
    requires FromFirstLine(t, u, j, file[..|file| - 1], batchId, key)
    ensures FromFirstLine(t, v, j, file, batchId, key)
  {
    var front := file[..|file| - 1];
    var i :| 0 <= i < |front| && FirstNew(t, front, i, key) && Records(u[j], front[i], batchId);
    assert FirstNew(t, file, i, key) && Records(v[j], file[i], batchId);
  }

  lemma LastIsFirst(t: seq<OrderRow>, before: seq<OrderRow>, file: seq<CsvRow>, key: Collation)
    requires |file| > 0 && t <= before && !HasKey(before, file[|file| - 1].orderId, key)
    requires AllLoaded(before, file[..|file| - 1], key)
    ensures FirstNew(t, file, |file| - 1, key)
  {
    var n := |file| - 1;
    forall h | 0 <= h < n ensures key(file[h].orderId) != key(file[n].orderId) {
      assert file[..n][h] == file[h];
    }
  }

  lemma {:induction false} MergeLoads(t: seq<OrderRow>, file: seq<CsvRow>, batchId: string, key: Collation)
    ensures AllLoaded(Merge(t, ToRows(file, batchId), key), file, key)
  {
    if file != [] {
      var n := |file| - 1;
      var front, rows := file[..n], ToRows(file, batchId);
      assert rows[..n] == ToRows(front, batchId);
      MergeLoads(t, front, batchId, key);
      var before, u := Merge(t, rows[..n], key), Merge(t, rows, key);
      forall i | 0 <= i < |file| ensures exists j :: 0 <= j < |u| && key(u[j].orderId) == key(file[i].orderId) {
        if i < n {
          assert front[i] == file[i];
          var j :| 0 <= j < |before| && key(before[j].orderId) == key(front[i].orderId);
          assert u[j] == before[j];
        } else if |u| > |before| {
          assert u[|before|] == rows[n];
        }
      }
    }
  }

  /** Merging a file adds, for every key the table did not have, the record of the first line
      with that key, column by column, and nothing else. */
  lemma {:induction false} MergeRecords(t: seq<OrderRow>, file: seq<CsvRow>, batchId: string, key: Collation)
    ensures var u := Merge(t, ToRows(file, batchId), key);
      AllLoaded(u, file, key) && forall j :: |t| <= j < |u| ==> FromFirstLine(t, u, j, file, batchId, key)
  {
    MergeLoads(t, file, batchId, key);
    if file != [] {
      var n := |file| - 1;
      var rows := ToRows(file, batchId);
      assert rows[..n] == ToRows(file[..n], batchId);
      MergeRecords(t, file[..n], batchId, key);
      var before, u := Merge(t, rows[..n], key), Merge(t, rows, key);
      forall j | |t| <= j < |u| ensures FromFirstLine(t, u, j, file, batchId, key) {
        if j < |before| {
          ExtendFile(t, before, u, j, file, batchId, key);
        } else {
          LastIsFirst(t, before, file, key);
          assert Records(u[j], file[n], batchId);
        }
      }
    }
  }

  lemma {:induction false} MergeUnique(t: seq<OrderRow>, batch: seq<OrderRow>, key: Collation)
    requires Unique(t, key)
    ensures Unique(Merge(t, batch, key), key)
  {
    if batch != [] {
      MergeUnique(t, batch[..|batch| - 1], key);
    }
  }

  /** Two batches in a row do what one batch of both would. */
  lemma {:induction false} MergeAppend(t: seq<OrderRow>, a: seq<OrderRow>, b: seq<OrderRow>, key: Collation)
    ensures Merge(Merge(t, a, key), b, key) == Merge(t, a + b, key)
  {
    if b == [] {
      assert a + b == a;
    } else {
      MergeAppend(t, a, b[..|b| - 1], key);
      assert (a + b)[..|a + b| - 1] == a + b[..|b| - 1];
    }
  }

  /** Rows whose keys are all there insert nothing. */
  lemma {:induction false} NothingNew(t: seq<OrderRow>, batch: seq<OrderRow>, key: Collation)
    requires forall i :: 0 <= i < |batch| ==> HasKey(t, batch[i].orderId, key)
    ensures Merge(t, batch, key) == t
  {
    if batch != [] {
      assert HasKey(t, batch[|batch| - 1].orderId, key);
      NothingNew(t, batch[..|batch| - 1], key);
    }
  }

  /** Loading a file again, under any batch id, is a no-op. */
  lemma ReloadIsNoOp(t: seq<OrderRow>, file: seq<CsvRow>, first: string, again: string, key: Collation)
    ensures var u := Merge(t, ToRows(file, first), key);
      Merge(u, ToRows(file, again), key) == u
  {
    var loaded, reload := ToRows(file, first), ToRows(file, again);
    var u := Merge(t, loaded, key);
    forall i | 0 <= i < |reload| ensures HasKey(u, reload[i].orderId, key) {
      assert loaded[i].orderId == reload[i].orderId;
      MergeKeys(t, loaded, key, reload[i].orderId);
    }
    NothingNew(u, reload, key);
  }

  /** A load that stopped after any number of rows is finished by loading the file again:
      the second load adds what the first had left. */
  lemma ResumeAfterCrash(t: seq<OrderRow>, file: seq<CsvRow>, i: nat, first: string, again: string, key: Collation)
    requires i <= |file|
    ensures var u := Merge(t, ToRows(file[..i], first), key);
      Merge(u, ToRows(file, again), key) == Merge(u, ToRows(file[i..], again), key)
  {
    var u := Merge(t, ToRows(file[..i], first), key);
    ReloadIsNoOp(t, file[..i], first, again, key);
    MergeAppend(u, ToRows(file[..i], again), ToRows(file[i..], again), key);
    ToRowsSplit(file, i, again);
  }

  lemma ToRowsSplit(file: seq<CsvRow>, i: nat, batchId: string)
    requires i <= |file|
    ensures ToRows(file, batchId) == ToRows(file[..i], batchId) + ToRows(file[i..], batchId)
  {
  }

  // ---- Several loaders at once --------------------------------------------------

  /** One committed INSERT, by the loader under consideration or by another. */
  datatype Flush = Flush(ours: bool, batch: seq<OrderRow>)

  function Load(t: seq<OrderRow>, log: seq<Flush>, key: Collation): (u: seq<OrderRow>)
    ensures t <= u
  {
    if log == [] then t else Merge(Load(t, log[..|log| - 1], key), log[|log| - 1].batch, key)
  }

  /** The sum of affectedRows over one side's statements. */
  function Credited(t: seq<OrderRow>, log: seq<Flush>, ours: bool, key: Collation): nat {
    if log == [] then 0
    else
      var n := |log| - 1;
      var before := Load(t, log[..n], key);
      Credited(t, log[..n], ours, key)
      + if log[n].ours == ours then |Merge(before, log[n].batch, key)| - |before| else 0
  }

  /** The rows one side flushed, in order. */
  function Flushed(log: seq<Flush>, ours: bool): seq<OrderRow> {
    if log == [] then []
    else Flushed(log[..|log| - 1], ours) + if log[|log| - 1].ours == ours then log[|log| - 1].batch else []
  }

  function AllRows(log: seq<Flush>): seq<OrderRow> {
    if log == [] then [] else AllRows(log[..|log| - 1]) + log[|log| - 1].batch
  }

  /** However the loaders' statements interleave, the table is the merge of all their rows in
      commit order, and the statements' counts add up to what was added. */
  lemma {:induction false} InterleavedLoad(t: seq<OrderRow>, log: seq<Flush>, key: Collation)
    ensures Load(t, log, key) == Merge(t, AllRows(log), key)
    ensures Credited(t, log, true, key) + Credited(t, log, false, key) == |Load(t, log, key)| - |t|
    ensures Unique(t, key) ==> Unique(Load(t, log, key), key)
  {
    if log != [] {
      var n := |log| - 1;
      InterleavedLoad(t, log[..n], key);
      MergeAppend(t, AllRows(log[..n]), log[n].batch, key);
      if Unique(t, key) {
        MergeUnique(Load(t, log[..n], key), log[n].batch, key);
      }
    }
  }

  lemma LoadNext(t: seq<OrderRow>, log: seq<Flush>, j: nat, key: Collation)
    requires j < |log|
    ensures Load(t, log[..j + 1], key) == Merge(Load(t, log[..j], key), log[j].batch, key)
  {
    assert log[..j + 1][..j] == log[..j];
  }

  /** One of the first j statements carries the key. */
  predicate Carried(log: seq<Flush>, j: nat, id: string, key: Collation)
    requires j <= |log|
  {
    j > 0 && (Carried(log, j - 1, id, key) || HasKey(log[j - 1].batch, id, key))
  }

  /** What the table holds after j statements. */
  lemma {:induction false} LoadKeys(t: seq<OrderRow>, log: seq<Flush>, j: nat, id: string, key: Collation)
    requires j <= |log|
    ensures HasKey(Load(t, log[..j], key), id, key) <==> HasKey(t, id, key) || Carried(log, j, id, key)
  {
    if j > 0 {
      LoadKeys(t, log, j - 1, id, key);
      LoadNext(t, log, j - 1, key);
      MergeKeys(Load(t, log[..j - 1], key), log[j - 1].batch, key, id);
    }
  }

  lemma {:induction false} CarriedStays(log: seq<Flush>, i: nat, j: nat, id: string, key: Collation)
    requires i <= j <= |log| && Carried(log, i, id, key)
    ensures Carried(log, j, id, key)
    decreases j
  {
    if i < j {
      CarriedStays(log, i, j - 1, id, key);
    }
  }

  /** Statement j is the one that added the key. */
  predicate Inserts(t: seq<OrderRow>, log: seq<Flush>, j: nat, id: string, key: Collation)
    requires j < |log|
  {
    !HasKey(Load(t, log[..j], key), id, key) && HasKey(Load(t, log[..j + 1], key), id, key)
  }

  /** A statement adds a key exactly when the table started without it and the statement is
      the first to carry it. */
  lemma InserterIsFirst(t: seq<OrderRow>, log: seq<Flush>, j: nat, id: string, key: Collation)
    requires j < |log|
    ensures Inserts(t, log, j, id, key) <==>
      !HasKey(t, id, key) && !Carried(log, j, id, key) && HasKey(log[j].batch, id, key)
  {
    LoadKeys(t, log, j, id, key);
    LoadKeys(t, log, j + 1, id, key);
  }

  /** The first of the first n statements that carries the key. */
  function FirstCarrier(log: seq<Flush>, n: nat, id: string, key: Collation): (j: nat)
    requires n <= |log| && Carried(log, n, id, key)
    ensures j < n && HasKey(log[j].batch, id, key) && !Carried(log, j, id, key)
  {
    if Carried(log, n - 1, id, key) then FirstCarrier(log, n - 1, id, key) else n - 1
  }

  /** However many loaders carry a key that was not there, one statement of one of them adds
      it, and no other does. */
  lemma OneInserter(t: seq<OrderRow>, log: seq<Flush>, j: nat, id: string, key: Collation)
    requires !HasKey(t, id, key) && Carried(log, |log|, id, key) && j < |log|
    ensures Inserts(t, log, j, id, key) <==> j == FirstCarrier(log, |log|, id, key)
  {
    InserterIsFirst(t, log, j, id, key);
    var first := FirstCarrier(log, |log|, id, key);
    if Inserts(t, log, j, id, key) {
      if first < j {
        CarriedStays(log, first + 1, j, id, key);
      } else if j < first {
        CarriedStays(log, j + 1, first, id, key);
      }
    }
  }

  /** And a key that was there, or that nobody carries, is added by none. */
  lemma NoInserter(t: seq<OrderRow>, log: seq<Flush>, j: nat, id: string, key: Collation)
    requires j < |log| && (HasKey(t, id, key) || !Carried(log, |log|, id, key))
    ensures !Inserts(t, log, j, id, key)
  {
    InserterIsFirst(t, log, j, id, key);
    if Inserts(t, log, j, id, key) {
      CarriedStays(log, j + 1, |log|, id, key);
    }
  }

  // ---- The loader -----------------------------------------------------------------

  datatype IngestResult = IngestResult(rowsRead: nat, rowsInserted: nat, rowsSkipped: int)

  lemma LoadSnoc(t: seq<OrderRow>, log: seq<Flush>, f: Flush, key: Collation)
    ensures Load(t, log + [f], key) == Merge(Load(t, log, key), f.batch, key)
  {
    assert (log + [f])[..|log|] == log;
  }

  lemma FlushedSnoc(log: seq<Flush>, f: Flush)
    ensures Flushed(log + [f], true) == Flushed(log, true) + if f.ours then f.batch else []
  {
    assert (log + [f])[..|log|] == log;
  }

  lemma CreditedSnoc(t: seq<OrderRow>, log: seq<Flush>, f: Flush, key: Collation)
    ensures Credited(t, log + [f], true, key)
         == Credited(t, log, true, key) + if f.ours then |Load(t, log + [f], key)| - |Load(t, log, key)| else 0
  {
    assert (log + [f])[..|log|] == log;
  }

  /** Everything in the history that is not ours came from `others`. */
  ghost predicate From(log: seq<Flush>, others: nat -> seq<OrderRow>) {
    forall f <- log :: !f.ours ==> exists k: nat :: f.batch == others(k)
  }

  /** How many rows a full buffer holds: one, for a batch size below that. */
  function BufferSize(batchSize: int): nat { if batchSize > 1 then batchSize else 1 }

  /** Our statements so far carry exactly `size` rows each. */
  ghost predicate FullSoFar(log: seq<Flush>, size: nat) {
    forall f <- log :: f.ours ==> |f.batch| == size
  }

  /** Our statements carry `size` rows each, but for the last, which may carry fewer. */
  ghost predicate Batched(log: seq<Flush>, size: nat) {
    FullSoFar(log, size) ||
    (log != [] && FullSoFar(log[..|log| - 1], size) && log[|log| - 1].ours && |log[|log| - 1].batch| <= size)
  }

  /** What one more flush, with others' before it, adds to the history. */
  function Flushing(log: seq<Flush>, theirs: seq<OrderRow>, ours: seq<OrderRow>): seq<Flush> {
    log + [Flush(false, theirs)] + if ours == [] then [] else [Flush(true, ours)]
  }

  lemma FlushFull(log: seq<Flush>, theirs: seq<OrderRow>, ours: seq<OrderRow>, size: nat)
    requires FullSoFar(log, size) && |ours| <= size
    ensures |ours| == size ==> FullSoFar(Flushing(log, theirs, ours), size)
    ensures Batched(Flushing(log, theirs, ours), size)
  {
    var mid, more := log + [Flush(false, theirs)], Flushing(log, theirs, ours);
    assert FullSoFar(mid, size);
    if ours != [] {
      assert more[..|more| - 1] == mid;
    }
  }

  class Orders {
    var table: seq<OrderRow>
    const key: Collation

    constructor (table: seq<OrderRow>, key: Collation)
      ensures this.table == table && this.key == key
    {
      this.table, this.key := table, key;
    }

    /** INSERT IGNORE, row by row. */
    method InsertAll(batch: seq<OrderRow>)
      modifies this`table
      ensures table == Merge(old(table), batch, key)
    {
      ghost var before := table;
      for i := 0 to |batch|
        invariant table == Merge(before, batch[..i], key)
      {
        assert batch[..i + 1][..i] == batch[..i];
        if !HasKey(table, batch[i].orderId, key) {
          table := table + [batch[i]];
        }
      }
      assert batch[..|batch|] == batch;
    }

    /** flush: nothing to do for an empty buffer, else one statement and its affectedRows. */
    method FlushBatch(batch: seq<OrderRow>) returns (affected: nat)
      modifies this`table
      ensures table == Merge(old(table), batch, key)
      ensures affected == |table| - |old(table)| <= |batch|
    {
      if |batch| == 0 {
        return 0;
      }
      var before := |table|;
      InsertAll(batch);
      return |table| - before;
    }

    /** What the other loaders commit before our k-th flush. */
    method Interfere(others: nat -> seq<OrderRow>, k: nat, ghost before: seq<OrderRow>, ghost log: seq<Flush>)
      returns (ghost more: seq<Flush>)
      requires table == Load(before, log, key) && From(log, others)
      modifies this`table
      ensures table == Load(before, more, key) && From(more, others) && more == log + [Flush(false, others(k))]
      ensures Flushed(more, true) == Flushed(log, true)
      ensures Credited(before, more, true, key) == Credited(before, log, true, key)
    {
      ghost var f := Flush(false, others(k));
      more := log + [f];
      LoadSnoc(before, log, f, key);
      FlushedSnoc(log, f);
      CreditedSnoc(before, log, f, key);
      InsertAll(others(k));
    }

    /** Our own flush. */
    method FlushOurs(batch: seq<OrderRow>, ghost before: seq<OrderRow>, ghost log: seq<Flush>)
      returns (affected: nat, ghost more: seq<Flush>)
      requires table == Load(before, log, key)
      modifies this`table
      ensures table == Load(before, more, key)
      ensures more == log + if batch == [] then [] else [Flush(true, batch)]
      ensures Flushed(more, true) == Flushed(log, true) + batch
      ensures Credited(before, more, true, key) == Credited(before, log, true, key) + affected
      ensures affected <= |batch|
    {
      affected := FlushBatch(batch);
      more := log;
      if batch != [] {
        ghost var f := Flush(true, batch);
        more := log + [f];
        LoadSnoc(before, log, f, key);
        FlushedSnoc(log, f);
        CreditedSnoc(before, log, f, key);
      }
    }

    /** Our k-th flush, after whatever the other loaders commit before it. */
    method FlushAmong(batch: seq<OrderRow>, others: nat -> seq<OrderRow>, k: nat,
        ghost before: seq<OrderRow>, ghost log: seq<Flush>, ghost size: nat)
      returns (affected: nat, ghost more: seq<Flush>)
      requires table == Load(before, log, key) && From(log, others) && FullSoFar(log, size) && |batch| <= size
      modifies this`table
      ensures table == Load(before, more, key) && From(more, others)
      ensures Batched(more, size) && (|batch| == size ==> FullSoFar(more, size))
      ensures Flushed(more, true) == Flushed(log, true) + batch
      ensures Credited(before, more, true, key) == Credited(before, log, true, key) + affected
      ensures affected <= |batch|
    {
      FlushFull(log, others(k), batch, size);
      ghost var mid := Interfere(others, k, before, log);
      affected, more := FlushOurs(batch, before, mid);
    }

    /** One row: buffered, and the buffer flushed and emptied when it is full. */
    method TakeRow(row: OrderRow, batch: seq<OrderRow>, batchSize: int, others: nat -> seq<OrderRow>, k: nat,
        ghost before: seq<OrderRow>, ghost log: seq<Flush>)
      returns (rest: seq<OrderRow>, affected: nat, flushes: nat, ghost more: seq<Flush>)
      requires table == Load(before, log, key) && From(log, others) && FullSoFar(log, BufferSize(batchSize))
      requires batch != [] ==> |batch| < batchSize
      modifies this`table
      ensures table == Load(before, more, key) && From(more, others) && FullSoFar(more, BufferSize(batchSize))
      ensures Flushed(more, true) + rest == Flushed(log, true) + batch + [row]
      ensures Credited(before, more, true, key) == Credited(before, log, true, key) + affected
      ensures affected + |rest| <= |batch| + 1 && (rest != [] ==> |rest| < batchSize)
    {
      rest, affected, flushes, more := batch + [row], 0, k, log;
      assert Flushed(log, true) + rest == Flushed(log, true) + batch + [row];
      if |rest| >= batchSize {
        affected, more := FlushAmong(rest, others, k, before, log, BufferSize(batchSize));
        rest, flushes := [], k + 1;
      }
    }

    /** The row loop and the last flush. `others` says what other loaders commit before each of
        our flushes. The buffer never holds more than one batch, every row of the file is
        flushed, once and in order, and the count is that of our own statements. */
    method LoadRows(file: seq<CsvRow>, batchId: string, batchSize: int, others: nat -> seq<OrderRow>)
      returns (rowsRead: nat, rowsInserted: nat, ghost log: seq<Flush>, ghost peak: nat)
      modifies this`table
      ensures table == Load(old(table), log, key)
      ensures Flushed(log, true) == ToRows(file, batchId) && From(log, others)
      ensures rowsRead == |file|
      ensures rowsInserted == Credited(old(table), log, true, key) <= |file|
      ensures peak <= BufferSize(batchSize) && Batched(log, BufferSize(batchSize))
    {
      ghost var before := table;
      var batch: seq<OrderRow> := [];
      var flushes := 0;
      rowsRead, rowsInserted, log, peak := 0, 0, [], 0;
      while rowsRead < |file|
        invariant rowsRead <= |file| && (batch != [] ==> |batch| < batchSize)
        invariant table == Load(before, log, key) && From(log, others)
        invariant Flushed(log, true) + batch == ToRows(file[..rowsRead], batchId)
        invariant rowsInserted == Credited(before, log, true, key)
        invariant rowsInserted + |batch| <= rowsRead
        invariant peak <= BufferSize(batchSize) && FullSoFar(log, BufferSize(batchSize))
      {
        NextRow(file, rowsRead, batchId);
        peak := if |batch| + 1 > peak then |batch| + 1 else peak;
        var affected: nat;
        batch, affected, flushes, log :=
          TakeRow(ToRow(file[rowsRead], batchId), batch, batchSize, others, flushes, before, log);
        rowsRead := rowsRead + 1;
        rowsInserted := rowsInserted + affected;
      }
      var affected: nat;
      affected, log := FlushAmong(batch, others, flushes, before, log, BufferSize(batchSize));
      rowsInserted := rowsInserted + affected;
      assert file[..rowsRead] == file;
    }

    /** ingestOrders, among other loaders. A load that nobody joins leaves the first-occurrence
        merge of the file, whatever the batch size. */
    method IngestOrders(file: seq<CsvRow>, batchId: string, batchSize: int, others: nat -> seq<OrderRow>)
      returns (result: IngestResult, ghost log: seq<Flush>, ghost peak: nat)
      modifies this`table
      ensures table == Load(old(table), log, key)
      ensures Flushed(log, true) == ToRows(file, batchId) && From(log, others)
      ensures result.rowsInserted == Credited(old(table), log, true, key)
      ensures result.rowsRead == |file| == result.rowsInserted + result.rowsSkipped && result.rowsSkipped >= 0
      ensures peak <= BufferSize(batchSize) && Batched(log, BufferSize(batchSize))
      ensures (forall k :: others(k) == []) ==>
        && table == old(table) + FirstOccurrences(old(table), ToRows(file, batchId), key)
        && result.rowsInserted == |table| - |old(table)|
        && (forall j :: |old(table)| <= j < |table| ==> FromFirstLine(old(table), table, j, file, batchId, key))
        && AllLoaded(table, file, key)
      ensures |Flushed(log, true)| == |file|
      ensures forall i :: 0 <= i < |file| ==> Records(Flushed(log, true)[i], file[i], batchId)
    {
      ghost var before := table;
      var rowsRead, rowsInserted;
      rowsRead, rowsInserted, log, peak := LoadRows(file, batchId, batchSize, others);
      if forall k :: others(k) == [] {
        LoadedAlone(before, log, key);
        FirstOccurrenceWins(before, ToRows(file, batchId), key);
        MergeRecords(before, file, batchId, key);
      }
      result := IngestResult(rowsRead, rowsInserted, rowsRead - rowsInserted);
    }
  }

  lemma NextRow(file: seq<CsvRow>, i: nat, batchId: string)
    requires i < |file|
    ensures ToRows(file[..i + 1], batchId) == ToRows(file[..i], batchId) + [ToRow(file[i], batchId)]
  {
  }

  /** A history in which only our statements insert anything leaves the first-occurrence
      merge of our rows, and credits us with every row added. */
  lemma {:induction false} LoadedAlone(t: seq<OrderRow>, log: seq<Flush>, key: Collation)
    requires forall f <- log :: !f.ours ==> f.batch == []
    ensures Load(t, log, key) == t + FirstOccurrences(t, Flushed(log, true), key)
    ensures Credited(t, log, true, key) == |Load(t, log, key)| - |t|
  {
    OnlyOurs(t, log, key);
    InterleavedLoad(t, log, key);
    FirstOccurrenceWins(t, AllRows(log), key);
  }

  lemma {:induction false} OnlyOurs(t: seq<OrderRow>, log: seq<Flush>, key: Collation)
    requires forall f <- log :: !f.ours ==> f.batch == []
    ensures AllRows(log) == Flushed(log, true)
    ensures Credited(t, log, false, key) == 0
  {
    if log != [] {
      var n := |log| - 1;
      OnlyOurs(t, log[..n], key);
      assert log[n] in log;
    }
  }
}
