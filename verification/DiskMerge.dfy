/** The bounded disk merge and the streamed digest of `consensus_engine/full_chain_storage.py`.

Rows arrive in batches and go through an upserted scratch table; what comes out is shown to be a
function of the rows alone. Column values are integers standing for SQLite's own order, null
sorting last; a column no part has is null in every row.
*/
module DiskMerge {
  import opened Wrappers
  import opened ColumnOrder

  datatype Row = Row(
    captured: Option<int>, ticker: Option<int>, contract: Option<int>, expiration: Option<int>,
    strike: Option<int>, optionType: Option<int>, interest: Option<int>, rest: int)
  {
    predicate Keyed() { captured.Some? && ticker.Some? && contract.Some? }

    function Key(): (Option<int>, Option<int>, Option<int>) { (captured, ticker, contract) }

    function Contract(): (Option<int>, Option<int>) { (ticker, contract) }
  }

  /** A row of the scratch table and when it was written. */
  datatype Entry = Entry(row: Row, written: nat)

  function Flat<T>(frames: seq<seq<T>>): seq<T>
    decreases |frames|
  {
    if frames == [] then [] else Flat(frames[..|frames| - 1]) + frames[|frames| - 1]
  }

  // ----- Upserted tables --------------------------------------------------

  function Without<T(!new), K(==)>(table: seq<T>, key: T -> K, gone: K): seq<T>
    decreases |table|
  {
    if table == [] then []
    else
      var last := table[|table| - 1];
      Without(table[..|table| - 1], key, gone) + if key(last) == gone then [] else [last]
  }

  /** `INSERT OR REPLACE`: the row with this key goes, and the new one comes last. */
  function Upserted<T(!new), K(==)>(table: seq<T>, key: T -> K, x: T): seq<T> {
    Without(table, key, key(x)) + [x]
  }

  function UpsertedAll<T(!new), K(==)>(table: seq<T>, key: T -> K, xs: seq<T>): seq<T>
    decreases |xs|
  {
    if xs == [] then table else Upserted(UpsertedAll(table, key, xs[..|xs| - 1]), key, xs[|xs| - 1])
  }

  lemma {:induction false} UpsertedInTurn<T(!new), K>(table: seq<T>, key: T -> K, xs: seq<T>, ys: seq<T>)
    ensures UpsertedAll(table, key, xs + ys) == UpsertedAll(UpsertedAll(table, key, xs), key, ys)
    decreases |ys|
  {
    if ys == [] {
      assert xs + ys == xs;
    } else {
      UpsertedInTurn(table, key, xs, ys[..|ys| - 1]);
      assert (xs + ys)[..|xs + ys| - 1] == xs + ys[..|ys| - 1];
    }
  }

  ghost predicate OneEach<T(!new), K>(table: seq<T>, key: T -> K) {
    forall i, j | 0 <= i < j < |table| :: key(table[i]) != key(table[j])
  }

  lemma {:induction false} WithoutKeeps<T(!new), K>(table: seq<T>, key: T -> K, gone: K)
    ensures forall y :: y in Without(table, key, gone) <==> y in table && key(y) != gone
    ensures OneEach(table, key) ==> OneEach(Without(table, key, gone), key)
    decreases |table|
  {
    if table != [] {
      var n := |table| - 1;
      WithoutKeeps(table[..n], key, gone);
      assert table == table[..n] + [table[n]];
      if OneEach(table, key) {
        forall y | y in table[..n] ensures key(y) != key(table[n]) {}
      }
    }
  }

  ghost predicate LastOfKey<T(!new), K>(xs: seq<T>, key: T -> K, i: nat)
    requires i < |xs|
  {
    forall j | i < j < |xs| :: key(xs[j]) != key(xs[i])
  }

  ghost predicate WrittenLast<T(!new), K>(xs: seq<T>, key: T -> K, y: T) {
    exists i :: 0 <= i < |xs| && xs[i] == y && LastOfKey(xs, key, i)
  }

  lemma WrittenLastGrows<T(!new), K>(xs: seq<T>, key: T -> K, x: T, y: T)
    ensures WrittenLast(xs + [x], key, y) <==> y == x || (key(y) != key(x) && WrittenLast(xs, key, y))
  {
    var all, n := xs + [x], |xs|;
    if y == x {
      assert all[n] == y && LastOfKey(all, key, n);
    } else if WrittenLast(all, key, y) {
      var i :| 0 <= i < |all| && all[i] == y && LastOfKey(all, key, i);
      assert i < n && all[n] == x;
      forall j | i < j < n ensures key(xs[j]) != key(xs[i]) { assert all[j] == xs[j]; }
      assert xs[i] == y && LastOfKey(xs, key, i);
    } else if key(y) != key(x) && WrittenLast(xs, key, y) {
      var i :| 0 <= i < n && xs[i] == y && LastOfKey(xs, key, i);
      assert all[i] == y && LastOfKey(all, key, i);
      assert false;
    }
  }

  /** An upserted table holds, of every key, what was written last, and no key twice. */
  lemma {:induction false} LastWriteWins<T(!new), K>(key: T -> K, xs: seq<T>)
    ensures OneEach(UpsertedAll([], key, xs), key)
    ensures forall y :: y in UpsertedAll([], key, xs) <==> WrittenLast(xs, key, y)
    decreases |xs|
  {
    if xs != [] {
      var n := |xs| - 1;
      var x, before := xs[n], UpsertedAll([], key, xs[..n]);
      LastWriteWins(key, xs[..n]);
      WithoutKeeps(before, key, key(x));
      hide WrittenLast;
      assert xs == xs[..n] + [x];
      forall y ensures y in Upserted(before, key, x) <==> WrittenLast(xs, key, y) {
        WrittenLastGrows(xs[..n], key, x, y);
      }
    }
  }

  // ----- What the merge puts out ------------------------------------------

  function RowKey(entry: Entry): (Option<int>, Option<int>, Option<int>) { entry.row.Key() }

  function RowContract(row: Row): (Option<int>, Option<int>) { row.Contract() }

  function ChainColumns(entry: Entry): Columns {
    [entry.row.captured, entry.row.ticker, entry.row.expiration, entry.row.strike,
     entry.row.optionType, Some(entry.written)]
  }

  function InterestColumns(row: Row): Columns { [row.ticker, row.contract] }

  function Stamped(rows: seq<Row>, from: nat): seq<Entry> {
    seq(|rows|, i requires 0 <= i < |rows| => Entry(rows[i], from + i))
  }

  function RowsOf(entries: seq<Entry>): seq<Row> {
    seq(|entries|, i requires 0 <= i < |entries| => entries[i].row)
  }

  function Loaded(rows: seq<Row>): seq<Entry> { UpsertedAll([], RowKey, Stamped(rows, 0)) }

  /** The chain output: the upserted rows in column order, the earlier written first among equals. */
  function ChainOf(rows: seq<Row>): seq<Row> { RowsOf(Ordered(Loaded(rows), ChainColumns, 6)) }

  function WithInterest(rows: seq<Row>): seq<Row>
    decreases |rows|
  {
    if rows == [] then []
    else
      var last := rows[|rows| - 1];
      WithInterest(rows[..|rows| - 1]) + if last.interest.Some? then [last] else []
  }

  /** The open-interest output: contracts upserted from the chain output, in contract order. */
  function InterestOf(chain: seq<Row>): seq<Row> {
    Ordered(UpsertedAll([], RowContract, WithInterest(chain)), InterestColumns, 2)
  }

  lemma LoadedIsUnlike(rows: seq<Row>)
    ensures Unlike(Loaded(rows), ChainColumns)
    ensures forall e | e in Loaded(rows) ::
      e.written < |rows| && rows[e.written] == e.row && LastOfKey(rows, (row: Row) => row.Key(), e.written)
    ensures forall i: nat | i < |rows| && LastOfKey(rows, (row: Row) => row.Key(), i) ::
      Entry(rows[i], i) in Loaded(rows)
  {
    var xs, table := Stamped(rows, 0), Loaded(rows);
    LastWriteWins(RowKey, xs);
    forall e | e in table
      ensures e.written < |rows| && rows[e.written] == e.row && LastOfKey(rows, (row: Row) => row.Key(), e.written)
    {
      var i :| 0 <= i < |xs| && xs[i] == e && LastOfKey(xs, RowKey, i);
      forall j | i < j < |rows| ensures rows[j].Key() != rows[i].Key() { assert RowKey(xs[j]) != RowKey(xs[i]); }
    }
    forall i: nat | i < |rows| && LastOfKey(rows, (row: Row) => row.Key(), i) ensures Entry(rows[i], i) in table {
      assert xs[i] == Entry(rows[i], i) && LastOfKey(xs, RowKey, i);
    }
    forall i, j | 0 <= i < j < |table| ensures ChainColumns(table[i]) != ChainColumns(table[j]) {
      assert RowKey(table[i]) != RowKey(table[j]) && table[i] in table && table[j] in table;
      assert ChainColumns(table[i])[5] == Some(table[i].written) && ChainColumns(table[j])[5] == Some(table[j].written);
    }
  }

  ghost predicate KeptRow(rows: seq<Row>, row: Row) {
    exists i: nat :: i < |rows| && rows[i] == row && LastOfKey(rows, (r: Row) => r.Key(), i)
  }

  /** The order rows of a chain output follow: its columns, never the moment of writing. */
  function RowColumns(row: Row): Columns { [row.captured, row.ticker, row.expiration, row.strike, row.optionType] }

  ghost predicate KeysOnceInOrder(chain: seq<Row>) {
    forall i, j | 0 <= i < j < |chain| ::
      chain[i].Key() != chain[j].Key() && !Before(RowColumns(chain[j]), RowColumns(chain[i]))
  }

  /** The chain output is every key's last-written row, each key once, in column order. */
  lemma ChainIsLastWritten(rows: seq<Row>)
    ensures forall row :: row in ChainOf(rows) <==> KeptRow(rows, row)
    ensures KeysOnceInOrder(ChainOf(rows))
  {
    var table := Loaded(rows);
    var sorted := Ordered(table, ChainColumns, 6);
    LoadedIsUnlike(rows);
    OrderedRises(table, ChainColumns, 6);
    SameElements(sorted, table);
    hide Loaded, Ordered, Rising, Unlike, KeysOnceInOrder, KeptRow, RowsOf;
    KeptInSorted(rows, sorted);
    SortedKeysOnce(rows, sorted);
  }

  lemma SortedKeysOnce(rows: seq<Row>, sorted: seq<Entry>)
    requires Rising(sorted, ChainColumns, 6) && forall e | e in sorted :: e in Loaded(rows)
    ensures KeysOnceInOrder(RowsOf(sorted))
  {
    hide Loaded, Before, Row.Key;
    forall i, j | 0 <= i < j < |sorted|
      ensures sorted[i].row.Key() != sorted[j].row.Key()
      ensures !Before(RowColumns(sorted[j].row), RowColumns(sorted[i].row))
    {
      OrderIgnoringWrites(sorted[i], sorted[j]);
      BeforeIsStrict(ChainColumns(sorted[i]), ChainColumns(sorted[j]), ChainColumns(sorted[j]));
      KeysDiffer(rows, sorted[i], sorted[j]);
    }
  }

  lemma KeptInSorted(rows: seq<Row>, sorted: seq<Entry>)
    requires forall e | e in sorted ::
      e.written < |rows| && rows[e.written] == e.row && LastOfKey(rows, (r: Row) => r.Key(), e.written)
    requires forall i: nat | i < |rows| && LastOfKey(rows, (r: Row) => r.Key(), i) :: Entry(rows[i], i) in sorted
    ensures forall row :: row in RowsOf(sorted) <==> KeptRow(rows, row)
  {
    forall row ensures row in RowsOf(sorted) <==> KeptRow(rows, row) {
      if row in RowsOf(sorted) {
        var i :| 0 <= i < |sorted| && RowsOf(sorted)[i] == row;
        assert sorted[i] in sorted;
      }
      if KeptRow(rows, row) {
        var i: nat :| i < |rows| && rows[i] == row && LastOfKey(rows, (r: Row) => r.Key(), i);
        var k :| 0 <= k < |sorted| && sorted[k] == Entry(rows[i], i);
        assert RowsOf(sorted)[k] == row;
      }
    }
  }

  lemma OrderIgnoringWrites(a: Entry, b: Entry)
    requires Before(ChainColumns(a), ChainColumns(b))
    ensures !Before(RowColumns(b.row), RowColumns(a.row))
  {
    PrefixOrder(RowColumns(a.row), RowColumns(b.row), Some(a.written), Some(b.written));
    assert ChainColumns(a) == RowColumns(a.row) + [Some(a.written)];
    assert ChainColumns(b) == RowColumns(b.row) + [Some(b.written)];
  }

  lemma {:induction false} PrefixOrder(a: Columns, b: Columns, x: Option<int>, y: Option<int>)
    requires |a| == |b|
    ensures Before(a + [x], b + [y]) <==> Before(a, b) || (a == b && NullableBefore(x, y))
    ensures Before(a, b) ==> !Before(b, a)
    decreases |a|
  {
    if a == [] {
      assert (a + [x])[1..] == [] && (b + [y])[1..] == [];
    } else {
      PrefixOrder(a[1..], b[1..], x, y);
      assert (a + [x])[1..] == a[1..] + [x] && (b + [y])[1..] == b[1..] + [y];
      assert a == [a[0]] + a[1..] && b == [b[0]] + b[1..];
    }
  }

  lemma KeysDiffer(rows: seq<Row>, a: Entry, b: Entry)
    requires a in Loaded(rows) && b in Loaded(rows) && a != b
    ensures a.row.Key() != b.row.Key()
  {
    LastWriteWins(RowKey, Stamped(rows, 0));
    assert RowKey(a) == a.row.Key() && RowKey(b) == b.row.Key();
  }

  // ----- Open interest ----------------------------------------------------

  predicate Earlier(a: Row, b: Row) {
    a.captured.Some? && b.captured.Some? && a.captured.value < b.captured.value
  }

  /** Later rows of one contract carry later captures. */
  ghost predicate CapturesRise(rows: seq<Row>) {
    && (forall row | row in rows :: row.Keyed())
    && (forall i, j | 0 <= i < j < |rows| && rows[i].Contract() == rows[j].Contract() :: Earlier(rows[i], rows[j]))
  }

  lemma ChainCapturesRise(rows: seq<Row>)
    requires forall row | row in rows :: row.Keyed()
    ensures CapturesRise(ChainOf(rows))
  {
    ChainIsLastWritten(rows);
    var chain := ChainOf(rows);
    hide ChainOf;
    forall row | row in chain ensures row.Keyed() { assert KeptRow(rows, row); }
    forall i, j | 0 <= i < j < |chain| && chain[i].Contract() == chain[j].Contract()
      ensures Earlier(chain[i], chain[j])
    {
      assert chain[i] in chain && chain[j] in chain;
      assert !Before(RowColumns(chain[j]), RowColumns(chain[i]));
      assert chain[i].Key() != chain[j].Key();
    }
  }

  lemma {:induction false} InterestKeepsRising(rows: seq<Row>)
    requires CapturesRise(rows)
    ensures CapturesRise(WithInterest(rows))
    ensures forall row :: row in WithInterest(rows) <==> row in rows && row.interest.Some?
    decreases |rows|
  {
    if rows != [] {
      var n := |rows| - 1;
      InterestKeepsRising(rows[..n]);
      assert rows == rows[..n] + [rows[n]];
      assert forall row | row in rows[..n] && row.Contract() == rows[n].Contract() :: Earlier(row, rows[n]);
    }
  }

  /** Each open-interest row is its contract's latest capture, among the rows the chain keeps,
      that has a value; every contract with a value has one row, in contract order. */
  lemma InterestIsLatest(rows: seq<Row>)
    requires forall row | row in rows :: row.Keyed()
    ensures var chain := ChainOf(rows);
      var interests := InterestOf(chain);
      && Rising(interests, InterestColumns, 2)
      && forall row :: row in interests <==>
           && row in chain && row.interest.Some?
           && forall other | other in chain && other.interest.Some? &&
                other.Contract() == row.Contract() && other != row ::
                Earlier(other, row)
  {
    var chain := ChainOf(rows);
    ChainCapturesRise(rows);
    hide ChainOf;
    InterestKeepsRising(chain);
    var known := WithInterest(chain);
    var table := UpsertedAll([], RowContract, known);
    LastWriteWins(RowContract, known);
    forall i, j | 0 <= i < j < |table| ensures InterestColumns(table[i]) != InterestColumns(table[j]) {
      assert RowContract(table[i]) != RowContract(table[j]);
      assert InterestColumns(table[i])[0] == table[i].ticker && InterestColumns(table[i])[1] == table[i].contract;
      assert InterestColumns(table[j])[0] == table[j].ticker && InterestColumns(table[j])[1] == table[j].contract;
    }
    OrderedRises(table, InterestColumns, 2);
    SameElements(InterestOf(chain), table);
    forall row ensures row in table <==> LatestOf(known, row) {
      LatestIsLast(known, row);
    }
  }

  ghost predicate LatestOf(rows: seq<Row>, row: Row)
    requires CapturesRise(rows)
  {
    row in rows && forall other | other in rows && other.Contract() == row.Contract() && other != row ::
      Earlier(other, row)
  }

  lemma LatestIsLast(rows: seq<Row>, row: Row)
    requires CapturesRise(rows)
    ensures WrittenLast(rows, RowContract, row) <==> LatestOf(rows, row)
  {
    if WrittenLast(rows, RowContract, row) {
      var i :| 0 <= i < |rows| && rows[i] == row && LastOfKey(rows, RowContract, i);
      forall other | other in rows && other.Contract() == row.Contract() && other != row
        ensures Earlier(other, row)
      {
        var j :| 0 <= j < |rows| && rows[j] == other;
        assert RowContract(rows[j]) == RowContract(row);
        assert j <= i;
      }
    }
    if LatestOf(rows, row) {
      var i :| 0 <= i < |rows| && rows[i] == row;
      forall j | i < j < |rows| ensures RowContract(rows[j]) != RowContract(rows[i]) {
        assert rows[j] in rows;
      }
      assert LastOfKey(rows, RowContract, i);
    }
  }

  // ----- The scratch database and the merge -------------------------------

  datatype MergeError = MissingKey

  class Scratch {
    var chain: seq<Entry>
    var interest: seq<Row>

    constructor ()
      ensures chain == [] && interest == []
    {
      chain, interest := [], [];
    }

    method ReplaceChain(entries: seq<Entry>)
      modifies this`chain
      ensures chain == UpsertedAll(old(chain), RowKey, entries)
    {
      for i := 0 to |entries|
        invariant chain == UpsertedAll(old(chain), RowKey, entries[..i])
      {
        assert entries[..i + 1][..i] == entries[..i];
        chain := Upserted(chain, RowKey, entries[i]);
      }
      assert entries[..|entries|] == entries;
    }

    method ReplaceInterest(rows: seq<Row>)
      modifies this`interest
      ensures interest == UpsertedAll(old(interest), RowContract, WithInterest(rows))
    {
      for i := 0 to |rows|
        invariant interest == UpsertedAll(old(interest), RowContract, WithInterest(rows[..i]))
      {
        InterestOfNext(old(interest), rows, i);
        if rows[i].interest.Some? {
          interest := Upserted(interest, RowContract, rows[i]);
        }
      }
      assert rows[..|rows|] == rows;
    }
  }

  lemma InterestOfNext(interest: seq<Row>, rows: seq<Row>, i: nat)
    requires i < |rows|
    ensures UpsertedAll(interest, RowContract, WithInterest(rows[..i + 1])) ==
      var before := UpsertedAll(interest, RowContract, WithInterest(rows[..i]));
      if rows[i].interest.Some? then Upserted(before, RowContract, rows[i]) else before
  {
    hide Upserted;
    var known := WithInterest(rows[..i]);
    assert rows[..i + 1][..i] == rows[..i];
    assert (known + [rows[i]])[..|known|] == known && known + [] == known;
  }

  lemma FlatAppends<T>(frames: seq<seq<T>>, frame: seq<T>)
    ensures Flat(frames + [frame]) == Flat(frames) + frame
  {
    assert (frames + [frame])[..|frames|] == frames;
  }

  lemma StampsAppend(rows: seq<Row>, more: seq<Row>)
    ensures Stamped(rows + more, 0) == Stamped(rows, 0) + Stamped(more, |rows|)
  {
  }

  lemma {:induction false} InterestAppends(a: seq<Row>, b: seq<Row>)
    ensures WithInterest(a + b) == WithInterest(a) + WithInterest(b)
    decreases |b|
  {
    if b == [] {
      assert a + b == a;
    } else {
      InterestAppends(a, b[..|b| - 1]);
      assert (a + b)[..|a + b| - 1] == a + b[..|b| - 1];
    }
  }

  /** Load the source batches into the scratch table, each as one transaction. */
  method LoadBatches(scratch: Scratch, batches: seq<seq<Row>>) returns (error: Option<MergeError>)
    requires scratch.chain == []
    modifies scratch`chain
    ensures error.None? <==>
      forall row | row in Flat(batches) :: row.captured.Some? && row.ticker.Some? && row.contract.Some?
    ensures error.None? ==> scratch.chain == Loaded(Flat(batches))
  {
    var written := 0;
    for i := 0 to |batches|
      invariant written == |Flat(batches[..i])|
      invariant scratch.chain == Loaded(Flat(batches[..i]))
      invariant forall row | row in Flat(batches[..i]) :: row.Keyed()
    {
      var batch := batches[i];
      assert batches[..i + 1] == batches[..i] + [batch];
      FlatAppends(batches[..i], batch);
      if exists k :: 0 <= k < |batch| && !batch[k].Keyed() {
        FlatHasAll(batches, i);
        return Some(MissingKey);
      }
      StampsAppend(Flat(batches[..i]), batch);
      UpsertedInTurn([], RowKey, Stamped(Flat(batches[..i]), 0), Stamped(batch, written));
      scratch.ReplaceChain(Stamped(batch, written));
      written := written + |batch|;
    }
    assert batches[..|batches|] == batches;
    return None;
  }

  /** Put the ordered chain out in frames of at most `size` rows, upserting each frame's open
      interest as it goes. */
  method PutChain(scratch: Scratch, rows: seq<Row>, size: nat) returns (frames: seq<seq<Row>>)
    requires size > 0 && scratch.interest == []
    modifies scratch`interest
    ensures Flat(frames) == rows
    ensures forall frame | frame in frames :: 0 < |frame| <= size
    ensures scratch.interest == UpsertedAll([], RowContract, WithInterest(rows))
  {
    frames := [];
    var at := 0;
    while at < |rows|
      invariant 0 <= at <= |rows|
      invariant Flat(frames) == rows[..at]
      invariant forall frame | frame in frames :: 0 < |frame| <= size
      invariant scratch.interest == UpsertedAll([], RowContract, WithInterest(rows[..at]))
    {
      var next := if at + size < |rows| then at + size else |rows|;
      var frame := rows[at..next];
      assert rows[..next] == rows[..at] + frame;
      InterestAppends(rows[..at], frame);
      UpsertedInTurn([], RowContract, WithInterest(rows[..at]), WithInterest(frame));
      scratch.ReplaceInterest(frame);
      FlatAppends(frames, frame);
      frames := frames + [frame];
      at := next;
    }
    assert rows[..at] == rows;
  }

  /** What comes out is a function of the rows alone: neither the source's batches nor the frame
      `size` matters. */
  method MergeToDisk(batches: seq<seq<Row>>, size: nat) returns (r: Result<(seq<seq<Row>>, seq<Row>), MergeError>)
    requires size > 0
    ensures r.Ok? <==>
      forall row | row in Flat(batches) :: row.captured.Some? && row.ticker.Some? && row.contract.Some?
    ensures r.Ok? ==> Flat(r.value.0) == ChainOf(Flat(batches)) && r.value.1 == InterestOf(ChainOf(Flat(batches)))
  {
    var scratch := new Scratch();
    var error := LoadBatches(scratch, batches);
    if error.Some? {
      return Err(error.value);
    }
    var frames := PutChain(scratch, RowsOf(Ordered(scratch.chain, ChainColumns, 6)), size);
    return Ok((frames, Ordered(scratch.interest, InterestColumns, 2)));
  }

  lemma {:induction false} FlatHasAll<T>(frames: seq<seq<T>>, i: nat)
    requires i < |frames|
    ensures forall x | x in frames[i] :: x in Flat(frames)
    decreases |frames|
  {
    if i < |frames| - 1 {
      FlatHasAll(frames[..|frames| - 1], i);
    }
  }

  // ----- The streamed digest ----------------------------------------------

  datatype Digest = Sha256(of: string)

  function Joined(rows: seq<Row>, render: Row -> string): string
    decreases |rows|
  {
    if rows == [] then ""
    else if |rows| == 1 then render(rows[0])
    else Joined(rows[..|rows| - 1], render) + "," + render(rows[|rows| - 1])
  }

  /** A whole table's serialization. */
  function Json(rows: seq<Row>, render: Row -> string): string { "[" + Joined(rows, render) + "]" }

  lemma {:induction false} JoinedAppends(a: seq<Row>, b: seq<Row>, render: Row -> string)
    requires a != [] && b != []
    ensures Joined(a + b, render) == Joined(a, render) + "," + Joined(b, render)
    decreases |b|
  {
    assert (a + b)[..|a + b| - 1] == a + b[..|b| - 1];
    if |b| == 1 {
      assert a + b[..0] == a;
    } else {
      JoinedAppends(a, b[..|b| - 1], render);
    }
  }

  lemma {:induction false} JoinedIsEmpty(rows: seq<Row>, render: Row -> string)
    requires forall row :: render(row) != ""
    ensures Joined(rows, render) == "" <==> rows == []
  {
  }

  /** The digest fed frame by frame is the digest of the whole table's serialization, however the
      rows are split and however many frames are empty. */
  method StreamHash(frames: seq<seq<Row>>, render: Row -> string) returns (digest: Digest, count: nat)
    requires forall row :: render(row) != ""
    ensures digest == Sha256(Json(Flat(frames), render)) && count == |Flat(frames)|
  {
    var text := "[";
    count := 0;
    for i := 0 to |frames|
      invariant count == |Flat(frames[..i])|
      invariant text == "[" + Joined(Flat(frames[..i]), render)
    {
      var before, frame := Flat(frames[..i]), frames[i];
      assert frames[..i + 1] == frames[..i] + [frame];
      FlatAppends(frames[..i], frame);
      var json := Json(frame, render);
      var payload := json[1..|json| - 1];
      assert payload == Joined(frame, render);
      JoinedIsEmpty(frame, render);
      if payload != "" {
        if count > 0 {
          JoinedAppends(before, frame, render);
          text := text + ",";
        } else {
          assert before + frame == frame;
        }
        text := text + payload;
        count := count + |frame|;
      } else {
        assert before + frame == before;
      }
    }
    assert frames[..|frames|] == frames;
    return Sha256(text + "]"), count;
  }

  /** Reading a written file back, in any batches and under any column names, verifies it exactly
      when it holds as many records, of the same serialization, under the schema's names if any. */
  method WriteRecords(
      frames: seq<seq<Row>>, schema: seq<string>, batches: seq<seq<Row>>, columns: seq<string>, render: Row -> string)
    returns (verified: bool, digest: Digest, count: nat)
    requires forall row :: render(row) != ""
    ensures digest == Sha256(Json(Flat(frames), render)) && count == |Flat(frames)|
    ensures verified <==>
      && |Flat(batches)| == |Flat(frames)| && Json(Flat(batches), render) == Json(Flat(frames), render)
      && (Flat(batches) != [] ==> columns == schema)
    ensures Flat(batches) == Flat(frames) && columns == schema ==> verified
  {
    digest, count := StreamHash(frames, render);
    var actual, rows := StreamHash(batches, render);
    verified := actual == digest && rows == count && (rows > 0 ==> columns == schema);
  }
}
