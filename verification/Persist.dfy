/** Saving the scores as rows and loading them again (the snapshot of prepareUpdate, and precacheChanOps). */
module Persist {
  import opened Config
  import opened Sets
  import opened ChanOps
  import opened Ranking

  type Store = map<Name, OpTable>

  datatype Row = Row(channel: Name, account: Acct, seen: int, first: int, last: int, day: Ring)

  function RowOf(c: Name, a: Acct, r: OpRec): Row {
    Row(c, a, r.seen, r.first, r.last, r.day)
  }

  /** setAllMembers: the day values become shorts; a row does not hold the total, which is computed afresh. */
  function RecordOf(row: Row): OpRec {
    var day := seq(DAYSAMPLES, i requires 0 <= i < DAYSAMPLES => ToShort(row.day[i]));
    OpRec(row.seen, row.first, row.last, day, Sum(day))
  }

  /** A saved record comes back as it was exactly when its slots are shorts and its total is up to date. */
  lemma RecordReturns(c: Name, a: Acct, r: OpRec)
    ensures RecordOf(RowOf(c, a, r)).Sound()
    ensures RecordOf(RowOf(c, a, r)) == r <==> r.Sound()
  {
    var r' := RecordOf(RowOf(c, a, r));
    if r.Sound() {
      forall i | 0 <= i < DAYSAMPLES
        ensures r'.day[i] == r.day[i]
      {
        var d: Slot := i;
        assert IsShort(r.day[d]);
      }
      assert r'.day == r.day;
    }
  }

  ghost predicate Holds(store: Store, c: Name, a: Acct) {
    c in store && a in store[c]
  }

  /** One row for every record, and none besides. */
  ghost predicate Snapshot(rows: seq<Row>, store: Store) {
    && (forall i | 0 <= i < |rows| :: Holds(store, rows[i].channel, rows[i].account)
                                      && rows[i] == RowOf(rows[i].channel, rows[i].account,
                                                          store[rows[i].channel][rows[i].account]))
    && (forall c, a | Holds(store, c, a) :: RowOf(c, a, store[c][a]) in rows)
    && (forall i, j | 0 <= i < j < |rows| :: (rows[i].channel, rows[i].account) != (rows[j].channel, rows[j].account))
  }

  /** The maps' insert does not replace: the first row of an account wins. */
  function Inserted(store: Store, row: Row): Store {
    var table := if row.channel in store then store[row.channel] else map[];
    store[row.channel := if row.account in table then table else table[row.account := RecordOf(row)]]
  }

  function Loaded(rows: seq<Row>): Store {
    if rows == [] then map[] else Inserted(Loaded(rows[..|rows| - 1]), rows[|rows| - 1])
  }

  /** What survives a save and a load: everything but channels without records. */
  function Trimmed(store: Store): Store {
    map c | c in store && store[c] != map[] :: store[c]
  }

  ghost predicate AllSound(store: Store) {
    forall c, a | Holds(store, c, a) :: store[c][a].Sound()
  }

  lemma {:induction false} LoadedExact(rows: seq<Row>)
    requires forall i, j | 0 <= i < j < |rows| ::
             (rows[i].channel, rows[i].account) != (rows[j].channel, rows[j].account)
    ensures forall i | 0 <= i < |rows| :: Holds(Loaded(rows), rows[i].channel, rows[i].account)
              && Loaded(rows)[rows[i].channel][rows[i].account] == RecordOf(rows[i])
    ensures forall c, a | Holds(Loaded(rows), c, a) ::
              exists i :: 0 <= i < |rows| && rows[i].channel == c && rows[i].account == a
    ensures forall c | c in Loaded(rows) :: Loaded(rows)[c] != map[]
  {
    if rows != [] {
      var rest, row := rows[..|rows| - 1], rows[|rows| - 1];
      LoadedExact(rest);
      var before, after := Loaded(rest), Loaded(rows);
      assert !Holds(before, row.channel, row.account);
      forall i | 0 <= i < |rows|
        ensures Holds(after, rows[i].channel, rows[i].account)
                && after[rows[i].channel][rows[i].account] == RecordOf(rows[i])
      {
        if i < |rest| {
          assert rest[i] == rows[i];
        }
      }
      forall c, a | Holds(after, c, a)
        ensures exists i :: 0 <= i < |rows| && rows[i].channel == c && rows[i].account == a
      {
        if Holds(before, c, a) {
          var i :| 0 <= i < |rest| && rest[i].channel == c && rest[i].account == a;
          assert rows[i] == rest[i];
        }
      }
      assert row.account in after[row.channel];
    }
  }

  /** Of several rows of one account the first counts. */
  lemma {:induction false} FirstRowWins(rows: seq<Row>, i: nat)
    requires i < |rows|
    requires forall j | 0 <= j < i :: (rows[j].channel, rows[j].account) != (rows[i].channel, rows[i].account)
    ensures Holds(Loaded(rows), rows[i].channel, rows[i].account)
    ensures Loaded(rows)[rows[i].channel][rows[i].account] == RecordOf(rows[i])
  {
    var n := |rows| - 1;
    if i < n {
      FirstRowWins(rows[..n], i);
    } else if Holds(Loaded(rows[..n]), rows[n].channel, rows[n].account) {
      LoadedHasRow(rows[..n], rows[n].channel, rows[n].account);
      assert false;
    }
  }

  lemma {:induction false} LoadedHasRow(rows: seq<Row>, c: Name, a: Acct)
    requires Holds(Loaded(rows), c, a)
    ensures exists i :: 0 <= i < |rows| && rows[i].channel == c && rows[i].account == a
  {
    var n := |rows| - 1;
    if Holds(Loaded(rows[..n]), c, a) {
      LoadedHasRow(rows[..n], c, a);
      var i :| 0 <= i < n && rows[..n][i].channel == c && rows[..n][i].account == a;
      assert rows[i] == rows[..n][i];
    }
  }

  /** Saving and loading is the identity up to empty channels exactly when every record is sound. */
  lemma SaveThenLoad(store: Store, rows: seq<Row>)
    requires Snapshot(rows, store)
    ensures Loaded(rows) == Trimmed(store) <==> AllSound(store)
  {
    LoadedIsSound(rows);
    if AllSound(store) {
      SameStore(store, rows);
    } else {
      var c, a :| Holds(store, c, a) && !store[c][a].Sound();
      assert c in Trimmed(store) && Holds(Trimmed(store), c, a);
    }
  }

  lemma SameStore(store: Store, rows: seq<Row>)
    requires Snapshot(rows, store) && AllSound(store)
    ensures Loaded(rows) == Trimmed(store)
  {
    LoadedExact(rows);
    var got, want := Loaded(rows), Trimmed(store);
    forall c
      ensures c in got <==> c in want
    {
      if c in got {
        var a := AnyOf(got[c].Keys);
        assert Holds(got, c, a);
      }
      if c in want {
        var a := AnyOf(store[c].Keys);
        assert Holds(store, c, a);
        assert RowOf(c, a, store[c][a]) in rows;
      }
    }
    forall c | c in got
      ensures got[c] == want[c]
    {
      SameTable(store, rows, c);
    }
  }

  lemma SameKeys(store: Store, rows: seq<Row>, c: Name)
    requires Snapshot(rows, store) && c in Loaded(rows) && c in store
    ensures Loaded(rows)[c].Keys == store[c].Keys
  {
    LoadedExact(rows);
    forall a
      ensures a in Loaded(rows)[c] <==> a in store[c]
    {
      if a in store[c] {
        assert Holds(store, c, a) && RowOf(c, a, store[c][a]) in rows;
      }
      if a in Loaded(rows)[c] {
        assert Holds(Loaded(rows), c, a);
      }
    }
  }

  lemma SameTable(store: Store, rows: seq<Row>, c: Name)
    requires Snapshot(rows, store) && AllSound(store) && c in Loaded(rows) && c in store
    ensures Loaded(rows)[c] == store[c]
  {
    LoadedExact(rows);
    SameKeys(store, rows, c);
    forall a | a in store[c]
      ensures Loaded(rows)[c][a] == store[c][a]
    {
      assert Holds(store, c, a);
      RowReturns(store, rows, c, a);
    }
  }

  lemma RowReturns(store: Store, rows: seq<Row>, c: Name, a: Acct)
    requires Snapshot(rows, store) && Holds(store, c, a) && store[c][a].Sound()
    ensures Holds(Loaded(rows), c, a) && Loaded(rows)[c][a] == store[c][a]
  {
    LoadedExact(rows);
    RecordReturns(c, a, store[c][a]);
    var row := RowOf(c, a, store[c][a]);
    assert row in rows;
    var i :| 0 <= i < |rows| && rows[i] == row;
  }

  /** Whatever was saved, the loaded records are sound. */
  lemma LoadedIsSound(rows: seq<Row>)
    requires forall i, j | 0 <= i < j < |rows| ::
             (rows[i].channel, rows[i].account) != (rows[j].channel, rows[j].account)
    ensures AllSound(Loaded(rows))
  {
    LoadedExact(rows);
  }

  /** prepareUpdate's nested walk over channels and accounts. */
  method Save(store: Store) returns (rows: seq<Row>)
    ensures Snapshot(rows, store)
  {
    rows := [];
    var todo := store.Keys;
    ghost var done: Store := map[];
    while todo != {}
      invariant todo <= store.Keys
      invariant done == map c | c in store && c !in todo :: store[c]
      invariant Snapshot(rows, done)
      decreases todo
    {
      var c := Smallest(todo);
      rows := SaveChannel(rows, done, c, store[c]);
      todo := todo - {c};
      done := done[c := store[c]];
    }
    assert done == store;
  }

  method SaveChannel(before: seq<Row>, ghost done: Store, c: Name, table: OpTable) returns (rows: seq<Row>)
    requires Snapshot(before, done) && c !in done
    ensures Snapshot(rows, done[c := table])
  {
    rows := before;
    var todo := table.Keys;
    ghost var part: OpTable := map[];
    assert Snapshot(rows, done[c := part]);
    while todo != {}
      invariant todo <= table.Keys
      invariant part == map a | a in table && a !in todo :: table[a]
      invariant Snapshot(rows, done[c := part])
      decreases todo
    {
      var a := Smallest(todo);
      RowAdded(rows, done[c := part], c, a, table[a]);
      rows := rows + [RowOf(c, a, table[a])];
      todo := todo - {a};
      assert done[c := part][c := part[a := table[a]]] == done[c := part[a := table[a]]];
      part := part[a := table[a]];
    }
    assert part == table;
  }

  lemma RowAdded(rows: seq<Row>, store: Store, c: Name, a: Acct, r: OpRec)
    requires Snapshot(rows, store) && c in store && a !in store[c]
    ensures Snapshot(rows + [RowOf(c, a, r)], store[c := store[c][a := r]])
  {
    var rows', store' := rows + [RowOf(c, a, r)], store[c := store[c][a := r]];
    forall d, b | Holds(store', d, b)
      ensures RowOf(d, b, store'[d][b]) in rows'
    {
      if d == c && b == a {
        assert rows'[|rows|] == RowOf(c, a, r);
      } else {
        assert Holds(store, d, b);
        assert RowOf(d, b, store[d][b]) in rows;
      }
    }
    forall i | 0 <= i < |rows|
      ensures (rows[i].channel, rows[i].account) != (c, a)
    {
      assert Holds(store, rows[i].channel, rows[i].account);
    }
  }

  /** precacheChanOps: reads the rows one by one. */
  method Load(rows: seq<Row>) returns (store: Store)
    ensures store == Loaded(rows)
  {
    store := map[];
    for i := 0 to |rows|
      invariant store == Loaded(rows[..i])
    {
      assert rows[..i + 1][..i] == rows[..i];
      var newOp := RecordOf(rows[i]);
      if rows[i].channel in store {
        if rows[i].account !in store[rows[i].channel] {
          store := store[rows[i].channel := store[rows[i].channel][rows[i].account := newOp]];
        }
      } else {
        store := store[rows[i].channel := map[rows[i].account := newOp]];
      }
    }
    assert rows[..|rows|] == rows;
  }

  /** The two walks together. */
  method RoundTrip(store: Store) returns (loaded: Store)
    requires AllSound(store)
    ensures loaded == Trimmed(store)
  {
    var rows := Save(store);
    SaveThenLoad(store, rows);
    loaded := Load(rows);
  }
}
