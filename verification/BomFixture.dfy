/** Preparing the BOM fixture of the decomposition evaluation: only the missing
    rows are inserted, and one insertion is enough. */
module BomFixture {
  import opened Collections

  /** A row the fixture demands. */
  datatype Wanted = Wanted(key: string, sourceRowId: string, part: string, value: int, unit: string, tableIndex: int)

  /** The raw JSON column: a payload with its two identities, or nothing readable. */
  datatype Raw = Unreadable | Payload(rowKey: string, sourceRowId: string)

  /** A database row; a number that does not parse is `None`. */
  datatype Existing = Existing(part: string, quantity: Option<int>, unit: string, tableIndex: Option<int>, raw: Raw)

  datatype BomError = Unkeyed | Duplicate | Conflicting

  const BOM_ROWS: seq<Wanted> := [
    Wanted("decomp-row-a", "table-1-row-1", "CRAG-EVAL-PART-A", 2, "", 1),
    Wanted("decomp-row-b", "table-1-row-2", "CRAG-EVAL-PART-B", 3, "", 1)
  ]

  function Key(w: Wanted): Option<string> { Some(w.key) }

  /** Keys are distinct and not empty. */
  ghost predicate ProperFixture(fixture: seq<Wanted>) {
    Distinct(FilterMap(Key, fixture)) && forall w :: w in fixture ==> w.key != ""
  }

  lemma RowsAreProper()
    ensures ProperFixture(BOM_ROWS)
  {
    FilterMapOfTwo(Key, BOM_ROWS[0], BOM_ROWS[1]);
    assert BOM_ROWS == [BOM_ROWS[0], BOM_ROWS[1]];
    assert "decomp-row-a"[11] != "decomp-row-b"[11];
  }

  // ----- the key of a row

  /** The last demanded row with a given source identity names the key. */
  function KeyBySource(fixture: seq<Wanted>, id: string): string {
    if fixture == [] then ""
    else if fixture[|fixture| - 1].sourceRowId == id then fixture[|fixture| - 1].key
    else KeyBySource(fixture[..|fixture| - 1], id)
  }

  function RowKey(fixture: seq<Wanted>, row: Existing): string {
    match row.raw
    case Unreadable => ""
    case Payload(key, source) => if key != "" then key else KeyBySource(fixture, source)
  }

  predicate Demanded(fixture: seq<Wanted>, key: string) { exists w :: w in fixture && w.key == key }

  predicate PartDemanded(fixture: seq<Wanted>, part: string) { exists w :: w in fixture && w.part == part }

  function KeyOf(fixture: seq<Wanted>): Existing -> Option<string> {
    (row: Existing) => if Demanded(fixture, RowKey(fixture, row)) then Some(RowKey(fixture, row)) else None
  }

  /** The demanded keys the table already holds, in row order. */
  function KeyedKeys(fixture: seq<Wanted>, rows: seq<Existing>): seq<string> { FilterMap(KeyOf(fixture), rows) }

  predicate Matches(row: Existing, w: Wanted) {
    row.part == w.part && row.quantity == Some(w.value) && row.unit == w.unit && row.tableIndex == Some(w.tableIndex)
  }

  /** A row without a demanded key must not hold a demanded part. */
  predicate Foreign(fixture: seq<Wanted>, row: Existing) {
    KeyOf(fixture)(row).None? ==> !PartDemanded(fixture, row.part)
  }

  predicate RowAgrees(fixture: seq<Wanted>, row: Existing) {
    forall w :: w in fixture && KeyOf(fixture)(row) == Some(w.key) ==> Matches(row, w)
  }

  predicate Acceptable(fixture: seq<Wanted>, rows: seq<Existing>) {
    && (forall row :: row in rows ==> Foreign(fixture, row))
    && Distinct(KeyedKeys(fixture, rows))
    && (forall row :: row in rows ==> RowAgrees(fixture, row))
  }

  function Absent(fixture: seq<Wanted>, rows: seq<Existing>): Wanted -> Option<Wanted> {
    (w: Wanted) => if w.key in KeyedKeys(fixture, rows) then None else Some(w)
  }

  function Missing(fixture: seq<Wanted>, rows: seq<Existing>): Option<seq<Wanted>> {
    if Acceptable(fixture, rows) then Some(FilterMap(Absent(fixture, rows), fixture)) else None
  }

  // ----- the source's loops

  /** The first loop of `_missing_bom_rows`: rows by key. */
  method IndexRows(fixture: seq<Wanted>, rows: seq<Existing>) returns (r: Result<map<string, Existing>, BomError>)
    ensures r.Ok? <==> (forall row :: row in rows ==> Foreign(fixture, row)) && Distinct(KeyedKeys(fixture, rows))
    ensures r.Ok? ==> Indexes(fixture, rows, r.value)
    ensures r.Err? ==> !r.error.Conflicting?
  {
    var actual: map<string, Existing> := map[];
    NothingIndexed(fixture);
    for i := 0 to |rows|
      invariant forall row :: row in rows[..i] ==> Foreign(fixture, row)
      invariant Distinct(KeyedKeys(fixture, rows[..i])) && Indexes(fixture, rows[..i], actual)
    {
      var row := rows[i];
      assert rows[..i + 1] == rows[..i] + [row];
      FilterMapLast(KeyOf(fixture), rows[..i], row);
      var key := RowKey(fixture, row);
      if !Demanded(fixture, key) {
        if PartDemanded(fixture, row.part) {
          assert row in rows;
          return Err(Unkeyed);
        }
        IndexesForeign(fixture, rows[..i], actual, row);
      } else {
        if key in actual {
          DuplicateKey(fixture, rows, i);
          return Err(Duplicate);
        }
        IndexesLast(fixture, rows[..i], actual, row);
        actual := actual[key := row];
      }
    }
    assert rows[..|rows|] == rows;
    r := Ok(actual);
  }

  /** The dictionary holds exactly the keyed rows. */
  ghost predicate Indexes(fixture: seq<Wanted>, rows: seq<Existing>, actual: map<string, Existing>) {
    && (forall k :: k in actual <==> k in KeyedKeys(fixture, rows))
    && (forall k :: k in actual ==> actual[k] in rows && KeyOf(fixture)(actual[k]) == Some(k))
    && (forall row :: row in rows && KeyOf(fixture)(row).Some? ==>
          KeyOf(fixture)(row).value in actual && actual[KeyOf(fixture)(row).value] == row)
  }

  lemma NothingIndexed(fixture: seq<Wanted>)
    ensures Indexes(fixture, [], map[]) && KeyedKeys(fixture, []) == []
  {
    FilterMapEmpty(KeyOf(fixture));
  }

  lemma IndexesForeign(fixture: seq<Wanted>, rows: seq<Existing>, actual: map<string, Existing>, row: Existing)
    requires Indexes(fixture, rows, actual) && KeyOf(fixture)(row).None?
    ensures Indexes(fixture, rows + [row], actual) && KeyedKeys(fixture, rows + [row]) == KeyedKeys(fixture, rows)
  {
    hide FilterMap, RowKey, Demanded;
    FilterMapLast(KeyOf(fixture), rows, row);
    assert KeyedKeys(fixture, rows) + [] == KeyedKeys(fixture, rows);
  }

  lemma IndexesLast(fixture: seq<Wanted>, rows: seq<Existing>, actual: map<string, Existing>, row: Existing)
    requires Indexes(fixture, rows, actual) && Distinct(KeyedKeys(fixture, rows))
    requires KeyOf(fixture)(row).Some? && KeyOf(fixture)(row).value !in actual
    ensures Indexes(fixture, rows + [row], actual[KeyOf(fixture)(row).value := row])
    ensures Distinct(KeyedKeys(fixture, rows + [row]))
  {
    hide FilterMap, RowKey, Demanded;
    FilterMapLast(KeyOf(fixture), rows, row);
    var keys := KeyedKeys(fixture, rows);
    assert forall i :: 0 <= i < |keys| ==> keys[i] in keys;
  }

  lemma DuplicateKey(fixture: seq<Wanted>, rows: seq<Existing>, i: nat)
    requires i < |rows| && KeyOf(fixture)(rows[i]).Some?
    requires KeyOf(fixture)(rows[i]).value in KeyedKeys(fixture, rows[..i])
    ensures !Distinct(KeyedKeys(fixture, rows))
  {
    hide FilterMap, RowKey, Demanded;
    var f := KeyOf(fixture);
    assert rows == (rows[..i] + [rows[i]]) + rows[i + 1..];
    FilterMapLast(f, rows[..i], rows[i]);
    FilterMapConcat(f, rows[..i] + [rows[i]], rows[i + 1..]);
    var front := KeyedKeys(fixture, rows[..i]);
    var j :| 0 <= j < |front| && front[j] == f(rows[i]).value;
    assert KeyedKeys(fixture, rows)[j] == KeyedKeys(fixture, rows)[|front|];
  }

  lemma SomeConflict(fixture: seq<Wanted>, rows: seq<Existing>, actual: map<string, Existing>, w: Wanted)
    requires Indexes(fixture, rows, actual) && w in fixture && w.key in actual && !Matches(actual[w.key], w)
    ensures !Acceptable(fixture, rows)
  {
    hide FilterMap, RowKey, Demanded, Matches;
    assert !RowAgrees(fixture, actual[w.key]);
  }

  /** `_missing_bom_rows`. */
  method MissingBomRows(fixture: seq<Wanted>, rows: seq<Existing>) returns (r: Result<seq<Wanted>, BomError>)
    ensures r.Ok? <==> Missing(fixture, rows).Some?
    ensures r.Ok? ==> r.value == Missing(fixture, rows).value
    ensures r.Err? && r.error.Conflicting? ==>
              (forall row :: row in rows ==> Foreign(fixture, row)) && Distinct(KeyedKeys(fixture, rows))
  {
    hide FilterMap, Matches, Foreign, RowKey, Demanded;
    var index := IndexRows(fixture, rows);
    if index.Err? {
      return Err(index.error);
    }
    var actual, missing: seq<Wanted> := index.value, [];
    FilterMapEmpty(Absent(fixture, rows));
    for i := 0 to |fixture|
      invariant missing == FilterMap(Absent(fixture, rows), fixture[..i])
      invariant forall w :: w in fixture[..i] && w.key in actual ==> Matches(actual[w.key], w)
    {
      var w := fixture[i];
      assert fixture[..i + 1] == fixture[..i] + [w];
      FilterMapLast(Absent(fixture, rows), fixture[..i], w);
      if w.key !in actual {
        missing := missing + [w];
      } else if !Matches(actual[w.key], w) {
        SomeConflict(fixture, rows, actual, w);
        return Err(Conflicting);
      }
    }
    assert fixture[..|fixture|] == fixture;
    forall row | row in rows ensures RowAgrees(fixture, row) {
      assert KeyOf(fixture)(row).Some? ==> actual[KeyOf(fixture)(row).value] == row;
    }
    r := Ok(missing);
  }

  // ----- convergence

  /** The row the insertion writes. */
  function Insert(w: Wanted): Existing {
    Existing(w.part, Some(w.value), w.unit, Some(w.tableIndex), Payload(w.key, w.sourceRowId))
  }

  function Inserted(w: Wanted): Option<Existing> { Some(Insert(w)) }

  /** The table after the insertion, in the order it was written. */
  function After(rows: seq<Existing>, missing: seq<Wanted>): seq<Existing> { rows + FilterMap(Inserted, missing) }

  lemma InsertedRow(fixture: seq<Wanted>, w: Wanted)
    requires ProperFixture(fixture) && w in fixture
    ensures KeyOf(fixture)(Insert(w)) == Some(w.key) && Foreign(fixture, Insert(w)) && RowAgrees(fixture, Insert(w))
  {
    assert Demanded(fixture, w.key);
    forall v | v in fixture && v.key == w.key ensures v == w {
      SameKeySameRow(fixture, v, w);
    }
  }

  lemma SameKeySameRow(fixture: seq<Wanted>, v: Wanted, w: Wanted)
    requires Distinct(FilterMap(Key, fixture)) && v in fixture && w in fixture && v.key == w.key
    ensures v == w
  {
    hide FilterMap;
    KeysInOrder(fixture);
    var i :| 0 <= i < |fixture| && fixture[i] == v;
    var j :| 0 <= j < |fixture| && fixture[j] == w;
    assert FilterMap(Key, fixture)[i] == FilterMap(Key, fixture)[j];
  }

  lemma {:induction false} KeysInOrder(fixture: seq<Wanted>)
    ensures |FilterMap(Key, fixture)| == |fixture|
    ensures forall i :: 0 <= i < |fixture| ==> FilterMap(Key, fixture)[i] == fixture[i].key
  {
    if fixture != [] {
      var front := fixture[..|fixture| - 1];
      KeysInOrder(front);
      assert forall i :: 0 <= i < |front| ==> front[i] == fixture[i];
    }
  }

  /** The inserted rows carry the missing keys. */
  lemma {:induction false} InsertedKeys(fixture: seq<Wanted>, missing: seq<Wanted>)
    requires ProperFixture(fixture) && forall w :: w in missing ==> w in fixture
    ensures KeyedKeys(fixture, FilterMap(Inserted, missing)) == FilterMap(Key, missing)
    ensures forall row :: row in FilterMap(Inserted, missing) ==> Foreign(fixture, row) && RowAgrees(fixture, row)
  {
    hide FilterMap, Foreign, RowAgrees, ProperFixture;
    if missing == [] {
      FilterMapEmpty(Inserted);
      FilterMapEmpty(Key);
      FilterMapEmpty(KeyOf(fixture));
    } else {
      var front, w := missing[..|missing| - 1], missing[|missing| - 1];
      assert missing == front + [w] && w in missing;
      InsertedKeys(fixture, front);
      FilterMapLast(Inserted, front, w);
      FilterMapLast(Key, front, w);
      FilterMapLast(KeyOf(fixture), FilterMap(Inserted, front), Insert(w));
      InsertedRow(fixture, w);
    }
  }

  /** The keys of a selection of demanded rows are distinct and avoid what is excluded. */
  lemma {:induction false} SelectedKeys(fixture: seq<Wanted>, have: seq<string>, f: Wanted -> Option<Wanted>)
    requires Distinct(FilterMap(Key, fixture))
    requires forall w :: f(w) == if w.key in have then None else Some(w)
    ensures Distinct(FilterMap(Key, FilterMap(f, fixture)))
    ensures forall k :: k in FilterMap(Key, FilterMap(f, fixture)) <==> k !in have && k in FilterMap(Key, fixture)
  {
    hide FilterMap;
    if fixture == [] {
      FilterMapEmpty(f);
      FilterMapEmpty(Key);
    } else {
      var front, w := fixture[..|fixture| - 1], fixture[|fixture| - 1];
      assert fixture == front + [w];
      FilterMapLast(Key, front, w);
      FilterMapLast(f, front, w);
      var keys, some := FilterMap(Key, front), FilterMap(f, front);
      assert keys == FilterMap(Key, fixture)[..|keys|];
      assert FilterMap(Key, fixture)[|keys|] == w.key;
      SelectedKeys(front, have, f);
      assert some + [] == some;
      FilterMapLast(Key, some, w);
      assert forall i :: 0 <= i < |keys| ==> keys[i] != w.key;
      assert w.key !in keys;
      DistinctPlus(FilterMap(Key, some), w.key);
    }
  }

  lemma DistinctPlus(keys: seq<string>, k: string)
    requires Distinct(keys)
    ensures k !in keys ==> Distinct(keys + [k])
  {
    assert forall i :: 0 <= i < |keys| ==> keys[i] in keys;
  }

  lemma DistinctTogether(a: seq<string>, b: seq<string>)
    requires Distinct(a) && Distinct(b) && forall k :: k in b ==> k !in a
    ensures Distinct(a + b)
  {
    forall i, j | 0 <= i < j < |a + b| ensures (a + b)[i] != (a + b)[j] {
      if i < |a| <= j {
        assert (a + b)[j] in b;
      }
    }
  }

  lemma AfterInsertion(fixture: seq<Wanted>, rows: seq<Existing>)
    requires ProperFixture(fixture) && Missing(fixture, rows).Some?
    ensures var after := After(rows, Missing(fixture, rows).value);
            && Acceptable(fixture, after)
            && forall w :: w in fixture ==> w.key in KeyedKeys(fixture, after)
  {
    hide FilterMap, Foreign, RowAgrees;
    var missing := Missing(fixture, rows).value;
    var have := KeyedKeys(fixture, rows);
    SelectedKeys(fixture, have, Absent(fixture, rows));
    forall w | w in missing ensures w in fixture {
      FilterMapMember(Absent(fixture, rows), fixture, w);
    }
    InsertedKeys(fixture, missing);
    FilterMapConcat(KeyOf(fixture), rows, FilterMap(Inserted, missing));
    DistinctTogether(have, FilterMap(Key, missing));
    forall w | w in fixture ensures w.key in KeyedKeys(fixture, After(rows, missing)) {
      FilterMapMember(Key, fixture, w.key);
    }
  }

  lemma AcceptablePermuted(fixture: seq<Wanted>, a: seq<Existing>, b: seq<Existing>)
    requires multiset(a) == multiset(b)
    ensures Acceptable(fixture, a) == Acceptable(fixture, b)
    ensures multiset(KeyedKeys(fixture, a)) == multiset(KeyedKeys(fixture, b))
  {
    hide Foreign, RowAgrees, FilterMap;
    FilterMapPermuted(KeyOf(fixture), a, b);
    MultisetKeys(KeyedKeys(fixture, a));
    MultisetKeys(KeyedKeys(fixture, b));
    forall row ensures row in a <==> row in b {
      assert row in multiset(a) <==> row in multiset(b);
    }
  }

  /** Whatever order the database returns the old and the inserted rows in, the
      next check finds nothing missing and every demanded key exactly once. */
  lemma RepairConverges(fixture: seq<Wanted>, rows: seq<Existing>, all: seq<Existing>)
    requires ProperFixture(fixture) && Missing(fixture, rows).Some?
    requires multiset(all) == multiset(After(rows, Missing(fixture, rows).value))
    ensures Missing(fixture, all) == Some([])
    ensures forall w :: w in fixture ==> multiset(KeyedKeys(fixture, all))[w.key] == 1
  {
    hide FilterMap, Acceptable, ProperFixture;
    var after := After(rows, Missing(fixture, rows).value);
    AfterInsertion(fixture, rows);
    AcceptablePermuted(fixture, all, after);
    forall w | w in fixture
      ensures w.key in KeyedKeys(fixture, all) && multiset(KeyedKeys(fixture, all))[w.key] == 1
    {
      assert w.key in multiset(KeyedKeys(fixture, after));
      assert w.key in multiset(KeyedKeys(fixture, all));
      KeyOnce(fixture, all, w.key);
    }
    NothingAbsent(fixture, all);
  }

  /** The fixture of the repository converges, from any acceptable table. */
  lemma BomRowsConverge(rows: seq<Existing>, all: seq<Existing>)
    requires Missing(BOM_ROWS, rows).Some?
    requires multiset(all) == multiset(After(rows, Missing(BOM_ROWS, rows).value))
    ensures Missing(BOM_ROWS, all) == Some([])
    ensures forall w :: w in BOM_ROWS ==> multiset(KeyedKeys(BOM_ROWS, all))[w.key] == 1
  {
    hide Missing, After, KeyedKeys;
    RowsAreProper();
    RepairConverges(BOM_ROWS, rows, all);
  }

  lemma KeyOnce(fixture: seq<Wanted>, rows: seq<Existing>, key: string)
    requires Acceptable(fixture, rows)
    ensures multiset(KeyedKeys(fixture, rows))[key] <= 1
  {
    DistinctMultiplicity(KeyedKeys(fixture, rows));
  }

  lemma NothingAbsent(fixture: seq<Wanted>, rows: seq<Existing>)
    requires forall w :: w in fixture ==> w.key in KeyedKeys(fixture, rows)
    ensures FilterMap(Absent(fixture, rows), fixture) == []
  {
    hide KeyedKeys;
    var absent := FilterMap(Absent(fixture, rows), fixture);
    if absent != [] {
      FilterMapMember(Absent(fixture, rows), fixture, absent[0]);
    }
  }
}
