/** When the table of the fixture is accepted, and what is missing from it, in terms
    of the columns of its rows. */
module FixtureMeaning {
  import opened Collections
  import opened BomFixture

  /** The last demanded row with this source identity. */
  ghost predicate LastSource(fixture: seq<Wanted>, id: string, w: Wanted) {
    exists i :: 0 <= i < |fixture| && fixture[i] == w && IsLastSource(fixture, id, i)
  }

  predicate IsLastSource(fixture: seq<Wanted>, id: string, i: nat)
    requires i < |fixture|
  {
    fixture[i].sourceRowId == id && forall j :: i < j < |fixture| ==> fixture[j].sourceRowId != id
  }

  /** A row stands for a demanded one if its payload gives that row's key, or gives no
      key and its source identity leads to it. */
  ghost predicate StandsFor(fixture: seq<Wanted>, row: Existing, w: Wanted) {
    match row.raw
    case Unreadable => false
    case Payload(key, source) => if key != "" then key == w.key else LastSource(fixture, source, w)
  }

  /** Its columns are those demanded. */
  predicate SameColumns(row: Existing, w: Wanted) {
    && row.part == w.part && row.unit == w.unit
    && row.quantity == Some(w.value) && row.tableIndex == Some(w.tableIndex)
  }

  /** Rows of demanded parts stand for demanded rows, no two for the same, and each
      has the columns demanded. */
  ghost predicate Sane(fixture: seq<Wanted>, rows: seq<Existing>) {
    && (forall row :: row in rows && (exists w :: w in fixture && w.part == row.part) ==> Placed(fixture, row))
    && (forall i, j, w :: 0 <= i < j < |rows| && w in fixture && StandsFor(fixture, rows[i], w) ==>
          !StandsFor(fixture, rows[j], w))
    && (forall row, w :: row in rows && w in fixture && StandsFor(fixture, row, w) ==> SameColumns(row, w))
  }

  ghost predicate Placed(fixture: seq<Wanted>, row: Existing) {
    exists w :: w in fixture && StandsFor(fixture, row, w)
  }

  lemma {:induction false} SourceKey(fixture: seq<Wanted>, id: string) returns (i: int)
    ensures if 0 <= i < |fixture| then IsLastSource(fixture, id, i) && KeyBySource(fixture, id) == fixture[i].key
            else (forall j :: 0 <= j < |fixture| ==> fixture[j].sourceRowId != id) && KeyBySource(fixture, id) == ""
  {
    i := |fixture| - 1;
    if fixture != [] && fixture[i].sourceRowId != id {
      var front := fixture[..i];
      assert forall j :: 0 <= j < |front| ==> front[j] == fixture[j];
      var last := i;
      i := SourceKey(front, id);
      if i >= last {
        i := -1;
      }
    }
  }

  lemma StandsForKey(fixture: seq<Wanted>, row: Existing, w: Wanted)
    requires ProperFixture(fixture) && w in fixture
    ensures StandsFor(fixture, row, w) <==> KeyOf(fixture)(row) == Some(w.key)
  {
    hide KeyBySource, FilterMap;
    if row.raw.Payload? && row.raw.rowKey == "" {
      var i := SourceKey(fixture, row.raw.sourceRowId);
      if 0 <= i < |fixture| {
        assert fixture[i] in fixture;
        if fixture[i].key == w.key {
          SameKeySameRow(fixture, fixture[i], w);
        }
      }
    }
  }

  lemma KeyedExactly(fixture: seq<Wanted>, row: Existing)
    requires ProperFixture(fixture)
    ensures KeyOf(fixture)(row).Some? <==> Placed(fixture, row)
    ensures KeyOf(fixture)(row).Some? ==>
              exists w :: w in fixture && w.key == KeyOf(fixture)(row).value && StandsFor(fixture, row, w)
  {
    hide RowKey, FilterMap, StandsFor, ProperFixture;
    forall w | w in fixture ensures StandsFor(fixture, row, w) <==> KeyOf(fixture)(row) == Some(w.key) {
      StandsForKey(fixture, row, w);
    }
  }

  /** The table is accepted exactly if it is sane, and then the demanded rows that no
      row stands for are missing, in their order. */
  lemma MissingExactly(fixture: seq<Wanted>, rows: seq<Existing>)
    requires ProperFixture(fixture)
    ensures Missing(fixture, rows).Some? <==> Sane(fixture, rows)
    ensures Sane(fixture, rows) ==>
              && Missing(fixture, rows).value == FilterMap(Unplaced(fixture, rows), fixture)
  {
    hide KeyOf, FilterMap, StandsFor, Placed, ProperFixture, Matches;
    forall row ensures (KeyOf(fixture)(row).Some? <==> Placed(fixture, row)) {
      KeyedExactly(fixture, row);
    }
    forall row, w | w in fixture ensures StandsFor(fixture, row, w) <==> KeyOf(fixture)(row) == Some(w.key) {
      StandsForKey(fixture, row, w);
    }
    forall row, w ensures Matches(row, w) <==> SameColumns(row, w) {
      ColumnsMatch(row, w);
    }
    KeysApart(fixture, rows);
    forall w | w in fixture ensures Absent(fixture, rows)(w) == Unplaced(fixture, rows)(w) {
      FilterMapMember(KeyOf(fixture), rows, w.key);
    }
    FilterMapCongruent(Absent(fixture, rows), Unplaced(fixture, rows), fixture);
  }

  lemma ColumnsMatch(row: Existing, w: Wanted)
    ensures Matches(row, w) <==> SameColumns(row, w)
  {
  }

  ghost function Unplaced(fixture: seq<Wanted>, rows: seq<Existing>): Wanted -> Option<Wanted> {
    (w: Wanted) => if exists row :: row in rows && StandsFor(fixture, row, w) then None else Some(w)
  }

  lemma KeysApart(fixture: seq<Wanted>, rows: seq<Existing>)
    requires ProperFixture(fixture)
    ensures Distinct(KeyedKeys(fixture, rows)) <==>
            forall i, j, w :: 0 <= i < j < |rows| && w in fixture && StandsFor(fixture, rows[i], w) ==>
              !StandsFor(fixture, rows[j], w)
  {
    hide KeyOf, FilterMap, StandsFor, Placed, ProperFixture;
    DistinctExtracted(KeyOf(fixture), rows);
    forall row, w | w in fixture ensures StandsFor(fixture, row, w) <==> KeyOf(fixture)(row) == Some(w.key) {
      StandsForKey(fixture, row, w);
    }
    forall row | KeyOf(fixture)(row).Some?
      ensures exists w :: w in fixture && KeyOf(fixture)(row) == Some(w.key) && StandsFor(fixture, row, w)
    {
      KeyedExactly(fixture, row);
    }
  }
}
