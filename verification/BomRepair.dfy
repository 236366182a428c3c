/** Repairing the structured BOM of one document: insert only into an empty
    table, then check that the table holds exactly the extracted rows. */
module BomRepair {
  import opened Collections

  /** The raw JSON of a row: its stripped source identity and the whole object.
      Anything unreadable is the empty object. */
  datatype Structured = Structured(sourceRowId: string, content: string)

  datatype Columns = Columns(
    part: Option<string>, description: Option<string>, material: Option<string>, quantity: Option<int>,
    note: Option<string>, unit: Option<string>, tableIndex: Option<int>)

  /** An extracted record, with its stripped source identity. */
  datatype Record = Record(id: string, structured: Structured, columns: Columns)

  datatype TableRow = TableRow(structured: Structured, columns: Columns)

  datatype PlanError =
    | NoSourceId
    | DuplicateIds
    | ProvenanceMismatch
    | DuplicateExisting
    | NoProvenance
    | RowsDiffer
    | ContentDiffers
    | ColumnsDiffer

  datatype Action = InsertRows | AlreadyPresent

  function IdOf(r: Record): Option<string> { Some(r.id) }

  function RowId(r: TableRow): Option<string> { Some(r.structured.sourceRowId) }

  predicate RecordsFit(records: seq<Record>) {
    && records != []
    && (forall r :: r in records ==> r.id != "" && r.structured.sourceRowId == r.id)
    && Distinct(FilterMap(IdOf, records))
  }

  /** What a row amounts to once compared. */
  datatype Entry = Entry(structured: Structured, columns: Columns)

  type Table = map<string, Entry>

  function RecordTable(records: seq<Record>): Table {
    if records == [] then map[]
    else
      var last := records[|records| - 1];
      RecordTable(records[..|records| - 1])[last.id := Entry(last.structured, last.columns)]
  }

  function RowTable(rows: seq<TableRow>): Table {
    if rows == [] then map[]
    else
      var last := rows[|rows| - 1];
      RowTable(rows[..|rows| - 1])[last.structured.sourceRowId := Entry(last.structured, last.columns)]
  }

  function Contents(t: Table): map<string, Structured> { map k | k in t :: t[k].structured }

  function ColumnsOf(t: Table): map<string, Columns> { map k | k in t :: t[k].columns }

  function PlanOf(records: seq<Record>, rows: seq<TableRow>): Result<Action, PlanError> {
    if records == [] || exists r :: r in records && r.id == "" then Err(NoSourceId)
    else if !Distinct(FilterMap(IdOf, records)) then Err(DuplicateIds)
    else if exists r :: r in records && r.structured.sourceRowId != r.id then Err(ProvenanceMismatch)
    else if !Distinct(FilterMap(RowId, rows)) then Err(DuplicateExisting)
    else if exists r :: r in rows && r.structured.sourceRowId == "" then Err(NoProvenance)
    else if rows == [] then Ok(InsertRows)
    else if RowTable(rows).Keys != RecordTable(records).Keys then Err(RowsDiffer)
    else if Contents(RowTable(rows)) != Contents(RecordTable(records)) then Err(ContentDiffers)
    else if ColumnsOf(RowTable(rows)) != ColumnsOf(RecordTable(records)) then Err(ColumnsDiffer)
    else Ok(AlreadyPresent)
  }

  // ----- the source's loops

  lemma {:induction false} RowKeys(rows: seq<TableRow>)
    ensures forall k :: k in RowTable(rows) <==> exists r :: r in rows && r.structured.sourceRowId == k
    ensures |FilterMap(RowId, rows)| == |rows|
    ensures forall i :: 0 <= i < |rows| ==> FilterMap(RowId, rows)[i] == rows[i].structured.sourceRowId
  {
    if rows != [] {
      var front := rows[..|rows| - 1];
      RowKeys(front);
      assert rows == front + [rows[|rows| - 1]];
      assert forall i :: 0 <= i < |front| ==> front[i] == rows[i];
    }
  }

  lemma RecordTableNone()
    ensures RecordTable([]) == map[]
  {
  }

  lemma RecordTableLast(records: seq<Record>, r: Record)
    ensures RecordTable(records + [r]) == RecordTable(records)[r.id := Entry(r.structured, r.columns)]
  {
    assert (records + [r])[..|records|] == records;
  }

  /** The record loop: `None` at the first record without matching provenance. */
  method IndexRecords(records: seq<Record>) returns (table: Option<Table>)
    ensures table ==
            if exists r :: r in records && r.structured.sourceRowId != r.id then None else Some(RecordTable(records))
  {
    hide RecordTable;
    var t: Table := map[];
    assert records[..0] == [];
    RecordTableNone();
    for i := 0 to |records|
      invariant t == RecordTable(records[..i])
      invariant forall r :: r in records[..i] ==> r.structured.sourceRowId == r.id
    {
      var r := records[i];
      if r.structured.sourceRowId != r.id {
        return None;
      }
      assert records[..i + 1] == records[..i] + [r];
      RecordTableLast(records[..i], r);
      t := t[r.id := Entry(r.structured, r.columns)];
    }
    assert records[..|records|] == records;
    table := Some(t);
  }

  /** The loop over the table's rows: `None` at a repeated identity. */
  method IndexRows(rows: seq<TableRow>) returns (table: Option<Table>)
    ensures table == if Distinct(FilterMap(RowId, rows)) then Some(RowTable(rows)) else None
  {
    var t: Table := map[];
    RowKeys(rows);
    for i := 0 to |rows|
      invariant t == RowTable(rows[..i])
      invariant forall j, k :: 0 <= j < k < i ==> rows[j].structured.sourceRowId != rows[k].structured.sourceRowId
    {
      var r := rows[i];
      RowKeys(rows[..i]);
      if r.structured.sourceRowId in t {
        var earlier :| earlier in rows[..i] && earlier.structured.sourceRowId == r.structured.sourceRowId;
        ghost var j :| 0 <= j < i && rows[j] == earlier;
        assert FilterMap(RowId, rows)[j] == FilterMap(RowId, rows)[i];
        return None;
      }
      forall j | 0 <= j < i ensures rows[j].structured.sourceRowId != r.structured.sourceRowId {
        assert rows[..i][j] in rows[..i];
      }
      assert rows[..i + 1][..i] == rows[..i];
      t := t[r.structured.sourceRowId := Entry(r.structured, r.columns)];
    }
    assert rows[..|rows|] == rows;
    table := Some(t);
  }

  /** `build_repair_plan`. */
  method BuildRepairPlan(records: seq<Record>, rows: seq<TableRow>) returns (r: Result<Action, PlanError>)
    ensures r == PlanOf(records, rows)
  {
    if records == [] || exists r :: r in records && r.id == "" {
      return Err(NoSourceId);
    }
    if !Distinct(FilterMap(IdOf, records)) {
      return Err(DuplicateIds);
    }
    var extracted := IndexRecords(records);
    if extracted.None? {
      return Err(ProvenanceMismatch);
    }
    var existing := IndexRows(rows);
    if existing.None? {
      return Err(DuplicateExisting);
    }
    RowKeys(rows);
    if "" in existing.value {
      return Err(NoProvenance);
    }
    if existing.value == map[] {
      assert rows != [] ==> rows[0].structured.sourceRowId in RowTable(rows);
      return Ok(InsertRows);
    }
    if existing.value.Keys != extracted.value.Keys {
      return Err(RowsDiffer);
    }
    if Contents(existing.value) != Contents(extracted.value) {
      return Err(ContentDiffers);
    }
    if ColumnsOf(existing.value) != ColumnsOf(extracted.value) {
      return Err(ColumnsDiffer);
    }
    r := Ok(AlreadyPresent);
  }

  // ----- what the plan means

  function RecordRow(r: Record): Option<TableRow> { Some(TableRow(r.structured, r.columns)) }

  /** The rows the records stand for. */
  function RowsOf(records: seq<Record>): seq<TableRow> { FilterMap(RecordRow, records) }

  lemma {:induction false} TableOfRecords(records: seq<Record>)
    requires forall r :: r in records ==> r.structured.sourceRowId == r.id
    ensures RecordTable(records) == RowTable(RowsOf(records))
    ensures FilterMap(RowId, RowsOf(records)) == FilterMap(IdOf, records)
  {
    if records != [] {
      var front, last := records[..|records| - 1], records[|records| - 1];
      assert records == front + [last] && last in records;
      TableOfRecords(front);
      FilterMapLast(RecordRow, front, last);
      FilterMapLast(RowId, RowsOf(front), TableRow(last.structured, last.columns));
      FilterMapLast(IdOf, front, last);
      var rows := RowsOf(records);
      assert rows[..|rows| - 1] == RowsOf(front);
    }
  }

  lemma SplitEntries(a: Table, b: Table)
    requires Contents(a) == Contents(b) && ColumnsOf(a) == ColumnsOf(b)
    ensures a == b
  {
    assert a.Keys == Contents(a).Keys == Contents(b).Keys == b.Keys;
    forall k | k in a ensures a[k] == b[k] {
      assert Contents(a)[k] == Contents(b)[k] && ColumnsOf(a)[k] == ColumnsOf(b)[k];
    }
  }

  /** The row a table holds for a key. */
  lemma {:induction false} RowInTable(rows: seq<TableRow>, row: TableRow)
    requires Distinct(FilterMap(RowId, rows))
    ensures row in rows <==>
            row.structured.sourceRowId in RowTable(rows) &&
            RowTable(rows)[row.structured.sourceRowId] == Entry(row.structured, row.columns)
  {
    if rows != [] {
      var front, last := rows[..|rows| - 1], rows[|rows| - 1];
      assert rows == front + [last];
      FilterMapLast(RowId, front, last);
      var ids := FilterMap(RowId, front);
      assert ids == FilterMap(RowId, rows)[..|ids|];
      assert forall i :: 0 <= i < |ids| ==> FilterMap(RowId, rows)[i] != FilterMap(RowId, rows)[|ids|];
      RowInTable(front, row);
      RowKeys(front);
      if last.structured.sourceRowId in RowTable(front) {
        var r :| r in front && r.structured.sourceRowId == last.structured.sourceRowId;
        FilterMapMember(RowId, front, last.structured.sourceRowId);
      }
    }
  }

  lemma DistinctRows(rows: seq<TableRow>)
    requires Distinct(FilterMap(RowId, rows))
    ensures Distinct(rows)
  {
    RowKeys(rows);
    forall i, j | 0 <= i < j < |rows| ensures rows[i] != rows[j] {
      assert FilterMap(RowId, rows)[i] != FilterMap(RowId, rows)[j];
    }
  }

  lemma SameTables(a: seq<TableRow>, b: seq<TableRow>)
    requires Distinct(FilterMap(RowId, a)) && Distinct(FilterMap(RowId, b))
    ensures RowTable(a) == RowTable(b) <==> multiset(a) == multiset(b)
  {
    hide FilterMap, RowTable;
    if RowTable(a) == RowTable(b) {
      DistinctRows(a);
      DistinctRows(b);
      forall row ensures row in Elements(a) <==> row in Elements(b) {
        RowInTable(a, row);
        RowInTable(b, row);
      }
      assert Elements(a) == Elements(b);
      SameMembersPermuted(a, b);
    }
    if multiset(a) == multiset(b) {
      TablePermuted(a, b);
    }
  }

  lemma TablePermuted(a: seq<TableRow>, b: seq<TableRow>)
    requires Distinct(FilterMap(RowId, a)) && Distinct(FilterMap(RowId, b)) && multiset(a) == multiset(b)
    ensures RowTable(a) == RowTable(b)
  {
    hide FilterMap;
    forall row ensures row in a <==> row in b {
      assert row in multiset(a) <==> row in multiset(b);
    }
    RowKeys(a);
    RowKeys(b);
    forall k | k in RowTable(a) ensures k in RowTable(b) && RowTable(a)[k] == RowTable(b)[k] {
      var row :| row in a && row.structured.sourceRowId == k;
      RowInTable(a, row);
      RowInTable(b, row);
    }
    assert forall k :: k in RowTable(b) ==> k in RowTable(a);
  }

  lemma DistinctPermuted(a: seq<TableRow>, b: seq<TableRow>)
    requires multiset(a) == multiset(b)
    ensures Distinct(FilterMap(RowId, a)) == Distinct(FilterMap(RowId, b))
  {
    FilterMapPermuted(RowId, a, b);
    MultisetKeys(FilterMap(RowId, a));
    MultisetKeys(FilterMap(RowId, b));
  }

  /** Insertion is planned for well-formed records exactly when the table is empty. */
  lemma InsertsOnlyIntoEmpty(records: seq<Record>, rows: seq<TableRow>)
    ensures PlanOf(records, rows) == Ok(InsertRows) <==> RecordsFit(records) && rows == []
  {
    FilterMapEmpty(RowId);
  }

  /** `already_present` is reported exactly when the table's rows are, in some
      order, the rows of the records. */
  lemma PresentExactly(records: seq<Record>, rows: seq<TableRow>)
    ensures PlanOf(records, rows) == Ok(AlreadyPresent) <==>
            RecordsFit(records) && multiset(rows) == multiset(RowsOf(records))
  {
    hide FilterMap, RowTable, RecordTable, RowsOf;
    if RecordsFit(records) {
      TableOfRecords(records);
      RecordRows(records);
      if PlanOf(records, rows) == Ok(AlreadyPresent) {
        SplitEntries(RowTable(rows), RecordTable(records));
        SameTables(rows, RowsOf(records));
      }
      if multiset(rows) == multiset(RowsOf(records)) {
        DistinctPermuted(rows, RowsOf(records));
        SameTables(rows, RowsOf(records));
        forall r | r in rows ensures r.structured.sourceRowId != "" {
          assert r in multiset(RowsOf(records));
        }
        assert |multiset(rows)| == |rows|;
      }
    }
  }

  lemma RecordRows(records: seq<Record>)
    requires forall r :: r in records ==> r.id != "" && r.structured.sourceRowId == r.id
    ensures forall row :: row in RowsOf(records) ==> row.structured.sourceRowId != ""
    ensures |multiset(RowsOf(records))| == |RowsOf(records)|
    ensures records != [] ==> RowsOf(records) != []
  {
    forall row | row in RowsOf(records) ensures row.structured.sourceRowId != "" {
      FilterMapMember(RecordRow, records, row);
    }
  }

  /** The plan does not depend on the order of the table's rows. */
  lemma PlanIgnoresRowOrder(records: seq<Record>, a: seq<TableRow>, b: seq<TableRow>)
    requires multiset(a) == multiset(b)
    ensures PlanOf(records, a) == PlanOf(records, b)
  {
    hide FilterMap, RowTable, RecordTable, Contents, ColumnsOf;
    DistinctPermuted(a, b);
    forall row ensures row in a <==> row in b {
      assert row in multiset(a) <==> row in multiset(b);
    }
    assert |multiset(a)| == |a| && |multiset(b)| == |b|;
    if Distinct(FilterMap(RowId, a)) {
      TablePermuted(a, b);
    }
  }

  // ----- what a plan is refused for

  predicate Told<T, U(==)>(id: T -> U, s: seq<T>) { forall i, j :: 0 <= i < j < |s| ==> id(s[i]) != id(s[j]) }

  function RecordId(r: Record): string { r.id }

  function SourceId(row: TableRow): string { row.structured.sourceRowId }

  /** Every row has its record and every record its row. */
  predicate SameRows(records: seq<Record>, rows: seq<TableRow>) {
    && (forall row :: row in rows ==> exists r :: r in records && r.id == SourceId(row))
    && (forall r :: r in records ==> exists row :: row in rows && SourceId(row) == r.id)
  }

  predicate SameContent(records: seq<Record>, rows: seq<TableRow>) {
    forall r, row :: r in records && row in rows && SourceId(row) == r.id ==> row.structured == r.structured
  }

  predicate SameColumns(records: seq<Record>, rows: seq<TableRow>) {
    forall r, row :: r in records && row in rows && SourceId(row) == r.id ==> row.columns == r.columns
  }

  lemma ToldApart(records: seq<Record>, rows: seq<TableRow>)
    ensures Distinct(FilterMap(IdOf, records)) <==> Told(RecordId, records)
    ensures Distinct(FilterMap(RowId, rows)) <==> Told(SourceId, rows)
  {
    hide FilterMap;
    DistinctExtracted(IdOf, records);
    DistinctExtracted(RowId, rows);
  }

  /** A table holds its rows and no others. */
  lemma RowsHeld(rows: seq<TableRow>)
    requires Distinct(FilterMap(RowId, rows))
    ensures forall row :: row in rows ==>
              SourceId(row) in RowTable(rows) && RowTable(rows)[SourceId(row)] == Entry(row.structured, row.columns)
    ensures forall k :: k in RowTable(rows) ==> exists row :: row in rows && SourceId(row) == k
  {
    hide FilterMap, RowTable;
    RowKeys(rows);
    forall row | row in rows
      ensures SourceId(row) in RowTable(rows) && RowTable(rows)[SourceId(row)] == Entry(row.structured, row.columns)
    {
      RowInTable(rows, row);
    }
  }

  lemma RecordsHeld(records: seq<Record>)
    requires Distinct(FilterMap(IdOf, records)) && forall r :: r in records ==> r.structured.sourceRowId == r.id
    ensures forall r :: r in records ==>
              r.id in RecordTable(records) && RecordTable(records)[r.id] == Entry(r.structured, r.columns)
    ensures forall k :: k in RecordTable(records) ==> exists r :: r in records && r.id == k
  {
    hide FilterMap, RowTable, RecordTable;
    TableOfRecords(records);
    RowsHeld(RowsOf(records));
    forall r | r in records
      ensures r.id in RecordTable(records) && RecordTable(records)[r.id] == Entry(r.structured, r.columns)
    {
      FilterMapMember(RecordRow, records, TableRow(r.structured, r.columns));
    }
    forall k | k in RecordTable(records) ensures exists r :: r in records && r.id == k {
      var row :| row in RowsOf(records) && SourceId(row) == k;
      FilterMapMember(RecordRow, records, row);
    }
  }

  lemma TablesCompared(records: seq<Record>, rows: seq<TableRow>)
    requires Told(RecordId, records) && Told(SourceId, rows)
    requires forall r :: r in records ==> r.structured.sourceRowId == r.id
    ensures RowTable(rows).Keys == RecordTable(records).Keys <==> SameRows(records, rows)
    ensures SameRows(records, rows) ==>
              && (Contents(RowTable(rows)) == Contents(RecordTable(records)) <==> SameContent(records, rows))
              && (ColumnsOf(RowTable(rows)) == ColumnsOf(RecordTable(records)) <==> SameColumns(records, rows))
  {
    hide FilterMap, RowTable, RecordTable, Told, Contents, ColumnsOf, RowsOf;
    ToldApart(records, rows);
    RowsHeld(rows);
    RecordsHeld(records);
    var table, extracted := RowTable(rows), RecordTable(records);
    if SameRows(records, rows) {
      EntriesCompared(records, rows, table, extracted);
    }
  }

  lemma PartsCompared(a: Table, b: Table)
    requires a.Keys == b.Keys
    ensures Contents(a) == Contents(b) <==> forall k :: k in a ==> a[k].structured == b[k].structured
    ensures ColumnsOf(a) == ColumnsOf(b) <==> forall k :: k in a ==> a[k].columns == b[k].columns
  {
    assert Contents(a).Keys == a.Keys == b.Keys == Contents(b).Keys;
    assert ColumnsOf(a).Keys == a.Keys == b.Keys == ColumnsOf(b).Keys;
    if Contents(a) == Contents(b) {
      forall k | k in a ensures a[k].structured == b[k].structured {
        assert Contents(a)[k] == Contents(b)[k];
      }
    }
    if ColumnsOf(a) == ColumnsOf(b) {
      forall k | k in a ensures a[k].columns == b[k].columns {
        assert ColumnsOf(a)[k] == ColumnsOf(b)[k];
      }
    }
  }

  lemma EntriesCompared(records: seq<Record>, rows: seq<TableRow>, table: Table, extracted: Table)
    requires table.Keys == extracted.Keys
    requires forall row :: row in rows ==>
               SourceId(row) in table && table[SourceId(row)] == Entry(row.structured, row.columns)
    requires forall r :: r in records ==> r.id in extracted && extracted[r.id] == Entry(r.structured, r.columns)
    requires forall k :: k in table ==> exists row :: row in rows && SourceId(row) == k
    requires forall k :: k in extracted ==> exists r :: r in records && r.id == k
    ensures Contents(table) == Contents(extracted) <==> SameContent(records, rows)
    ensures ColumnsOf(table) == ColumnsOf(extracted) <==> SameColumns(records, rows)
  {
    PartsCompared(table, extracted);
  }

  /** A plan is refused for the first of these that applies: no records or one without
      identity, a repeated one, one that is not its source's, a repeated row, a row
      without identity, and, unless the table is empty, rows other than the records',
      other contents, or other columns. */
  lemma RefusedFor(records: seq<Record>, rows: seq<TableRow>)
    ensures PlanOf(records, rows) ==
            if records == [] || !(forall r :: r in records ==> r.id != "") then Err(NoSourceId)
            else if !Told(RecordId, records) then Err(DuplicateIds)
            else if !(forall r :: r in records ==> r.structured.sourceRowId == r.id) then Err(ProvenanceMismatch)
            else if !Told(SourceId, rows) then Err(DuplicateExisting)
            else if !(forall row :: row in rows ==> SourceId(row) != "") then Err(NoProvenance)
            else if rows == [] then Ok(InsertRows)
            else if !SameRows(records, rows) then Err(RowsDiffer)
            else if !SameContent(records, rows) then Err(ContentDiffers)
            else if !SameColumns(records, rows) then Err(ColumnsDiffer)
            else Ok(AlreadyPresent)
  {
    hide FilterMap, RowTable, RecordTable, Told, SameRows, SameContent, SameColumns, Contents, ColumnsOf;
    ToldApart(records, rows);
    if Told(RecordId, records) && Told(SourceId, rows) &&
       forall r :: r in records ==> r.structured.sourceRowId == r.id
    {
      TablesCompared(records, rows);
    }
  }

  // ----- insert, then check again

  datatype RepairError = Planning(error: PlanError) | WrongCount | NotIdempotent

  /** What the database does: how many rows it reports as inserted, and the table
      that is read afterwards. */
  datatype Database = Database(inserted: nat, rows: seq<TableRow>)

  /** The database stored every record, in any order. */
  predicate Stored(records: seq<Record>, db: Database) {
    db.inserted == |records| && multiset(db.rows) == multiset(RowsOf(records))
  }

  /** The repair of an identified document. */
  method Repair(records: seq<Record>, rows: seq<TableRow>, execute: bool, db: Database)
    returns (r: Result<Action, RepairError>)
    ensures r.Ok? && execute ==>
              r.value.AlreadyPresent? && RecordsFit(records) &&
              (multiset(rows) == multiset(RowsOf(records)) ||
               (rows == [] && multiset(db.rows) == multiset(RowsOf(records))))
    ensures r.Ok? && !execute ==> PlanOf(records, rows) == Ok(r.value)
    ensures execute && RecordsFit(records) && rows == [] && Stored(records, db) ==> r == Ok(AlreadyPresent)
    ensures RecordsFit(records) && multiset(rows) == multiset(RowsOf(records)) ==> r == Ok(AlreadyPresent)
  {
    hide PlanOf;
    InsertsOnlyIntoEmpty(records, rows);
    PresentExactly(records, rows);
    PresentExactly(records, db.rows);
    var plan := BuildRepairPlan(records, rows);
    if plan.Err? {
      return Err(Planning(plan.error));
    }
    if execute && plan.value.InsertRows? {
      if db.inserted != |records| {
        return Err(WrongCount);
      }
      plan := BuildRepairPlan(records, db.rows);
      if plan.Err? {
        return Err(Planning(plan.error));
      }
      if !plan.value.AlreadyPresent? {
        return Err(NotIdempotent);
      }
    }
    r := Ok(plan.value);
  }
}
