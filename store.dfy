/**
  The record store: one CSV file of screening records. The file is a
  header line and data lines of cells; a `RecordFile` holds its current
  contents, and the operations are those of `utils/csv_helpers.py`
  (and the older copies in `app.py`):

  - `ReadRecords`: the table as `pandas.read_csv(dtype=str).fillna("")` gives it;
  - `NextId`: the next auto-increment id, read through `csv.DictReader`;
  - `FindByFicha`: the first row whose trimmed `ficha_id` equals the trimmed query;
  - `RecordFile.Save`: append one row through `csv.DictWriter`;
  - `RecordFile.Update`: set named columns of every row with a given id, then rewrite the file.
 */
module Store {
  import opened Strings
  import opened Constants

  /**
    The file on disk: whether it exists, its header and its data lines.
    A line is never `[]`: `csv` skips blank text lines, so they are not
    lines here.
   */
  datatype CsvFile = CsvFile(present: bool, header: seq<string>, lines: seq<seq<string>>)

  /** A table read into memory: its columns and one map per row. */
  datatype Frame = Frame(columns: seq<string>, rows: seq<map<string, string>>)

  /** Every row holds exactly the table's columns. */
  predicate WellFormed(fr: Frame) {
    forall i :: 0 <= i < |fr.rows| ==> fr.rows[i].Keys == set c | c in fr.columns
  }

  /** Index of the first `x` in `xs`, or `|xs|` when there is none. */
  function Position<T(==)>(xs: seq<T>, x: T): (k: nat)
    ensures k <= |xs| && (k < |xs| <==> x in xs)
    ensures k < |xs| ==> xs[k] == x
    ensures forall i :: 0 <= i < k ==> xs[i] != x
  {
    if xs == [] then 0 else if xs[0] == x then 0 else 1 + Position(xs[1..], x)
  }

  /** The cell texts pandas reads as missing (its default `na_values`). */
  const NaSpellings: set<string> := {
    "", "#N/A", "#N/A N/A", "#NA", "-1.#IND", "-1.#QNAN", "-NaN", "-nan", "1.#IND", "1.#QNAN",
    "<NA>", "N/A", "NA", "NULL", "NaN", "None", "n/a", "nan", "null"
  }

  /** A cell after `fillna("")`: a missing value becomes the empty string. */
  function Fill(v: string): (r: string)
    ensures r == "" || r !in NaSpellings
    ensures v !in NaSpellings ==> r == v
  {
    if v in NaSpellings then "" else v
  }

  /** The cell of column `c` in `line`, as pandas reads it; a short line reads as "" there. */
  function CellOf(header: seq<string>, line: seq<string>, c: string): string {
    var j := Position(header, c);
    if j < |line| then Fill(line[j]) else ""
  }

  function ReadRow(header: seq<string>, line: seq<string>): (r: map<string, string>)
    ensures r.Keys == set c | c in header
  {
    map c | c in header :: CellOf(header, line, c)
  }

  /** `leer_registros()`. */
  function ReadRecords(f: CsvFile): (r: Frame)
    ensures WellFormed(r)
    ensures !f.present ==> r == Frame(FieldNames, [])
    ensures f.present ==> r.columns == f.header && |r.rows| == |f.lines|
    ensures f.present ==> forall i :: 0 <= i < |f.lines| ==> r.rows[i] == ReadRow(f.header, f.lines[i])
  {
    if !f.present then Frame(FieldNames, [])
    else Frame(f.header, seq(|f.lines|, i requires 0 <= i < |f.lines| => ReadRow(f.header, f.lines[i])))
  }

  /** Where the header names each column once, a read cell is the line's cell, or "" past its end. */
  lemma ReadCell(header: seq<string>, line: seq<string>, j: nat)
    requires j < |header| && forall i :: 0 <= i < j ==> header[i] != header[j]
    ensures ReadRow(header, line)[header[j]] == if j < |line| then Fill(line[j]) else ""
  {
    assert Position(header, header[j]) == j;
  }

  // ---------------------------------------------------------------- next id

  /**
    The id `csv.DictReader` gives `int(r.get(key, 0))` for a line: 0 when the
    header lacks the key, nothing when the line stops short of it (`int(None)`
    raises) or its text is not an integer.
   */
  function IdOf(header: seq<string>, line: seq<string>, key: string): Option<int> {
    var j := Position(header, key);
    if j == |header| then Some(0)
    else if j < |line| then ParseInt(line[j])
    else None
  }

  /** The id of every line, in file order. */
  function Ids(header: seq<string>, lines: seq<seq<string>>, key: string): (r: seq<Option<int>>)
    ensures |r| == |lines| && forall i :: 0 <= i < |lines| ==> r[i] == IdOf(header, lines[i], key)
  {
    seq(|lines|, i requires 0 <= i < |lines| => IdOf(header, lines[i], key))
  }

  /** `max(...)` over the ids, or nothing when one of them is missing (`int` raised). */
  function MaxOf(ids: seq<Option<int>>): (r: Option<int>)
    requires ids != []
    ensures r.Some? <==> forall i :: 0 <= i < |ids| ==> ids[i].Some?
    ensures r.Some? ==> forall i :: 0 <= i < |ids| ==> ids[i].value <= r.value
    ensures r.Some? ==> exists i :: 0 <= i < |ids| && ids[i] == r
  {
    if |ids| == 1 then ids[0]
    else
      var rest := MaxOf(ids[1..]);
      assert forall i :: 1 <= i < |ids| ==> ids[i] == ids[1..][i - 1];
      if ids[0].Some? && rest.Some? then
        Some(if ids[0].value >= rest.value then ids[0].value else rest.value)
      else None
  }

  /** `next_id()` with the id column named `key` ("id" in the utilities, "Id" in `app.py`). */
  function NextId(f: CsvFile, key: string): (r: int)
    ensures !f.present || f.lines == [] ==> r == 1
    ensures f.present && f.lines != [] && MaxOf(Ids(f.header, f.lines, key)).Some? ==>
            r == MaxOf(Ids(f.header, f.lines, key)).value + 1
    ensures f.present && f.lines != [] && MaxOf(Ids(f.header, f.lines, key)).None? ==> r == |f.lines| + 1
  {
    if !f.present || f.lines == [] then 1
    else match MaxOf(Ids(f.header, f.lines, key))
      case Some(m) => m + 1
      case None => |f.lines| + 1
  }

  /** When every line has an id, the next id is larger than all of them. */
  lemma NextIdFresh(f: CsvFile, key: string)
    requires f.present && forall i :: 0 <= i < |f.lines| ==> IdOf(f.header, f.lines[i], key).Some?
    ensures forall i :: 0 <= i < |f.lines| ==> IdOf(f.header, f.lines[i], key).value < NextId(f, key)
  {
  }

  /** A header without the key gives every line id 0, so the next id is always 1. */
  lemma NextIdMissingKey(f: CsvFile, key: string)
    requires key !in f.header
    ensures NextId(f, key) == 1
  {
    if f.present && f.lines != [] {
      var ids := Ids(f.header, f.lines, key);
      assert forall i :: 0 <= i < |ids| ==> ids[i] == Some(0);
      var i :| 0 <= i < |ids| && ids[i] == MaxOf(ids);
    }
  }

  /**
    The fallback `row_count + 1` can hand out an id already in use: with
    one unreadable id among three lines, a line holding id 4 gets 4 again.
   */
  lemma NextIdFallbackCollides(header: seq<string>, a: seq<string>, b: seq<string>, c: seq<string>)
    requires header == ["id"] && a == ["4"] && b == ["x"] && c == ["1"]
    ensures NextId(CsvFile(true, header, [a, b, c]), "id") == 4
    ensures IdOf(header, a, "id") == Some(4)
  {
    IdFour(header, a);
    IdUnreadable(header, b);
    var lines := [a, b, c];
    assert lines[1] == b;
    NextIdUnreadable(CsvFile(true, header, lines), "id", 1);
  }

  /** One line without a readable id sends `next_id()` to the fallback `row_count + 1`. */
  lemma NextIdUnreadable(f: CsvFile, key: string, j: nat)
    requires f.present && j < |f.lines| && IdOf(f.header, f.lines[j], key).None?
    ensures NextId(f, key) == |f.lines| + 1
  {
    assert Ids(f.header, f.lines, key)[j].None?;
  }

  /** The line ["4"] under the header ["id"] has id 4. */
  lemma IdFour(header: seq<string>, a: seq<string>)
    requires header == ["id"] && a == ["4"]
    ensures IdOf(header, a, "id") == Some(4)
  {
    assert Position(header, "id") == 0;
    ParseIntOfIntToString(4);
    assert IntToString(4) == a[0];
  }

  /** The line ["x"] under the header ["id"] has no id. */
  lemma IdUnreadable(header: seq<string>, b: seq<string>)
    requires header == ["id"] && b == ["x"]
    ensures IdOf(header, b, "id").None?
  {
    assert Position(header, "id") == 0;
    StripUntrimmed(b[0]);
    assert !AllDigits(b[0]);
  }

  lemma {:induction false} MaxOfAppend(ids: seq<Option<int>>, n: int)
    requires ids != [] && MaxOf(ids).Some?
    ensures MaxOf(ids + [Some(n)]).Some?
    ensures var m := MaxOf(ids).value; MaxOf(ids + [Some(n)]).value == if m >= n then m else n
  {
    var all := ids + [Some(n)];
    assert forall i :: 0 <= i < |ids| ==> all[i] == ids[i];
    assert all[|ids|] == Some(n);
    var m := MaxOf(ids).value;
    var r := MaxOf(all).value;
    var big := if m >= n then m else n;
    assert r >= big by {
      var i :| 0 <= i < |ids| && ids[i] == Some(m);
      assert all[i] == Some(m);
    }
    var i :| 0 <= i < |all| && all[i] == Some(r);
    if i < |ids| {
      assert ids[i].value <= m;
    }
  }

  /**
    Saving a row that carries the next id moves the next id on by exactly
    one: from 1 to 2 for a missing or empty file, from the maximum plus one
    to the new id plus one, and from `row_count + 1` to `row_count + 2`
    while an unreadable id stays in the file.
   */
  lemma NextIdAfterSave(f: CsvFile, key: string, row: map<string, string>, fields: seq<string>)
    requires f.present ==> f.header == fields
    requires key in fields && row.Keys <= set c | c in fields
    requires key in row && row[key] == IntToString(NextId(f, key))
    ensures NextId(Saved(f, row, fields), key) == NextId(f, key) + 1
  {
    var n := NextId(f, key);
    var line := Line(fields, row);
    var j := Position(fields, key);
    assert line[j] == row[key];
    ParseIntOfIntToString(n);
    assert IdOf(fields, line, key) == Some(n);
    assert Writable(row, fields);
    var old_lines := if f.present then f.lines else [];
    var g := Saved(f, row, fields);
    assert g.header == fields && g.lines == old_lines + [line];
    IdsAppend(fields, old_lines, line, key);
    if old_lines == [] {
      assert Ids(fields, g.lines, key) == [Some(n)];
    } else if MaxOf(Ids(fields, old_lines, key)).Some? {
      MaxOfAppend(Ids(fields, old_lines, key), n);
    } else {
      var i :| 0 <= i < |old_lines| && Ids(fields, old_lines, key)[i].None?;
      assert g.lines[i] == old_lines[i];
      NextIdUnreadable(g, key, i);
    }
  }

  lemma IdsAppend(header: seq<string>, lines: seq<seq<string>>, line: seq<string>, key: string)
    ensures Ids(header, lines + [line], key) == Ids(header, lines, key) + [IdOf(header, line, key)]
  {
    var all := lines + [line];
    assert forall i :: 0 <= i < |lines| ==> all[i] == lines[i];
  }

  // ------------------------------------------------------------ find by ficha

  /** The outcome of `buscar_por_ficha`: a row, `None`, or the `KeyError` of a table without the column. */
  datatype Lookup = NotFound | Found(row: map<string, string>) | MissingColumn

  const FichaColumn: string := "ficha_id"

  predicate FichaMatches(row: map<string, string>, q: string) {
    FichaColumn in row && Strip(row[FichaColumn]) == q
  }

  /** Index of the first row from `k` on whose trimmed ficha is `q`, or `|rows|`. */
  function FichaIndex(rows: seq<map<string, string>>, q: string, k: nat): (i: nat)
    requires k <= |rows|
    ensures k <= i <= |rows|
    ensures i < |rows| ==> FichaMatches(rows[i], q)
    ensures forall j :: k <= j < i ==> !FichaMatches(rows[j], q)
    decreases |rows| - k
  {
    if k == |rows| then k
    else if FichaMatches(rows[k], q) then k
    else FichaIndex(rows, q, k + 1)
  }

  /** `df.empty`: no rows, or no columns. */
  predicate IsEmpty(fr: Frame) {
    |fr.rows| == 0 || |fr.columns| == 0
  }

  /** `buscar_por_ficha(ficha)` on the file's current contents. */
  function FindByFicha(f: CsvFile, ficha: string): (r: Lookup)
    ensures var fr := ReadRecords(f);
            r.MissingColumn? <==> !IsEmpty(fr) && FichaColumn !in fr.columns
    ensures var fr := ReadRecords(f);
            r.Found? ==> exists i :: 0 <= i < |fr.rows| && r.row == fr.rows[i] && FichaMatches(fr.rows[i], Strip(ficha))
                                    && forall j :: 0 <= j < i ==> !FichaMatches(fr.rows[j], Strip(ficha))
    ensures var fr := ReadRecords(f);
            r.NotFound? <==> IsEmpty(fr) || (FichaColumn in fr.columns && forall i :: 0 <= i < |fr.rows| ==> !FichaMatches(fr.rows[i], Strip(ficha)))
  {
    var fr := ReadRecords(f);
    if IsEmpty(fr) then NotFound
    else if FichaColumn !in fr.columns then MissingColumn
    else
      var i := FichaIndex(fr.rows, Strip(ficha), 0);
      if i < |fr.rows| then Found(fr.rows[i]) else NotFound
  }

  // ------------------------------------------------------------------ saving

  /** The cells `csv.DictWriter(fieldnames=fields)` writes for `row`; a missing key writes "". */
  function Line(fields: seq<string>, row: map<string, string>): (l: seq<string>)
    ensures |l| == |fields|
    ensures forall j :: 0 <= j < |fields| ==> l[j] == if fields[j] in row then row[fields[j]] else ""
  {
    seq(|fields|, j requires 0 <= j < |fields| => if fields[j] in row then row[fields[j]] else "")
  }

  /** `writerow` raises `ValueError` for a key outside the field list. */
  predicate Writable(row: map<string, string>, fields: seq<string>) {
    row.Keys <= set c | c in fields
  }

  /**
    The file after `guardar_registro(row)` with the writer's field list:
    it exists; a new file starts empty with the field list as its header,
    an existing one keeps its header; the row is appended when it is writable.
   */
  function Saved(f: CsvFile, row: map<string, string>, fields: seq<string>): (g: CsvFile)
    ensures g.present && g.header == (if f.present then f.header else fields)
    ensures var old_lines := if f.present then f.lines else [];
            g.lines == old_lines + (if Writable(row, fields) then [Line(fields, row)] else [])
  {
    var old_lines := if f.present then f.lines else [];
    CsvFile(true, if f.present then f.header else fields,
            old_lines + if Writable(row, fields) then [Line(fields, row)] else [])
  }

  /** Saving a writable row adds one row at the end of the table and leaves the earlier rows alone. */
  lemma SaveAppends(f: CsvFile, row: map<string, string>, fields: seq<string>)
    requires f.present ==> f.header == fields
    requires Writable(row, fields)
    ensures var before := ReadRecords(f).rows; var after := ReadRecords(Saved(f, row, fields)).rows;
            |after| == |before| + 1 && after[..|before|] == before
    ensures var after := ReadRecords(Saved(f, row, fields)).rows;
            after[|after| - 1] == ReadRow(fields, Line(fields, row))
    ensures ReadRecords(Saved(f, row, fields)).columns == fields
  {
    var g := Saved(f, row, fields);
    var before := ReadRecords(f).rows;
    var after := ReadRecords(g).rows;
    if f.present {
      forall i | 0 <= i < |before| ensures after[i] == before[i] {
        assert g.lines[i] == f.lines[i];
      }
    }
  }

  /** The row read back holds every cell that was saved, and "" for the fields the row lacked. */
  lemma LineReadsBack(row: map<string, string>, fields: seq<string>)
    requires forall c :: c in row ==> row[c] !in NaSpellings
    ensures forall c :: c in fields ==> ReadRow(fields, Line(fields, row))[c] == if c in row then row[c] else ""
  {
    var line := Line(fields, row);
    forall c | c in fields ensures ReadRow(fields, line)[c] == if c in row then row[c] else "" {
      var j := Position(fields, c);
      ReadCell(fields, line, j);
    }
  }

  /**
    After saving a writable row into a file with that header, looking up the
    row's ficha finds it, unless an earlier row already holds that ficha.
   */
  lemma SaveThenFind(f: CsvFile, row: map<string, string>, fields: seq<string>)
    requires f.present ==> f.header == fields
    requires Writable(row, fields) && FichaColumn in row
    requires forall c :: c in row ==> row[c] !in NaSpellings
    requires forall i :: 0 <= i < |ReadRecords(f).rows| ==> !FichaMatches(ReadRecords(f).rows[i], Strip(row[FichaColumn]))
    ensures var after := ReadRecords(Saved(f, row, fields)).rows;
            FindByFicha(Saved(f, row, fields), row[FichaColumn]) == Found(after[|after| - 1])
  {
    SaveAppends(f, row, fields);
    SavedRowMatches(row, fields);
    assert FichaColumn in fields;
    FoundLast(Saved(f, row, fields), row[FichaColumn], ReadRecords(f).rows);
  }

  /** A table that ends in a matching row after rows that do not match finds that last row. */
  lemma FoundLast(g: CsvFile, ficha: string, before: seq<map<string, string>>)
    requires var after := ReadRecords(g).rows; |after| == |before| + 1 && after[..|before|] == before
    requires FichaColumn in ReadRecords(g).columns
    requires FichaMatches(ReadRecords(g).rows[|before|], Strip(ficha))
    requires forall i :: 0 <= i < |before| ==> !FichaMatches(before[i], Strip(ficha))
    ensures var after := ReadRecords(g).rows; FindByFicha(g, ficha) == Found(after[|after| - 1])
  {
    var after := ReadRecords(g).rows;
    forall j | 0 <= j < |before| ensures !FichaMatches(after[j], Strip(ficha)) {
      assert after[j] == after[..|before|][j];
    }
    FoundAt(g, ficha, |before|);
  }

  /** The saved row, read back, matches its own ficha. */
  lemma SavedRowMatches(row: map<string, string>, fields: seq<string>)
    requires Writable(row, fields) && FichaColumn in row
    requires forall c :: c in row ==> row[c] !in NaSpellings
    ensures FichaMatches(ReadRow(fields, Line(fields, row)), Strip(row[FichaColumn]))
  {
    LineReadsBack(row, fields);
    assert FichaColumn in fields;
  }

  /** A matching row with no match before it, in a table with the ficha column, is the one found. */
  lemma FoundAt(g: CsvFile, ficha: string, k: nat)
    requires k < |ReadRecords(g).rows| && FichaColumn in ReadRecords(g).columns
    requires FichaMatches(ReadRecords(g).rows[k], Strip(ficha))
    requires forall j :: 0 <= j < k ==> !FichaMatches(ReadRecords(g).rows[j], Strip(ficha))
    ensures FindByFicha(g, ficha) == Found(ReadRecords(g).rows[k])
  {
    var rows := ReadRecords(g).rows;
    assert FichaIndex(rows, Strip(ficha), 0) == k;
  }

  // ---------------------------------------------------------------- updating

  /** `campos` is a dictionary: no column is named twice. */
  predicate DistinctKeys(campos: seq<(string, string)>) {
    forall i, j :: 0 <= i < j < |campos| ==> campos[i].0 != campos[j].0
  }

  /** One row after the assignments of `campos` to the columns the table has, in order. */
  function Assign(row: map<string, string>, campos: seq<(string, string)>, columns: seq<string>): map<string, string>
    decreases |campos|
  {
    if campos == [] then row
    else
      var before := Assign(row, campos[..|campos| - 1], columns);
      var (c, v) := campos[|campos| - 1];
      if c in columns then before[c := v] else before
  }

  /** The row has the id: `df["id"].astype(str) == str(id_registro)`. */
  predicate IdMatches(row: map<string, string>, id: int) {
    "id" in row && row["id"] == IntToString(id)
  }

  /** The table after `actualizar_registro(id, campos)`; the mask is taken before any assignment. */
  function Updated(fr: Frame, id: int, campos: seq<(string, string)>): Frame {
    Frame(fr.columns, seq(|fr.rows|, i requires 0 <= i < |fr.rows| =>
      if IdMatches(fr.rows[i], id) then Assign(fr.rows[i], campos, fr.columns) else fr.rows[i]))
  }

  /** `df.to_csv(index=False)`: the columns as header, each row's cells in column order. */
  function Written(fr: Frame): (f: CsvFile)
    requires WellFormed(fr)
    ensures f.present && f.header == fr.columns && |f.lines| == |fr.rows|
  {
    CsvFile(true, fr.columns, seq(|fr.rows|, i requires 0 <= i < |fr.rows| =>
      seq(|fr.columns|, j requires 0 <= j < |fr.columns| => fr.rows[i][fr.columns[j]])))
  }

  lemma {:induction false} AssignKeys(row: map<string, string>, campos: seq<(string, string)>, columns: seq<string>)
    requires row.Keys == set c | c in columns
    ensures Assign(row, campos, columns).Keys == row.Keys
    decreases |campos|
  {
    if campos != [] {
      AssignKeys(row, campos[..|campos| - 1], columns);
    }
  }

  /** A column the assignments do not name keeps its value. */
  lemma {:induction false} AssignOther(row: map<string, string>, campos: seq<(string, string)>, columns: seq<string>, c: string)
    requires c in row
    requires forall k :: 0 <= k < |campos| ==> campos[k].0 != c
    ensures c in Assign(row, campos, columns) && Assign(row, campos, columns)[c] == row[c]
    decreases |campos|
  {
    if campos != [] {
      AssignOther(row, campos[..|campos| - 1], columns, c);
    }
  }

  /** A named column that exists ends up with its assigned value. */
  lemma {:induction false} AssignNamed(row: map<string, string>, campos: seq<(string, string)>, columns: seq<string>, k: nat)
    requires k < |campos| && DistinctKeys(campos) && campos[k].0 in columns
    ensures campos[k].0 in Assign(row, campos, columns) && Assign(row, campos, columns)[campos[k].0] == campos[k].1
    decreases |campos|
  {
    var last := |campos| - 1;
    var init := campos[..last];
    if k < last {
      assert init[k] == campos[k];
      AssignNamed(row, init, columns, k);
    }
  }

  lemma {:induction false} AssignPrefix(row: map<string, string>, campos: seq<(string, string)>, columns: seq<string>, k: nat)
    requires k < |campos|
    ensures Assign(row, campos[..k + 1], columns) ==
            (var before := Assign(row, campos[..k], columns);
             if campos[k].0 in columns then before[campos[k].0 := campos[k].1] else before)
  {
    assert campos[..k + 1][..k] == campos[..k];
  }

  /**
    Updating by id keeps the columns, the row count and order, and every row
    without the id; in a row with the id, every named column that exists
    takes its new value and every other column keeps its old one.
   */
  lemma UpdateIsolation(fr: Frame, id: int, campos: seq<(string, string)>)
    requires WellFormed(fr) && DistinctKeys(campos)
    ensures var u := Updated(fr, id, campos); u.columns == fr.columns && |u.rows| == |fr.rows| && WellFormed(u)
    ensures var u := Updated(fr, id, campos);
            forall i :: 0 <= i < |fr.rows| && !IdMatches(fr.rows[i], id) ==> u.rows[i] == fr.rows[i]
    ensures var u := Updated(fr, id, campos);
            forall i, k :: 0 <= i < |fr.rows| && IdMatches(fr.rows[i], id) && 0 <= k < |campos| && campos[k].0 in fr.columns
                           ==> u.rows[i][campos[k].0] == campos[k].1
    ensures var u := Updated(fr, id, campos);
            forall i, c :: 0 <= i < |fr.rows| && c in fr.rows[i] && (forall k :: 0 <= k < |campos| ==> campos[k].0 != c)
                           ==> c in u.rows[i] && u.rows[i][c] == fr.rows[i][c]
  {
    var u := Updated(fr, id, campos);
    forall i | 0 <= i < |fr.rows| ensures u.rows[i].Keys == fr.rows[i].Keys {
      AssignKeys(fr.rows[i], campos, fr.columns);
    }
    forall i, k | 0 <= i < |fr.rows| && IdMatches(fr.rows[i], id) && 0 <= k < |campos| && campos[k].0 in fr.columns
      ensures u.rows[i][campos[k].0] == campos[k].1
    {
      AssignNamed(fr.rows[i], campos, fr.columns, k);
    }
    forall i, c | 0 <= i < |fr.rows| && c in fr.rows[i] && (forall k :: 0 <= k < |campos| ==> campos[k].0 != c)
      ensures c in u.rows[i] && u.rows[i][c] == fr.rows[i][c]
    {
      AssignOther(fr.rows[i], campos, fr.columns, c);
    }
  }

  /** Rewriting a read table and reading it again gives the same table, with missing cells already "". */
  lemma WrittenThenRead(fr: Frame)
    requires WellFormed(fr)
    requires forall i, c :: 0 <= i < |fr.rows| && c in fr.rows[i] ==> fr.rows[i][c] !in NaSpellings || fr.rows[i][c] == ""
    ensures ReadRecords(Written(fr)) == fr
  {
    var f := Written(fr);
    var r := ReadRecords(f);
    forall i | 0 <= i < |fr.rows| ensures r.rows[i] == fr.rows[i] {
      forall c | c in fr.columns ensures r.rows[i][c] == fr.rows[i][c] {
        var j := Position(fr.columns, c);
        ReadCell(fr.columns, f.lines[i], j);
      }
    }
  }

  // ------------------------------------------------------------- the file

  /** The CSV file at the store's path, shared by every writer. */
  class RecordFile {
    var present: bool
    var header: seq<string>
    var lines: seq<seq<string>>

    function Contents(): CsvFile
      reads this
    {
      CsvFile(present, header, lines)
    }

    /** No file yet. */
    constructor Absent()
      ensures Contents() == CsvFile(false, [], [])
    {
      present := false;
      header := [];
      lines := [];
    }

    /** A file already on disk. */
    constructor Existing(header: seq<string>, lines: seq<seq<string>>)
      ensures Contents() == CsvFile(true, header, lines)
    {
      present := true;
      this.header := header;
      this.lines := lines;
    }

    /**
      `guardar_registro(row)`: opening in append mode creates the file, the
      header goes in only when the file is new, and `writerow` appends the row
      or raises `ValueError` (reported as `ok == false`) for a key outside
      `fields`.
     */
    method Save(row: map<string, string>, fields: seq<string>) returns (ok: bool)
      modifies this
      ensures ok <==> Writable(row, fields)
      ensures present && header == (if old(present) then old(header) else fields)
      ensures var before := if old(present) then old(lines) else [];
              lines == before + (if ok then [Line(fields, row)] else [])
      ensures Contents() == Saved(old(Contents()), row, fields)
    {
      if !present {
        present, header, lines := true, fields, [];
      }
      ok := Writable(row, fields);
      if ok {
        lines := lines + [Line(fields, row)];
      }
    }

    /**
      `actualizar_registro(id, campos)`: read the table, take the mask of rows
      with the id, assign each named column that exists on those rows, then
      rewrite the whole file. A table without an `id` column raises `KeyError`
      (reported as `ok == false`) and the file is left alone.
     */
    method Update(id: int, campos: seq<(string, string)>) returns (ok: bool)
      requires DistinctKeys(campos)
      modifies this
      ensures var fr := ReadRecords(old(Contents())); ok <==> "id" in fr.columns
      ensures !ok ==> Contents() == old(Contents())
      ensures ok ==> WellFormed(Updated(ReadRecords(old(Contents())), id, campos))
                     && Contents() == Written(Updated(ReadRecords(old(Contents())), id, campos))
    {
      var fr := ReadRecords(Contents());
      if "id" !in fr.columns {
        return false;
      }
      var mask := seq(|fr.rows|, i requires 0 <= i < |fr.rows| => IdMatches(fr.rows[i], id));
      var rows := fr.rows;
      for k := 0 to |campos|
        invariant |rows| == |fr.rows|
        invariant forall i :: 0 <= i < |rows| ==>
                    rows[i] == if mask[i] then Assign(fr.rows[i], campos[..k], fr.columns) else fr.rows[i]
      {
        var (c, v) := campos[k];
        if c in fr.columns {
          rows := seq(|rows|, i requires 0 <= i < |rows| => if mask[i] then rows[i][c := v] else rows[i]);
        }
        forall i | 0 <= i < |rows| && mask[i]
          ensures rows[i] == Assign(fr.rows[i], campos[..k + 1], fr.columns)
        {
          AssignPrefix(fr.rows[i], campos, fr.columns, k);
        }
      }
      assert campos[..|campos|] == campos;
      var u := Frame(fr.columns, rows);
      assert u == Updated(fr, id, campos);
      UpdateIsolation(fr, id, campos);
      var g := Written(u);
      present, header, lines := g.present, g.header, g.lines;
      ok := true;
    }
  }

}
