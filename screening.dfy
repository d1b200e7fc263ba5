/**
  Screening rules of the dashboard and the intake form: the derived
  `sospecha` / `confirmado` flags of `load_data`, the rule that asks for a
  second sample, the confirmation rate, and the sidebar filters that narrow
  the table step by step.
 */
module Screening {
  import opened Strings
  import opened Constants
  import Validators
  import Store

  /** One screened newborn as the dashboard sees it after `load_data`; `None` is a missing (NaN) cell. */
  datatype Case = Case(
    tsh1: real, tsh2: real,
    birthYear: Option<int>, sexo: Option<string>, prematuro: Option<bool>,
    tipoMuestra: Option<string>, departamento: Option<string>, ciudad: Option<string>)
  {
    /** `sospecha_hipotiroidismo`: the first sample at or above the cutoff. */
    predicate Suspected() {
      tsh1 >= TshCutoff
    }

    /** `confirmado_hipotiroidismo`: both samples at or above the cutoff. */
    predicate Confirmed() {
      tsh1 >= TshCutoff && tsh2 >= TshCutoff
    }
  }

  /** A confirmed case is always a suspected one. */
  lemma ConfirmedIsSuspected(c: Case)
    ensures c.Confirmed() ==> c.Suspected()
    ensures c.Suspected() && c.tsh2 >= TshCutoff ==> c.Confirmed()
  {
  }

  // ---------------------------------------------------------------- loading

  /**
    `pd.to_numeric(..., errors="coerce").fillna(0)` on one cell of a column
    the table has (a table without the column is `LoadTable`'s case).
   */
  function Numeric(row: map<string, string>, col: string): (v: real)
    requires col in row
    ensures ParseFloat(row[col]).Some? ==> v == ParseFloat(row[col]).value
    ensures ParseFloat(row[col]).None? ==> v == 0.0
  {
    match ParseFloat(row[col])
    case Some(x) => x
    case None => 0.0
  }

  /** A text cell, or `None` for a missing column or a cell pandas reads as NaN. */
  function TextCell(row: map<string, string>, col: string): (r: Option<string>)
    ensures r.Some? <==> col in row && row[col] !in Store.NaSpellings
    ensures r.Some? ==> r.value == row[col]
  {
    if col in row && row[col] !in Store.NaSpellings then Some(row[col]) else None
  }

  /** `map({"VERDADERO": True, "FALSO": False})` on one cell; anything else is NaN. */
  function Flag(row: map<string, string>, col: string): (r: Option<bool>)
    ensures r == Some(true) <==> col in row && row[col] == "VERDADERO"
    ensures r == Some(false) <==> col in row && row[col] == "FALSO"
  {
    if col in row && row[col] == "VERDADERO" then Some(true)
    else if col in row && row[col] == "FALSO" then Some(false)
    else None
  }

  /**
    One dataset row as `load_data` leaves it. The year of a birth date goes
    through `yearOf`, which stands for `pd.to_datetime(errors="coerce")`.
   */
  function LoadCase(row: map<string, string>, yearOf: string -> Option<int>): (c: Case)
    requires "tsh_neonatal" in row && "resultado_muestra_2" in row
    ensures c.tsh1 == Numeric(row, "tsh_neonatal") && c.tsh2 == Numeric(row, "resultado_muestra_2")
    ensures c.Suspected() <==> Numeric(row, "tsh_neonatal") >= TshCutoff
    ensures c.Confirmed() <==> Numeric(row, "tsh_neonatal") >= TshCutoff && Numeric(row, "resultado_muestra_2") >= TshCutoff
    ensures c.prematuro == Flag(row, "prematuro")
  {
    Case(Numeric(row, "tsh_neonatal"), Numeric(row, "resultado_muestra_2"),
         if "fecha_nacimiento" in row then yearOf(row["fecha_nacimiento"]) else None,
         TextCell(row, "sexo"), Flag(row, "prematuro"), TextCell(row, "tipo_muestra"),
         TextCell(row, "departamento"), TextCell(row, "ciudad"))
  }

  /** An unreadable TSH cell counts as 0, so such a row is never suspected or confirmed. */
  lemma UnreadableTshIsNormal(row: map<string, string>, yearOf: string -> Option<int>)
    requires "tsh_neonatal" in row && "resultado_muestra_2" in row
    requires ParseFloat(row["tsh_neonatal"]).None?
    ensures LoadCase(row, yearOf).tsh1 == 0.0
    ensures !LoadCase(row, yearOf).Suspected() && !LoadCase(row, yearOf).Confirmed()
  {
  }

  /**
    `load_data` on a table as `pd.read_csv` gives it. Without either TSH
    column `df.get(col, 0)` yields the number 0, calling `fillna` on it
    raises, and the `except` returns an empty table; otherwise every row
    is loaded in order.
   */
  function LoadTable(fr: Store.Frame, yearOf: string -> Option<int>): (cases: seq<Case>)
    requires Store.WellFormed(fr)
    ensures "tsh_neonatal" !in fr.columns || "resultado_muestra_2" !in fr.columns ==> cases == []
    ensures "tsh_neonatal" in fr.columns && "resultado_muestra_2" in fr.columns ==>
              |cases| == |fr.rows| &&
              forall i :: 0 <= i < |fr.rows| ==> cases[i] == LoadCase(fr.rows[i], yearOf)
  {
    if "tsh_neonatal" in fr.columns && "resultado_muestra_2" in fr.columns then
      seq(|fr.rows|, i requires 0 <= i < |fr.rows| => LoadCase(fr.rows[i], yearOf))
    else []
  }

  /**
    In a loaded table a row is suspected exactly when its first TSH cell
    reads as a number of at least 15, and confirmed exactly when both
    cells do; an unreadable cell never raises a flag.
   */
  lemma LoadTableFlags(fr: Store.Frame, yearOf: string -> Option<int>, i: nat)
    requires Store.WellFormed(fr) && i < |LoadTable(fr, yearOf)|
    ensures var row := fr.rows[i]; var c := LoadTable(fr, yearOf)[i];
            var t1 := ParseFloat(row["tsh_neonatal"]); var t2 := ParseFloat(row["resultado_muestra_2"]);
            (c.Suspected() <==> t1.Some? && t1.value >= TshCutoff) &&
            (c.Confirmed() <==> t1.Some? && t1.value >= TshCutoff && t2.Some? && t2.value >= TshCutoff)
  {
    var row := fr.rows[i];
    assert "tsh_neonatal" in row && "resultado_muestra_2" in row;
  }

  // ------------------------------------------------------ the second sample

  /**
    `necesita_m2`: the first TSH, with commas as dots, reads as a number at
    or above the cutoff. A blank or unreadable value never asks for it.
   */
  predicate NeedsSecondSample(tsh1: string) {
    !IsBlank(tsh1) && Validators.Reading(tsh1).Some? && Validators.Reading(tsh1).value >= TshCutoff
  }

  /**
    Where the first TSH passes validation, the second sample is asked for
    exactly when the accepted value reaches the cutoff; a value above the
    accepted range still asks for it, though validation refuses it.
   */
  lemma SecondSampleAgreesWithValidation(tsh1: string, campo: string)
    ensures Validators.ValTsh(tsh1, campo).value.Some? ==>
              (NeedsSecondSample(tsh1) <==> Validators.ValTsh(tsh1, campo).value.value >= TshCutoff)
    ensures !IsBlank(tsh1) && Validators.Reading(tsh1).Some? && Validators.Reading(tsh1).value > TshMax ==>
              NeedsSecondSample(tsh1) && Validators.ValTsh(tsh1, campo).value.None?
    ensures IsBlank(tsh1) || Validators.Reading(tsh1).None? ==> !NeedsSecondSample(tsh1)
  {
    ThresholdOrder();
  }

  /** A whole number of µIU/mL asks for the second sample exactly when it is 15 or more. */
  lemma SecondSampleWhole(n: nat)
    ensures NeedsSecondSample(NatToString(n)) <==> n >= 15
  {
    Validators.WholeReading(n);
  }

  // --------------------------------------------------------- counts and rate

  function CountSuspected(cases: seq<Case>): (n: nat)
    ensures n <= |cases|
  {
    if cases == [] then 0 else (if cases[0].Suspected() then 1 else 0) + CountSuspected(cases[1..])
  }

  function CountConfirmed(cases: seq<Case>): (n: nat)
    ensures n <= |cases|
  {
    if cases == [] then 0 else (if cases[0].Confirmed() then 1 else 0) + CountConfirmed(cases[1..])
  }

  /** There are never more confirmed cases than suspected ones. */
  lemma {:induction false} ConfirmedAtMostSuspected(cases: seq<Case>)
    ensures CountConfirmed(cases) <= CountSuspected(cases)
  {
    if cases != [] {
      ConfirmedAtMostSuspected(cases[1..]);
    }
  }

  /** `tasa_conf`: confirmed over suspected over the whole table, 0 when nothing is suspected. */
  function ConfirmationRate(cases: seq<Case>): (r: real)
    ensures CountSuspected(cases) == 0 ==> r == 0.0
    ensures 0.0 <= r <= 1.0
    ensures CountSuspected(cases) > 0 ==> r * CountSuspected(cases) as real == CountConfirmed(cases) as real
  {
    ConfirmedAtMostSuspected(cases);
    if CountSuspected(cases) > 0 then
      RatioBounds(CountConfirmed(cases), CountSuspected(cases));
      CountConfirmed(cases) as real / CountSuspected(cases) as real
    else 0.0
  }

  /** A part over a positive whole lies in [0, 1] and times the whole gives the part back. */
  lemma RatioBounds(part: nat, whole: nat)
    requires 0 < whole && part <= whole
    ensures 0.0 <= part as real / whole as real <= 1.0
    ensures (part as real / whole as real) * whole as real == part as real
  {
    var q := part as real / whole as real;
    assert q * whole as real == part as real;
    assert q <= 1.0 by {
      if q > 1.0 {
        assert q * whole as real > 1.0 * whole as real;
      }
    }
  }

  // ---------------------------------------------------------------- filters

  datatype BirthChoice = AllBirths | Premature | NotPremature
  datatype StateChoice = AllStates | Suspects | Confirmed | Normal

  /** The sidebar selections; an empty multiselect list selects nothing to filter on. */
  datatype Filters = Filters(
    years: seq<int>, sexos: seq<string>, birth: BirthChoice,
    tipos: seq<string>, departamentos: seq<string>, ciudades: seq<string>, state: StateChoice)

  /** `isin(selected)`: a missing cell is never in the selection. */
  predicate IsIn<T(==)>(v: Option<T>, selected: seq<T>) {
    v.Some? && v.value in selected
  }

  /** The test each step applies, given the column is present and the step is switched on. */
  predicate YearStep(f: Filters, c: Case) { IsIn(c.birthYear, f.years) }
  predicate SexoStep(f: Filters, c: Case) { IsIn(c.sexo, f.sexos) }
  predicate BirthStep(f: Filters, c: Case) {
    match f.birth
    case AllBirths => true
    case Premature => c.prematuro == Some(true)
    case NotPremature => c.prematuro == Some(false)
  }
  predicate TipoStep(f: Filters, c: Case) { IsIn(c.tipoMuestra, f.tipos) }
  predicate DepartamentoStep(f: Filters, c: Case) { IsIn(c.departamento, f.departamentos) }
  predicate CiudadStep(f: Filters, c: Case) { IsIn(c.ciudad, f.ciudades) }
  predicate StateStep(f: Filters, c: Case) {
    match f.state
    case AllStates => true
    case Suspects => c.Suspected()
    case Confirmed => c.Confirmed()
    case Normal => !c.Suspected()
  }

  /**
    Whether a case survives every step. A step is skipped when its selection
    is empty or its column is not in the table (`columns`); the state step
    relies on the derived flags, which every loaded table has.
   */
  predicate Keeps(columns: set<string>, f: Filters, c: Case) {
    (f.years != [] && "fecha_nacimiento" in columns ==> YearStep(f, c))
    && (f.sexos != [] && "sexo" in columns ==> SexoStep(f, c))
    && ("prematuro" in columns ==> BirthStep(f, c))
    && (f.tipos != [] && "tipo_muestra" in columns ==> TipoStep(f, c))
    && (f.departamentos != [] && "departamento" in columns ==> DepartamentoStep(f, c))
    && (f.ciudades != [] && "ciudad" in columns ==> CiudadStep(f, c))
    && StateStep(f, c)
  }

  /** The rows of `cases` that pass `p`, in their order. */
  function Filter(cases: seq<Case>, p: Case -> bool): (r: seq<Case>)
    ensures |r| <= |cases|
  {
    if cases == [] then []
    else if p(cases[0]) then [cases[0]] + Filter(cases[1..], p)
    else Filter(cases[1..], p)
  }

  /** A filter never reorders rows: filtering a concatenation filters each part in turn. */
  lemma {:induction false} FilterAppend(a: seq<Case>, b: seq<Case>, p: Case -> bool)
    ensures Filter(a + b, p) == Filter(a, p) + Filter(b, p)
  {
    if a != [] {
      assert (a + b)[1..] == a[1..] + b;
      FilterAppend(a[1..], b, p);
    } else {
      assert a + b == b;
    }
  }

  /** A row that passes is kept, one that fails is dropped. */
  lemma {:induction false} FilterMembers(cases: seq<Case>, p: Case -> bool, c: Case)
    ensures c in Filter(cases, p) <==> c in cases && p(c)
  {
    if cases != [] {
      FilterMembers(cases[1..], p, c);
    }
  }

  /** Filtering by `p` and then by `q` is filtering once by both. */
  lemma {:induction false} FilterFilter(cases: seq<Case>, p: Case -> bool, q: Case -> bool)
    ensures Filter(Filter(cases, p), q) == Filter(cases, c => p(c) && q(c))
  {
    if cases != [] {
      FilterFilter(cases[1..], p, q);
      if p(cases[0]) {
        assert Filter(cases, p)[0] == cases[0];
        assert Filter(cases, p)[1..] == Filter(cases[1..], p);
      }
    }
  }

  /** A test every row passes keeps the table as it is. */
  lemma {:induction false} FilterAll(cases: seq<Case>, p: Case -> bool)
    requires forall c :: c in cases ==> p(c)
    ensures Filter(cases, p) == cases
  {
    if cases != [] {
      FilterAll(cases[1..], p);
    }
  }

  /** Two tests that agree on every case filter alike. */
  lemma {:induction false} FilterExt(cases: seq<Case>, p: Case -> bool, q: Case -> bool)
    requires forall c :: p(c) == q(c)
    ensures Filter(cases, p) == Filter(cases, q)
  {
    if cases != [] {
      FilterExt(cases[1..], p, q);
    }
  }

  /** Whether step `k` (0 to 6, in the dashboard's order) is switched on. */
  predicate StepOn(columns: set<string>, f: Filters, k: nat) {
    match k
    case 0 => f.years != [] && "fecha_nacimiento" in columns
    case 1 => f.sexos != [] && "sexo" in columns
    case 2 => f.birth != AllBirths && "prematuro" in columns
    case 3 => f.tipos != [] && "tipo_muestra" in columns
    case 4 => f.departamentos != [] && "departamento" in columns
    case 5 => f.ciudades != [] && "ciudad" in columns
    case _ => f.state != AllStates
  }

  /** The test step `k` applies. */
  predicate StepTest(f: Filters, k: nat, c: Case) {
    match k
    case 0 => YearStep(f, c)
    case 1 => SexoStep(f, c)
    case 2 => BirthStep(f, c)
    case 3 => TipoStep(f, c)
    case 4 => DepartamentoStep(f, c)
    case 5 => CiudadStep(f, c)
    case _ => StateStep(f, c)
  }

  /** The case passes the first `k` steps. */
  predicate Through(columns: set<string>, f: Filters, k: nat, c: Case) {
    k == 0 || (Through(columns, f, k - 1, c) && (StepOn(columns, f, k - 1) ==> StepTest(f, k - 1, c)))
  }

  /** Passing all seven steps is `Keeps`. */
  lemma ThroughAll(columns: set<string>, f: Filters, c: Case)
    ensures Through(columns, f, 7, c) == Keeps(columns, f, c)
  {
    assert Through(columns, f, 1, c) == (StepOn(columns, f, 0) ==> StepTest(f, 0, c));
    assert Through(columns, f, 2, c) == (Through(columns, f, 1, c) && (StepOn(columns, f, 1) ==> StepTest(f, 1, c)));
    assert Through(columns, f, 3, c) == (Through(columns, f, 2, c) && (StepOn(columns, f, 2) ==> StepTest(f, 2, c)));
    assert Through(columns, f, 4, c) == (Through(columns, f, 3, c) && (StepOn(columns, f, 3) ==> StepTest(f, 3, c)));
    assert Through(columns, f, 5, c) == (Through(columns, f, 4, c) && (StepOn(columns, f, 4) ==> StepTest(f, 4, c)));
    assert Through(columns, f, 6, c) == (Through(columns, f, 5, c) && (StepOn(columns, f, 5) ==> StepTest(f, 5, c)));
    assert Through(columns, f, 7, c) == (Through(columns, f, 6, c) && (StepOn(columns, f, 6) ==> StepTest(f, 6, c)));
  }

  /** Filtering by `p` and then by `q` is filtering by any `r` that is both. */
  lemma {:induction false} FilterBoth(cases: seq<Case>, p: Case -> bool, q: Case -> bool, r: Case -> bool)
    requires forall c :: r(c) == (p(c) && q(c))
    ensures Filter(Filter(cases, p), q) == Filter(cases, r)
  {
    if cases != [] {
      FilterBoth(cases[1..], p, q, r);
      if p(cases[0]) {
        assert Filter(cases, p)[0] == cases[0];
        assert Filter(cases, p)[1..] == Filter(cases[1..], p);
      }
    }
  }

  /**
    One more reassignment takes the table filtered by the first `k` steps
    (`now`) to the table filtered by the first `k + 1` (`next`).
   */
  lemma Advance(cases: seq<Case>, filtered: seq<Case>, columns: set<string>, f: Filters, k: nat,
                q: Case -> bool, now: Case -> bool, next: Case -> bool)
    requires forall c :: q(c) == StepTest(f, k, c)
    requires forall c :: now(c) == Through(columns, f, k, c)
    requires forall c :: next(c) == Through(columns, f, k + 1, c)
    requires filtered == Filter(cases, now)
    ensures (if StepOn(columns, f, k) then Filter(filtered, q) else filtered) == Filter(cases, next)
  {
    if StepOn(columns, f, k) {
      FilterBoth(cases, now, q, next);
    } else {
      FilterExt(cases, now, next);
    }
  }

  /**
    The sidebar filtering, one reassignment of `filtered_df` per step in the
    order of the dashboard.
   */
  method ApplyFilters(columns: set<string>, cases: seq<Case>, f: Filters) returns (filtered: seq<Case>)
    ensures filtered == Filter(cases, c => Keeps(columns, f, c))
  {
    ghost var t0: Case -> bool := c => Through(columns, f, 0, c);
    ghost var t1: Case -> bool := c => Through(columns, f, 1, c);
    ghost var t2: Case -> bool := c => Through(columns, f, 2, c);
    ghost var t3: Case -> bool := c => Through(columns, f, 3, c);
    ghost var t4: Case -> bool := c => Through(columns, f, 4, c);
    ghost var t5: Case -> bool := c => Through(columns, f, 5, c);
    ghost var t6: Case -> bool := c => Through(columns, f, 6, c);
    ghost var t7: Case -> bool := c => Through(columns, f, 7, c);
    FilterAll(cases, t0);

    filtered := cases;
    var year: Case -> bool := c => YearStep(f, c);
    Advance(cases, filtered, columns, f, 0, year, t0, t1);
    filtered := if f.years != [] && "fecha_nacimiento" in columns then Filter(filtered, year) else filtered;
    assert filtered == Filter(cases, t1);
    var sexo: Case -> bool := c => SexoStep(f, c);
    Advance(cases, filtered, columns, f, 1, sexo, t1, t2);
    filtered := if f.sexos != [] && "sexo" in columns then Filter(filtered, sexo) else filtered;
    assert filtered == Filter(cases, t2);
    var birth: Case -> bool := c => BirthStep(f, c);
    Advance(cases, filtered, columns, f, 2, birth, t2, t3);
    filtered := if f.birth != AllBirths && "prematuro" in columns then Filter(filtered, birth) else filtered;
    assert filtered == Filter(cases, t3);
    var tipo: Case -> bool := c => TipoStep(f, c);
    Advance(cases, filtered, columns, f, 3, tipo, t3, t4);
    filtered := if f.tipos != [] && "tipo_muestra" in columns then Filter(filtered, tipo) else filtered;
    assert filtered == Filter(cases, t4);
    var departamento: Case -> bool := c => DepartamentoStep(f, c);
    Advance(cases, filtered, columns, f, 4, departamento, t4, t5);
    filtered := if f.departamentos != [] && "departamento" in columns then Filter(filtered, departamento) else filtered;
    assert filtered == Filter(cases, t5);
    var ciudad: Case -> bool := c => CiudadStep(f, c);
    Advance(cases, filtered, columns, f, 5, ciudad, t5, t6);
    filtered := if f.ciudades != [] && "ciudad" in columns then Filter(filtered, ciudad) else filtered;
    assert filtered == Filter(cases, t6);
    var state: Case -> bool := c => StateStep(f, c);
    Advance(cases, filtered, columns, f, 6, state, t6, t7);
    filtered := if f.state != AllStates then Filter(filtered, state) else filtered;
    assert filtered == Filter(cases, t7);
    forall c | true ensures t7(c) == Keeps(columns, f, c) {
      ThroughAll(columns, f, c);
    }
    FilterExt(cases, t7, c => Keeps(columns, f, c));
  }

  /** With nothing selected and both radios on "Todos", the table is shown whole. */
  lemma NoSelectionKeepsAll(columns: set<string>, cases: seq<Case>, f: Filters)
    requires f.years == [] && f.sexos == [] && f.tipos == [] && f.departamentos == [] && f.ciudades == []
    requires f.birth == AllBirths && f.state == AllStates
    ensures Filter(cases, c => Keeps(columns, f, c)) == cases
  {
    FilterAll(cases, c => Keeps(columns, f, c));
  }

  /** The "Sospechosos" view has as many rows as the suspected count, and "Normales" the rest. */
  lemma {:induction false} StateViewSizes(cases: seq<Case>)
    ensures |Filter(cases, (c: Case) => c.Suspected())| == CountSuspected(cases)
    ensures |Filter(cases, (c: Case) => !c.Suspected())| == |cases| - CountSuspected(cases)
    ensures |Filter(cases, (c: Case) => c.Confirmed())| == CountConfirmed(cases)
  {
    if cases != [] {
      StateViewSizes(cases[1..]);
    }
  }

  /** "Normales" and "Sospechosos" split every table: each case lands in exactly one of them. */
  lemma NormalIsComplement(cases: seq<Case>, c: Case)
    ensures c in cases ==> (c in Filter(cases, (x: Case) => x.Suspected()) <==> c !in Filter(cases, (x: Case) => !x.Suspected()))
  {
    FilterMembers(cases, (x: Case) => x.Suspected(), c);
    FilterMembers(cases, (x: Case) => !x.Suspected(), c);
  }
}
