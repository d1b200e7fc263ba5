/**
  The intake form of `app.py`: the card a clerk types in, the errors the
  "Guardar Registro" button collects, the 39-column row it appends to the
  record file, and the SMS notices it sends when the second sample confirms
  the case. The form inputs, the current date and the outcome of each SMS
  transport call are parameters.
 */
module Intake {
  import opened Strings
  import opened Constants
  import opened Columns
  import Validators
  import Dates
  import Store
  import Sms
  import Screening

  /** What the widgets hold when the button is pressed. */
  datatype Form = Form(
    ficha: string, fechaIngreso: string, institucion: string, ars: string, historia: string,
    tipoDoc: string, numDoc: string, ciudad: string, departamento: string,
    tel1: string, tipoVinc: string, tel2: string, direccion: string,
    apellido1: string, apellido2: string, nombre: string, fechaNac: string, peso: string, sexo: string,
    prematuro: bool, transfundido: bool, infoCompleta: bool, muestraAdec: bool,
    tipoMuestra1: string, destino: string, fechaMuestra1: string, fechaResult1: string, tsh1: string,
    ficha2: string, tipoM2: string, fechaM2: string, fRes2: string, tsh2: string,
    mRechazada: bool, fechaRechaz: string, resRechaz: string, fechaResRechaz: string,
    enviarPaciente: bool, telPaciente: string, msgPaciente: string,
    enviarIrs: bool, telIrs: string, msgIrs: string, smsTestMode: bool)

  /**
    The form as the submit block sees it: without a second sample the
    sample-2 widgets are not drawn, so their values are "", both SMS boxes
    are off and test mode is on.
   */
  function Shown(form: Form): (g: Form)
    ensures Screening.NeedsSecondSample(form.tsh1) ==> g == form
    ensures !Screening.NeedsSecondSample(form.tsh1) ==>
              g.ficha2 == "" && g.tipoM2 == "" && g.fechaM2 == "" && g.fRes2 == "" && g.tsh2 == ""
              && !g.enviarPaciente && !g.enviarIrs && g.smsTestMode
    ensures g.tsh1 == form.tsh1
  {
    if Screening.NeedsSecondSample(form.tsh1) then form
    else form.(ficha2 := "", tipoM2 := "", fechaM2 := "", fRes2 := "", tsh2 := "",
               enviarPaciente := false, enviarIrs := false, smsTestMode := true)
  }

  /** Showing the form twice is showing it once. */
  lemma ShownIdempotent(form: Form)
    ensures Shown(Shown(form)) == Shown(form)
  {
  }

  // ------------------------------------------------------------ the errors

  /** The message for a missing required field. */
  function Missing(name: string): string {
    "**" + name + "** es obligatorio"
  }

  /** A selectbox left empty or on the sentinel. */
  predicate Unchosen(v: string) {
    v == "" || v == Unselected
  }

  /** The required text inputs with their labels, in check order. */
  function RequiredTexts(g: Form): seq<(string, string)> {
    [(g.ficha, "No. de Ficha"), (g.institucion, "Institución"), (g.ars, "ARS"),
     (g.numDoc, "Número Documento"), (g.ciudad, "Ciudad"), (g.apellido1, "Primer Apellido"),
     (g.nombre, "Nombre")]
  }

  /** The required selectboxes with their labels, in check order. */
  function Spinners(g: Form): seq<(string, string)> {
    [(g.tipoDoc, "Tipo de Documento"), (g.departamento, "Departamento"), (g.sexo, "Sexo"),
     (g.tipoVinc, "Tipo Vinculación"), (g.tipoMuestra1, "Tipo de Muestra"), (g.destino, "Destino muestra")]
  }

  /** The messages for the fields of `ps` that `bad` rejects, in order. */
  function FieldErrors(ps: seq<(string, string)>, bad: string -> bool): seq<string> {
    if ps == [] then []
    else FieldErrors(ps[..|ps| - 1], bad) + (if bad(ps[|ps| - 1].0) then [Missing(ps[|ps| - 1].1)] else [])
  }

  /** `if e: errors.append(e)`. */
  function ErrorOf(e: Option<string>): seq<string> {
    if e.Some? then [e.value] else []
  }

  const BirthAfterIntake: string := "Fecha de nacimiento no puede ser posterior a la fecha de ingreso"
  const BirthTooOld: string := "Fecha de nacimiento inusual (más de 1 año atrás)"
  const SecondTypeMissing: string := "Tipo de muestra 2 es obligatorio"

  /** The two checks on a parsed birth date: not after intake, at most 365 days before `today`. */
  function DateOrderErrors(fi: Option<Dates.Date>, fn: Option<Dates.Date>, today: Dates.Date): (r: seq<string>)
    requires fi.Some? ==> Dates.Valid(fi.value)
    requires fn.Some? ==> Dates.Valid(fn.value)
    requires Dates.Valid(today)
    ensures r != [] ==> fi.Some? && fn.Some?
    ensures fi.Some? && fn.Some? ==>
              (BirthAfterIntake in r <==> Dates.Before(fi.value, fn.value))
              && (BirthTooOld in r <==> Dates.DaysBetween(fn.value, today) > 365)
  {
    if fi.Some? && fn.Some? then
      (if Dates.Before(fi.value, fn.value) then [BirthAfterIntake] else [])
      + (if Dates.DaysBetween(fn.value, today) > 365 then [BirthTooOld] else [])
    else []
  }

  /** `v_tsh2`: the second result, read only when the second sample is asked for. */
  function SecondResult(g: Form): (r: Option<real>)
    ensures r.Some? ==> Screening.NeedsSecondSample(g.tsh1) && TshMin <= r.value <= TshMax
  {
    if Screening.NeedsSecondSample(g.tsh1) then Validators.ValTsh(g.tsh2, "TSH 2").value else None
  }

  /** The checks that run only when the second sample is asked for. */
  function SecondSampleErrors(g: Form): seq<string> {
    if Screening.NeedsSecondSample(g.tsh1) then
      ErrorOf(Validators.ValTsh(g.tsh2, "TSH 2").error)
      + (if Unchosen(g.tipoM2) then [SecondTypeMissing] else [])
      + ErrorOf(Dates.ValFecha(g.fechaM2, "Fecha toma muestra 2").error)
      + ErrorOf(Dates.ValFecha(g.fRes2, "Fecha resultado 2").error)
    else []
  }

  /** The checks on the intake and birth dates. */
  function BirthErrors(g: Form, today: Dates.Date): seq<string>
    requires Dates.Valid(today)
  {
    var fi := Dates.ValFecha(g.fechaIngreso, "Fecha de ingreso");
    var fn := Dates.ValFecha(g.fechaNac, "Fecha de Nacimiento");
    ErrorOf(fi.error) + ErrorOf(fn.error) + DateOrderErrors(fi.value, fn.value, today)
  }

  /** The checks on the first sample's dates, the weight and the first TSH. */
  function SampleErrors(g: Form): seq<string> {
    ErrorOf(Dates.ValFecha(g.fechaMuestra1, "Fecha toma muestra 1").error)
    + ErrorOf(Dates.ValFecha(g.fechaResult1, "Fecha resultado 1").error)
    + ErrorOf(Validators.ValPeso(g.peso).error)
    + ErrorOf(Validators.ValTsh(g.tsh1, "TSH 1").error)
  }

  /** Every check on the shown form, in the order the submit block runs them. */
  function FormErrors(g: Form, today: Dates.Date): seq<string>
    requires Dates.Valid(today)
  {
    FieldErrors(RequiredTexts(g), IsBlank) + FieldErrors(Spinners(g), Unchosen)
    + BirthErrors(g, today) + SampleErrors(g) + SecondSampleErrors(g)
  }

  /** The birth-date checks pass: both dates read, birth not after intake, at most 365 days ago. */
  predicate BirthAcceptable(g: Form, today: Dates.Date)
    requires Dates.Valid(today)
  {
    var fi := Dates.ValFecha(g.fechaIngreso, "Fecha de ingreso").value;
    var fn := Dates.ValFecha(g.fechaNac, "Fecha de Nacimiento").value;
    fi.Some? && fn.Some? && !Dates.Before(fi.value, fn.value) && Dates.DaysBetween(fn.value, today) <= 365
  }

  /** The first-sample checks pass. */
  predicate SampleAcceptable(g: Form) {
    Dates.ValFecha(g.fechaMuestra1, "Fecha toma muestra 1").value.Some?
    && Dates.ValFecha(g.fechaResult1, "Fecha resultado 1").value.Some?
    && Validators.ValPeso(g.peso).value.Some?
    && Validators.ValTsh(g.tsh1, "TSH 1").value.Some?
  }

  /** The second-sample checks pass, or there is no second sample. */
  predicate SecondSampleAcceptable(g: Form) {
    Screening.NeedsSecondSample(g.tsh1) ==>
      Validators.ValTsh(g.tsh2, "TSH 2").value.Some? && !Unchosen(g.tipoM2)
      && Dates.ValFecha(g.fechaM2, "Fecha toma muestra 2").value.Some?
      && Dates.ValFecha(g.fRes2, "Fecha resultado 2").value.Some?
  }

  /** The checks, one by one, as a whole: what a savable card is. */
  predicate Acceptable(g: Form, today: Dates.Date)
    requires Dates.Valid(today)
  {
    (forall i :: 0 <= i < |RequiredTexts(g)| ==> !IsBlank(RequiredTexts(g)[i].0))
    && (forall i :: 0 <= i < |Spinners(g)| ==> !Unchosen(Spinners(g)[i].0))
    && BirthAcceptable(g, today) && SampleAcceptable(g) && SecondSampleAcceptable(g)
  }

  lemma {:induction false} FieldErrorsEmpty(ps: seq<(string, string)>, bad: string -> bool)
    ensures FieldErrors(ps, bad) == [] <==> forall i :: 0 <= i < |ps| ==> !bad(ps[i].0)
  {
    if ps != [] {
      var init := ps[..|ps| - 1];
      FieldErrorsEmpty(init, bad);
      assert forall i :: 0 <= i < |init| ==> init[i] == ps[i];
    }
  }

  /** The list of errors is empty exactly when every check passes, so a card is saved only then. */
  lemma NoErrorsIffAcceptable(g: Form, today: Dates.Date)
    requires Dates.Valid(today)
    ensures FormErrors(g, today) == [] <==> Acceptable(g, today)
  {
    FieldErrorsEmpty(RequiredTexts(g), IsBlank);
    FieldErrorsEmpty(Spinners(g), Unchosen);
    BirthErrorsEmpty(g, today);
    SampleErrorsEmpty(g);
    SecondSampleErrorsEmpty(g);
    ConcatEmpty(FieldErrors(RequiredTexts(g), IsBlank), FieldErrors(Spinners(g), Unchosen),
                BirthErrors(g, today), SampleErrors(g), SecondSampleErrors(g));
  }

  /** A concatenation is empty exactly when every piece is. */
  lemma ConcatEmpty<T>(a: seq<T>, b: seq<T>, c: seq<T>, d: seq<T>, e: seq<T>)
    ensures a + b + c + d + e == [] <==> a == [] && b == [] && c == [] && d == [] && e == []
  {
    assert |a + b + c + d + e| == |a| + |b| + |c| + |d| + |e|;
  }

  lemma BirthErrorsEmpty(g: Form, today: Dates.Date)
    requires Dates.Valid(today)
    ensures BirthErrors(g, today) == [] <==> BirthAcceptable(g, today)
  {
  }

  lemma SampleErrorsEmpty(g: Form)
    ensures SampleErrors(g) == [] <==> SampleAcceptable(g)
  {
  }

  lemma SecondSampleErrorsEmpty(g: Form)
    ensures SecondSampleErrors(g) == [] <==> SecondSampleAcceptable(g)
  {
  }

  /** A birth date after the intake date is reported, and so blocks saving. */
  lemma BirthAfterIntakeBlocks(g: Form, today: Dates.Date)
    requires Dates.Valid(today)
    requires Dates.ValFecha(g.fechaIngreso, "Fecha de ingreso").value.Some?
    requires Dates.ValFecha(g.fechaNac, "Fecha de Nacimiento").value.Some?
    requires Dates.Before(Dates.ValFecha(g.fechaIngreso, "Fecha de ingreso").value.value,
                          Dates.ValFecha(g.fechaNac, "Fecha de Nacimiento").value.value)
    ensures BirthAfterIntake in FormErrors(g, today)
  {
  }

  /** A birth date more than 365 days before today is reported too: it blocks saving, it is not a warning. */
  lemma OldBirthBlocks(g: Form, today: Dates.Date)
    requires Dates.Valid(today)
    requires Dates.ValFecha(g.fechaIngreso, "Fecha de ingreso").value.Some?
    requires Dates.ValFecha(g.fechaNac, "Fecha de Nacimiento").value.Some?
    requires Dates.DaysBetween(Dates.ValFecha(g.fechaNac, "Fecha de Nacimiento").value.value, today) > 365
    ensures BirthTooOld in FormErrors(g, today) && FormErrors(g, today) != []
  {
  }

  /** Each rejected field is named in the errors. */
  lemma {:induction false} FieldReported(ps: seq<(string, string)>, bad: string -> bool, i: nat)
    requires i < |ps| && bad(ps[i].0)
    ensures Missing(ps[i].1) in FieldErrors(ps, bad)
  {
    if i < |ps| - 1 {
      assert ps[..|ps| - 1][i] == ps[i];
      FieldReported(ps[..|ps| - 1], bad, i);
    }
  }

  /** Without a second sample its checks do not run. */
  lemma NoSecondSampleNoSecondErrors(g: Form)
    requires !Screening.NeedsSecondSample(g.tsh1)
    ensures SecondSampleErrors(g) == [] && SecondResult(g) == None
  {
  }

  /** `for val, label in ps: if bad(val): errors.append(...)`. */
  method AppendMissing(errors: seq<string>, ps: seq<(string, string)>, bad: string -> bool) returns (out: seq<string>)
    ensures out == errors + FieldErrors(ps, bad)
  {
    out := errors;
    for i := 0 to |ps|
      invariant out == errors + FieldErrors(ps[..i], bad)
    {
      assert ps[..i + 1][..i] == ps[..i];
      if bad(ps[i].0) {
        out := out + [Missing(ps[i].1)];
      }
    }
    assert ps[..|ps|] == ps;
  }

  /** `if e: errors.append(e)`. */
  method AppendError(errors: seq<string>, e: Option<string>) returns (out: seq<string>)
    ensures out == errors + ErrorOf(e)
  {
    out := errors;
    if e.Some? {
      out := out + [e.value];
    }
  }

  /** The submit block: it appends each failing check's message to `errors`, in check order. */
  method CollectErrors(g: Form, today: Dates.Date) returns (errors: seq<string>)
    requires Dates.Valid(today)
    ensures errors == FormErrors(g, today)
  {
    errors := AppendMissing([], RequiredTexts(g), IsBlank);
    assert [] + FieldErrors(RequiredTexts(g), IsBlank) == FieldErrors(RequiredTexts(g), IsBlank);
    errors := AppendMissing(errors, Spinners(g), Unchosen);

    errors := AppendBirthErrors(errors, g, today);
    errors := AppendSampleErrors(errors, g);
    errors := AppendSecondSampleErrors(errors, g);
  }

  /** Appending in two steps is appending the joined pieces. */
  lemma AppendTwice(a: seq<string>, b: seq<string>, c: seq<string>)
    ensures a + b + c == a + (b + c)
  {
  }

  /** `if cond: errors.append(msg)`. */
  method AppendIf(errors: seq<string>, cond: bool, msg: string) returns (out: seq<string>)
    ensures out == errors + (if cond then [msg] else [])
  {
    out := errors;
    if cond {
      out := out + [msg];
    }
  }

  /** The date checks of the submit block. */
  method AppendBirthErrors(errors: seq<string>, g: Form, today: Dates.Date) returns (out: seq<string>)
    requires Dates.Valid(today)
    ensures out == errors + BirthErrors(g, today)
  {
    var fi := Dates.ValFecha(g.fechaIngreso, "Fecha de ingreso");
    out := AppendError(errors, fi.error);
    var fn := Dates.ValFecha(g.fechaNac, "Fecha de Nacimiento");
    out := AppendError(out, fn.error);
    out := AppendDateOrder(out, fi.value, fn.value, today);
    AppendTwice(errors, ErrorOf(fi.error), ErrorOf(fn.error));
    AppendTwice(errors, ErrorOf(fi.error) + ErrorOf(fn.error), DateOrderErrors(fi.value, fn.value, today));
  }

  /** The two order checks, run once both dates were read. */
  method AppendDateOrder(errors: seq<string>, fi: Option<Dates.Date>, fn: Option<Dates.Date>, today: Dates.Date)
    returns (out: seq<string>)
    requires fi.Some? ==> Dates.Valid(fi.value)
    requires fn.Some? ==> Dates.Valid(fn.value)
    requires Dates.Valid(today)
    ensures out == errors + DateOrderErrors(fi, fn, today)
  {
    out := errors;
    if fi.Some? && fn.Some? {
      var after := Dates.Before(fi.value, fn.value);
      var tooOld := Dates.DaysBetween(fn.value, today) > 365;
      out := AppendIf(out, after, BirthAfterIntake);
      out := AppendIf(out, tooOld, BirthTooOld);
      AppendTwice(errors, if after then [BirthAfterIntake] else [], if tooOld then [BirthTooOld] else []);
    } else {
      assert out == errors + [];
    }
  }

  /** The first-sample, weight and first-TSH checks of the submit block. */
  method AppendSampleErrors(errors: seq<string>, g: Form) returns (out: seq<string>)
    ensures out == errors + SampleErrors(g)
  {
    var m1 := Dates.ValFecha(g.fechaMuestra1, "Fecha toma muestra 1");
    out := AppendError(errors, m1.error);
    var r1 := Dates.ValFecha(g.fechaResult1, "Fecha resultado 1");
    out := AppendError(out, r1.error);
    var peso := Validators.ValPeso(g.peso);
    out := AppendError(out, peso.error);
    var tsh1 := Validators.ValTsh(g.tsh1, "TSH 1");
    out := AppendError(out, tsh1.error);
    ghost var a, b, c, d := ErrorOf(m1.error), ErrorOf(r1.error), ErrorOf(peso.error), ErrorOf(tsh1.error);
    AppendTwice(errors, a, b);
    AppendTwice(errors, a + b, c);
    AppendTwice(errors, a + b + c, d);
  }

  /** The second-sample checks of the submit block, run only when it is asked for. */
  method AppendSecondSampleErrors(errors: seq<string>, g: Form) returns (out: seq<string>)
    ensures out == errors + SecondSampleErrors(g)
  {
    out := errors;
    if Screening.NeedsSecondSample(g.tsh1) {
      var tsh2 := Validators.ValTsh(g.tsh2, "TSH 2");
      out := AppendError(out, tsh2.error);
      out := AppendIf(out, Unchosen(g.tipoM2), SecondTypeMissing);
      var m2 := Dates.ValFecha(g.fechaM2, "Fecha toma muestra 2");
      out := AppendError(out, m2.error);
      var r2 := Dates.ValFecha(g.fRes2, "Fecha resultado 2");
      out := AppendError(out, r2.error);
      ghost var a, b, c, d := ErrorOf(tsh2.error), (if Unchosen(g.tipoM2) then [SecondTypeMissing] else []),
                              ErrorOf(m2.error), ErrorOf(r2.error);
      AppendTwice(errors, a, b);
      AppendTwice(errors, a + b, c);
      AppendTwice(errors, a + b + c, d);
    } else {
      assert errors == errors + [];
    }
  }

  // --------------------------------------------------------------- the row

  /** `"VERDADERO" if flag else "FALSO"`. */
  function Flag(b: bool): string {
    if b then "VERDADERO" else "FALSO"
  }

  /** `text.strip() or "0"`. */
  function OrZero(text: string): (r: string)
    ensures r != ""
    ensures IsBlank(text) ==> r == "0"
    ensures !IsBlank(text) ==> r == Strip(text)
  {
    if Strip(text) == [] then "0" else Strip(text)
  }

  /** `necesita_m2`, `v_peso`, `v_tsh1` and `v_tsh2` as the submit block leaves them. */
  datatype Readings = Readings(needs: bool, peso: real, tsh1: real, tsh2: Option<real>)

  /** The readings of a card that passed validation. */
  function ReadingsOf(g: Form): (v: Readings)
    requires Validators.ValPeso(g.peso).value.Some? && Validators.ValTsh(g.tsh1, "TSH 1").value.Some?
    ensures v.needs == Screening.NeedsSecondSample(g.tsh1) && v.tsh2 == SecondResult(g)
    ensures PesoMin as real <= v.peso <= PesoMax as real && TshMin <= v.tsh1 <= TshMax
    ensures v.tsh2.Some? ==> v.needs && TshMin <= v.tsh2.value <= TshMax
  {
    Readings(Screening.NeedsSecondSample(g.tsh1), Validators.ValPeso(g.peso).value.value,
             Validators.ValTsh(g.tsh1, "TSH 1").value.value, SecondResult(g))
  }

  /** The dictionary with the `i`-th key bound to the `i`-th cell, as a dict display builds it. */
  function RowOf(keys: seq<string>, cells: seq<string>): (m: map<string, string>)
    requires |keys| == |cells|
  {
    if keys == [] then map[]
    else RowOf(keys[..|keys| - 1], cells[..|cells| - 1])[keys[|keys| - 1] := cells[|cells| - 1]]
  }

  /** The keys are exactly the given ones. */
  lemma {:induction false} RowOfKeys(keys: seq<string>, cells: seq<string>)
    requires |keys| == |cells|
    ensures RowOf(keys, cells).Keys == set c | c in keys
  {
    if keys != [] {
      RowOfKeys(keys[..|keys| - 1], cells[..|cells| - 1]);
      assert keys == keys[..|keys| - 1] + [keys[|keys| - 1]];
    }
  }

  /** With distinct keys, each key holds its own cell. */
  lemma {:induction false} RowOfAt(keys: seq<string>, cells: seq<string>, i: int)
    requires |keys| == |cells| && Distinct(keys) && 0 <= i < |keys|
    ensures keys[i] in RowOf(keys, cells) && RowOf(keys, cells)[keys[i]] == cells[i]
  {
    if i < |keys| - 1 {
      RowOfAt(keys[..|keys| - 1], cells[..|cells| - 1], i);
    }
  }

  /** `writerow` with the same key order gives back the cells. */
  lemma RowOfLine(keys: seq<string>, cells: seq<string>)
    requires |keys| == |cells| && Distinct(keys)
    ensures Store.Line(keys, RowOf(keys, cells)) == cells
  {
    forall i | 0 <= i < |keys| ensures Store.Line(keys, RowOf(keys, cells))[i] == cells[i] {
      RowOfAt(keys, cells, i);
    }
  }

  /** The cell the submit block writes under the `i`-th column. */
  function CellAt(g: Form, id: int, v: Readings, showReal: real -> string, i: int): string {
    match i
    case 0 => IntToString(id)  // Id
    case 1 => Strip(g.ficha)  // No de ficha
    case 2 => Strip(g.fechaIngreso)  // Fecha de ingreso
    case 3 => Strip(g.institucion)  // Institucion
    case 4 => Strip(g.ars)  // ARS
    case 5 => Strip(g.historia)  // Historia clinica
    case 6 => g.tipoDoc  // Tipo de Documento
    case 7 => Strip(g.numDoc)  // Numero de Documento
    case 8 => Strip(g.ciudad)  // Ciudad
    case 9 => g.departamento  // Departamento
    case 10 => OrZero(g.tel1)  // Telefono uno
    case 11 => OrZero(g.tel2)  // Telefono dos
    case 12 => Strip(g.direccion)  // Direccion
    case 13 => Strip(g.apellido1)  // Primer Apellido
    case 14 => Strip(g.apellido2)  // Segundo Apellido
    case 15 => Strip(g.nombre)  // Nombre Hijo de
    case 16 => Strip(g.fechaNac)  // Fecha de Nacimiento
    case 17 => showReal(v.peso)  // Peso
    case 18 => g.sexo  // Sexo
    case 19 => Flag(g.prematuro)  // Prematuro
    case 20 => Flag(g.transfundido)  // Transfundido
    case 21 => Flag(g.infoCompleta)  // Informacion completa
    case 22 => Flag(g.muestraAdec)  // Muestra adecuada
    case 23 => g.destino  // Destino muestra
    case 24 => g.tipoMuestra1  // Tipo de muestra
    case 25 => Strip(g.fechaMuestra1)  // Fecha toma de la muestra
    case 26 => Strip(g.fechaResult1)  // Fecha de resultado
    case 27 => showReal(v.tsh1)  // Resultados TSH neonatal
    case 28 => OrZero(g.ficha2)  // No de ficha dos
    case 29 => if v.needs && g.tipoM2 != Unselected then g.tipoM2 else ""  // Tipo de muestra 2
    case 30 => if v.needs then Strip(g.fechaM2) else ""  // Fecha toma de la muestra 2
    case 31 => if v.needs then Strip(g.fRes2) else ""  // Fecha resultado muestra 2
    case 32 => if v.tsh2.Some? && v.tsh2.value != 0.0 then showReal(v.tsh2.value) else ""  // Resultado toma de muestra 2
    case 33 => if v.needs then "1" else "0"  // Contador
    case 34 => Flag(g.mRechazada)  // muestra rechazada
    case 35 => if g.mRechazada then Strip(g.fechaRechaz) else ""  // Fecha toma rechazada
    case 36 => g.tipoVinc  // Tipo de Vinculacion
    case 37 => if g.mRechazada then g.resRechaz else ""  // Resultado Rechazada
    case 38 => if g.mRechazada then Strip(g.fechaResRechaz) else ""  // Fecha resultado rechazada
    case _ => ""
  }

  /** The cells the submit block writes, in column order. */
  function Cells(g: Form, id: int, v: Readings, showReal: real -> string): (c: seq<string>)
    ensures |c| == 39
  {
    seq(39, i => CellAt(g, id, v, showReal, i))
  }

  /**
    The row the submit block builds once there are no errors. `id` is
    `next_id()`; a number is written by `showReal`, which stands for
    Python's `str` of a float.
   */
  function BuildRow(g: Form, id: int, v: Readings, showReal: real -> string): map<string, string> {
    assert |AppFieldNames| == 39;
    RowOf(AppFieldNames, Cells(g, id, v, showReal))
  }

  /** The row's keys are exactly the app's columns, so `writerow` accepts it. */
  lemma RowKeys(g: Form, id: int, v: Readings, showReal: real -> string)
    ensures BuildRow(g, id, v, showReal).Keys == set c | c in AppFieldNames
    ensures Store.Writable(BuildRow(g, id, v, showReal), AppFieldNames)
  {
    RowOfKeys(AppFieldNames, Cells(g, id, v, showReal));
  }

  /** The cell under the `i`-th column is the `i`-th cell. */
  lemma RowAt(g: Form, id: int, v: Readings, showReal: real -> string, i: int)
    requires 0 <= i < |AppFieldNames|
    ensures var row := BuildRow(g, id, v, showReal);
            AppFieldNames[i] in row && row[AppFieldNames[i]] == CellAt(g, id, v, showReal, i)
  {
    AppFieldNamesDistinct();
    RowOfAt(AppFieldNames, Cells(g, id, v, showReal), i);
  }

  /** The written line is the cells in column order. */
  lemma RowLine(g: Form, id: int, v: Readings, showReal: real -> string)
    ensures Store.Line(AppFieldNames, BuildRow(g, id, v, showReal)) == Cells(g, id, v, showReal)
  {
    AppFieldNamesDistinct();
    RowOfLine(AppFieldNames, Cells(g, id, v, showReal));
  }

  /** The id cell reads back as the id. */
  lemma RowId(g: Form, id: int, v: Readings, showReal: real -> string)
    ensures var row := BuildRow(g, id, v, showReal);
            "Id" in row && ParseInt(row["Id"]) == Some(id)
  {
    RowAt(g, id, v, showReal, 0);
    ParseIntOfIntToString(id);
  }

  /** "Id" holds the id written out in decimal. */
  lemma RowIdText(g: Form, id: int, v: Readings, showReal: real -> string)
    ensures var row := BuildRow(g, id, v, showReal);
            "Id" in row && row["Id"] == IntToString(id)
  {
    RowCell(g, id, v, showReal, 0, "Id");
  }

  /** "Contador" says whether the second sample was asked for. */
  lemma RowCounter(g: Form, id: int, v: Readings, showReal: real -> string)
    ensures var row := BuildRow(g, id, v, showReal);
            "Contador" in row && (row["Contador"] == "1" <==> v.needs) && (row["Contador"] == "0" <==> !v.needs)
  {
    RowAt(g, id, v, showReal, 33);
  }

  /** Without a second sample its type, dates and result are all "". */
  lemma RowSecondSample(g: Form, id: int, v: Readings, showReal: real -> string)
    requires v.tsh2.Some? ==> v.needs
    ensures var row := BuildRow(g, id, v, showReal);
            "Tipo de muestra 2" in row && "Fecha toma de la muestra 2" in row
            && "Fecha resultado muestra 2" in row && "Resultado toma de muestra 2" in row
            && (!v.needs ==>
                  row["Tipo de muestra 2"] == "" && row["Fecha toma de la muestra 2"] == ""
                  && row["Fecha resultado muestra 2"] == "" && row["Resultado toma de muestra 2"] == "")
  {
    RowAt(g, id, v, showReal, 29); RowAt(g, id, v, showReal, 30);
    RowAt(g, id, v, showReal, 31); RowAt(g, id, v, showReal, 32);
  }

  /** A second result other than 0.0 is written out. */
  lemma RowSecondResult(g: Form, id: int, v: Readings, showReal: real -> string)
    ensures var row := BuildRow(g, id, v, showReal);
            "Resultado toma de muestra 2" in row
            && (v.tsh2.Some? && v.tsh2.value != 0.0 ==> row["Resultado toma de muestra 2"] == showReal(v.tsh2.value))
  {
    RowAt(g, id, v, showReal, 32);
  }

  /** A second result that was read is at least the lowest valid TSH, so it is never the 0.0 left blank. */
  lemma SecondResultNonZero(g: Form)
    ensures SecondResult(g).Some? ==> SecondResult(g).value != 0.0
  {
    ThresholdOrder();
  }

  /** Flags are written as VERDADERO / FALSO. */
  lemma RowFlags(g: Form, id: int, v: Readings, showReal: real -> string)
    ensures var row := BuildRow(g, id, v, showReal);
            "Prematuro" in row && "Transfundido" in row && "Informacion completa" in row
            && "Muestra adecuada" in row && "muestra rechazada" in row
            && (row["Prematuro"] == "VERDADERO" <==> g.prematuro) && (row["Prematuro"] == "FALSO" <==> !g.prematuro)
            && (row["Transfundido"] == "VERDADERO" <==> g.transfundido)
            && (row["Informacion completa"] == "VERDADERO" <==> g.infoCompleta)
            && (row["Muestra adecuada"] == "VERDADERO" <==> g.muestraAdec)
            && (row["muestra rechazada"] == "VERDADERO" <==> g.mRechazada)
  {
    RowAt(g, id, v, showReal, 19); RowAt(g, id, v, showReal, 20); RowAt(g, id, v, showReal, 21);
    RowAt(g, id, v, showReal, 22); RowAt(g, id, v, showReal, 34);
  }

  /** The cell under the column `name`, the `i`-th one. */
  lemma RowCell(g: Form, id: int, v: Readings, showReal: real -> string, i: int, name: string)
    requires 0 <= i < |AppFieldNames| && AppFieldNames[i] == name
    ensures var row := BuildRow(g, id, v, showReal);
            name in row && row[name] == CellAt(g, id, v, showReal, i)
  {
    RowAt(g, id, v, showReal, i);
  }

  /** A cell written as `text.strip() or "0"`. */
  lemma ZeroCell(row: map<string, string>, key: string, text: string)
    requires key in row && row[key] == OrZero(text)
    ensures row[key] != "" && (IsBlank(text) ==> row[key] == "0") && (!IsBlank(text) ==> row[key] == Strip(text))
  {
  }

  /** Blank phones are written as "0", so the phone cells are never "". */
  lemma RowPhones(g: Form, id: int, v: Readings, showReal: real -> string)
    ensures var row := BuildRow(g, id, v, showReal);
            "Telefono uno" in row && "Telefono dos" in row
            && (IsBlank(g.tel1) ==> row["Telefono uno"] == "0") && (IsBlank(g.tel2) ==> row["Telefono dos"] == "0")
            && row["Telefono uno"] != "" && row["Telefono dos"] != ""
  {
    var row := BuildRow(g, id, v, showReal);
    RowCell(g, id, v, showReal, 10, "Telefono uno");
    RowCell(g, id, v, showReal, 11, "Telefono dos");
    ZeroCell(row, "Telefono uno", g.tel1);
    ZeroCell(row, "Telefono dos", g.tel2);
  }

  /** A blank second ficha is written as "0". */
  lemma RowSecondFicha(g: Form, id: int, v: Readings, showReal: real -> string)
    ensures var row := BuildRow(g, id, v, showReal);
            "No de ficha dos" in row && (IsBlank(g.ficha2) ==> row["No de ficha dos"] == "0")
            && (!IsBlank(g.ficha2) ==> row["No de ficha dos"] == Strip(g.ficha2))
  {
    RowCell(g, id, v, showReal, 28, "No de ficha dos");
    ZeroCell(BuildRow(g, id, v, showReal), "No de ficha dos", g.ficha2);
  }

  /** Without a rejected sample the rejection columns are "". */
  lemma RowRejection(g: Form, id: int, v: Readings, showReal: real -> string)
    ensures var row := BuildRow(g, id, v, showReal);
            "Fecha toma rechazada" in row && "Resultado Rechazada" in row && "Fecha resultado rechazada" in row
            && (!g.mRechazada ==>
                  row["Fecha toma rechazada"] == "" && row["Resultado Rechazada"] == ""
                  && row["Fecha resultado rechazada"] == "")
  {
    RowAt(g, id, v, showReal, 35); RowAt(g, id, v, showReal, 37); RowAt(g, id, v, showReal, 38);
  }

  /** A card that passes every check has the values the row needs. */
  lemma AcceptableBuilds(g: Form, today: Dates.Date)
    requires Dates.Valid(today) && FormErrors(g, today) == []
    ensures Validators.ValPeso(g.peso).value.Some? && Validators.ValTsh(g.tsh1, "TSH 1").value.Some?
    ensures Screening.NeedsSecondSample(g.tsh1) ==> SecondResult(g).Some?
  {
    NoErrorsIffAcceptable(g, today);
  }

  // ------------------------------------------------------------ SMS on save

  /** One line of the session's SMS history (the timestamp is not modelled). */
  datatype LogEntry = LogEntry(idCaso: string, destino: string, telefono: string, status: string)

  /** `confirmado_ahora`: the second result was read and reaches the cutoff. */
  predicate ConfirmedNow(v: Readings) {
    v.tsh2.Some? && v.tsh2.value >= TshCutoff
  }

  /** The entry for one notice: the id, the destination, the phone as typed and the status the send reports. */
  function Entry(id: string, destino: string, tel: string, msg: string, testMode: bool, outcome: Sms.Outcome): LogEntry {
    LogEntry(id, destino, tel, Sms.SendSmsApp(tel, msg, testMode, outcome).status)
  }

  /** The patient's notice, when its box is ticked and its phone is not "". */
  function PatientNotice(g: Form, id: string, patient: Sms.Outcome): seq<LogEntry> {
    if g.enviarPaciente && g.telPaciente != "" then
      [Entry(id, "Paciente", g.telPaciente, g.msgPaciente, g.smsTestMode, patient)]
    else []
  }

  /** The IRS notice, when its box is ticked and its phone is not "". */
  function IrsNotice(g: Form, id: string, irs: Sms.Outcome): seq<LogEntry> {
    if g.enviarIrs && g.telIrs != "" then [Entry(id, "IRS", g.telIrs, g.msgIrs, g.smsTestMode, irs)] else []
  }

  /**
    The log entries the save adds: when confirmed, one for the patient and
    one for the IRS, each only if its box is ticked and its phone is not "".
   */
  function Notifications(g: Form, id: string, v: Readings, patient: Sms.Outcome, irs: Sms.Outcome): (r: seq<LogEntry>)
    ensures |r| <= 2
    ensures r != [] ==> ConfirmedNow(v)
    ensures forall e :: e in r ==> e.idCaso == id
  {
    if ConfirmedNow(v) then PatientNotice(g, id, patient) + IrsNotice(g, id, irs) else []
  }

  /** Confirmation on save needs the second sample, and its readings meet the dashboard's confirmation rule (`Case.Confirmed`). */
  lemma ConfirmedNeedsSecondSample(g: Form)
    requires Validators.ValPeso(g.peso).value.Some? && Validators.ValTsh(g.tsh1, "TSH 1").value.Some?
    ensures ConfirmedNow(ReadingsOf(g)) ==> Screening.NeedsSecondSample(g.tsh1)
    ensures ConfirmedNow(ReadingsOf(g)) ==>
              Screening.Case(ReadingsOf(g).tsh1, ReadingsOf(g).tsh2.value, None, None, None, None, None, None).Confirmed()
  {
  }

  /** A notice goes to each destination exactly when confirmed, ticked and with a phone. */
  lemma NotificationsSent(g: Form, id: string, v: Readings, patient: Sms.Outcome, irs: Sms.Outcome)
    ensures var r := Notifications(g, id, v, patient, irs);
            (exists e :: e in r && e.destino == "Paciente") <==> ConfirmedNow(v) && g.enviarPaciente && g.telPaciente != ""
    ensures var r := Notifications(g, id, v, patient, irs);
            (exists e :: e in r && e.destino == "IRS") <==> ConfirmedNow(v) && g.enviarIrs && g.telIrs != ""
    ensures (v.tsh2.Some? ==> v.needs) && !v.needs ==> Notifications(g, id, v, patient, irs) == []
  {
    var r := Notifications(g, id, v, patient, irs);
    if ConfirmedNow(v) {
      var p := PatientNotice(g, id, patient);
      var q := IrsNotice(g, id, irs);
      assert r == p + q;
      assert forall e :: e in p ==> e.destino == "Paciente";
      assert forall e :: e in q ==> e.destino == "IRS";
      if g.enviarPaciente && g.telPaciente != "" {
        assert r[0] == p[0];
      }
      if g.enviarIrs && g.telIrs != "" {
        assert r[|r| - 1] == q[0];
      }
    }
  }

  /**
    A phone of spaces is not "", so it is used: in test mode its notice
    reports a simulated send to "+57".
   */
  lemma SpacesPhoneNotified(g: Form, id: string, v: Readings, patient: Sms.Outcome, irs: Sms.Outcome)
    requires ConfirmedNow(v) && g.enviarPaciente && g.smsTestMode
    requires g.telPaciente != "" && IsBlank(g.telPaciente)
    ensures var r := Notifications(g, id, v, patient, irs);
            r != [] && r[0].destino == "Paciente"
            && r[0].status == Sms.AppSimulatedPrefix + "+57" + ": " + Sms.Preview(g.msgPaciente) + "..."
  {
    Sms.AppAcceptsBlankPhone(g.telPaciente, g.msgPaciente, patient);
  }

  /** The SMS history kept for the session. */
  class Session {
    var smsLog: seq<LogEntry>

    constructor()
      ensures smsLog == []
    {
      smsLog := [];
    }

    /**
      Pressing "Guardar Registro": collect the errors, and when there are
      none build the row with the next id, append it to the record file
      and send and log the notices.
     */
    method Submit(file: Store.RecordFile, form: Form, today: Dates.Date, showReal: real -> string,
                  patient: Sms.Outcome, irs: Sms.Outcome) returns (errors: seq<string>)
      requires Dates.Valid(today)
      modifies this, file
      ensures errors == FormErrors(Shown(form), today)
      ensures errors != [] ==> file.Contents() == old(file.Contents()) && smsLog == old(smsLog)
      ensures errors == [] ==>
                var g := Shown(form);
                var id := Store.NextId(old(file.Contents()), "Id");
                Validators.ValPeso(g.peso).value.Some? && Validators.ValTsh(g.tsh1, "TSH 1").value.Some?
                && file.Contents() == Store.Saved(old(file.Contents()), BuildRow(g, id, ReadingsOf(g), showReal), AppFieldNames)
                && smsLog == old(smsLog) + Notifications(g, IntToString(id), ReadingsOf(g), patient, irs)
    {
      var g := Shown(form);
      errors := CollectErrors(g, today);
      if errors == [] {
        AcceptableBuilds(g, today);
        Record(file, g, ReadingsOf(g), showReal, patient, irs);
      }
    }

    /** The accepted card: append its row under the next id, then send and log its notices. */
    method Record(file: Store.RecordFile, g: Form, v: Readings, showReal: real -> string,
                  patient: Sms.Outcome, irs: Sms.Outcome)
      modifies this, file
      ensures var id := Store.NextId(old(file.Contents()), "Id");
              file.Contents() == Store.Saved(old(file.Contents()), BuildRow(g, id, v, showReal), AppFieldNames)
              && smsLog == old(smsLog) + Notifications(g, IntToString(id), v, patient, irs)
    {
      var id := Store.NextId(file.Contents(), "Id");
      var row := BuildRow(g, id, v, showReal);
      var ok := file.Save(row, AppFieldNames);
      Notify(g, IntToString(id), v, patient, irs);
    }

    /** The notices of a confirmed case, each sent and then appended to the history. */
    method Notify(g: Form, id: string, v: Readings, patient: Sms.Outcome, irs: Sms.Outcome)
      modifies this
      ensures smsLog == old(smsLog) + Notifications(g, id, v, patient, irs)
    {
      if ConfirmedNow(v) {
        ghost var before := smsLog;
        if g.enviarPaciente && g.telPaciente != "" {
          var sent := Sms.SendSmsApp(g.telPaciente, g.msgPaciente, g.smsTestMode, patient);
          smsLog := smsLog + [LogEntry(id, "Paciente", g.telPaciente, sent.status)];
        }
        assert smsLog == before + PatientNotice(g, id, patient);
        if g.enviarIrs && g.telIrs != "" {
          var sent := Sms.SendSmsApp(g.telIrs, g.msgIrs, g.smsTestMode, irs);
          smsLog := smsLog + [LogEntry(id, "IRS", g.telIrs, sent.status)];
        }
        assert smsLog == before + PatientNotice(g, id, patient) + IrsNotice(g, id, irs);
      }
    }
  }

  /**
    Saving a card under the next id moves the next id on by one, whether
    the file is missing, empty, fully readable or holds an unreadable id,
    as long as an existing file has the app's own header.
   */
  lemma SaveAdvancesId(f: Store.CsvFile, g: Form, v: Readings, showReal: real -> string)
    requires f.present ==> f.header == AppFieldNames
    ensures var row := BuildRow(g, Store.NextId(f, "Id"), v, showReal);
            Store.NextId(Store.Saved(f, row, AppFieldNames), "Id") == Store.NextId(f, "Id") + 1
  {
    var id := Store.NextId(f, "Id");
    var row := BuildRow(g, id, v, showReal);
    RowKeys(g, id, v, showReal);
    RowIdText(g, id, v, showReal);
    assert "Id" in row.Keys;
    Store.NextIdAfterSave(f, "Id", row, AppFieldNames);
  }
}
