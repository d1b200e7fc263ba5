/**
  The bulk SMS of the alerts tab in `app.py`: for every confirmed case,
  one notice to the patient's phone (when the phone column holds a usable
  number) and one to the single IRS phone (when one was typed), each
  message filled in from a template. The loop counts the patient notices
  that succeed and those that fail, collects the entries in `log_mass`,
  and the history is extended with them at the end.

  A row of `confirmed_df` is a map from column to the cell as Python's
  `str` renders it (a missing value renders as "nan"). The outcome of each
  transport call is a parameter, indexed by the row's position.
 */
module Alerts {
  import opened Strings
  import Sms
  import Intake

  /** A row of the confirmed cases, every cell already rendered as text. */
  type Row = map<string, string>

  /** The phone columns looked for, in order. */
  const PhoneColumns: seq<string> := ["telefono_1", "telefono_2", "tel1", "tel2"]

  /** Index of the first candidate present among the columns. */
  function FirstPresent(candidates: seq<string>, columns: set<string>): (r: Option<nat>)
    ensures r.None? <==> forall j :: 0 <= j < |candidates| ==> candidates[j] !in columns
    ensures r.Some? ==> r.value < |candidates| && candidates[r.value] in columns
    ensures r.Some? ==> forall j :: 0 <= j < r.value ==> candidates[j] !in columns
  {
    if candidates == [] then None
    else if candidates[0] in columns then Some(0)
    else match FirstPresent(candidates[1..], columns)
      case None => None
      case Some(k) => Some(k + 1)
  }

  /** `phone_col`: the first of the phone columns the table has, if any. */
  function PhoneColumn(columns: set<string>): Option<string> {
    match FirstPresent(PhoneColumns, columns)
    case None => None
    case Some(k) => Some(PhoneColumns[k])
  }

  /** `row.get(key, default)`. */
  function Get(row: Row, key: string, default: string): string {
    if key in row then row[key] else default
  }

  /** The patient's phone: the phone cell, trimmed; "" without a phone column. */
  function PhoneOf(row: Row, phoneCol: Option<string>): string {
    if phoneCol.Some? then Strip(Get(row, phoneCol.value, "")) else ""
  }

  /** A phone the loop uses: not empty, and not the renderings of a missing or zero cell. */
  predicate HasPhone(tel: string) {
    tel !in {"nan", "0", ""}
  }

  /** `tmpl.replace("{tsh}", tsh).replace("{ars}", ars)`. */
  function Fill(tmpl: string, tsh: string, ars: string): string {
    ReplaceAll(ReplaceAll(tmpl, "{tsh}", tsh), "{ars}", ars)
  }

  /** What the page holds when the button is pressed. */
  datatype Settings = Settings(phoneCol: Option<string>, tmplPac: string, irsPhone: string, tmplIrs: string, testMode: bool)

  /** The patient message of one row: the second result and the ARS ("su EPS" when there is no such column). */
  function PatientMessage(s: Settings, row: Row): string {
    Fill(s.tmplPac, Get(row, "resultado_muestra_2", ""), Get(row, "ars", "su EPS"))
  }

  /** The IRS message of one row. */
  function IrsMessage(s: Settings, row: Row): string {
    Fill(s.tmplIrs, Get(row, "resultado_muestra_2", ""), Get(row, "ars", "su EPS"))
  }

  /** What the loop does for one row: its id, the phone it read, and the two sends it made, if any. */
  datatype RowSend = RowSend(id: string, tel: string, patient: Option<Sms.SmsResult>, irs: Option<Sms.SmsResult>)

  /**
    The sends of one row: to the patient when the phone is usable, to the
    IRS when an IRS phone was typed.
   */
  function SendOf(s: Settings, row: Row, patient: Sms.Outcome, irs: Sms.Outcome): RowSend {
    var tel := PhoneOf(row, s.phoneCol);
    RowSend(Get(row, "id", "—"), tel,
            if HasPhone(tel) then Some(Sms.SendSmsApp(tel, PatientMessage(s, row), s.testMode, patient)) else None,
            if s.irsPhone != "" then Some(Sms.SendSmsApp(s.irsPhone, IrsMessage(s, row), s.testMode, irs)) else None)
  }

  /** The sends of every row, in order; the outcomes are indexed by the row's position. */
  function RowSends(s: Settings, rows: seq<Row>, patient: nat -> Sms.Outcome, irs: nat -> Sms.Outcome): (rs: seq<RowSend>)
    ensures |rs| == |rows|
  {
    seq(|rows|, i requires 0 <= i < |rows| => SendOf(s, rows[i], patient(i), irs(i)))
  }

  /** The patient's entry of one row, when a patient send was made. */
  function PatientPart(r: RowSend): seq<Intake.LogEntry> {
    if r.patient.Some? then [Intake.LogEntry(r.id, "Paciente", r.tel, r.patient.value.status)] else []
  }

  /** The IRS entry of one row, when an IRS send was made. */
  function IrsPart(s: Settings, r: RowSend): seq<Intake.LogEntry> {
    if r.irs.Some? then [Intake.LogEntry(r.id, "IRS", s.irsPhone, r.irs.value.status)] else []
  }

  /** The entries one row adds to `log_mass`: the patient's, then the IRS's. */
  function Entries(s: Settings, r: RowSend): seq<Intake.LogEntry> {
    PatientPart(r) + IrsPart(s, r)
  }

  /** `log_mass` after the rows `rs`. */
  function Log(s: Settings, rs: seq<RowSend>): seq<Intake.LogEntry> {
    if rs == [] then [] else Log(s, rs[..|rs| - 1]) + Entries(s, rs[|rs| - 1])
  }

  /** Whether one patient send counts as sent (1) or as failed (1). */
  function SentOf(p: Option<Sms.SmsResult>): nat { if p.Some? && p.value.ok then 1 else 0 }
  function FailedOf(p: Option<Sms.SmsResult>): nat { if p.Some? && !p.value.ok then 1 else 0 }

  /** `sent`: the patient sends that succeeded. */
  function SentIn(rs: seq<RowSend>): nat {
    if rs == [] then 0 else SentIn(rs[..|rs| - 1]) + SentOf(rs[|rs| - 1].patient)
  }

  /** `failed`: the patient sends that did not succeed. */
  function FailedIn(rs: seq<RowSend>): nat {
    if rs == [] then 0 else FailedIn(rs[..|rs| - 1]) + FailedOf(rs[|rs| - 1].patient)
  }

  /** The patient sends attempted at all. */
  function Attempts(rs: seq<RowSend>): (k: nat)
    ensures k <= |rs|
  {
    if rs == [] then 0 else Attempts(rs[..|rs| - 1]) + (if rs[|rs| - 1].patient.Some? then 1 else 0)
  }

  /** The IRS sends attempted. */
  function IrsSends(rs: seq<RowSend>): (k: nat)
    ensures k <= |rs|
  {
    if rs == [] then 0 else IrsSends(rs[..|rs| - 1]) + (if rs[|rs| - 1].irs.Some? then 1 else 0)
  }

  /** For each row, whether its phone is usable. */
  function Usable(s: Settings, rows: seq<Row>): (u: seq<bool>)
    ensures |u| == |rows|
  {
    seq(|rows|, i requires 0 <= i < |rows| => HasPhone(PhoneOf(rows[i], s.phoneCol)))
  }

  /** How many of the flags are set. */
  function Count(bs: seq<bool>): (k: nat)
    ensures k <= |bs|
  {
    if bs == [] then 0 else Count(bs[..|bs| - 1]) + (if bs[|bs| - 1] then 1 else 0)
  }

  /** The entries of a log that go to `destino`. */
  function CountTo(log: seq<Intake.LogEntry>, destino: string): (k: nat)
    ensures k <= |log|
  {
    if log == [] then 0 else CountTo(log[..|log| - 1], destino) + (if log[|log| - 1].destino == destino then 1 else 0)
  }

  /**
    The body of the loop for one row: the patient notice when its phone is
    usable, then the IRS notice when an IRS phone was typed; it returns what
    the row adds to `sent`, `failed` and `log_mass`.
   */
  method SendRow(s: Settings, row: Row, patient: Sms.Outcome, irs: Sms.Outcome)
    returns (sentNow: nat, failedNow: nat, entries: seq<Intake.LogEntry>)
    ensures var r := SendOf(s, row, patient, irs);
            sentNow == SentOf(r.patient) && failedNow == FailedOf(r.patient) && entries == Entries(s, r)
  {
    ghost var sent := SendOf(s, row, patient, irs);
    SendOfParts(s, row, patient, irs);
    var tel := PhoneOf(row, s.phoneCol);
    var id := Get(row, "id", "—");
    sentNow, failedNow, entries := 0, 0, [];
    if HasPhone(tel) {
      var r := Sms.SendSmsApp(tel, PatientMessage(s, row), s.testMode, patient);
      entries := entries + [Intake.LogEntry(id, "Paciente", tel, r.status)];
      sentNow := if r.ok then 1 else 0;
      failedNow := if r.ok then 0 else 1;
    }
    assert entries == PatientPart(sent) by {
      if HasPhone(tel) {
        assert sent.patient.Some?;
      } else {
        assert sent.patient.None?;
      }
    }
    if s.irsPhone != "" {
      var r := Sms.SendSmsApp(s.irsPhone, IrsMessage(s, row), s.testMode, irs);
      entries := entries + [Intake.LogEntry(id, "IRS", s.irsPhone, r.status)];
      assert [Intake.LogEntry(id, "IRS", s.irsPhone, r.status)] == IrsPart(s, sent);
    } else {
      assert IrsPart(s, sent) == [];
      assert entries == entries + IrsPart(s, sent);
    }
  }

  /** The parts of one row's sends, field by field. */
  lemma SendOfParts(s: Settings, row: Row, patient: Sms.Outcome, irs: Sms.Outcome)
    ensures var r := SendOf(s, row, patient, irs);
            var tel := PhoneOf(row, s.phoneCol);
            r.id == Get(row, "id", "—") && r.tel == tel &&
            r.patient == (if HasPhone(tel) then Some(Sms.SendSmsApp(tel, PatientMessage(s, row), s.testMode, patient)) else None) &&
            r.irs == (if s.irsPhone != "" then Some(Sms.SendSmsApp(s.irsPhone, IrsMessage(s, row), s.testMode, irs)) else None)
  {
  }

  /**
    The loop over the confirmed rows: each row's sends are counted into
    `sent` and `failed` and its entries appended to `log_mass`.
   */
  method BulkSend(s: Settings, rows: seq<Row>, patient: nat -> Sms.Outcome, irs: nat -> Sms.Outcome)
    returns (sent: nat, failed: nat, logMass: seq<Intake.LogEntry>)
    ensures var rs := RowSends(s, rows, patient, irs);
            sent == SentIn(rs) && failed == FailedIn(rs) && logMass == Log(s, rs)
  {
    var rs := RowSends(s, rows, patient, irs);
    sent, failed, logMass := 0, 0, [];
    var i := 0;
    while i < |rows|
      invariant 0 <= i <= |rows|
      invariant sent == SentIn(rs[..i]) && failed == FailedIn(rs[..i]) && logMass == Log(s, rs[..i])
    {
      var sentNow, failedNow, entries := SendRow(s, rows[i], patient(i), irs(i));
      assert rs[i] == SendOf(s, rows[i], patient(i), irs(i));
      PrefixStep(s, rs, i);
      sent := sent + sentNow;
      failed := failed + failedNow;
      logMass := logMass + entries;
      i := i + 1;
    }
    assert rs[..|rows|] == rs;
  }

  /**
    Pressing "Enviar a Todos los Casos Confirmados": without a phone column
    the page shows a warning and no button; otherwise the loop runs and its
    entries are added to the session's history.
   */
  method MassAlert(session: Intake.Session, columns: set<string>, rows: seq<Row>, tmplPac: string,
                   irsPhone: string, tmplIrs: string, testMode: bool,
                   patient: nat -> Sms.Outcome, irs: nat -> Sms.Outcome)
    returns (sent: nat, failed: nat)
    modifies session
    ensures var s := Settings(PhoneColumn(columns), tmplPac, irsPhone, tmplIrs, testMode);
            var rs := RowSends(s, rows, patient, irs);
            if PhoneColumn(columns).None? then sent == 0 && failed == 0 && session.smsLog == old(session.smsLog)
            else sent == SentIn(rs) && failed == FailedIn(rs) && session.smsLog == old(session.smsLog) + Log(s, rs)
  {
    var phoneCol := PhoneColumn(columns);
    if phoneCol.None? {
      sent, failed := 0, 0;
    } else {
      var logMass;
      sent, failed, logMass := BulkSend(Settings(phoneCol, tmplPac, irsPhone, tmplIrs, testMode), rows, patient, irs);
      session.smsLog := session.smsLog + logMass;
    }
  }

  // ------------------------------------------------------------ properties

  /** The phone column is the first candidate the table has, and there is one iff any candidate is present. */
  lemma PhoneColumnFirst(columns: set<string>)
    ensures PhoneColumn(columns).None? <==>
              "telefono_1" !in columns && "telefono_2" !in columns && "tel1" !in columns && "tel2" !in columns
    ensures "telefono_1" in columns ==> PhoneColumn(columns) == Some("telefono_1")
    ensures "telefono_1" !in columns && "telefono_2" in columns ==> PhoneColumn(columns) == Some("telefono_2")
    ensures PhoneColumn(columns).Some? ==> PhoneColumn(columns).value in columns
  {
    var r := FirstPresent(PhoneColumns, columns);
    assert PhoneColumns[0] == "telefono_1" && PhoneColumns[1] == "telefono_2";
    assert PhoneColumns[2] == "tel1" && PhoneColumns[3] == "tel2";
    if "telefono_1" !in columns && "telefono_2" in columns {
      assert r.value != 0;
    }
  }


  /**
    A row's patient send is made exactly when its phone is usable, its IRS
    send exactly when an IRS phone was typed, and in test mode both succeed.
   */
  lemma SendOfShape(s: Settings, row: Row, patient: Sms.Outcome, irs: Sms.Outcome)
    ensures var r := SendOf(s, row, patient, irs);
            r.tel == PhoneOf(row, s.phoneCol) && (r.patient.Some? <==> HasPhone(r.tel)) &&
            (r.irs.Some? <==> s.irsPhone != "") &&
            (s.testMode ==> (r.patient.Some? ==> r.patient.value.ok) && (r.irs.Some? ==> r.irs.value.ok))
  {
  }

  /** Appending one row adds its own share to each count and its entries to the log. */
  lemma CountStep(s: Settings, rs: seq<RowSend>, r: RowSend)
    ensures SentIn(rs + [r]) == SentIn(rs) + SentOf(r.patient)
    ensures FailedIn(rs + [r]) == FailedIn(rs) + FailedOf(r.patient)
    ensures Attempts(rs + [r]) == Attempts(rs) + (if r.patient.Some? then 1 else 0)
    ensures IrsSends(rs + [r]) == IrsSends(rs) + (if r.irs.Some? then 1 else 0)
    ensures Log(s, rs + [r]) == Log(s, rs) + Entries(s, r)
  {
    assert (rs + [r])[..|rs|] == rs;
  }

  /** Extending a prefix by one row adds that row's share. */
  lemma PrefixStep(s: Settings, rs: seq<RowSend>, i: nat)
    requires i < |rs|
    ensures SentIn(rs[..i + 1]) == SentIn(rs[..i]) + SentOf(rs[i].patient)
    ensures FailedIn(rs[..i + 1]) == FailedIn(rs[..i]) + FailedOf(rs[i].patient)
    ensures Log(s, rs[..i + 1]) == Log(s, rs[..i]) + Entries(s, rs[i])
  {
    assert rs[..i + 1] == rs[..i] + [rs[i]];
    CountStep(s, rs[..i], rs[i]);
  }

  /** Every attempted patient send is counted once, as sent or as failed. */
  lemma {:induction false} SentPlusFailed(rs: seq<RowSend>)
    ensures SentIn(rs) + FailedIn(rs) == Attempts(rs)
  {
    if rs != [] {
      SentPlusFailed(rs[..|rs| - 1]);
    }
  }

  /** When every attempted patient send succeeds, nothing is counted as failed. */
  lemma {:induction false} AllOkNeverFails(rs: seq<RowSend>)
    requires forall i :: 0 <= i < |rs| && rs[i].patient.Some? ==> rs[i].patient.value.ok
    ensures FailedIn(rs) == 0 && SentIn(rs) == Attempts(rs)
  {
    if rs != [] {
      var q := rs[..|rs| - 1];
      assert forall i :: 0 <= i < |q| ==> q[i] == rs[i];
      AllOkNeverFails(q);
    }
  }

  /** Counting entries by destination distributes over concatenation. */
  lemma {:induction false} CountToAppend(a: seq<Intake.LogEntry>, b: seq<Intake.LogEntry>, destino: string)
    ensures CountTo(a + b, destino) == CountTo(a, destino) + CountTo(b, destino)
    decreases |b|
  {
    if b == [] {
      assert a + b == a;
    } else {
      var c := a + b;
      assert c[..|c| - 1] == a + b[..|b| - 1];
      assert c[|c| - 1] == b[|b| - 1];
      CountToAppend(a, b[..|b| - 1], destino);
    }
  }

  /** A log whose entries all go to `destino` counts them all. */
  lemma {:induction false} CountToAll(log: seq<Intake.LogEntry>, destino: string)
    requires forall e :: e in log ==> e.destino == destino
    ensures CountTo(log, destino) == |log|
  {
    if log != [] {
      assert log[|log| - 1] in log;
      assert forall e :: e in log[..|log| - 1] ==> e in log;
      CountToAll(log[..|log| - 1], destino);
    }
  }

  /** A log with no entry to `destino` counts none. */
  lemma {:induction false} CountToNone(log: seq<Intake.LogEntry>, destino: string)
    requires forall e :: e in log ==> e.destino != destino
    ensures CountTo(log, destino) == 0
  {
    if log != [] {
      assert log[|log| - 1] in log;
      assert forall e :: e in log[..|log| - 1] ==> e in log;
      CountToNone(log[..|log| - 1], destino);
    }
  }

  /** Entries all to `d` followed by entries all to another destination `d'`: each count is its own part's length. */
  lemma CountSplit(p: seq<Intake.LogEntry>, q: seq<Intake.LogEntry>, d: string, d': string)
    requires d != d'
    requires forall e :: e in p ==> e.destino == d
    requires forall e :: e in q ==> e.destino == d'
    ensures CountTo(p + q, d) == |p| && CountTo(p + q, d') == |q|
  {
    CountToAppend(p, q, d);
    CountToAppend(p, q, d');
    CountToAll(p, d);
    CountToNone(p, d');
    CountToAll(q, d');
    CountToNone(q, d);
  }

  /** The entries of one row: one to the patient per patient send, one to the IRS per IRS send. */
  lemma EntriesCounts(s: Settings, r: RowSend)
    ensures CountTo(Entries(s, r), "Paciente") == if r.patient.Some? then 1 else 0
    ensures CountTo(Entries(s, r), "IRS") == if r.irs.Some? then 1 else 0
  {
    CountSplit(PatientPart(r), IrsPart(s, r), "Paciente", "IRS");
  }

  /** The log holds exactly one patient entry per patient send. */
  lemma {:induction false} LogPatients(s: Settings, rs: seq<RowSend>)
    ensures CountTo(Log(s, rs), "Paciente") == Attempts(rs)
  {
    if rs != [] {
      var q := rs[..|rs| - 1];
      var r := rs[|rs| - 1];
      LogPatients(s, q);
      CountToAppend(Log(s, q), Entries(s, r), "Paciente");
      EntriesCounts(s, r);
    }
  }

  /** The log holds exactly one IRS entry per IRS send. */
  lemma {:induction false} LogIrs(s: Settings, rs: seq<RowSend>)
    ensures CountTo(Log(s, rs), "IRS") == IrsSends(rs)
  {
    if rs != [] {
      var q := rs[..|rs| - 1];
      var r := rs[|rs| - 1];
      LogIrs(s, q);
      CountToAppend(Log(s, q), Entries(s, r), "IRS");
      EntriesCounts(s, r);
    }
  }

  /** Rows that all have an IRS send, or none: the IRS count is all of them, or zero. */
  lemma {:induction false} IrsSendsUniform(rs: seq<RowSend>, b: bool)
    requires forall i :: 0 <= i < |rs| ==> rs[i].irs.Some? == b
    ensures IrsSends(rs) == if b then |rs| else 0
  {
    if rs != [] {
      var q := rs[..|rs| - 1];
      assert forall i :: 0 <= i < |q| ==> q[i] == rs[i];
      IrsSendsUniform(q, b);
    }
  }

  /** Sends attempted exactly where the flags are set: as many attempts as flags. */
  lemma {:induction false} AttemptsFollowFlags(rs: seq<RowSend>, bs: seq<bool>)
    requires |rs| == |bs|
    requires forall i :: 0 <= i < |rs| ==> rs[i].patient.Some? == bs[i]
    ensures Attempts(rs) == Count(bs)
  {
    if rs != [] {
      var q := rs[..|rs| - 1];
      var c := bs[..|bs| - 1];
      assert forall i :: 0 <= i < |q| ==> q[i] == rs[i] && c[i] == bs[i];
      AttemptsFollowFlags(q, c);
    }
  }

  /** No flag set, no count. */
  lemma {:induction false} CountNone(bs: seq<bool>)
    requires forall i :: 0 <= i < |bs| ==> !bs[i]
    ensures Count(bs) == 0
  {
    if bs != [] {
      var c := bs[..|bs| - 1];
      assert forall i :: 0 <= i < |c| ==> c[i] == bs[i];
      CountNone(c);
    }
  }

  /** Each row's patient send is attempted exactly when its phone is usable. */
  lemma SendsFollowPhones(s: Settings, rows: seq<Row>, patient: nat -> Sms.Outcome, irs: nat -> Sms.Outcome)
    ensures var rs := RowSends(s, rows, patient, irs);
            forall i :: 0 <= i < |rs| ==> rs[i].patient.Some? == Usable(s, rows)[i]
  {
    var rs := RowSends(s, rows, patient, irs);
    forall i | 0 <= i < |rs| ensures rs[i].patient.Some? == Usable(s, rows)[i] {
      assert rs[i] == SendOf(s, rows[i], patient(i), irs(i));
      SendOfShape(s, rows[i], patient(i), irs(i));
    }
  }

  /**
    After the loop: every row with a usable phone is counted once as sent
    or failed and has one patient entry in the log, and every row has one
    IRS entry exactly when an IRS phone was typed.
   */
  lemma BulkCounts(s: Settings, rows: seq<Row>, patient: nat -> Sms.Outcome, irs: nat -> Sms.Outcome)
    ensures var rs := RowSends(s, rows, patient, irs);
            SentIn(rs) + FailedIn(rs) == Count(Usable(s, rows)) &&
            CountTo(Log(s, rs), "Paciente") == Count(Usable(s, rows)) &&
            CountTo(Log(s, rs), "IRS") == if s.irsPhone != "" then |rows| else 0
  {
    var rs := RowSends(s, rows, patient, irs);
    SentPlusFailed(rs);
    SendsFollowPhones(s, rows, patient, irs);
    AttemptsFollowFlags(rs, Usable(s, rows));
    LogPatients(s, rs);
    LogIrs(s, rs);
    forall i | 0 <= i < |rs| ensures rs[i].irs.Some? == (s.irsPhone != "") {
      assert rs[i] == SendOf(s, rows[i], patient(i), irs(i));
      SendOfShape(s, rows[i], patient(i), irs(i));
    }
    IrsSendsUniform(rs, s.irsPhone != "");
  }

  /** In test mode nothing fails and every row with a usable phone is counted as sent. */
  lemma TestModeNeverFails(s: Settings, rows: seq<Row>, patient: nat -> Sms.Outcome, irs: nat -> Sms.Outcome)
    requires s.testMode
    ensures FailedIn(RowSends(s, rows, patient, irs)) == 0
    ensures SentIn(RowSends(s, rows, patient, irs)) == Count(Usable(s, rows))
  {
    var rs := RowSends(s, rows, patient, irs);
    forall i | 0 <= i < |rs| && rs[i].patient.Some? ensures rs[i].patient.value.ok {
      assert rs[i] == SendOf(s, rows[i], patient(i), irs(i));
      SendOfShape(s, rows[i], patient(i), irs(i));
    }
    AllOkNeverFails(rs);
    SendsFollowPhones(s, rows, patient, irs);
    AttemptsFollowFlags(rs, Usable(s, rows));
  }

  /** A patient entry carries a usable phone, and an IRS entry the typed IRS phone. */
  predicate Addressed(s: Settings, e: Intake.LogEntry) {
    (e.destino == "Paciente" ==> HasPhone(e.telefono)) && (e.destino == "IRS" ==> e.telefono == s.irsPhone)
  }

  /** When every patient send went to a usable phone, every entry of the log is addressed. */
  lemma {:induction false} LogAddressed(s: Settings, rs: seq<RowSend>)
    requires forall i :: 0 <= i < |rs| && rs[i].patient.Some? ==> HasPhone(rs[i].tel)
    ensures forall e :: e in Log(s, rs) ==> Addressed(s, e)
  {
    if rs != [] {
      var q := rs[..|rs| - 1];
      var r := rs[|rs| - 1];
      assert forall i :: 0 <= i < |q| ==> q[i] == rs[i];
      LogAddressed(s, q);
      assert forall e :: e in Entries(s, r) ==> Addressed(s, e);
      assert Log(s, rs) == Log(s, q) + Entries(s, r);
    }
  }

  /** Every entry of the bulk log is addressed. */
  lemma BulkLogAddressed(s: Settings, rows: seq<Row>, patient: nat -> Sms.Outcome, irs: nat -> Sms.Outcome)
    ensures forall e :: e in Log(s, RowSends(s, rows, patient, irs)) ==> Addressed(s, e)
  {
    var rs := RowSends(s, rows, patient, irs);
    forall i | 0 <= i < |rs| && rs[i].patient.Some? ensures HasPhone(rs[i].tel) {
      assert rs[i] == SendOf(s, rows[i], patient(i), irs(i));
      SendOfShape(s, rows[i], patient(i), irs(i));
    }
    LogAddressed(s, rs);
  }

  /** Without a phone column no patient is sent anything. */
  lemma NoPhoneColumnNoPatients(s: Settings, rows: seq<Row>, patient: nat -> Sms.Outcome, irs: nat -> Sms.Outcome)
    requires s.phoneCol.None?
    ensures Count(Usable(s, rows)) == 0
    ensures SentIn(RowSends(s, rows, patient, irs)) == 0 && FailedIn(RowSends(s, rows, patient, irs)) == 0
  {
    var u := Usable(s, rows);
    forall i | 0 <= i < |u| ensures !u[i] {
      assert PhoneOf(rows[i], s.phoneCol) == "";
    }
    CountNone(u);
    BulkCounts(s, rows, patient, irs);
  }

  /** A template without either placeholder is sent as written. */
  lemma FillWithoutPlaceholders(tmpl: string, tsh: string, ars: string)
    requires forall i: nat :: !OccursAt(tmpl, "{tsh}", i)
    requires forall i: nat :: !OccursAt(tmpl, "{ars}", i)
    ensures Fill(tmpl, tsh, ars) == tmpl
  {
    ReplaceAllAbsent(tmpl, "{tsh}", tsh);
    ReplaceAllAbsent(tmpl, "{ars}", ars);
  }
}
