/**
  The SMS front end: `enviar_sms(telefono, mensaje, test_mode)` in
  `utils/sms.py` and its older copy in `app.py`. A blank phone is refused
  (in the utility only), a phone without a leading "+" gets the Colombian
  prefix "+57", test mode reports a simulated send, and otherwise the
  Twilio call is made. The call itself is outside the model: its outcome
  is a parameter.
 */
module Sms {
  import opened Strings

  /** What the Twilio path ends in: a missing secret (`KeyError`), a delivery, or any other exception. */
  datatype Outcome = MissingCredentials | Delivered(sid: string) | Failed(reason: string)

  /** `(ok, status)` and whether the Twilio path was taken at all. */
  datatype SmsResult = SmsResult(ok: bool, status: string, transport: bool)

  /** A phone without a leading "+" becomes "+57" and the trimmed phone. */
  function NormalizePhone(tel: string): string {
    if StartsWith(tel, "+") then tel else "+57" + Strip(tel)
  }

  /** `mensaje[:60]`. */
  function Preview(msg: string): (r: string)
    ensures |r| <= 60 && |r| <= |msg| && r == msg[..|r|]
    ensures |msg| <= 60 ==> r == msg
    ensures |msg| > 60 ==> |r| == 60
  {
    if |msg| <= 60 then msg else msg[..60]
  }

  const SimulatedPrefix: string := "[SIMULADO] → "
  const EmptyPhone: string := "Teléfono vacío"
  const NoCredentials: string := "Faltan credenciales en st.secrets['twilio']"

  /** The status the Twilio path reports for each outcome. */
  function TransportStatus(outcome: Outcome, noCredentials: string): string {
    match outcome
    case MissingCredentials => noCredentials
    case Delivered(sid) => "Enviado — SID: " + sid
    case Failed(reason) => "Error Twilio: " + reason
  }

  /** `enviar_sms` in `utils/sms.py`. */
  function SendSms(tel: string, msg: string, testMode: bool, outcome: Outcome): (r: SmsResult)
    ensures IsBlank(tel) ==> r == SmsResult(false, EmptyPhone, false)
    ensures !IsBlank(tel) && testMode ==>
              r == SmsResult(true, SimulatedPrefix + NormalizePhone(tel) + ": " + Preview(msg) + "...", false)
    ensures !IsBlank(tel) && !testMode ==>
              r.transport && (r.ok <==> outcome.Delivered?) && r.status == TransportStatus(outcome, NoCredentials)
    ensures r.ok ==> !IsBlank(tel) && (testMode || outcome.Delivered?)
    ensures r.transport <==> !IsBlank(tel) && !testMode
  {
    if IsBlank(tel) then SmsResult(false, EmptyPhone, false)
    else
      var to := NormalizePhone(tel);
      if testMode then SmsResult(true, SimulatedPrefix + to + ": " + Preview(msg) + "...", false)
      else SmsResult(outcome.Delivered?, TransportStatus(outcome, NoCredentials), true)
  }

  const AppSimulatedPrefix: string := "[SIMULADO] Mensaje a "
  const AppNoCredentials: string := "Configura st.secrets['twilio'] con account_sid, auth_token y from_phone_number"

  /** `enviar_sms` in `app.py`: the same steps without the blank-phone check, and other wording. */
  function SendSmsApp(tel: string, msg: string, testMode: bool, outcome: Outcome): (r: SmsResult)
    ensures testMode ==> r == SmsResult(true, AppSimulatedPrefix + NormalizePhone(tel) + ": " + Preview(msg) + "...", false)
    ensures !testMode ==> r.transport && (r.ok <==> outcome.Delivered?) && r.status == TransportStatus(outcome, AppNoCredentials)
  {
    var to := NormalizePhone(tel);
    if testMode then SmsResult(true, AppSimulatedPrefix + to + ": " + Preview(msg) + "...", false)
    else SmsResult(outcome.Delivered?, TransportStatus(outcome, AppNoCredentials), true)
  }

  // ------------------------------------------------------------ properties

  /** A normalised phone always carries a "+" prefix, and normalising again changes nothing. */
  lemma NormalizeIdempotent(tel: string)
    ensures StartsWith(NormalizePhone(tel), "+")
    ensures NormalizePhone(NormalizePhone(tel)) == NormalizePhone(tel)
    ensures StartsWith(tel, "+") ==> NormalizePhone(tel) == tel
    ensures !StartsWith(tel, "+") ==> NormalizePhone(tel) == "+57" + Strip(tel)
  {
    var r := NormalizePhone(tel);
    if !StartsWith(tel, "+") {
      assert r[..1] == "+";
    }
  }

  /** Success comes only from test mode or a delivery. */
  lemma SuccessMeansSimulatedOrDelivered(tel: string, msg: string, testMode: bool, outcome: Outcome)
    ensures SendSms(tel, msg, testMode, outcome).ok ==> testMode || outcome.Delivered?
    ensures SendSmsApp(tel, msg, testMode, outcome).ok ==> testMode || outcome.Delivered?
  {
  }

  /** On a non-blank phone the two copies agree on success and on reaching Twilio. */
  lemma VariantsAgree(tel: string, msg: string, testMode: bool, outcome: Outcome)
    requires !IsBlank(tel)
    ensures SendSms(tel, msg, testMode, outcome).ok == SendSmsApp(tel, msg, testMode, outcome).ok
    ensures SendSms(tel, msg, testMode, outcome).transport == SendSmsApp(tel, msg, testMode, outcome).transport
  {
  }

  /** The copy in `app.py` accepts a whitespace-only phone and, in test mode, reports a send to "+57". */
  lemma AppAcceptsBlankPhone(tel: string, msg: string, outcome: Outcome)
    requires IsBlank(tel)
    ensures SendSmsApp(tel, msg, true, outcome).ok
    ensures NormalizePhone(tel) == "+57"
    ensures !SendSms(tel, msg, true, outcome).ok
  {
    BlankIffAllSpace(tel);
    if |tel| > 0 {
      assert IsSpace(tel[0]);
    }
    assert !StartsWith(tel, "+");
  }
}
