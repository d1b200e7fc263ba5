/**
  Field validators for the two numeric fields of a screening card: the TSH
  result and the birth weight. Each takes the raw text and returns the pair
  `(value, error)` with exactly one side present. The checks run in a fixed
  order (blank, not a number, too low, too high) and the first that fails
  names the error. A comma is accepted as the decimal mark, and both range
  bounds are inclusive.
 */
module Validators {
  import opened Strings
  import opened Constants

  /** The `(value, error)` pair returned by a validator. */
  datatype Checked = Checked(value: Option<real>, error: Option<string>)

  /** What `float` makes of the text once every comma has become a dot. */
  function Reading(text: string): Option<real> {
    ParseFloat(ReplaceChar(text, ',', '.'))
  }

  /** The range check shared by both validators, with its four messages. */
  function CheckNumber(text: string, lo: real, hi: real,
                       blank: string, notNumber: string, tooLow: string, tooHigh: string): (r: Checked)
    ensures r.value.Some? != r.error.Some?
    ensures r.value.Some? <==> !IsBlank(text) && Reading(text).Some? && lo <= Reading(text).value <= hi
    ensures r.value.Some? ==> r.value == Reading(text)
    ensures IsBlank(text) ==> r.error == Some(blank)
    ensures !IsBlank(text) && Reading(text).None? ==> r.error == Some(notNumber)
    ensures !IsBlank(text) && Reading(text).Some? && Reading(text).value < lo ==> r.error == Some(tooLow)
    ensures !IsBlank(text) && Reading(text).Some? && lo <= Reading(text).value && Reading(text).value > hi
            ==> r.error == Some(tooHigh)
  {
    if IsBlank(text) then Checked(None, Some(blank))
    else match Reading(text)
      case None => Checked(None, Some(notNumber))
      case Some(v) =>
        if v < lo then Checked(None, Some(tooLow))
        else if v > hi then Checked(None, Some(tooHigh))
        else Checked(Some(v), None)
  }

  /** `val_tsh(text, campo)`: a TSH result in [0.1, 300.0] µIU/mL. */
  function ValTsh(text: string, campo: string): (r: Checked)
    ensures r.value.Some? != r.error.Some?
    ensures r.value.Some? <==> !IsBlank(text) && Reading(text).Some? && TshMin <= Reading(text).value <= TshMax
    ensures r.value.Some? ==> r.value == Reading(text)
    ensures IsBlank(text) ==> r.error == Some(campo + " es obligatorio")
    ensures !IsBlank(text) && Reading(text).None? ==> r.error == Some(campo + " debe ser un número")
    ensures !IsBlank(text) && Reading(text).Some? && Reading(text).value < TshMin
            ==> r.error == Some(campo + " demasiado bajo (mín 0.1)")
    ensures !IsBlank(text) && Reading(text).Some? && Reading(text).value > TshMax
            ==> r.error == Some(campo + " imposible (máx 300.0 µIU/mL)")
  {
    CheckNumber(text, TshMin, TshMax,
                campo + " es obligatorio", campo + " debe ser un número",
                campo + " demasiado bajo (mín 0.1)", campo + " imposible (máx 300.0 µIU/mL)")
  }

  /** `val_peso(text)`: a birth weight in [400, 8000] g. */
  function ValPeso(text: string): (r: Checked)
    ensures r.value.Some? != r.error.Some?
    ensures r.value.Some? <==> !IsBlank(text) && Reading(text).Some?
                               && PesoMin as real <= Reading(text).value <= PesoMax as real
    ensures r.value.Some? ==> r.value == Reading(text)
    ensures IsBlank(text) ==> r.error == Some("Peso es obligatorio")
    ensures !IsBlank(text) && Reading(text).None? ==> r.error == Some("Peso debe ser un número")
    ensures !IsBlank(text) && Reading(text).Some? && Reading(text).value < PesoMin as real
            ==> r.error == Some("Peso muy bajo (mín 400 g)")
    ensures !IsBlank(text) && Reading(text).Some? && Reading(text).value > PesoMax as real
            ==> r.error == Some("Peso imposible (máx 8000 g)")
  {
    CheckNumber(text, PesoMin as real, PesoMax as real,
                "Peso es obligatorio", "Peso debe ser un número",
                "Peso muy bajo (mín 400 g)", "Peso imposible (máx 8000 g)")
  }

  // ------------------------------------------------------------ properties

  lemma {:induction false} ReplaceCharTwice(s: string, a: char, b: char)
    ensures ReplaceChar(ReplaceChar(s, a, b), a, b) == ReplaceChar(s, a, b) || a == b
  {
    if a != b {
      var once := ReplaceChar(s, a, b);
      var twice := ReplaceChar(once, a, b);
      assert |twice| == |once|;
      forall i | 0 <= i < |once| ensures twice[i] == once[i] {
      }
    }
  }

  lemma ReplaceCharAbsent(s: string, a: char, b: char)
    requires forall i :: 0 <= i < |s| ==> s[i] != a
    ensures ReplaceChar(s, a, b) == s
  {
    assert |ReplaceChar(s, a, b)| == |s|;
  }

  /** Blankness does not depend on whether commas have become dots. */
  lemma BlankAfterReplace(s: string)
    ensures IsBlank(ReplaceChar(s, ',', '.')) == IsBlank(s)
  {
    var t := ReplaceChar(s, ',', '.');
    BlankIffAllSpace(s);
    BlankIffAllSpace(t);
    forall i | 0 <= i < |s| ensures IsSpace(t[i]) <==> IsSpace(s[i]) {
      if s[i] == ',' {
        assert t[i] == '.';
      } else {
        assert t[i] == s[i];
      }
    }
  }

  /** "7,2" and "7.2" are the same reading, for both validators. */
  lemma DecimalComma(text: string, campo: string)
    ensures ValTsh(ReplaceChar(text, ',', '.'), campo) == ValTsh(text, campo)
    ensures ValPeso(ReplaceChar(text, ',', '.')) == ValPeso(text)
  {
    BlankAfterReplace(text);
    ReplaceCharTwice(text, ',', '.');
  }

  /** A whole number of µIU/mL is accepted exactly when it lies in [0.1, 300]. */
  lemma ValTshWhole(n: nat, campo: string)
    ensures 1 <= n <= 300 ==> ValTsh(NatToString(n), campo).value == Some(n as real)
    ensures n == 0 ==> ValTsh(NatToString(n), campo).error == Some(campo + " demasiado bajo (mín 0.1)")
    ensures n > 300 ==> ValTsh(NatToString(n), campo).error == Some(campo + " imposible (máx 300.0 µIU/mL)")
  {
    WholeReading(n);
  }

  /** A whole number of grams is accepted exactly when it lies in [400, 8000]. */
  lemma ValPesoWhole(n: nat)
    ensures 400 <= n <= 8000 ==> ValPeso(NatToString(n)).value == Some(n as real)
    ensures n < 400 ==> ValPeso(NatToString(n)).error == Some("Peso muy bajo (mín 400 g)")
    ensures n > 8000 ==> ValPeso(NatToString(n)).error == Some("Peso imposible (máx 8000 g)")
  {
    WholeReading(n);
  }

  lemma WholeReading(n: nat)
    ensures !IsBlank(NatToString(n)) && Reading(NatToString(n)) == Some(n as real)
  {
    var t := NatToString(n);
    ReplaceCharAbsent(t, ',', '.');
    ParseFloatNat(n);
    assert IsDigit(t[0]);
    BlankIffAllSpace(t);
  }

  /**
    A decimal `whole.frac` or `whole,frac` is accepted as a TSH result exactly
    when its value lies in [0.1, 300.0]; outside, the message names the side.
   */
  lemma ValTshDecimal(whole: string, frac: string, campo: string)
    requires whole != [] && AllDigits(whole) && AllDigits(frac)
    ensures ValTsh(whole + "," + frac, campo) == ValTsh(whole + "." + frac, campo)
    ensures ValTsh(whole + "." + frac, campo).value.Some?
            <==> TshMin <= DecimalValue(whole, frac) <= TshMax
    ensures ValTsh(whole + "." + frac, campo).value.Some?
            ==> ValTsh(whole + "." + frac, campo).value == Some(DecimalValue(whole, frac))
    ensures DecimalValue(whole, frac) < TshMin
            ==> ValTsh(whole + "." + frac, campo).error == Some(campo + " demasiado bajo (mín 0.1)")
    ensures DecimalValue(whole, frac) > TshMax
            ==> ValTsh(whole + "." + frac, campo).error == Some(campo + " imposible (máx 300.0 µIU/mL)")
  {
    DecimalReading(whole, frac);
    CommaToDot(whole, frac);
    DecimalComma(whole + "," + frac, campo);
  }

  /** The same for a birth weight in grams. */
  lemma ValPesoDecimal(whole: string, frac: string)
    requires whole != [] && AllDigits(whole) && AllDigits(frac)
    ensures ValPeso(whole + "," + frac) == ValPeso(whole + "." + frac)
    ensures ValPeso(whole + "." + frac).value.Some?
            <==> PesoMin as real <= DecimalValue(whole, frac) <= PesoMax as real
    ensures ValPeso(whole + "." + frac).value.Some?
            ==> ValPeso(whole + "." + frac).value == Some(DecimalValue(whole, frac))
    ensures DecimalValue(whole, frac) < PesoMin as real
            ==> ValPeso(whole + "." + frac).error == Some("Peso muy bajo (mín 400 g)")
    ensures DecimalValue(whole, frac) > PesoMax as real
            ==> ValPeso(whole + "." + frac).error == Some("Peso imposible (máx 8000 g)")
  {
    DecimalReading(whole, frac);
    CommaToDot(whole, frac);
    DecimalComma(whole + "," + frac, "");
  }

  lemma CommaToDot(whole: string, frac: string)
    requires AllDigits(whole) && AllDigits(frac)
    ensures ReplaceChar(whole + "," + frac, ',', '.') == whole + "." + frac
  {
    var t := whole + "," + frac;
    var u := ReplaceChar(t, ',', '.');
    assert |u| == |whole + "." + frac|;
    forall i | 0 <= i < |u| ensures u[i] == (whole + "." + frac)[i] {
      if i < |whole| {
        assert t[i] == whole[i];
      } else if i > |whole| {
        assert t[i] == frac[i - |whole| - 1];
      }
    }
  }

  lemma DecimalReading(whole: string, frac: string)
    requires whole != [] && AllDigits(whole) && AllDigits(frac)
    ensures !IsBlank(whole + "." + frac) && Reading(whole + "." + frac) == Some(DecimalValue(whole, frac))
  {
    var t := whole + "." + frac;
    assert forall i :: 0 <= i < |t| ==> t[i] != ',' by {
      forall i | 0 <= i < |t| ensures t[i] != ',' {
        if i < |whole| {
          assert t[i] == whole[i];
        } else if i > |whole| {
          assert t[i] == frac[i - |whole| - 1];
        }
      }
    }
    ReplaceCharAbsent(t, ',', '.');
    ParseFloatDecimal(whole, frac);
    assert t[0] == whole[0] && IsDigit(t[0]);
    BlankIffAllSpace(t);
  }
}
