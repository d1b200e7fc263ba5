/**
  Constants shared by every part of the screening tool: the TSH and
  birth-weight bounds, the clinical cutoff, the record store's column
  list and the selection lists offered by the intake form.
 */
module Constants {

  /** Lowest accepted TSH value (µIU/mL). */
  const TshMin: real := 0.1
  /** Highest accepted TSH value (µIU/mL). */
  const TshMax: real := 300.0
  /** The clinical cutoff: a sample at or above it is positive. */
  const TshCutoff: real := 15.0
  /** Birth-weight bounds, in grams. */
  const PesoMin: int := 400
  const PesoMax: int := 8000

  /** The sentinel that every selection list offers first. */
  const Unselected: string := "Seleccionar..."

  /** The record store's columns, in file order. */
  const FieldNames: seq<string> := [
    "id", "ficha_id", "fecha_ingreso", "institucion", "ars",
    "historia_clinica", "tipo_documento", "numero_documento",
    "ciudad", "departamento", "telefono_1", "telefono_2", "direccion",
    "apellido_1", "apellido_2", "nombre_hijo",
    "fecha_nacimiento", "peso", "sexo", "prematuro", "transfundido",
    "informacion_completa", "muestra_adecuada", "destino_muestra",
    "tipo_muestra", "fecha_toma_muestra", "fecha_resultado", "tsh_neonatal",
    "ficha_id_2", "tipo_muestra_2", "fecha_toma_muestra_2",
    "fecha_resultado_muestra_2", "resultado_muestra_2", "contador",
    "muestra_rechazada", "fecha_toma_rechazada", "tipo_vinculacion",
    "resultado_rechazada", "fecha_resultado_rechazada"
  ]

  const Departamentos: seq<string> := [
    Unselected, "Amazonas", "Antioquia", "Arauca", "Atlántico",
    "Bolívar", "Boyacá", "Caldas", "Caquetá", "Casanare", "Cauca",
    "Cesar", "Chocó", "Córdoba", "Cundinamarca", "Guainía", "Guaviare",
    "Huila", "La Guajira", "Magdalena", "Meta", "Nariño",
    "Norte de Santander", "Putumayo", "Quindío", "Risaralda",
    "San Andrés", "Santander", "Sucre", "Tolima", "Valle del Cauca",
    "Vaupés", "Vichada"
  ]

  const TiposDoc: seq<string> := [Unselected, "CC", "CE", "PA", "RC", "TI"]
  const TiposMuestra: seq<string> := [Unselected, "CORDON", "TALON", "VENA"]
  const TiposVinc: seq<string> := [Unselected, "CONTRIBUTIVO", "SUBSIDIADO", "VINCULADO", "PARTICULAR", "ESPECIAL"]
  const Destinos: seq<string> := [Unselected, "ACEPTADA", "RECHAZADA"]
  const Sexos: seq<string> := [Unselected, "MASCULINO", "FEMENINO", "INDETERMINADO"]

  /** No element occurs twice. */
  predicate Distinct<T(==)>(s: seq<T>) {
    forall i, j :: 0 <= i < j < |s| ==> s[i] != s[j]
  }

  /** No element with index in `[lo, hi)` occurs again later in `s`. */
  predicate DistinctFrom<T(==)>(s: seq<T>, lo: nat, hi: nat) {
    forall i, j :: lo <= i < hi && i < j < |s| ==> s[i] != s[j]
  }

  // The distinctness of the column names, a few rows at a time (each is checked by evaluation).
  lemma FieldNamesDistinct0() ensures DistinctFrom(FieldNames, 0, 1) { }
  lemma FieldNamesDistinct1() ensures DistinctFrom(FieldNames, 1, 2) { }
  lemma FieldNamesDistinct2() ensures DistinctFrom(FieldNames, 2, 3) { }
  lemma FieldNamesDistinct3() ensures DistinctFrom(FieldNames, 3, 4) { }
  lemma FieldNamesDistinct4() ensures DistinctFrom(FieldNames, 4, 5) { }
  lemma FieldNamesDistinct5() ensures DistinctFrom(FieldNames, 5, 6) { }
  lemma FieldNamesDistinct6() ensures DistinctFrom(FieldNames, 6, 7) { }
  lemma FieldNamesDistinct7() ensures DistinctFrom(FieldNames, 7, 8) { }
  lemma FieldNamesDistinct8() ensures DistinctFrom(FieldNames, 8, 10) { }
  lemma FieldNamesDistinct10() ensures DistinctFrom(FieldNames, 10, 12) { }
  lemma FieldNamesDistinct12() ensures DistinctFrom(FieldNames, 12, 14) { }
  lemma FieldNamesDistinct14() ensures DistinctFrom(FieldNames, 14, 16) { }
  lemma FieldNamesDistinct16() ensures DistinctFrom(FieldNames, 16, 18) { }
  lemma FieldNamesDistinct18() ensures DistinctFrom(FieldNames, 18, 21) { }
  lemma FieldNamesDistinct21() ensures DistinctFrom(FieldNames, 21, 24) { }
  lemma FieldNamesDistinct24() ensures DistinctFrom(FieldNames, 24, 28) { }
  lemma FieldNamesDistinct28() ensures DistinctFrom(FieldNames, 28, 39) { }

  /** Accepted TSH values fall on both sides of the cutoff. */
  lemma ThresholdOrder()
    ensures 0.0 < TshMin < TshCutoff < TshMax
  {
  }

  lemma WeightBounds()
    ensures 0 < PesoMin < PesoMax
  {
  }

  /** The column list: 39 distinct names, led by the id and the ficha, holding the TSH columns. */
  lemma FieldNamesShape()
    ensures |FieldNames| == 39 && Distinct(FieldNames)
    ensures FieldNames[0] == "id" && FieldNames[1] == "ficha_id"
    ensures "tsh_neonatal" in FieldNames && "resultado_muestra_2" in FieldNames
  {
    FieldNamesDistinct0(); FieldNamesDistinct1(); FieldNamesDistinct2(); FieldNamesDistinct3(); FieldNamesDistinct4(); FieldNamesDistinct5(); FieldNamesDistinct6(); FieldNamesDistinct7(); FieldNamesDistinct8();
    FieldNamesDistinct10(); FieldNamesDistinct12(); FieldNamesDistinct14(); FieldNamesDistinct16(); FieldNamesDistinct18(); FieldNamesDistinct21(); FieldNamesDistinct24(); FieldNamesDistinct28();
    assert FieldNames[27] == "tsh_neonatal" && FieldNames[32] == "resultado_muestra_2";
  }

  // The distinctness of the departments, a few at a time.
  lemma DepartamentosDistinct0() ensures DistinctFrom(Departamentos, 0, 1) { }
  lemma DepartamentosDistinct1() ensures DistinctFrom(Departamentos, 1, 3) { }
  lemma DepartamentosDistinct3() ensures DistinctFrom(Departamentos, 3, 5) { }
  lemma DepartamentosDistinct5() ensures DistinctFrom(Departamentos, 5, 8) { }
  lemma DepartamentosDistinct8() ensures DistinctFrom(Departamentos, 8, 11) { }
  lemma DepartamentosDistinct11() ensures DistinctFrom(Departamentos, 11, 15) { }
  lemma DepartamentosDistinct15() ensures DistinctFrom(Departamentos, 15, 33) { }

  lemma DepartamentosDistinct() ensures Distinct(Departamentos) {
    DepartamentosDistinct0(); DepartamentosDistinct1(); DepartamentosDistinct3(); DepartamentosDistinct5(); DepartamentosDistinct8(); DepartamentosDistinct11(); DepartamentosDistinct15();
  }

  /** Every selection list opens with the sentinel. */
  lemma SelectionListsStart()
    ensures Departamentos[0] == TiposDoc[0] == TiposMuestra[0] == Unselected
    ensures TiposVinc[0] == Destinos[0] == Sexos[0] == Unselected
  {
  }

  /** After the sentinel come the 32 departments, all different and none of them the sentinel. */
  lemma DepartamentosShape()
    ensures |Departamentos| == 33 && Distinct(Departamentos[1..]) && Unselected !in Departamentos[1..]
  {
    DepartamentosDistinct();
    var d := Departamentos;
    forall i, j | 0 <= i < j < |d[1..]| ensures d[1..][i] != d[1..][j] {
      assert d[1..][i] == d[i + 1] && d[1..][j] == d[j + 1];
    }
    forall k | 0 <= k < |d[1..]| ensures d[1..][k] != Unselected {
      assert d[1..][k] == d[k + 1];
    }
  }
}
