/**
  The column layout the intake form of `app.py` writes: its own,
  title-case header, distinct from the record store's snake-case one.
 */
module Columns {
  import opened Constants

  /** The columns the intake form writes, in file order. */
  const AppFieldNames: seq<string> := [
    "Id", "No de ficha", "Fecha de ingreso", "Institucion", "ARS",
    "Historia clinica", "Tipo de Documento", "Numero de Documento",
    "Ciudad", "Departamento", "Telefono uno", "Telefono dos", "Direccion",
    "Primer Apellido", "Segundo Apellido", "Nombre Hijo de",
    "Fecha de Nacimiento", "Peso", "Sexo", "Prematuro", "Transfundido",
    "Informacion completa", "Muestra adecuada", "Destino muestra",
    "Tipo de muestra", "Fecha toma de la muestra", "Fecha de resultado",
    "Resultados TSH neonatal", "No de ficha dos", "Tipo de muestra 2",
    "Fecha toma de la muestra 2", "Fecha resultado muestra 2",
    "Resultado toma de muestra 2", "Contador", "muestra rechazada",
    "Fecha toma rechazada", "Tipo de Vinculacion", "Resultado Rechazada",
    "Fecha resultado rechazada"
  ]

  // The distinctness of the app's column names, a few rows at a time.
  lemma AppFieldNamesDistinct0() ensures DistinctFrom(AppFieldNames, 0, 1) { }
  lemma AppFieldNamesDistinct1() ensures DistinctFrom(AppFieldNames, 1, 2) { }
  lemma AppFieldNamesDistinct2() ensures DistinctFrom(AppFieldNames, 2, 3) { }
  lemma AppFieldNamesDistinct3() ensures DistinctFrom(AppFieldNames, 3, 4) { }
  lemma AppFieldNamesDistinct4() ensures DistinctFrom(AppFieldNames, 4, 5) { }
  lemma AppFieldNamesDistinct5() ensures DistinctFrom(AppFieldNames, 5, 6) { }
  lemma AppFieldNamesDistinct6() ensures DistinctFrom(AppFieldNames, 6, 7) { }
  lemma AppFieldNamesDistinct7() ensures DistinctFrom(AppFieldNames, 7, 8) { }
  lemma AppFieldNamesDistinct8() ensures DistinctFrom(AppFieldNames, 8, 10) { }
  lemma AppFieldNamesDistinct10() ensures DistinctFrom(AppFieldNames, 10, 12) { }
  lemma AppFieldNamesDistinct12() ensures DistinctFrom(AppFieldNames, 12, 14) { }
  lemma AppFieldNamesDistinct14() ensures DistinctFrom(AppFieldNames, 14, 16) { }
  lemma AppFieldNamesDistinct16() ensures DistinctFrom(AppFieldNames, 16, 18) { }
  lemma AppFieldNamesDistinct18() ensures DistinctFrom(AppFieldNames, 18, 21) { }
  lemma AppFieldNamesDistinct21() ensures DistinctFrom(AppFieldNames, 21, 24) { }
  lemma AppFieldNamesDistinct24() ensures DistinctFrom(AppFieldNames, 24, 28) { }
  lemma AppFieldNamesDistinct28() ensures DistinctFrom(AppFieldNames, 28, 39) { }

  /** 39 distinct columns led by "Id". */
  lemma AppFieldNamesDistinct()
    ensures |AppFieldNames| == 39 && Distinct(AppFieldNames) && AppFieldNames[0] == "Id"
  {
    AppFieldNamesDistinct0(); AppFieldNamesDistinct1(); AppFieldNamesDistinct2(); AppFieldNamesDistinct3(); AppFieldNamesDistinct4(); AppFieldNamesDistinct5(); AppFieldNamesDistinct6(); AppFieldNamesDistinct7(); AppFieldNamesDistinct8();
    AppFieldNamesDistinct10(); AppFieldNamesDistinct12(); AppFieldNamesDistinct14(); AppFieldNamesDistinct16(); AppFieldNamesDistinct18(); AppFieldNamesDistinct21(); AppFieldNamesDistinct24(); AppFieldNamesDistinct28();
  }
}
