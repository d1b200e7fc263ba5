# Congenital hypothyroidism alert — a verified model of its core

The modelled program is a Streamlit tool for newborn TSH screening:
- A clerk types a screening card into a form (intake ficha, dates, weight, first TSH result and, when that result reaches the clinical cutoff of 15 µIU/mL, a second confirmation sample).
- The tool validates the card and appends it as one 39-column row to a CSV record file.
- When the second sample confirms the case, an SMS notice goes to the patient and to the IRS (the health-service provider), and the notice is logged in the session's history.
- A dashboard loads a screening dataset, derives the "suspected" and "confirmed" flags, filters the rows by the sidebar selections and reports the confirmation rate.
- An alerts tab sends a notice to every confirmed case in bulk, counting the sends that succeed and fail.

This project models that core in Dafny and proves what it promises:

| module | models |
|---|---|
| `Strings` | the Python string steps the code relies on: `strip`, `replace`, `str(int)`, and `int(...)`/`float(...)` on plain decimals |
| `Constants` | the thresholds, the `FIELDNAMES` column list and the selection lists of `utils/constantes.py` |
| `Columns` | the form's own 39-column layout in `app.py` |
| `Validators` | `val_tsh` and `val_peso` |
| `Dates` | `val_fecha`: `strptime` with its five formats, and a day-count function for dates |
| `Store` | the record file: `leer_registros`, `next_id`, `guardar_registro`, `actualizar_registro`, `buscar_por_ficha`; the file itself is an object (`RecordFile`) whose methods change it |
| `Sms` | both copies of `enviar_sms`; the Twilio call is an abstract `Outcome` |
| `Screening` | `load_data`'s derived flags, the second-sample rule, `tasa_conf` and the dashboard filters (a method that reassigns `filtered_df` step by step) |
| `Intake` | the submit block: the error list it builds, the row it saves, the notices it sends and logs (the session's history is a `Session` object) |
| `Alerts` | the bulk-send loop with its `sent`, `failed` and `log_mass` |

A birth date more than 365 days before today is appended to `errors` like every other failed check, so it blocks saving (`Intake.OldBirthBlocks`).

The aim of the model:
- Methods where the source changes state step by step: error collection, the record file, the SMS history, the filters and the bulk loop.
- Functions everywhere else.

## Model

| member | source | states |
|---|---|---|
| Strings.Strip | vizualization/streamlit/utils/validaciones.py:10 | the stripped text neither starts nor ends with whitespace |
| Strings.TrimLeftDrops | vizualization/streamlit/utils/validaciones.py:10 | `lstrip` removes exactly a prefix made only of whitespace |
| Strings.TrimRightDrops | vizualization/streamlit/utils/validaciones.py:10 | `rstrip` removes exactly a suffix made only of whitespace |
| Strings.BlankIffAllSpace | vizualization/streamlit/utils/validaciones.py:10-11 | `not s.strip()` holds exactly when every character of `s` is whitespace |
| Strings.StripUntrimmed | vizualization/streamlit/app.py:515-530 | text with no whitespace at either end is left unchanged by `strip` |
| Strings.ReplaceChar | vizualization/streamlit/utils/validaciones.py:13 | `replace(",", ".")` keeps the length and changes exactly the commas |
| Strings.ReplaceAllAbsent | vizualization/streamlit/app.py:1056 | `replace` on text with no occurrence of the pattern returns it unchanged |
| Strings.ReplaceAllFirst | vizualization/streamlit/app.py:1056 | `replace` substitutes the first occurrence and resumes scanning after it |
| Strings.NatToString | vizualization/streamlit/app.py:514 | `str(n)` is a non-empty run of digits whose value is `n` |
| Strings.IntToString | vizualization/streamlit/app.py:514 | `str(id)` has no whitespace at either end |
| Strings.ParseIntOfIntToString | vizualization/streamlit/utils/csv_helpers.py:28 | `int(str(n)) == n`: an id written to the file reads back as itself |
| Strings.UnsignedInt | vizualization/streamlit/utils/csv_helpers.py:28 | the unsigned part of `int` accepts exactly a non-empty run of ASCII digits |
| Strings.ParseFloatDecimal | vizualization/streamlit/utils/validaciones.py:13 | `float("w.f")` is the decimal value of `w.f` |
| Strings.ParseFloatNat | vizualization/streamlit/utils/validaciones.py:13 | `float(str(n))` is `n` |
| Constants.ThresholdOrder | vizualization/streamlit/utils/constantes.py:6-8 | 0 < TSH_MIN < TSH_CORTE < TSH_MAX, so accepted values fall on both sides of the cutoff |
| Constants.WeightBounds | vizualization/streamlit/utils/constantes.py:9-10 | 0 < PESO_MIN < PESO_MAX |
| Constants.FieldNamesShape | vizualization/streamlit/utils/constantes.py:12-24 | 39 pairwise-distinct column names led by "id" and "ficha_id", holding "tsh_neonatal" and "resultado_muestra_2" |
| Constants.SelectionListsStart | vizualization/streamlit/utils/constantes.py:26-41 | every selection list opens with "Seleccionar..." |
| Constants.DepartamentosShape | vizualization/streamlit/utils/constantes.py:26-34 | the sentinel, then 32 distinct departments, none of them the sentinel |
| Columns.AppFieldNamesDistinct | vizualization/streamlit/app.py:90-103 | the form's layout has 39 pairwise-distinct columns led by "Id" |
| Validators.CheckNumber | vizualization/streamlit/utils/validaciones.py:8-20 | exactly one of value and error; the first failing check (blank, not a number, too low, too high) picks the message; both bounds inclusive |
| Validators.ValTsh | vizualization/streamlit/utils/validaciones.py:8-20 | `val_tsh`: a value exactly for readings in [0.1, 300.0], with that reading; each failure with its own message, in check order |
| Validators.ValPeso | vizualization/streamlit/utils/validaciones.py:23-35 | `val_peso`: the same contract over [400, 8000] g with the weight messages |
| Validators.DecimalComma | vizualization/streamlit/utils/validaciones.py:12-15 | turning commas into dots first changes neither validator's result |
| Validators.BlankAfterReplace | vizualization/streamlit/utils/validaciones.py:10-13 | replacing commas does not change whether the text is blank |
| Validators.ValTshWhole | vizualization/streamlit/utils/validaciones.py:16-20 | a whole TSH 1..300 is accepted as itself; 0 is "demasiado bajo", above 300 "imposible" |
| Validators.ValPesoWhole | vizualization/streamlit/utils/validaciones.py:31-35 | a whole weight in [400, 8000] is accepted; below is "muy bajo", above "imposible" |
| Validators.ValTshDecimal | vizualization/streamlit/utils/validaciones.py:12-20 | "w,f" and "w.f" validate alike; the decimal is accepted iff it lies in [0.1, 300.0], and otherwise gets the matching message |
| Validators.ValPesoDecimal | vizualization/streamlit/utils/validaciones.py:27-35 | the same for weights in grams |
| Validators.ReplaceCharTwice | vizualization/streamlit/utils/validaciones.py:13 | replacing commas twice is replacing them once |
| Dates.DaysInMonth | vizualization/streamlit/app.py:122 | month lengths are 28..31 and February has 29 days exactly in leap years |
| Dates.OrdinalOrder | vizualization/streamlit/app.py:476-478 | comparing dates is comparing their day counts, and equal dates have equal counts |
| Dates.OrdinalBefore | vizualization/streamlit/app.py:476 | an earlier date has a smaller day count |
| Dates.DayField | vizualization/streamlit/app.py:120-122 | `%d` reads one or two digits as a day in 1..31 |
| Dates.MonthField | vizualization/streamlit/app.py:120-122 | `%m` reads one or two digits as a month in 1..12 |
| Dates.MonthName | vizualization/streamlit/app.py:120-122 | `%b` accepts exactly the twelve English abbreviations in any case, and names that month |
| Dates.ShortYear | vizualization/streamlit/app.py:120-122 | `%y` takes exactly two digits: 00-68 are 2000-2068 and 69-99 are 1969-1999 |
| Dates.LongYear | vizualization/streamlit/app.py:120-122 | `%Y` takes exactly four digits |
| Dates.Split3 | vizualization/streamlit/app.py:120-122 | a pattern's three fields, split at its separator, rebuild the text |
| Dates.MakeDate | vizualization/streamlit/app.py:122 | a parse succeeds only on a day that exists in its month and year |
| Dates.ParseFormat | vizualization/streamlit/app.py:122 | every date one format reads is a valid date |
| Dates.Attempts | vizualization/streamlit/app.py:120 | the five formats are tried in the listed order |
| Dates.ValFecha | vizualization/streamlit/app.py:117-125 | exactly one of value and error; blank gives "es obligatoria"; otherwise the first format matching the stripped text gives the date, and none gives the format error |
| Dates.ValFechaMatchAt | vizualization/streamlit/app.py:120-124 | a format that matches, with none before it matching, decides the date |
| Dates.ValFechaMatchWitness | vizualization/streamlit/app.py:120-124 | a date found is that of a matching format with no earlier format matching |
| Dates.ValFechaNoFormat | vizualization/streamlit/app.py:125 | a non-blank text gets the format error exactly when no format matches its stripped form |
| Dates.ParseRender | vizualization/streamlit/app.py:120-122 | each format reads back the date it writes |
| Dates.RenderOnlyOwn | vizualization/streamlit/app.py:120-122 | no other format accepts what one format writes |
| Dates.ValFechaRender | vizualization/streamlit/app.py:117-124 | `val_fecha` reads back every date written in any of its five formats, with no error |
| Dates.MonthTitleReads | vizualization/streamlit/app.py:120 | a capitalised month abbreviation reads back as its month |
| Store.ReadRecords | vizualization/streamlit/utils/csv_helpers.py:12-16 | no file gives an empty table whose columns are `FIELDNAMES`; otherwise one row per line, each holding exactly the header's columns, with missing cells "" |
| Store.Fill | vizualization/streamlit/utils/csv_helpers.py:16 | `fillna("")`: a missing spelling becomes "", anything else is kept |
| Store.ReadCell | vizualization/streamlit/utils/csv_helpers.py:16 | a read cell is the line's cell, or "" past the end of a short line |
| Store.MaxOf | vizualization/streamlit/utils/csv_helpers.py:28 | the maximum id exists iff every id reads, and then it bounds them all and is one of them |
| Store.NextId | vizualization/streamlit/utils/csv_helpers.py:19-30 | 1 for no file or no rows; max id + 1 when every id reads; row count + 1 otherwise |
| Store.NextIdFresh | vizualization/streamlit/utils/csv_helpers.py:28 | when every id reads, the next id is greater than all of them |
| Store.NextIdMissingKey | vizualization/streamlit/app.py:157 | a header without the key reads every id as 0, so the next id is always 1 (the "Id"/"id" schemas disagree) |
| Store.NextIdUnreadable | vizualization/streamlit/utils/csv_helpers.py:29-30 | one unreadable id sends `next_id` to the row-count fallback |
| Store.NextIdFallbackCollides | vizualization/streamlit/utils/csv_helpers.py:27-30 | the fallback can return an id already in the file (ids "4", "x", "1" give 4) |
| Store.NextIdAfterSave | vizualization/streamlit/utils/csv_helpers.py:19-40 | saving a row under the next id moves the next id on by one, for a missing or empty file (1 to 2), a readable one (max + 1 to max + 2) and one with an unreadable id (`row_count + 1` to `row_count + 2`) |
| Store.Line | vizualization/streamlit/utils/csv_helpers.py:37-40 | `writerow` writes each field's cell in field order, "" for a missing key |
| Store.Saved | vizualization/streamlit/utils/csv_helpers.py:33-40 | the file exists afterwards; it has the writer's header only when it did not exist before; one line is appended |
| Store.SaveAppends | vizualization/streamlit/utils/csv_helpers.py:33-40 | saving adds exactly one row at the end and leaves the earlier rows untouched |
| Store.LineReadsBack | vizualization/streamlit/utils/csv_helpers.py:12-16 | a saved row reads back with its own cells, and "" for the fields it lacked |
| Store.FichaIndex | vizualization/streamlit/utils/csv_helpers.py:58 | the index of the first row whose trimmed ficha matches, with no earlier match |
| Store.FindByFicha | vizualization/streamlit/utils/csv_helpers.py:53-61 | `None` for an empty table or no match; otherwise the first matching row in table order |
| Store.FoundAt | vizualization/streamlit/utils/csv_helpers.py:58-61 | a matching row with no match before it is the row returned |
| Store.SaveThenFind | vizualization/streamlit/utils/csv_helpers.py:33-61 | after saving a card with a new ficha, looking the ficha up returns that card |
| Store.UpdateIsolation | vizualization/streamlit/utils/csv_helpers.py:43-50 | every row with the id gets each named existing column set; the row count, row order, other rows, unnamed columns and the column list are unchanged; unknown names are ignored |
| Store.WrittenThenRead | vizualization/streamlit/utils/csv_helpers.py:48-50 | rewriting a read table with `to_csv` and reading it again gives the same table |
| Store.RecordFile.Absent | vizualization/streamlit/utils/csv_helpers.py:12-13 | a store with no file yet |
| Store.RecordFile.Existing | vizualization/streamlit/utils/csv_helpers.py:12-16 | a store over a file already on disk |
| Store.RecordFile.Save | vizualization/streamlit/utils/csv_helpers.py:33-40 | appends the row's line and writes the header only for a new file; it succeeds exactly when `writerow` accepts the row |
| Store.RecordFile.Update | vizualization/streamlit/utils/csv_helpers.py:43-50 | without an "id" column nothing changes (the `KeyError`); otherwise the file becomes the updated table, rewritten whole |
| Sms.Preview | vizualization/streamlit/utils/sms.py:22 | `mensaje[:60]`: the message itself when it has at most 60 characters, else its first 60 |
| Sms.SendSms | vizualization/streamlit/utils/sms.py:7-34 | a blank phone gives (False, "Teléfono vacío") before anything else; test mode succeeds with the simulated status and never reaches Twilio; otherwise the outcome decides; success only in test mode or on delivery |
| Sms.SendSmsApp | vizualization/streamlit/app.py:217-240 | the `app.py` copy has no blank check, its own simulated wording, and the same transport contract |
| Sms.NormalizeIdempotent | vizualization/streamlit/utils/sms.py:18-19 | a phone with "+" is used unchanged, otherwise it becomes "+57" + the stripped phone; the result starts with "+" and normalising again changes nothing |
| Sms.SuccessMeansSimulatedOrDelivered | vizualization/streamlit/utils/sms.py:21-34 | both copies succeed only in test mode or on delivery |
| Sms.VariantsAgree | vizualization/streamlit/app.py:217-240 | on a non-blank phone both copies agree on success and on reaching Twilio |
| Sms.AppAcceptsBlankPhone | vizualization/streamlit/app.py:223-227 | the `app.py` copy accepts a whitespace-only phone and reports a send to "+57"; `utils/sms.py` refuses it |
| Screening.ConfirmedIsSuspected | vizualization/streamlit/app.py:190-193 | a confirmed case is a suspected one, and a suspected case with a second result of at least 15 is confirmed |
| Screening.Numeric | vizualization/streamlit/app.py:188-189 | in a table that has the column, an unreadable cell counts as 0 and a readable cell gives its value |
| Screening.Flag | vizualization/streamlit/app.py:184-187 | "VERDADERO" is true, "FALSO" is false, anything else is missing |
| Screening.LoadCase | vizualization/streamlit/app.py:184-193 | the case's `sospecha` is tsh1 >= 15 and its `confirmado` is both samples >= 15 |
| Screening.UnreadableTshIsNormal | vizualization/streamlit/app.py:188-193 | a non-numeric TSH cell is 0, so the case is neither suspected nor confirmed |
| Screening.LoadTable | vizualization/streamlit/app.py:171-197 | a table without either TSH column loads as the empty table (the `except` path); otherwise every row is loaded, in order |
| Screening.LoadTableFlags | vizualization/streamlit/app.py:188-193 | a loaded row is suspected exactly when its first TSH cell reads as a number >= 15, and confirmed exactly when both cells do |
| Screening.SecondSampleAgreesWithValidation | vizualization/streamlit/app.py:342-359 | a blank or unreadable TSH1 never asks for the second sample; an accepted TSH1 asks for it exactly when it is >= 15 |
| Screening.SecondSampleWhole | vizualization/streamlit/app.py:342-359 | a whole TSH1 asks for the second sample exactly when it is 15 or more |
| Screening.ConfirmedAtMostSuspected | vizualization/streamlit/app.py:688-689 | there are never more confirmed cases than suspected ones |
| Screening.ConfirmationRate | vizualization/streamlit/app.py:688-689 | 0 with no suspects; otherwise in [0, 1], and it times the suspects gives the confirmed |
| Screening.Filter | vizualization/streamlit/app.py:656-676 | a filter step never adds rows |
| Screening.FilterAppend | vizualization/streamlit/app.py:656-676 | a filter step keeps the rows' order |
| Screening.FilterMembers | vizualization/streamlit/app.py:656-676 | a row is kept exactly when it was there and passes |
| Screening.FilterFilter | vizualization/streamlit/app.py:656-676 | two steps in a row are one step by both tests |
| Screening.ApplyFilters | vizualization/streamlit/app.py:656-676 | reassigning `filtered_df` step by step keeps exactly the rows that pass every switched-on step, in order |
| Screening.NoSelectionKeepsAll | vizualization/streamlit/app.py:657-670 | empty multiselects and "Todos" keep the whole table |
| Screening.StateViewSizes | vizualization/streamlit/app.py:671-676 | "Sospechosos" and "Confirmados" show the suspected and confirmed counts, "Normales" the rest |
| Screening.NormalIsComplement | vizualization/streamlit/app.py:671-676 | every case is in exactly one of "Sospechosos" and "Normales" |
| Intake.Shown | vizualization/streamlit/app.py:359-361 | without a second sample its widgets read "", both SMS boxes are off and test mode is on |
| Intake.ShownIdempotent | vizualization/streamlit/app.py:359-361 | showing the form twice is showing it once |
| Intake.DateOrderErrors | vizualization/streamlit/app.py:475-479 | once both dates read, a birth after intake and a birth more than 365 days before today are each reported exactly when they happen |
| Intake.SecondResult | vizualization/streamlit/app.py:495-498 | `v_tsh2` is set only when the second sample is asked for, and then lies in [0.1, 300.0] |
| Intake.NoErrorsIffAcceptable | vizualization/streamlit/app.py:449-511 | the error list is empty exactly when every check passes, so a card is saved only then |
| Intake.FieldErrorsEmpty | vizualization/streamlit/app.py:452-468 | the field loops report nothing exactly when no field is rejected |
| Intake.FieldReported | vizualization/streamlit/app.py:452-468 | each rejected field is named in the errors |
| Intake.BirthAfterIntakeBlocks | vizualization/streamlit/app.py:476-477 | a birth date after the intake date is reported |
| Intake.OldBirthBlocks | vizualization/streamlit/app.py:478-479 | a birth date more than 365 days before today is reported, so the card is not saved |
| Intake.NoSecondSampleNoSecondErrors | vizualization/streamlit/app.py:495-504 | without a second sample its checks do not run and `v_tsh2` stays `None` |
| Intake.AppendMissing | vizualization/streamlit/app.py:452-468 | the loop appends one message per rejected field, in order |
| Intake.AppendError | vizualization/streamlit/app.py:472 | `if e: errors.append(e)` |
| Intake.AppendBirthErrors | vizualization/streamlit/app.py:471-479 | appends the date checks' messages in check order |
| Intake.AppendDateOrder | vizualization/streamlit/app.py:475-479 | appends the two order checks' messages once both dates read |
| Intake.AppendSampleErrors | vizualization/streamlit/app.py:481-492 | appends the sample-date, weight and TSH1 messages in check order |
| Intake.AppendSecondSampleErrors | vizualization/streamlit/app.py:495-504 | appends the second-sample messages, only when it is asked for |
| Intake.CollectErrors | vizualization/streamlit/app.py:449-504 | the submit block's `errors` is every failing check's message, in check order |
| Intake.OrZero | vizualization/streamlit/app.py:524-525 | `text.strip() or "0"` is never "": "0" for blank text, the stripped text otherwise |
| Intake.ReadingsOf | vizualization/streamlit/app.py:487-498 | an accepted card's weight and TSH1 lie in their ranges, and `v_tsh2` is set only with the second sample |
| Intake.RowKeys | vizualization/streamlit/app.py:513-553 | the saved row's keys are exactly the form's 39 columns, so `writerow` accepts it |
| Intake.RowLine | vizualization/streamlit/app.py:513-554 | the written line is the row's cells in column order |
| Intake.RowId | vizualization/streamlit/app.py:514 | the "Id" cell reads back as the id |
| Intake.RowCounter | vizualization/streamlit/app.py:547 | "Contador" is "1" exactly when the second sample was asked for, else "0" |
| Intake.RowSecondSample | vizualization/streamlit/app.py:543-546 | without a second sample its type, dates and result cells are "" |
| Intake.RowSecondResult | vizualization/streamlit/app.py:546 | a nonzero second result is written out |
| Intake.SecondResultNonZero | vizualization/streamlit/app.py:546 | a second result that was read is at least 0.1, so it is never the falsy 0.0 |
| Intake.RowFlags | vizualization/streamlit/app.py:533-536 | the flags are written as "VERDADERO"/"FALSO" |
| Intake.RowPhones | vizualization/streamlit/app.py:524-525 | blank phones are written as "0", others stripped, so the phone cells are never "" |
| Intake.RowSecondFicha | vizualization/streamlit/app.py:542 | a blank second ficha is written as "0" |
| Intake.RowRejection | vizualization/streamlit/app.py:548-552 | without a rejected sample its columns are "" |
| Intake.AcceptableBuilds | vizualization/streamlit/app.py:507-553 | a card with no errors has a weight, a TSH1 and, when asked for, a second result to write |
| Intake.Notifications | vizualization/streamlit/app.py:565-594 | at most two entries, only when confirmed now, each carrying the case id |
| Intake.ConfirmedNeedsSecondSample | vizualization/streamlit/app.py:495-498 | "confirmed now" needs the second sample, and its readings meet the dashboard's confirmation rule (`Case.Confirmed`) |
| Intake.NotificationsSent | vizualization/streamlit/app.py:565-594 | a notice goes to each destination exactly when confirmed, its box is ticked and its phone is not "" |
| Intake.SpacesPhoneNotified | vizualization/streamlit/app.py:568-576 | a phone of spaces passes the `tel_paciente` check and, in test mode, is reported as a send to "+57" |
| Intake.Session.constructor | vizualization/streamlit/app.py:563 | the session's history starts empty |
| Intake.Session.Submit | vizualization/streamlit/app.py:448-594 | errors are the checks' messages; with errors nothing is saved or logged; otherwise the row is appended under the next id and its notices are logged |
| Intake.Session.Record | vizualization/streamlit/app.py:513-594 | appends the row under the next id, then logs the notices |
| Intake.Session.Notify | vizualization/streamlit/app.py:565-594 | each send appends exactly one entry to the history |
| Intake.SaveAdvancesId | vizualization/streamlit/app.py:149-167 | saving a card under the next id moves the next id on by one, whether the file is missing, empty or existing with the app's header |
| Alerts.FirstPresent | vizualization/streamlit/app.py:1022-1023 | the first candidate the table has, with none before it present, or none at all |
| Alerts.PhoneColumnFirst | vizualization/streamlit/app.py:1018-1023 | there is a phone column iff one of the four names is present, and "telefono_1" comes first |
| Alerts.SendOfShape | vizualization/streamlit/app.py:1051-1067 | a row's patient send happens exactly when its trimmed phone is usable, its IRS send exactly when an IRS phone was typed, and in test mode both succeed |
| Alerts.SendRow | vizualization/streamlit/app.py:1051-1067 | one row's share of `sent`, `failed` and `log_mass` |
| Alerts.BulkSend | vizualization/streamlit/app.py:1040-1067 | the loop's `sent`, `failed` and `log_mass` are the counts and entries of every row's sends, in row order |
| Alerts.MassAlert | vizualization/streamlit/app.py:1018-1072 | without a phone column nothing is sent or logged; otherwise the loop runs and the history is extended with `log_mass` |
| Alerts.SentPlusFailed | vizualization/streamlit/app.py:1060-1061 | each patient send is counted once, as sent or failed |
| Alerts.AllOkNeverFails | vizualization/streamlit/app.py:1060-1061 | when every patient send succeeds, nothing counts as failed |
| Alerts.LogPatients | vizualization/streamlit/app.py:1058-1059 | the log holds one patient entry per patient send |
| Alerts.LogIrs | vizualization/streamlit/app.py:1066-1067 | the log holds one IRS entry per IRS send |
| Alerts.BulkCounts | vizualization/streamlit/app.py:1040-1072 | `sent + failed` and the patient entries equal the rows with a usable phone; there is one IRS entry per row iff an IRS phone was typed |
| Alerts.TestModeNeverFails | vizualization/streamlit/app.py:1057-1061 | in test mode nothing fails and every row with a usable phone counts as sent |
| Alerts.BulkLogAddressed | vizualization/streamlit/app.py:1055-1067 | every patient entry has a usable phone and every IRS entry the typed IRS phone |
| Alerts.NoPhoneColumnNoPatients | vizualization/streamlit/app.py:1051 | without a phone column no patient is sent anything |
| Alerts.FillWithoutPlaceholders | vizualization/streamlit/app.py:1056 | a template with neither `{tsh}` nor `{ars}` is sent as written |

## Left out

- Streamlit widgets, CSS, tabs, the progress bar and status text: UI only. Form inputs, the button press and the session history are parameters and state.
- The Folium map and `graficos.py`: figure construction with no business rules.
- Twilio and `st.secrets`: foreign calls. Each send's result is an abstract `Outcome` parameter (missing credentials, delivered with a SID, or failed with a reason).
- The clock: `date.today()` is the `today` parameter, and log timestamps are not modelled.
- CSV text and its I/O: quoting, encodings and the `open`/`DictReader`/`DictWriter`/`to_csv` mechanics. A file is a header plus lines of cells.
- How `str` renders a `float`: the weight and TSH cells the submit block writes go through a `showReal` parameter.
- The link from the form to the dashboard: the form saves to `hipotiroidismo_registros.csv` with its own column names ("Id", "Resultados TSH neonatal"), while `load_data` reads a separate dataset file that needs `tsh_neonatal` and `resultado_muestra_2`, so cases saved by the form are not shown on the dashboard; the model relates only the two confirmation rules (`Intake.ConfirmedNeedsSecondSample`).
- A dataset file that `pd.read_csv` cannot open or parse: it also ends in `load_data`'s `except`; `Screening.LoadTable` starts from the table as read.
- pandas type inference and `pd.to_datetime`: the dashboard's birth year comes from a `yearOf` parameter. Columns read as text follow pandas' missing-value spellings.
- Python `float` exponents, "inf" and "nan": the numeric grammar is an optional sign, digits and at most one decimal point, with exact reals.
- Strings.UnsignedInt: accepts ASCII digits only. Python's `int` and `float` also accept underscores between digits ("1_0") and non-ASCII decimal digits ("٣"), and `strptime`'s `%d`/`%m`/`%y`/`%Y` fields accept non-ASCII digits, so `ParseInt`, `ParseFloat`, the `Dates` field grammars and the fallback of `next_id` refuse such text where Python reads it.
- Locale: `%b` month names are the English/C-locale abbreviations only.
- Concurrency: the read-modify-write in `actualizar_registro` is unsafe with several writers; the program is single-threaded.
- The `n_con_tel` phone count shown before the bulk send: an information message only.
- The per-row "individual" SMS buttons of the alerts tab: they repeat the calls modelled by `Sms.SendSmsApp` and `Intake.Session.Notify`.
- Alerts.BulkSend: bulk log entries carry the case id under the key "id" rather than "id_caso"; the model's entries have one id field for both.
- The dashboard's threshold slider: it drives only charts, not the filter steps or the flags.
