# Bank statement extractor — verified model of the parsing core

The extractor reads PDF bank statements of two Argentine banks and turns them into tables
of movements (Fecha, Descripción, Referencia, Débito, Crédito, Saldo), one spreadsheet sheet
per account. This project models its core in Dafny and proves what that core promises:

- **Macro** (`MacroParser`, `MacroParse`). `convert_amount` is a tolerant reader of Argentine
  amounts (`1.234,56-`). `normalize_spaces` and `extract_account_key` find the account number
  in a header line and build the `acct|USD` / `acct|ARS` key and the sheet label. The
  multi-account line engine (class `MacroParse.Engine`) has four fields: `cuentas`,
  `displayNames`, `accountStates` and `cuentaKey`. It works as follows:
  - it finds the start page;
  - it groups each page's words into lines by `round(top)`;
  - it switches account on header lines and runs the per-account `en_detalle`/`header_found`
    state machine;
  - it drops excluded lines;
  - it classifies words into columns by the MACRO x-ranges;
  - it validates the date and the amounts, and appends rows to the active account.

  The rows of each account then become a reconciled sheet.
- **Galicia** (`GaliciaParser`). It has two amount readers: `parse_amount`, which returns 0.0
  on failure, and `convertir_a_float`, which returns `None` on failure. It also has the
  fixed-threshold token classifier of `extract_movements_by_x0`, which groups lines by
  `round(top, 1)`, and `parse`, which reconciles a non-empty extraction.
- **Reconciler** (`Reconciler`). `calcular_saldos` chooses the anchor row and computes the
  running "Saldo Calculado" with rounding to cents at every step. It also derives
  "Diferencia". The row selection of `reportar_inconsistencias` is also modelled.
- **Profiles** (`BankProfiles`): the `BANK_PROFILES` constant and the column classifier's
  first-match rule over its half-open x-ranges.
- **Sheet names** (`SheetNames`): `sanitize_sheet_name`.

Shared modules:
- `Text`: Python's whitespace, `strip`, `replace`, `count`, `upper` and `" ".join`.
- `Numbers`: `float()` on plain decimals, round-half-even, and Argentine amount texts built
  from a number of cents (`ArgentineText`).
- `Lines`: grouping words into lines by a rounded `top`, and sorting by `x0`.

Money and coordinates are exact `real`s. `round(x, 2)` is round-half-even on the exact value
(`Numbers.RoundCents`). The grouping key `round(top, d)` is the integer
`RoundHalfEven(top * 10^d)`.

The pure parts are functions with lemmas. The parts of the source that loop and mutate are
methods proved against those functions. `Engine.ProcessLine`/`ProcessPage`/`ProcessDocument`
are proved against `StepLine`/`StepPage`/`StepPages`. `Reconciler.CalcularSaldos` is proved
against `Reconcile`, `Lines.BuildLineMap` against `OnLine`, and
`GaliciaParser.ExtractMovements` against `DocRows`.

Where the system's written description and the code disagree, the model follows the code:
- The running balance adds credit and subtracts debit when `es_layout_invertido` is true, and
  does the opposite otherwise (parsers/utils.py:74).
- The date check does not look at the month, so `13/13/24` is kept (`DateShapeRefusals`).
- A repeated account header keeps the account's earlier rows, because `cuentas` is a
  never-cleared `defaultdict`.
- The dollar test is a substring test for `DÓLARES`, `DOLARES` or `USD`.
- `convertir_a_float` returns `None` instead of raising.
- Galicia's `parse` does not consult its profile. It uses inverted = True, the default anchor
  flag (False) and its own fixed thresholds.

## Model

| member | source | states |
|---|---|---|
| BankProfiles.Lookup | parsers/bank_profiles.py:3-45 | a profile exists exactly for "MACRO" and "GALICIA", each name gets its own profile, and every range of its layout has lo < hi |
| BankProfiles.ColumnOf | parsers/macro_parser.py:152-165 | a word goes to the first range containing its x0, in the order date, desc, ref, debit, credit, balance; the result is None exactly when no range contains it |
| BankProfiles.MacroFlags | parsers/bank_profiles.py:5-21 | MACRO is inverted and starts at row 1; its exclusions are exactly SALDO FINAL, TOTAL COBRADO and SALDO ULTIMO; all ranges of both profiles are proper |
| BankProfiles.MacroAbutments | parsers/bank_profiles.py:6-11 | MACRO date/desc/ref abut at 70 and 215, and debit/credit/balance abut at 410 and 495 |
| BankProfiles.MacroOverlapGoesToRef | parsers/bank_profiles.py:8-9 | ref and debit overlap exactly on [275, 280), and a word there is classified as Referencia |
| BankProfiles.MacroCoverage | parsers/bank_profiles.py:6-11 | every x in [0, 625) lies in exactly one MACRO range, except [275, 280), which lies in two; x outside [0, 625) is dropped |
| BankProfiles.GaliciaTiling | parsers/bank_profiles.py:27-32 | the six GALICIA ranges tile [0, 680) with no gap or overlap |
| Numbers.UnsignedDecimal | parsers/galicia_parser.py:22 | reading digits with an optional single point never gives a negative value |
| Numbers.ParseFloatNeedsDigit | parsers/galicia_parser.py:22 | `float()` refuses a text without a digit |
| Numbers.RoundHalfEvenNearest | parsers/macro_parser.py:106 | `round()` gives an integer within 0.5 of its argument, and the even one on a tie |
| Numbers.RoundCents | parsers/utils.py:75 | `round(x, 2)` is within half a cent of x, and keeps a non-negative value non-negative |
| Numbers.RoundCentsOfCents | parsers/utils.py:54 | rounding a whole number of cents to 2 decimals changes nothing |
| Numbers.ParseCentsBody | parsers/galicia_parser.py:22 | the plain decimal text of n cents reads back as n/100 |
| Numbers.ParseMinusCentsBody | parsers/galicia_parser.py:22 | the same text behind a minus reads back as -n/100 |
| Numbers.GroupedUndotted | parsers/macro_parser.py:35 | deleting the thousands points of a grouped digit string gives the digits back |
| Numbers.ArgentineShape | parsers/macro_parser.py:35-44 | an Argentine amount text starts with a digit, has no surrounding space, holds only digits and `.,-`, and a negative one is the positive text plus a trailing minus |
| Numbers.ArgentineUndotted | parsers/macro_parser.py:35 | deleting `.` and then turning `,` into `.` gives the plain decimal text, with the trailing minus kept |
| Text.CountStrip | parsers/galicia_parser.py:17 | stripping whitespace does not change the number of commas |
| Text.NonSpaceStrip | parsers/macro_parser.py:13 | stripping removes only whitespace |
| MacroParser.NormalizeSpacesSingleSpaced | parsers/macro_parser.py:12-13 | the result has no surrounding whitespace and no whitespace other than single spaces between words |
| MacroParser.NormalizeSpacesKeepsText | parsers/macro_parser.py:12-13 | the non-space characters are kept, in order |
| MacroParser.NormalizeSpacesIdempotent | parsers/macro_parser.py:12-13 | normalising twice is normalising once |
| MacroParser.DigitRun | parsers/macro_parser.py:10 | the maximal run of ASCII digits starting at i |
| MacroParser.SearchFrom | parsers/macro_parser.py:10-17 | the leftmost position from i where the account pattern matches, with its end; None exactly when it matches nowhere |
| MacroParser.MatchParts | parsers/macro_parser.py:10 | a match is three non-empty digit runs separated by `-` or `/` |
| MacroParser.SeparatorCount | parsers/macro_parser.py:10 | an account number holds exactly two separators |
| MacroParser.ExtractAccountKey | parsers/macro_parser.py:15-23 | None exactly when the upper-cased, space-normalised text has no account match; otherwise the key is the first match plus `\|USD` when the text names dollars and `\|ARS` when not, and the label is the currency prefix plus the same match |
| MacroParser.LabelInjective | parsers/macro_parser.py:22-23 | two account keys with the same label are the same key, so no sheet overwrites another |
| MacroParser.ConvertAmountArgentine | parsers/macro_parser.py:31-50 | every Argentine amount text, positive or with a trailing minus, reads back as its exact value |
| MacroParser.ConvertAmountLeadingMinus | parsers/macro_parser.py:42-44 | a single minus in front negates the amount |
| MacroParser.ConvertAmountNeedsDigit | parsers/macro_parser.py:31-50 | a text without a digit, the empty text included, gives 0.0 and never an error |
| MacroParser.SignedTrailingMinus | parsers/macro_parser.py:39-41 | a trailing minus is cut and negates the value |
| MacroParse.ClassifyLine | parsers/macro_parser.py:148-165 | the column-filling loop computes the fold `Classify` of the words of the line |
| MacroParse.LastTokenWins | parsers/macro_parser.py:154-165 | Fecha, Débito, Crédito and Saldo hold the stripped text of the last word in their range, or nothing when there is none |
| MacroParse.JoinedInOrder | parsers/macro_parser.py:156-159 | Descripción and Referencia are the texts of their words joined by spaces, in x order |
| MacroParse.RowOf | parsers/macro_parser.py:167-184 | a row exists exactly when the stripped date matches the pattern and not all three amounts are blank; its fields are the stripped date, the two texts and the three converted amounts |
| MacroParse.TwoDigitDatesPass | parsers/macro_parser.py:169 | dd/mm/yy passes the date pattern |
| MacroParse.FourDigitYearsPass | parsers/macro_parser.py:169 | dd/mm/yyyy passes the date pattern |
| MacroParse.DateShapeRefusals | parsers/macro_parser.py:169 | 13/13/24 passes (the month is not checked), while one-digit days, three-digit years and dashes are refused |
| MacroParse.SignalsOf | parsers/macro_parser.py:112-145 | the tests a line is put to: an account key comes only from a header line, and it is a well-formed key carrying its own label |
| MacroParse.Step | parsers/macro_parser.py:115-184 | one line keeps the engine state coherent: the active account has a state, states and labels share their keys, and every account with rows has a state |
| MacroParse.RowsOnlyFromMovementLines | parsers/macro_parser.py:124-184 | the rows change exactly when an account is active and in detail, the line is neither a column header nor excluded, and it yields a row; the row is then appended to the active account only |
| MacroParse.HeaderSwitchesAccount | parsers/macro_parser.py:115-122 | a header line adds no row; with a key it makes that account active, not in detail, labelled, and keeps its earlier rows; without a key nothing changes |
| MacroParse.NothingBeforeAnAccount | parsers/macro_parser.py:124-125 | before the first account every non-header line changes nothing |
| MacroParse.OutsideTheTable | parsers/macro_parser.py:129-135 | before the detail marker a line adds no row, and only DETALLE+MOVIMIENTO or FECHA+SALDO opens the detail |
| MacroParse.HeaderFoundIsNeverRead | parsers/macro_parser.py:129-139 | two states that differ only in `header_found` stay so after any line |
| MacroParse.StepKept | parsers/macro_parser.py:168-184 | one line keeps every stored list non-empty and made of rows whose date matches the pattern, and every label the one its key calls for |
| MacroParse.RowsOnlyGrow | parsers/macro_parser.py:81-184 | an account's rows are only ever extended, never replaced |
| MacroParse.NoHeaderNoRows | parsers/macro_parser.py:115-125 | lines without an account header leave the engine in its initial state |
| MacroParse.DocumentKept | parsers/macro_parser.py:88-184 | after a whole document every stored list is non-empty with dated rows, and every label is the one its key calls for |
| MacroParse.StartPage | parsers/macro_parser.py:88-94 | the first of the first five pages that marks the detail, or the profile's default when none of them does |
| MacroParse.FindStartPage | parsers/macro_parser.py:88-94 | the search loop finds `StartPage` |
| MacroParse.Engine.constructor | parsers/macro_parser.py:81-84 | the engine starts with no account, no rows and the MACRO profile |
| MacroParse.Engine.Advance | parsers/macro_parser.py:114-184 | the fields change exactly as `Step` says for the line's signals and row |
| MacroParse.Engine.ProcessLine | parsers/macro_parser.py:111-184 | processing one line is `StepLine` |
| MacroParse.Engine.ProcessPage | parsers/macro_parser.py:104-112 | the lines of a page, in ascending key and x order, processed in turn |
| MacroParse.Engine.ProcessPages | parsers/macro_parser.py:97-102 | the pages processed in order |
| MacroParse.Engine.ProcessDocument | parsers/macro_parser.py:88-102 | the pages from the start page on, processed in order |
| MacroParse.LabelsDistinct | parsers/macro_parser.py:115-122 | labels built from account keys never collide |
| MacroParse.FiledAdd | parsers/macro_parser.py:187-206 | filing one more account with rows adds its reconciled sheet under its label and keeps the others |
| MacroParse.FileSheets | parsers/macro_parser.py:187-206 | every account with rows gets its reconciled sheet under its label, and there is no other sheet |
| MacroParse.SheetIsReconciled | parsers/macro_parser.py:198-202 | a Macro sheet always has the three amount columns, so reconciliation succeeds and keeps the rows |
| MacroParse.Parse | parsers/macro_parser.py:81-206 | the sheets are keyed by the labels of the accounts the document filled, each the reconciled table of that account's rows |
| MacroParse.NoEmptyList | parsers/macro_parser.py:188-191 | no stored account has an empty row list, so the empty-frame skip never drops a label |
| Lines.OnLineCounts | parsers/macro_parser.py:104-107 | a line's bucket holds exactly the words with its key, each as often as in the page |
| Lines.OnLineMembers | parsers/galicia_parser.py:53-56 | a word is in a bucket exactly when it is on the page and has that key |
| Lines.BuildLineMap | parsers/galicia_parser.py:53-56 | the map holds exactly the keys of the page, each bound to its words in page order |
| Lines.BucketAppend | parsers/macro_parser.py:105-107 | appending a word to its key's bucket keeps the map the buckets of the longer page |
| Lines.AscendingKeys | parsers/macro_parser.py:109 | the distinct keys of the page, strictly increasing |
| Lines.InsertByX | parsers/macro_parser.py:110 | insertion by x0 is a permutation of the line plus the word |
| Lines.InsertByXSorted | parsers/macro_parser.py:110 | insertion by x0 keeps a sorted line sorted |
| Lines.SortByX | parsers/galicia_parser.py:59 | sorting by x0 is a permutation |
| Lines.SortByXSorted | parsers/galicia_parser.py:59 | sorting by x0 gives an ascending line |
| Lines.InsertByXStable | parsers/macro_parser.py:110 | insertion puts the word after every word with the same x0 |
| Lines.SortByXStable | parsers/macro_parser.py:110 | the sort is stable: words with the same x0 keep their page order, as Python's `sorted` does |
| Lines.PageLineAt | parsers/galicia_parser.py:58-59 | the i-th line is the x-sorted bucket of the i-th smallest key |
| Lines.PageLinesShape | parsers/macro_parser.py:109-110 | every line is non-empty and sorted by x0 |
| Lines.PageLinesPartition | parsers/macro_parser.py:104-110 | the lines partition the page: each word is on the line of its key, as often as on the page |
| Reconciler.MissingColumn | parsers/utils.py:35-37 | reports the first of Saldo, Crédito, Débito absent from the columns; None exactly when all three are present |
| Reconciler.WithColumn | parsers/utils.py:78-79 | assigning a column keeps the existing columns and adds only the new name |
| Reconciler.AnchorIndex | parsers/utils.py:52-58 | the anchor is row 1 exactly when the flag is off and row 0's Saldo, Crédito and Débito are all zero, and row 0 otherwise |
| Reconciler.CalcularSaldos | parsers/utils.py:22-80 | the in-place reconciliation computes `Reconcile` |
| Reconciler.RunningColumn | parsers/utils.py:63-75 | the loop that reads `saldos[-1]` builds one entry per row as `Entries` defines it |
| Reconciler.ReconcileKeepsFrame | parsers/utils.py:35-79 | an error exactly when a needed column is missing; otherwise the rows are untouched, the two new columns are added and nothing else, and both new columns have one entry per row |
| Reconciler.ReconcileSmall | parsers/utils.py:40-49 | an empty table gets empty columns; a single row gets Saldo Calculado = Saldo and Diferencia = 0 |
| Reconciler.ReconcileRecurrence | parsers/utils.py:52-79 | rows before the anchor have no calculated balance; the anchor has its Saldo rounded to cents; each later row has the previous one plus credit minus debit (inverted) or plus debit minus credit, rounded to cents; Diferencia is Saldo minus the calculated balance wherever it exists |
| Reconciler.RunningStep | parsers/utils.py:70-75 | each step of the running balance is within half a cent of the exact sum |
| Reconciler.RunningOfConsistent | parsers/utils.py:64-75 | when the statement's balances follow the movements in whole cents, the running balance equals the statement's balance on every row from the anchor |
| Reconciler.ConsistentReconciles | parsers/utils.py:22-97 | for such a statement every Diferencia is 0 and no row is reported |
| Reconciler.AnchorNotReported | parsers/utils.py:52-89 | the anchor row and the rows before it are never reported |
| Reconciler.Inconsistencies | parsers/utils.py:89 | the reported rows are exactly those whose Diferencia exists and has magnitude above 0.01, in row order |
| Reconciler.NothingReported | parsers/utils.py:89-97 | when no row qualifies the selection is empty |
| GaliciaParser.MoveMinus | parsers/galicia_parser.py:14-15 | moving a trailing minus to the front keeps the length |
| GaliciaParser.ParseAmountArgentine | parsers/galicia_parser.py:27-37 | a positive Argentine amount text reads back as its exact value |
| GaliciaParser.ParseAmountArgentineNegative | parsers/galicia_parser.py:27-37 | an amount with a trailing minus, as in 1.234,56-, reads back as the negative value |
| GaliciaParser.ParseAmountNeedsDigit | parsers/galicia_parser.py:27-37 | the empty text and every text without a digit give 0.0 |
| GaliciaParser.SplitComma | parsers/galicia_parser.py:17-20 | the comma split fails exactly when there is more than one comma |
| GaliciaParser.KeepNumeric | parsers/galicia_parser.py:21 | only digits, `.` and `-` survive the filter |
| GaliciaParser.ConvertirPlain | parsers/galicia_parser.py:11-22 | a plain decimal with an optional leading minus is read exactly as `float()` reads it |
| GaliciaParser.ConvertirArgentine | parsers/galicia_parser.py:11-22 | a positive Argentine amount text converts to its exact value |
| GaliciaParser.ConvertirArgentineNegative | parsers/galicia_parser.py:14-22 | a trailing minus is moved to the front and negates the value |
| GaliciaParser.ConvertirManyCommas | parsers/galicia_parser.py:17-25 | more than one comma gives None, and no error escapes |
| GaliciaParser.TrailingEnDashRefused | parsers/galicia_parser.py:14-25 | an en dash after the digits is mapped to a minus only after the trailing-minus move, so the text is refused |
| GaliciaParser.LeadingEnDashNegates | parsers/galicia_parser.py:16-22 | an en dash in front is read as a minus |
| GaliciaParser.RoleOf | parsers/galicia_parser.py:63-74 | only the first word, when it contains `/` and has at most 10 characters, is the date |
| GaliciaParser.ScanLine | parsers/galicia_parser.py:60-74 | the token loop computes `Scan`, the fold of one word at a time |
| GaliciaParser.DateFromFirstToken | parsers/galicia_parser.py:63-66 | the line's date is the first word's stripped text when it is date-like, and empty otherwise |
| GaliciaParser.RowIffDate | parsers/galicia_parser.py:76-83 | a row is emitted exactly when a date was found; its date is the first word's text, its description is stripped, and its debit and credit are non-negative |
| GaliciaParser.AmountsNonNegative | parsers/galicia_parser.py:69-72 | credit and debit are magnitudes |
| GaliciaParser.LastAmountWins | parsers/galicia_parser.py:69-74 | each amount band holds the reading of the last word in that band, or 0.0 when there is none |
| GaliciaParser.DescriptionInOrder | parsers/galicia_parser.py:67-68 | the description is the texts of the description words, each followed by a space, in x order |
| GaliciaParser.AmountsAreAmountLike | parsers/galicia_parser.py:67 | an Argentine amount text is never taken for description text |
| GaliciaParser.LinesRowsWellFormed | parsers/galicia_parser.py:76-83 | every emitted row has a date-like stripped date, a stripped description, and non-negative credit and debit |
| GaliciaParser.DocRowsWellFormed | parsers/galicia_parser.py:47-85 | the same holds for every row of a document |
| GaliciaParser.EmitLine | parsers/galicia_parser.py:76-83 | appends exactly the row the line yields, if any |
| GaliciaParser.EmitLines | parsers/galicia_parser.py:58-83 | appends the rows of the page's lines in ascending key order |
| GaliciaParser.AppendPage | parsers/galicia_parser.py:48-83 | appends the rows of one page, its lines in ascending key order |
| GaliciaParser.ExtractMovements | parsers/galicia_parser.py:42-85 | the rows of every page, in page order, as `DocRows` defines them |
| GaliciaParser.GaliciaReconciles | parsers/galicia_parser.py:102 | a Galicia table always has the three amount columns, so reconciliation succeeds and keeps the rows |
| GaliciaParser.Parse | parsers/galicia_parser.py:92-107 | an empty extraction comes back as the empty frame, without the new columns; otherwise the result is the reconciliation with inverted = True and the anchor flag off |
| SheetNames.Scrub | main.py:13-17 | every refused character becomes `_` and every other character stays in place |
| SheetNames.SliceTo | main.py:18 | Python's `[:n]`, negative n included: a prefix of the computed length |
| SheetNames.SanitizedHasNoInvalidChar | main.py:13-18 | no `:`, `\`, `/`, `?`, `*`, `[` or `]` survives, whatever the cut |
| SheetNames.SanitizedLength | main.py:15-18 | never longer than a non-negative max_len, and never empty when max_len is positive |
| SheetNames.SanitizedIsPrefix | main.py:17-18 | a prefix of the scrubbed and stripped name, or of "Hoja" when that is empty |
| SheetNames.SanitizeKeepsValidName | main.py:15-18 | a name that is already valid and short enough comes back unchanged |
| SheetNames.RefusedCharactersBecomeUnderscores | main.py:17-18 | a name made only of refused characters becomes underscores, not the fallback |

## Left out

- Reading the PDF is not modelled: `open_pdf`, page text and word extraction, the crop at
  y = 150 and the password dialogs are I/O. A document is given as pages of (text, top, x0)
  words, plus each page's text for the start-page search.
- All console output is not modelled. This includes the debug prints and the printing done
  by `reportar_inconsistencias`; only its row selection is modelled.
- Python's `float()` is modelled only on plain decimals with an optional sign and one point.
  Exponents, `inf`, `nan`, underscores and non-ASCII digits are refused by the model, where
  Python might accept them.
- IEEE binary floating point is not modelled. Amounts are exact reals, so `round(x, 2)` is
  half-even on the exact value and cannot show binary representation effects.
- `str.upper()` is modelled for ASCII and Latin-1 letters. The sharp s, which Python expands
  to "SS", is left unchanged.
- Regex `\w` covers Latin-1 and the two upper-case images of Latin-1 letters. `\d` is the
  ASCII digits.
- Macro's pandas stage is not modelled: `pd.to_numeric`, and `pd.to_datetime`, which turns a
  bad or four-digit-year date into NaT. Dates stay strings. The DataFrame is a
  `Reconciler.Table` of columns, rows and the two computed columns.
- Reconciler.CalcularSaldos: the column assignment on the caller's DataFrame in place is
  modelled as returning the new table. Both callers rebind `df` to the result, so no
  aliasing is observable.
- The order of sheets in the result dictionary, and the order in which `cuentas` is
  iterated, are not modelled. The result is a map.
- GaliciaParser.LineRow: the saldo is modelled as the exact amount, without the trip through
  `str` and `convertir_a_float` at parsers/galicia_parser.py:82. That trip changes two kinds
  of value, because `str` then writes the float in exponent notation and the character
  filter at line 21 deletes the `e` and the `+`:
  - a saldo of at least 1e16 has a `str` such as "1e+16", whose filtered form "116" is read
    as 116.0;
  - a saldo with 0 < |v| < 1e-4 has `str` like "1e-05", which becomes "1-05". `float` refuses
    that, `convertir_a_float` returns None, and the `round(None, 2)` around it raises, so the
    whole document fails.

  The model gives the exact amount in both cases.
- The dead loop at parsers/galicia_parser.py:45-46 is not modelled: it has no effect.
- Galicia rows have no reference. Their Referencia field is the empty text, and the Galicia
  table has no Referencia column.
- MacroParse.JoinedInOrder: requires every text joined into the column to be non-empty.
  Stripped words from the word extractor are never empty, and an empty first word would
  make the join start differently.
- MacroParser.ConvertAmountLeadingMinus: the one-minus rule is proved for a minus in front of
  the amount. For a minus elsewhere the function applies the same rule, but it is not the
  subject of a lemma.
- The string-to-bool coercion of the flags and the module-level profile reads in
  parsers/macro_parser.py are not modelled. The profile is constant, so they are dead.
- `get_parser`, the parser registry and the rest of main.py (GUI, folder walk, Excel writing)
  are not part of this model.
