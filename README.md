# Construction-works dashboard: a verified model of its core

The system is a dashboard for an electricity-network construction company. It has two parts:

- A Flask backend (`backend/app.py`) reads the works spreadsheet. Each row becomes an *obra* (a work). The backend cleans the row's cells, parses its dates and coordinates, computes its progress from planned and installed poles, and gives it a status: 'Energizada', 'Concluída', 'Em Andamento' or 'Programada'.
- A React frontend summarises the production spreadsheet (MainBD) through the chart utilities (`frontend/src/utils/chartUtils.js`). These produce the KPIs, the group-by-team and group-by-supervisor charts, the colour gradients, the variation between months and date-range filters. Its pages and components then show obras, daily production, goal gauges and KPI cards.

This project models that core in Dafny and proves what the code promises. The modules follow the program:

| module | models |
|---|---|
| `Wrappers` | `Option`, for JavaScript `null`/`undefined` and Python `None` |
| `Text` | string case mapping, `strip`, `includes`/`in`, decimal digits |
| `Seqs` | `filter`, `reduce` sums, `Set` sizes of sequences |
| `ChartRows` | a MainBD row and the row predicates the chart utilities share |
| `ChartUtils` | `calculateVariation`, `calculateAverage`, `filterByDateRange`, `processMainBDData` |
| `Grouping` | `groupBy`, the `group*By*` family, `sortByValue`, `groupObrasByAR` |
| `Colors` | `hexToRgb`, `rgbToHex`, `generateColorGradient` |
| `Backend` | the cleaning and conversion helpers of `app.py`, `determinar_status`, and the row loop of `processar_planilha` |
| `ProducaoDia` | progress colour, progress status and summary cards of the daily production page |
| `GaugeChart` | goal percentage, colour band, status text and remainder of the gauge |
| `KpiCard` | variation colour and arrow, and goal progress of the KPI card |
| `ObrasPage` | day list, status colour, summary cards and table fallbacks of the obras page |

Pure code is modelled as functions and lemmas. Two reductions are imperative methods with loop invariants, proved against specification functions or predicates: the `reduce`/`forEach` callbacks of the chart utilities, and the row loop of `processar_planilha`.

Several library calls are parameters of the model rather than code in it:

- `parseFloat(x) || 0` is `num`.
- Python's `float()` and `str()` on a cell are in `Backend.Runtime`, and so is `pd.to_datetime` for Excel serial dates.
- `datetime.now()` is the `now` parameter.

Those parameters, and the abstract time value behind `new Date(...)` in `filterByDateRange`, are the only assumptions about the code the model cannot see.

## Model

| member | source | states |
|---|---|---|
| ChartRows.OrLaws | frontend/src/utils/chartUtils.js:168 | `cell \|\| fallback` is empty only for a falsy cell with an empty fallback; a truthy cell makes the fallback irrelevant; chained fallbacks associate |
| ChartRows.CavaActivitySimplified | frontend/src/utils/chartUtils.js:179-183 | because "ESCAVAÇÃO" contains "CAVA", the cava test is "mentions CAVA and not ESCAVAÇÃO PARA ESTAI" |
| ChartRows.RetroRowsAreCavaRows | frontend/src/utils/chartUtils.js:233-242 | every row counted in `cavasPorRetro` passes the `cavas` test |
| ChartRows.OperadorRowsAreCavaRows | frontend/src/utils/chartUtils.js:458-468 | every row `groupCavasByOperador` keeps passes the `cavas` test |
| ChartRows.WesleyCountedByOperadorOnly | frontend/src/utils/chartUtils.js:224-242 | as written, a "WESLEY-IRC" cava row passes the `groupCavasByOperador` test but not the `cavasPorRetro` one |
| ChartRows.IntendedRetroAgreesWithOperador | frontend/src/utils/chartUtils.js:449-468 | with one shared team list, every row the operator chart groups is counted in `cavasPorRetro`, and the two tests agree on activities without a stay |
| ChartUtils.CalculateVariation | frontend/src/utils/chartUtils.js:43-46 | 0 when `previous` is missing or 0, or equal to `current`; otherwise applying the variation to `previous` gives back `current` |
| ChartUtils.VariationSign | frontend/src/utils/chartUtils.js:43-46 | from a positive `previous`, the variation is positive iff the value rose and negative iff it fell |
| ChartUtils.CalculateAverage | frontend/src/utils/chartUtils.js:89-93 | 0 for a missing or empty array; otherwise the mean times the length is the sum |
| ChartUtils.AverageBounds | frontend/src/utils/chartUtils.js:89-93 | the mean of values between `lo` and `hi` lies between them |
| ChartUtils.FilterByDateRange | frontend/src/utils/chartUtils.js:77-82 | keeps exactly the items whose date lies in `[startDate, endDate]` |
| ChartUtils.DateRangeKeepsOrder | frontend/src/utils/chartUtils.js:77-82 | the filter distributes over concatenation (input order kept) and is the identity when every date is in range |
| ChartUtils.PerTeam | frontend/src/utils/chartUtils.js:254-257 | 0 with no team; otherwise the per-team share times the number of teams is the total |
| ChartUtils.ProcessMainBDData | frontend/src/utils/chartUtils.js:164-271 | `totalEquipes` is the number of distinct truthy teams; with none both averages are 0, otherwise each average times the team count is its total |
| ChartUtils.EmptySheet | frontend/src/utils/chartUtils.js:164-271 | an empty sheet gives 0 for every indicator |
| ChartUtils.TotalObrasIsDistinctCount | frontend/src/utils/chartUtils.js:213-215 | `totalObras` is the number of distinct truthy SS/OT values; it is at most the number of rows with one, with equality iff no SS/OT repeats |
| ChartUtils.TotalObrasIgnoresRowsWithoutSsot | frontend/src/utils/chartUtils.js:213-215 | a row without a truthy SS/OT leaves `totalObras` unchanged |
| ChartUtils.NoTeamsIffNoTeamCells | frontend/src/utils/chartUtils.js:249-257 | there are no distinct teams (so both averages are 0) iff no row has a truthy `des_equipe` |
| ChartUtils.RetroWithinCavas | frontend/src/utils/chartUtils.js:177-188 | every `cavasPorRetro` row is a `cavas` row, so with non-negative quantities `cavasPorRetro <= cavas` |
| ChartUtils.FaturamentoSplits | frontend/src/utils/chartUtils.js:218-222 | `faturamento` is the sum of project values plus the sum of labour values |
| ChartUtils.EnergizedCanExceedTotal | frontend/src/utils/chartUtils.js:203-215 | as written, one energised row without an SS/OT gives `obrasEnergizadas` 1 and `totalObras` 0 |
| ChartUtils.IntendedEnergizedWithinTotal | frontend/src/utils/chartUtils.js:202-215 | counting only energised rows that have an SS/OT never exceeds `totalObras` |
| Grouping.InsertByValue | frontend/src/utils/chartUtils.js:101-105 | insertion adds exactly one element (multiset) |
| Grouping.HeadPrecedesInsert | frontend/src/utils/chartUtils.js:101-105 | whatever follows the head of a sorted sequence after an insertion may stand after the head |
| Grouping.InsertSorted | frontend/src/utils/chartUtils.js:101-105 | inserting into a sorted sequence keeps it sorted |
| Grouping.SortByValue | frontend/src/utils/chartUtils.js:101-105 | the result is a permutation of the input, sorted by `value` ascending for "asc" and descending otherwise |
| Grouping.MatchingMembers | frontend/src/utils/chartUtils.js:56-64 | a group's items are exactly the items with its key |
| Grouping.KeysOfMembers | frontend/src/utils/chartUtils.js:56-64 | the set of keys holds exactly the keys some item has |
| Grouping.GroupingPermutation | frontend/src/utils/chartUtils.js:297 | reordering a grouping (as the final sort does) keeps it a grouping of the same labels |
| Grouping.PartitionTotals | frontend/src/utils/chartUtils.js:56-66 | the groups together hold exactly the items whose key is one of the labels, and their values sum to those items' values |
| Grouping.GroupingConserves | frontend/src/utils/chartUtils.js:56-66 | the groups hold as many items as there are keyed items, and the group values add up to the total value |
| Grouping.ItemInExactlyOneGroup | frontend/src/utils/chartUtils.js:56-64 | every keyed item is in the group of its key and in no other |
| Grouping.AccGrouping | frontend/src/utils/chartUtils.js:56-66 | a sound accumulator lists as a grouping of the data |
| Grouping.ReduceStep | frontend/src/utils/chartUtils.js:285-295 | one reduce step: an item without a key leaves the accumulator unchanged; otherwise it creates or extends its key's group, keeping the accumulator sound |
| Grouping.AddToGroup | frontend/src/utils/chartUtils.js:57-63 | the group of the key is created empty when missing, then gains the item and its value |
| Grouping.ReduceGroups | frontend/src/utils/chartUtils.js:56-64 | after the reduce, each key's group holds its items in order and their summed value |
| Grouping.Accumulate | frontend/src/utils/chartUtils.js:56-66 | the reduce followed by `Object.values` yields a grouping |
| Grouping.GroupBy | frontend/src/utils/chartUtils.js:55-67 | one group per distinct key with its items and the sum of `item[valueField] \|\| 0`; no item is lost and no value is lost |
| Grouping.GroupSorted | frontend/src/utils/chartUtils.js:285-297 | a grouping of the keyed items, sorted by descending value |
| Grouping.GroupPostesByEquipe | frontend/src/utils/chartUtils.js:278-298 | the pole rows grouped by truthy team, summed quantities, descending |
| Grouping.GroupPostesBySupervisor | frontend/src/utils/chartUtils.js:305-325 | the pole rows grouped by truthy supervisor, summed quantities, descending |
| Grouping.GroupPostesByBase | frontend/src/utils/chartUtils.js:375-398 | the pole rows grouped into JACOBINA (the two listed supervisors) and IRECÊ (everyone else); at most two groups, descending |
| Grouping.BaseLabels | frontend/src/utils/chartUtils.js:381-387 | only the two base names can label a base group, so there are at most two |
| Grouping.SelectedCavasAreCavas | frontend/src/utils/chartUtils.js:334-351 | the selected rows are cava rows; with no sub-type selected they are all cava rows |
| Grouping.GroupCavasByEquipe | frontend/src/utils/chartUtils.js:333-367 | the selected cava rows grouped by truthy team, descending |
| Grouping.GroupCavasByOperador | frontend/src/utils/chartUtils.js:448-483 | the excavator teams' cava rows without "ESTAI"/"ESTAÍ" grouped by team, descending |
| Grouping.AddEmptyGroup | frontend/src/utils/chartUtils.js:432-436 | adding an empty group for a label no item has extends a grouping to that label |
| Grouping.AddMissingLabels | frontend/src/utils/chartUtils.js:432-436 | after the `forEach`, the groups cover the found keys and every listed label |
| Grouping.GroupClientesByEquipe | frontend/src/utils/chartUtils.js:408-439 | the customer connections of the two connection teams, grouped by team; always exactly two groups, descending |
| Grouping.LigacaoTeamsDistinct | frontend/src/utils/chartUtils.js:409 | the two connection teams are distinct |
| Grouping.SetsGrouping | frontend/src/utils/chartUtils.js:508-512 | listing the Sets with their sizes gives, for each AR, its distinct SS/OT values in first-appearance order |
| Grouping.CountGroupingPermutation | frontend/src/utils/chartUtils.js:514 | reordering a counting grouping keeps it one |
| Grouping.CountIsDistinct | frontend/src/utils/chartUtils.js:508-512 | each group's value is the number of distinct values among the items of its key |
| Grouping.AddObra | frontend/src/utils/chartUtils.js:495-505 | a row with a truthy SS/OT adds it to its AR's Set, created when missing; other rows change nothing |
| Grouping.CollectObrasPorAR | frontend/src/utils/chartUtils.js:493-505 | after the `forEach`, each AR (`ar_coelba \|\| "Sem AR"`) maps to the Set of its rows' SS/OT values |
| Grouping.GroupObrasByAR | frontend/src/utils/chartUtils.js:491-515 | one group per AR with its distinct SS/OT values and their number, descending |
| Grouping.ArValueIsDistinctCount | frontend/src/utils/chartUtils.js:491-515 | each AR's value is the number of distinct SS/OT values among its rows, all of which have one |
| Colors.HexValue | frontend/src/utils/chartUtils.js:137-139 | `parseInt(c, 16)` of a hex digit is below 16 |
| Colors.HexDigit | frontend/src/utils/chartUtils.js:152 | `toString(16)` of a value below 16 is one lower-case hex digit |
| Colors.PairValue | frontend/src/utils/chartUtils.js:137-139 | two hex digits read as a value in 0..255 |
| Colors.HexToRgb | frontend/src/utils/chartUtils.js:133-142 | null iff the text is not six hex digits with an optional '#'; otherwise three channels in 0..255 |
| Colors.NatHexSpec | frontend/src/utils/chartUtils.js:152 | `toString(16)` of a natural number writes lower-case hex digits, with no leading zero except for 0, whose value is the number |
| Colors.ChannelDigits | frontend/src/utils/chartUtils.js:151-154 | a channel in 0..255 is written as exactly two digits, padded with "0" |
| Colors.RgbToHexCanonical | frontend/src/utils/chartUtils.js:147-157 | channels in 0..255 give '#' and six lower-case hex digits |
| Colors.HexRoundTrip | frontend/src/utils/chartUtils.js:133-157 | `hexToRgb(rgbToHex(r, g, b))` gives back `(r, g, b)` for channels in 0..255 |
| Colors.RgbRoundTrip | frontend/src/utils/chartUtils.js:133-157 | `rgbToHex` of `hexToRgb(hex)` is `hex` written in lower case with a '#' |
| Colors.GenerateColorGradient | frontend/src/utils/chartUtils.js:114-128 | fails (TypeError) iff there is a step and a colour does not parse; otherwise `max(steps, 0)` colours, the i-th being the interpolated colour at `i/(steps-1)` |
| Colors.LerpBounds | frontend/src/utils/chartUtils.js:121-123 | a rounded interpolated channel stays between the two end channels |
| Colors.LerpEnds | frontend/src/utils/chartUtils.js:121-123 | ratio 0 gives the start channel and ratio 1 the end channel |
| Colors.GradientEnds | frontend/src/utils/chartUtils.js:114-128 | with two or more steps the gradient starts at the start colour and ends at the end colour |
| Colors.GradientWellFormed | frontend/src/utils/chartUtils.js:114-128 | with two or more steps every gradient colour is a canonical hex colour that `hexToRgb` reads back |
| Colors.SingleStepGradientIsNaN | frontend/src/utils/chartUtils.js:120 | as written, a one-step gradient is "#NaNNaNNaN", which `hexToRgb` rejects |
| Colors.IntendedGradientStartsAtStart | frontend/src/utils/chartUtils.js:114-128 | with ratio 0 for one step, the gradient starts at the start colour for every positive step count and equals the written one from two steps |
| Text.Upper | frontend/src/utils/chartUtils.js:179 | upper-casing keeps the length and maps each character |
| Text.AsciiLower | backend/app.py:57 | lower-casing keeps the length and maps each character |
| Text.StripIdempotent | backend/app.py:54 | stripping twice is stripping once |
| Text.Pad2 | backend/app.py:124 | `%d`/`%m` print a value below 100 as two digits whose value it is |
| Text.NatStringValue | backend/app.py:124 | `%Y` prints the year as digits whose value is the year |
| Backend.MidnightStartsDay | backend/app.py:139 | `replace(hour=0, …)` gives the first moment of the day: no moment of that day precedes it, it precedes the day's later moments, the whole day shares it, and it is idempotent |
| Backend.SentinelIsLowerMember | backend/app.py:57 | the character-level sentinel test agrees with `lower() in ['nan', 'none', 'nat', '']` |
| Backend.LimparValor | backend/app.py:49-60 | None exactly for a NaN/None cell or one whose stripped text is, ignoring case, 'nan', 'none', 'nat' or empty; otherwise the stripped text |
| Backend.LimparTrimmed | backend/app.py:54 | a cleaned value has no surrounding whitespace |
| Backend.LimparIdempotent | backend/app.py:49-60 | cleaning a cleaned value gives it back |
| Backend.ConverterNumero | backend/app.py:62-69 | a number cell gives its number, a text the float it spells; a missing cell, a date or an unreadable text gives the default |
| Backend.DefaultOnlyWhenUnreadable | backend/app.py:62-69 | two different defaults give the same result iff `float()` succeeds on the cell |
| Backend.Trunc | backend/app.py:220-222 | `int()` truncates toward zero |
| Backend.CommaToDot | backend/app.py:77 | `replace(',', '.')` changes every comma and nothing else |
| Backend.ConverterCoordenada | backend/app.py:71-82 | None for a missing cell; otherwise the float of the text with commas as dots, kept only within [-180, 180] |
| Backend.CoordinatesValidIffLatitudeInRange | backend/app.py:40-47 | on converted coordinates, `validar_coordenadas` holds iff both converted and the latitude lies in [-90, 90] |
| Backend.DecimalComma | backend/app.py:77 | a decimal comma reads the same as a decimal point |
| Backend.Split | backend/app.py:101 | a split has at least one part |
| Backend.SplitNone | backend/app.py:101 | a text without the separator splits into itself |
| Backend.SplitFirst | backend/app.py:101 | a split peels off the first field |
| Backend.TokenValue | backend/app.py:101-105 | a `%d` token reads as 1..31 and a `%m` token as 1..12 |
| Backend.StrpTime | backend/app.py:101-105 | a parsed date has time 00:00:00 |
| Backend.ConverterData | backend/app.py:84-116 | missing gives None; a timestamp is itself; a plain `datetime` gives None; a number goes to the Excel date conversion; a text with '/' is parsed as dd/mm/yyyy, one with only '-' as yyyy-mm-dd, any other text gives None |
| Backend.FormatarDataBr | backend/app.py:118-127 | None iff there is no date; otherwise a text with '/' at positions 2 and 5 |
| Backend.ReadPrinted | backend/app.py:101-124 | parsing the printed day, month and year gives back the date |
| Backend.PrintedIsStripped | backend/app.py:99 | a printed date has nothing to strip and contains '/' |
| Backend.SlashTextIsDayFirst | backend/app.py:97-102 | a stripped text with '/' is parsed day-first |
| Backend.DateRoundTrip | backend/app.py:84-124 | `converter_data(formatar_data_br(d)) == d` for a date at midnight with a four-digit year |
| Backend.StatusByProgress | backend/app.py:150-157 | the progress fallback: 'Concluída' from 100, 'Em Andamento' above 0, 'Programada' otherwise |
| Backend.DeterminarStatus | backend/app.py:129-178 | energised iff the upper-cased notes contain 'ENERGIZADA', and then the status is 'Energizada'; the end before today gives 'Concluída'; a start after today 'Programada'; a start by today 'Em Andamento'; no dates, the progress fallback; always one of the four statuses |
| Backend.RoundHalfEven | backend/app.py:266 | Python's `round` is within 0.5 and rounds halves to even |
| Backend.Progresso | backend/app.py:263-268 | 0 without planned poles; never above 100; 100 once installed reaches planned; otherwise within 0.5 of the percentage |
| Backend.ObraOf | backend/app.py:200-313 | a row yields an obra iff it has all 25 columns and a project; the obra has id index+1, a non-empty project, progress `Progresso` of columns 7 and 14, status and flag from `DeterminarStatus` on columns 8 and 9, the converted coordinates with `hasCoordinates` iff they validate, and the cleaned criterion and necessity |
| Backend.ObraCoordinates | backend/app.py:241-248 | an obra has coordinates iff both coordinate cells convert and the latitude lies in [-90, 90] |
| Backend.ProcessarPlanilha | backend/app.py:197-315 | the loop appends exactly the obras of the rows that are not skipped, in row order |
| Backend.ObrasFields | backend/app.py:200-315 | every obra is well formed, and there are no more obras than rows |
| Backend.ObrasIds | backend/app.py:200-315 | ids lie in 1..rows and strictly increase, so no two obras share one |
| Backend.SkipsRowsWithoutProject | backend/app.py:203-205 | a row without a project adds nothing |
| ProducaoDia.ProgressColor | frontend/src/pages/ProducaoDia.js:45-50 | green iff progress ≥ 80, amber iff 50 ≤ p < 80, red iff 20 ≤ p < 50, grey otherwise or when missing |
| ProducaoDia.ProgressStatus | frontend/src/pages/ProducaoDia.js:52-62 | a truthy backend status wins; otherwise 'Concluído' iff ≥ 80, 'Em Andamento' iff 50..80, 'Iniciado' iff 0..50, 'Não Iniciado' otherwise |
| ProducaoDia.ConcluidoIffGreen | frontend/src/pages/ProducaoDia.js:45-61 | without a backend status, the label is 'Concluído' exactly when the row is green |
| ProducaoDia.BackendStatusWins | frontend/src/pages/ProducaoDia.js:54-56 | with a truthy backend status, the progress does not affect the label |
| ProducaoDia.SummaryDisjoint | frontend/src/pages/ProducaoDia.js:149-176 | no production is counted by two cards, and one without a progress by none |
| ProducaoDia.SummaryCountsSum | frontend/src/pages/ProducaoDia.js:149-176 | with non-negative progress everywhere, the three cards add up to the number of productions |
| ProducaoDia.ConcluidasAreGreen | frontend/src/pages/ProducaoDia.js:149 | the "Concluídas" card counts exactly the rows `getProgressColor` paints green |
| GaugeChart.Percentage | frontend/src/components/GaugeChart.jsx:29 | 0 for a target ≤ 0; never above 100; non-negative for a non-negative value; 100 iff the value reaches a positive target; below it, the exact share |
| GaugeChart.GaugeColor | frontend/src/components/GaugeChart.jsx:32-36 | teal iff ≥ 100, orange iff 80..100, red below 80 |
| GaugeChart.StatusText | frontend/src/components/GaugeChart.jsx:49-53 | 'Meta atingida' iff ≥ 100, 'Próximo' iff 80..100, 'Abaixo' below 80 |
| GaugeChart.TextMatchesColor | frontend/src/components/GaugeChart.jsx:32-53 | the status text always names the colour's band |
| GaugeChart.GoalReachedIffValueAtTarget | frontend/src/components/GaugeChart.jsx:29-53 | with a positive target, 'Meta atingida' iff value ≥ target |
| GaugeChart.ScaledThreshold | frontend/src/components/GaugeChart.jsx:29 | the share reaches k% iff the value reaches k% of a positive target |
| GaugeChart.OrangeIffNearTarget | frontend/src/components/GaugeChart.jsx:29-36 | with a positive target, orange iff 0.8·target ≤ value < target |
| GaugeChart.Remaining | frontend/src/components/GaugeChart.jsx:106-110 | "Faltam" (here and in the circular gauge) is shown iff value < target, and then it is positive and adds to the value to give the target |
| GaugeChart.RemainingIffGoalMissed | frontend/src/components/GaugeChart.jsx:106-110 | with a positive target, "Faltam" is shown iff the goal is not reported reached |
| KpiCard.VariationColor | frontend/src/components/KPICard.jsx:51-55 | teal iff variation > 0, red iff < 0, grey iff 0 |
| KpiCard.VariationIcon | frontend/src/components/KPICard.jsx:58-62 | ↑ iff > 0, ↓ iff < 0, → iff 0 |
| KpiCard.IconMatchesColor | frontend/src/components/KPICard.jsx:51-62 | the arrow and the colour always agree |
| KpiCard.ArrowShowsGrowth | frontend/src/components/KPICard.jsx:58-62 | fed by `calculateVariation` from a positive previous value, ↑ iff the value grew and ↓ iff it fell |
| KpiCard.MetaProgress | frontend/src/components/KPICard.jsx:65-69 | null iff there is no goal, no monthly goal or a monthly goal of 0; otherwise at most 100, equal to 100 iff the share reaches 100, and the exact share below |
| KpiCard.GoalBarColor | frontend/src/components/KPICard.jsx:114-119 | the bar is drawn iff there is a progress; teal iff ≥ 100, orange below |
| KpiCard.GoalBarTealIffReached | frontend/src/components/KPICard.jsx:119 | with a positive monthly goal, the bar is teal iff the value reaches the goal |
| ObrasPage.ObrasDoDia | frontend/src/pages/Obras.js:52-58 | keeps exactly the obras whose status is 'Em Andamento' |
| ObrasPage.DayListOfConcat | frontend/src/pages/Obras.js:52-58 | the day list of a concatenation is the concatenation of the day lists (order kept) |
| ObrasPage.DayListInRowOrder | frontend/src/pages/Obras.js:52-58 | the day list of the backend's obras has strictly increasing ids |
| ObrasPage.StatusColor | frontend/src/pages/Obras.js:103-111 | the energised flag gives green whatever the status; otherwise blue iff 'Em Andamento', green iff 'Concluída', amber iff 'Programada', grey for anything else (including 'Energizada' without the flag) |
| ObrasPage.WellFormedColor | frontend/src/pages/Obras.js:103-111 | for a well-formed obra the pill is never grey, and it is green iff the status is 'Energizada' or 'Concluída' |
| ObrasPage.BackendObrasNeverGrey | frontend/src/pages/Obras.js:103-111 | no obra the backend emits gets the grey pill |
| ObrasPage.EmAndamentoCardIsDayList | frontend/src/pages/Obras.js:212 | the "Em Andamento" card counts the day list that `filtrarObrasDoDia` builds |
| ObrasPage.SummaryAddsUp | frontend/src/pages/Obras.js:208-220 | over well-formed obras, Em Andamento + Energizadas + Concluídas + Programadas equals the total |
| ObrasPage.NecessidadeOfRow | frontend/src/pages/Obras.js:186 | for an obra of a row, the column shows the cleaned column-11 cell, or 'IMPLANTAÇÃO' when that cell is missing or a sentinel |
| ObrasPage.CriterioOfRow | frontend/src/pages/Obras.js:187 | for an obra of a row, the column shows the cleaned column-5 cell, or 'QLP' when that cell is missing or a sentinel |

## Left out

- I/O and the server:
  - the spreadsheet reading (`pd.read_excel`, `df.replace`), Flask routes, logging and the `stats` dictionary;
  - the `fetch` calls, React state, rendering, timers and the PNG export;
  - `formatValue`, `Intl.NumberFormat` and `toFixed`, because they are locale formatting.
- Libraries the model cannot see:
  - `float()` of a text, `str()` of a cell and `pd.to_datetime` of an Excel serial are abstract fields of `Backend.Runtime`;
  - `parseFloat` in the chart utilities is the `num` parameter;
  - `datetime.now()` is the `now` parameter.
- Floating point: every number is an exact `real`.
  - NaN and infinities are not modelled, except for the one NaN of the one-step gradient.
  - `int()` of a NaN or infinite float would raise and skip the row; the model has no such floats.
- Text: the case mapping has only the one-to-one mappings of `toUpperCase`/`str.upper`; 'ß', which they turn into "SS", is left unchanged. No pattern the core searches for contains it. `strptime` reads ASCII digits only.
- JavaScript values of MainBD cells: every cell is text or missing (`Option<string>`), so the model does not capture:
  - a numeric cell 0, which is falsy: `parseFloat(row.clientes_lig || row.clientes)` (ChartUtils.ClientesQty) falls back to `clientes` in the source, while the model reads the text "0";
  - the difference between `undefined` and `null`, which the `obrasEnergizadas` Set counts as two values, while the model has one `None`;
  - keys named after `Object.prototype` members ("constructor", "toString", "__proto__"): on the plain `{}` accumulators `!acc[key]` is false, and `.items.push` or `.add` throws a TypeError, while the model's maps start empty;
  - `groupBy`'s `+=` on a value field that holds a string, which concatenates; the model's value field is a number or nothing.
- Ordering:
  - Group order after `Object.values` is insertion order in the model. Integer-like keys, which JavaScript lists first, are not modelled.
  - The sort is specified as sorted plus a permutation; its stability is not claimed.
- `formatar_data_br`'s branch for a value that is not a `datetime` (`str(data)`) is not reachable from `processar_planilha`, which passes only `converter_data` results, and is not modelled.
- Backend.DateRoundTrip: holds for four-digit years only. `strptime('%Y')` demands four digits, while `strftime` prints years below 1000 with fewer.
- A row with fewer than 25 cells is skipped, as the source's `IndexError` handler does. Other exceptions inside the row loop are not modelled.
- Backend.StrpTime: its contract states only the zero time; the parsing itself is pinned by Backend.ReadPrinted and Backend.DateRoundTrip, not by a general characterisation of `strptime`.
- ChartUtils.FilterByDateRange: `new Date(item[dateField])` is abstract (the item's time value, None for an invalid date). Dates are compared as time values.
- The modal's `criterio || 'N/A'` fallback in `Obras.js` is presentation and is not modelled.
- Default props (`value = 0`, `target = 100`, `meta = null`) are the callers' business. The model takes the values as given.

## Findings

| source | as written | input that shows it | evidently intended | confidence | as-written member | corrected member |
|---|---|---|---|---|---|---|
| frontend/src/utils/chartUtils.js:120 | `ratio = i / (steps - 1)` is `0 / 0`, NaN, when `steps` is 1, so the gradient is `["#NaNNaNNaN"]` | `generateColorGradient("#000000", "#ffffff", 1)` | a one-step gradient is the start colour | not executed | Colors.SingleStepGradientIsNaN | Colors.IntendedGradientStartsAtStart |
| frontend/src/utils/chartUtils.js:203-210 | `obrasEnergizadas` maps energised rows to `row["SS/OT"]` without requiring one, so a missing SS/OT is counted as an obra | one row with `data_energ` "01/02/2024" and no SS/OT: `obrasEnergizadas` 1, `totalObras` 0 | energised obras are among the obras counted by `totalObras` | not executed | ChartUtils.EnergizedCanExceedTotal | ChartUtils.IntendedEnergizedWithinTotal |
| frontend/src/utils/chartUtils.js:226 | `cavasPorRetro` lists the team "WESLEI-IRC", while `groupCavasByOperador` (line 454) lists "WESLEY-IRC" for the same excavator | a row with `des_equipe` "WESLEY-IRC" and `des_atividade` "CAVA" | both charts credit the same excavator teams | not executed | ChartRows.WesleyCountedByOperadorOnly | ChartRows.IntendedRetroAgreesWithOperador |
