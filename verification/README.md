# Horta Fácil — a Dafny model of its planning core

Horta Fácil plans vegetable gardens ("hortas") built from planting modules.
This project models its planning logic as pure Dafny functions, methods and
lemmas. Each part below is one module.

- **Backend sizing** (`Sizing`). The `calcular_dimensionamento` action
  divides the desired weekly production by the crop's expected productivity
  and rounds up to whole modules. It answers 400 for a missing `desejada`
  and for a non-positive productivity. It answers 500 for an unknown crop,
  for unparseable input, and for a NaN or infinite target (which `float()`
  accepts but `math.ceil` rejects).
- **Backend calendar** (`Schedule`). The `calendario` action gives one entry
  per module. The modules are staggered by the planting period, and each
  entry runs through the development, harvest and clean-up cycles (in weeks).
- **Model save rules** (`Records`). `Cultivo.save` defaults a missing total
  area to the area of all modules. `Relatorio.save` recomputes the
  efficiency percentage on every save.
- **Task calendar** (`Agenda`). `CalendarioScreen` filters activities by
  type, then groups them into the buckets Hoje, Próximos 7 dias, Próximos
  30 dias, Depois and Vencidas.
- **Service layer** (`Api`). The client-side garden filter, the
  cultivation/crop join, and the error text of the iOS client's `api.js`.
- **Screens**:
  - `AddHortalica`: the form checks, the payload and the sizing shortcut of
    the add-crop screen;
  - `Picker`: that screen's month calendar, as JavaScript `Date` computes
    it;
  - `HortalicaDetalhe`: the cultivation detail screen;
  - `AddHorta`: the new-garden form;
  - `AddHortaModal`: the new-garden dialog;
  - `MinhasHortas`: the garden list of the React Native client;
  - `Navigation`: the hand-written navigator of the iOS client.
- **Shared modules.** `Values`, `Text` and `Seqs` hold what the modules
  share:
  - `Option` and JavaScript numbers (NaN, an infinity or a finite value);
  - white-space trimming with the ECMAScript white-space set;
  - decimal text of integers;
  - an order-keeping filter;
  - the sign of a product with a positive factor.

Conventions:

- Dates are integer day numbers.
- Quantities are mathematical reals.
- Today's date is a parameter.
- `parseInt`, `parseFloat` and the answers of server requests are parameters
  of the operations that use them.

## Model

| member | source | states |
|---|---|---|
| Sizing.CalcularDimensionamento | backend/core/views.py:39-68 | Success exactly when the crop exists, `desejada` is a finite number and the productivity is positive. An unknown crop or unparseable input gives 500. A missing `desejada`, or a finite or non-finite target with a non-positive productivity, gives 400 with the exact message. A NaN or infinite target with a positive productivity gives 500. On success the module count n brackets the target, (n-1)·p < d ≤ n·p, and the area is n times the module area |
| Sizing.Ceil | backend/core/views.py:58 | `math.ceil`: the result is not below x and the result minus one is below x |
| Sizing.CeilScales | backend/core/views.py:58 | n = ceil(d/p) with p > 0 gives (n-1)·p < d ≤ n·p |
| Sizing.ModulesLeast | backend/core/views.py:58 | the computed count is the least one: every count whose modules produce the target is at least as large |
| Sizing.ExactMultiple | backend/core/views.py:58 | a target of exactly k modules' production needs exactly k modules |
| Sizing.ZeroTarget | backend/core/views.py:58-59 | a zero target gives 0 modules and area 0 |
| Sizing.PositiveTarget | backend/core/views.py:58 | a positive target needs at least one module |
| Sizing.Monotone | backend/core/views.py:58-59 | a larger target never gives fewer modules, nor (for a non-negative module area) a smaller area |
| Schedule.Entry | backend/core/views.py:102-116 | module i+1 is planted 7·i·periodicidade days after the start; the harvest starts, the harvest ends and the module is free after 7× the development, harvest and clean-up cycles |
| Schedule.Calendario | backend/core/views.py:100-119 | one entry per module, none for a non-positive count; consecutive plantings are one period apart; every entry spans 7× the total cycle |
| Schedule.StaggerStep | backend/core/views.py:102 | consecutive modules are planted exactly 7·periodicidade days apart |
| Schedule.EntryDatesOrdered | backend/core/views.py:105-108 | with non-negative cycles, the four dates of an entry never go backwards |
| Schedule.PlantingMonotone | backend/core/views.py:102 | with a non-negative period, a later module is never planted earlier |
| Records.SaveCultivo | backend/core/models.py:55-61 | after a save the area is never null; a truthy area is kept; a null or zero area becomes num_modulos × area_modulo; every other field is unchanged |
| Records.SaveCultivoIdempotent | backend/core/models.py:59-60 | saving twice stores the same record as saving once |
| Records.SavedAreaZeroOnlyWithoutModules | backend/core/models.py:59-60 | a stored area of zero means that the modules cover no area |
| Records.SaveRelatorio | backend/core/models.py:89-97 | with a positive plan, efficiency × plan = harvest × 100; otherwise the efficiency is 0; it is always set, and nothing else changes |
| Records.EficienciaOverwritten | backend/core/models.py:93-96 | the efficiency held before a save does not influence the one stored |
| Records.EficienciaBounds | backend/core/models.py:93-94 | a harvest within [0, plan] gives an efficiency within [0, 100]; a harvest equal to the plan gives 100 |
| Text.Trim | frontend_expo_ios/src/screens/AddHortaScreen.js:32-33 | `String.prototype.trim`: no longer than the input, no white space at either end, and empty exactly when the input is all white space |
| Text.TrimFrames | frontend_expo_ios/src/screens/AddHortaScreen.js:32-33 | the input is the trimmed text framed by a blank prefix and a blank suffix, so trimming removes only edge white space |
| Text.PadStart2 | frontend_expo_ios/src/screens/AddHortalicaScreen.js:157-158 | `padStart(2, '0')`: the result has length max(len, 2), ends with the input and is zeros before it |
| Text.TrimIdempotent | frontend_expo_ios/src/screens/AddHortaScreen.js:32-33 | trimming twice is trimming once |
| Text.DecimalRoundTrip | frontend_react_native/src/screens/MinhasHortasScreen.js:30 | `String(n)` of an integer reads back as n |
| Text.DecimalInjective | frontend_react_native/src/screens/MinhasHortasScreen.js:30 | distinct integers have distinct decimal texts |
| Agenda.Classificar | frontend_expo_ios/src/screens/CalendarioScreen.js:94-104 | each bucket holds exactly its range of day differences (<0, 0, 1..7, 8..30, >30), so every difference falls in exactly one bucket |
| Agenda.ClassificarMonotone | frontend_expo_ios/src/screens/CalendarioScreen.js:94-104 | for non-negative differences, a later day never lands in an earlier-listed bucket |
| Agenda.SecoesDesdeShape | frontend_expo_ios/src/screens/CalendarioScreen.js:107-112 | the sections are exactly the non-empty buckets, each with its bucket's activities, in strictly increasing declaration order |
| Agenda.AgruparPorData | frontend_expo_ios/src/screens/CalendarioScreen.js:76-113 | the one-pass bucketing equals the reference grouping (each bucket is its activities filtered in input order); no section is empty; sections follow the declaration order |
| Agenda.NoGrupoSnoc | frontend_expo_ios/src/screens/CalendarioScreen.js:88-105 | one more activity is appended to its own bucket only |
| Agenda.AgruparUnfolded | frontend_expo_ios/src/screens/CalendarioScreen.js:107-112 | the grouping is the five buckets in declaration order, each kept when non-empty |
| Agenda.ExactlyOneBucket | frontend_expo_ios/src/screens/CalendarioScreen.js:88-105 | an activity whose planting date names a day is in exactly the bucket its difference selects; an undated or unparseable one is in none; a null date (the epoch) is overdue |
| Agenda.BucketSizesSum | frontend_expo_ios/src/screens/CalendarioScreen.js:88-105 | the bucket sizes add up to the number of dated activities |
| Agenda.BucketSizesSumAllDated | frontend_expo_ios/src/screens/CalendarioScreen.js:88-105 | when every activity is dated, no activity is lost or counted twice |
| Agenda.BucketKeepsInputOrder | frontend_expo_ios/src/screens/CalendarioScreen.js:88-105 | the bucket of a concatenation is the concatenation of the buckets |
| Agenda.ObterTipoAtividade | frontend_expo_ios/src/screens/CalendarioScreen.js:115-120 | the type is the first truthy date among planting, harvest start and clean-up start, with "outro" when none is truthy; all four cases stated both ways |
| Agenda.FiltrarAtividades | frontend_expo_ios/src/screens/CalendarioScreen.js:148-153 | "todas" keeps the list; any other filter keeps exactly the activities of that type (order and repetitions: the two lemmas below) |
| Agenda.FiltrarAtividadesKeepsOrder | frontend_expo_ios/src/screens/CalendarioScreen.js:152 | filtering distributes over concatenation, so the input order is kept |
| Agenda.FiltrarAtividadesSingle | frontend_expo_ios/src/screens/CalendarioScreen.js:148-153 | one activity is kept, once, exactly when the filter is "todas" or names its type; with the previous lemma this fixes the result for every list |
| Agenda.TypeFiltersPartition | frontend_expo_ios/src/screens/CalendarioScreen.js:148-153 | the three button filters (plantio, colheita, limpeza) and the 'outro' type, which no button selects, split the list: their sizes add up to its length |
| Agenda.UnknownFilterEmpty | frontend_expo_ios/src/screens/CalendarioScreen.js:148-153 | a filter that names no type shows nothing |
| Agenda.Secoes | frontend_expo_ios/src/screens/CalendarioScreen.js:214-215 | the listed sections are exactly the non-empty buckets of the filtered activities, each holding its bucket, in declaration order |
| Agenda.SectionsRespectFilter | frontend_expo_ios/src/screens/CalendarioScreen.js:214-215 | because the filter runs before the grouping, every listed activity has the selected type |
| Api.FetchCultivos | frontend_expo_ios/src/services/api.js:84-93 | the result holds exactly the listed cultivations of the garden and is no longer than the list |
| Api.FetchCultivosKeepsOrder | frontend_expo_ios/src/services/api.js:88 | the filter keeps the server's order |
| Api.MapaHortalicas | frontend_expo_ios/src/services/api.js:202-205 | an id is a key exactly when some catalogue entry has it, and its value is a catalogue entry with that id |
| Api.LastEntryWins | frontend_expo_ios/src/services/api.js:202-205 | when ids repeat, the last entry with that id is stored |
| Api.JuntarComMapa | frontend_expo_ios/src/services/api.js:208-211 | every pair holds a listed cultivation and the table entry of its crop id, and every listed cultivation whose crop id is in the table is paired with that entry |
| Api.JoinMatchesIds | frontend_expo_ios/src/services/api.js:208-211 | every joined crop is a catalogue entry whose id is the cultivation's crop id |
| Api.JoinKeepsOrder | frontend_expo_ios/src/services/api.js:208-211 | the join distributes over concatenation, so it keeps the cultivation order |
| Api.JoinCompleteWhenAllKnown | frontend_expo_ios/src/services/api.js:208-211 | when every crop id is known, the join pairs the cultivations one-to-one, in order |
| Api.UnknownCropDropped | frontend_expo_ios/src/services/api.js:211 | a cultivation whose crop id is in no catalogue entry is dropped |
| Api.FetchCultivosDetalhados | frontend_expo_ios/src/services/api.js:193-216 | each result pairs one of the garden's cultivations with a catalogue entry of matching id, and each of the garden's cultivations whose crop id is in the catalogue is there, with the table's entry |
| Api.MensagemPadrao | frontend_expo_ios/src/services/api.js:32 | every operation has a non-empty fallback message (the same pattern as lines 47 to 184) |
| Api.FallbackIdentifiesOperacao | frontend_expo_ios/src/services/api.js:32-184 | without a server `detail`, equal messages mean the same operation: the fallbacks are pairwise distinct |
| Api.MensagemDeErro | frontend_expo_ios/src/services/api.js:184 | a non-empty server `detail` is shown as is; otherwise the operation's fallback is shown; the text is never empty |
| Picker.GetDaysInMonth | frontend_expo_ios/src/screens/AddHortalicaScreen.js:162-164 | 28 to 31 days: 29 exactly in February of a leap year, 28 exactly in February otherwise, 30 exactly in April, June, September and November |
| Picker.GetFirstDayOfMonth | frontend_expo_ios/src/screens/AddHortalicaScreen.js:166-168 | the weekday, 0 to 6, of day 1 of the month |
| Picker.EpochIsThursday | frontend_expo_ios/src/screens/AddHortalicaScreen.js:166-168 | the weekday numbering puts 1 January 1970 on a Thursday, as `getDay` does |
| Picker.YearLength | frontend_expo_ios/src/screens/AddHortalicaScreen.js:162-164 | a year has 366 days when it is a leap year and 365 otherwise |
| Picker.FirstOfFollowingMonth | frontend_expo_ios/src/screens/AddHortalicaScreen.js:162-164 | day 1 of the next month is one month length after day 1 of this month |
| Picker.MonthOf | frontend_expo_ios/src/screens/AddHortalicaScreen.js:177-183 | `new Date(y, m)` lands on a valid month whose absolute index is that of the two-digit-adjusted year plus m |
| Picker.PreviousMonth | frontend_expo_ios/src/screens/AddHortalicaScreen.js:177-179 | the month before, with December of the previous year before January |
| Picker.NextMonth | frontend_expo_ios/src/screens/AddHortalicaScreen.js:181-183 | the month after, with January of the next year after December |
| Picker.NextAfterPrevious | frontend_expo_ios/src/screens/AddHortalicaScreen.js:177-183 | back then forward returns to the same month outside the constructor's two-digit years |
| Picker.PreviousAfterNext | frontend_expo_ios/src/screens/AddHortalicaScreen.js:177-183 | forward then back returns to the same month outside the constructor's two-digit years |
| Picker.TwoDigitYearBreaksRoundTrip | frontend_expo_ios/src/screens/AddHortalicaScreen.js:177-183 | from January of year 100, back then forward lands on January 2000 |
| Picker.FirstWeekdayOfNextMonth | frontend_expo_ios/src/screens/AddHortalicaScreen.js:162-168 | the next month starts on the weekday after this month's last day |
| Picker.FormatDate | frontend_expo_ios/src/screens/AddHortalicaScreen.js:155-160 | for any year, a month of the year and a day below 100, the text reads back: the year before the second-to-last '-', then two digits of the one-based month and two of the day |
| Picker.FormatDateRoundTrip | frontend_expo_ios/src/screens/AddHortalicaScreen.js:155-160 | for a four-digit year, the text is `YYYY-MM-DD` and reads back as the same date |
| Picker.RenderCalendar | frontend_expo_ios/src/screens/AddHortalicaScreen.js:185-222 | first-weekday many blanks, then days 1 to the month length in order, each marked exactly when it is the selected date |
| Picker.EachDayOnce | frontend_expo_ios/src/screens/AddHortalicaScreen.js:198-219 | each day of the month is in exactly one cell of the grid |
| Picker.HandleDateSelect | frontend_expo_ios/src/screens/AddHortalicaScreen.js:170-175 | the chosen day becomes the selected date; its text reads back as that date (four-digit years); the picker closes; the month stays |
| AddHortalica.HandleSalvar | frontend_expo_ios/src/screens/AddHortalicaScreen.js:90-139 | each of the four alerts is raised exactly when its check is the first to fail; otherwise the payload carries the garden, the crop, the parsed fields and the raw date |
| AddHortalica.OnlyFirstFailureReported | frontend_expo_ios/src/screens/AddHortalicaScreen.js:91-109 | a request is built exactly when no check fails; otherwise the first failing check's alert is raised |
| AddHortalica.HandleCalculoDimensionamento | frontend_expo_ios/src/screens/AddHortalicaScreen.js:65-76 | a blank production is refused exactly; otherwise sizing is requested for the selected crop with the parsed production |
| AddHortalica.AplicarCalculo | frontend_expo_ios/src/screens/AddHortalicaScreen.js:78 | the field is unchanged on an error, "1" when the count is absent, and otherwise text that reads back as the count; after an answer it is never blank |
| AddHortalica.DecimalNotBlank | frontend_expo_ios/src/screens/AddHortalicaScreen.js:78 | the decimal text of a number is not blank |
| AddHortalica.SizingFillsModules | frontend_expo_ios/src/screens/AddHortalicaScreen.js:78 | after a sizing answer, saving never raises the module-count alert |
| HortalicaDetalhe.CicloTotal | frontend_expo_ios/src/screens/HortalicaDetalheScreen.js:24-27 | seven times the total cycle is the span of every backend calendar entry for the crop, for any start, period and module |
| HortalicaDetalhe.HandleCalcular | frontend_expo_ios/src/screens/HortalicaDetalheScreen.js:29-38 | a request is made exactly when the parsed production is a positive number or +Infinity; it names this crop and that value |
| HortalicaDetalhe.Parametro | frontend_expo_ios/src/services/api.js:173-180 | the backend reads a finite number back as itself, and NaN or an infinity as a non-finite target |
| HortalicaDetalhe.PressCalcular | frontend_expo_ios/src/screens/HortalicaDetalheScreen.js:29-50 | a refused input or an error answer leaves the state; a success shows the backend's answer for the sent value |
| HortalicaDetalhe.InfinityNeverShown | frontend_expo_ios/src/screens/HortalicaDetalheScreen.js:33-44 | +Infinity passes the guard, but the backend rejects it, so the state is kept |
| HortalicaDetalhe.ShownResultHasModules | frontend_expo_ios/src/screens/HortalicaDetalheScreen.js:43-44 | a result shown after a press has at least one module |
| AddHorta.HandleSalvar | frontend_expo_ios/src/screens/AddHortaScreen.js:22-35 | alert exactly for a blank name; otherwise the name is trimmed, the location is trimmed and null exactly when blank, and the area is null exactly when the field is empty |
| AddHorta.PayloadNormalised | frontend_expo_ios/src/screens/AddHortaScreen.js:32-33 | the payload's name is non-empty, and trimming the name or the location again changes nothing |
| AddHorta.ResaveSamePayload | frontend_expo_ios/src/screens/AddHortaScreen.js:31-35 | for every form that saves, submitting the normalised name and location again, with the area text unchanged, builds the same payload |
| AddHortaModal.HandleSave | horta-facil-mobile/src/components/AddHortaModal.js:8-13 | the callback fires exactly for a non-blank name, with the name as typed, and the field is cleared; otherwise nothing changes |
| AddHortaModal.SaveOnce | horta-facil-mobile/src/components/AddHortaModal.js:9-11 | a second press right after a save does nothing |
| AddHortaModal.SavedNameHasContent | horta-facil-mobile/src/components/AddHortaModal.js:9-10 | the name handed to the callback trims to a non-empty text |
| MinhasHortas.ParaCard | frontend_react_native/src/screens/MinhasHortasScreen.js:29-35 | the card id reads back as the garden id; the name is kept; a null plant count becomes 0; the status is fixed and there is no photo |
| MinhasHortas.Load | frontend_react_native/src/screens/MinhasHortasScreen.js:25-43 | a failure keeps the list; a body that is not an array empties it; otherwise one card per garden, in order |
| MinhasHortas.CardIdsDistinct | frontend_react_native/src/screens/MinhasHortasScreen.js:30 | distinct garden ids give distinct card keys |
| MinhasHortas.HandleAddHorta | frontend_react_native/src/screens/MinhasHortasScreen.js:46-63 | the request sends the name; a success appends one card (id reading back as the new id, name as created, no plants, status 'Saudável', no photo) after the existing ones and closes the dialog; a failure changes nothing |
| MinhasHortas.AddKeepsIdsDistinct | frontend_react_native/src/screens/MinhasHortasScreen.js:49-58 | distinct card ids stay distinct after adding a garden with a new id |
| Navigation.RenderScreen | frontend_expo_ios/App.js:31-47 | a known name renders its screen; any other name renders the garden list |
| Navigation.RenderByName | frontend_expo_ios/App.js:31-47 | the names select the screens one-to-one |
| Navigation.Init | frontend_expo_ios/App.js:13-15 | the app starts on the splash screen with no previous screen and no parameters |
| Navigation.Navigate | frontend_expo_ios/App.js:17-21 | the old screen becomes the previous one and the parameters are replaced (by `{}` when omitted) |
| Navigation.GoBack | frontend_expo_ios/App.js:23-29 | the previous screen, or the garden list when there is none, becomes current; the previous screen and the parameters are kept |
| Navigation.GoBackIdempotent | frontend_expo_ios/App.js:23-29 | going back twice is going back once |
| Navigation.BackAfterNavigate | frontend_expo_ios/App.js:17-29 | back right after a navigate returns to the screen it left, with the navigate's parameters |
| Navigation.OneLevelHistory | frontend_expo_ios/App.js:17-29 | list → garden → crop → back shows the garden without its `horta` parameter, and back again stays there |
| Navigation.StackNavigate | frontend_expo_ios/App.js:17-21 | the intended navigate pushes the shown screen with its parameters |
| Navigation.StackGoBack | frontend_expo_ios/App.js:23-29 | the intended goBack restores the last pushed screen with its own parameters, or the garden list |
| Navigation.StackBackUndoesNavigate | frontend_expo_ios/App.js:17-29 | on the stack, back undoes a navigate completely |
| Navigation.StackWalkReturnsToList | frontend_expo_ios/App.js:17-29 | the walk of the finding below, on the stack, returns to the garden with its `horta`, then to the list |

## Left out

- Network requests, rendering, alerts, loading flags, logging and the PDF
  endpoint. Each request's answer is a parameter (success with a body, or
  failure).
- `parseInt`, `parseFloat` and Python's `float()` are parameters or
  pre-parsed values. Their text grammars are not modelled.
- IEEE 754 rounding and overflow. Quantities are exact reals. For example,
  the efficiency is stated as efficiency × plan = harvest × 100. In the
  sizing action, a finite target whose quotient d/p overflows to infinity
  makes `math.ceil` raise (a 500), and an area that overflows to infinity
  cannot be rendered as strict JSON (also a 500). The model has neither
  case, so Sizing.CalcularDimensionamento's "success exactly when" holds
  over the reals only.
- Time zones and clock times. A planting date of the form `YYYY-MM-DD`
  parses as midnight UTC. `setHours(0, 0, 0, 0)` then moves it to local
  midnight of the local calendar day of that instant. West of UTC (Brazil,
  UTC−3, for example) that is the previous day, so on the screen every ISO
  planting date lands one day earlier than written. The model takes each
  date as the day the screen computes, and today as local midnight. A
  daylight-saving shift inside the `Math.floor` division is not modelled.
- Python `date` overflow outside years 1 to 9999 (a 500 from the calendar action). A late start, or a negative periodicity or cycle, can reach it; the loop has no `try` around it.
- Sizing.CalcularDimensionamento: an unknown crop id makes `get_object`
  raise inside the `try`, so it answers 500. The 404 that DRF would
  otherwise give is not modelled.
- Schedule.Calendario: as written, `backend/core/views.py:2` imports
  `Hortaliça` from the models, and so do `serializers.py:3` and
  `admin.py:3`, but `models.py:22` defines only `Hortalica`. The views
  module therefore cannot load, so neither the sizing action
  (Sizing.CalcularDimensionamento) nor the calendar action ever answers.
  The calendar action also reads `cultivo.hortaliça`, a field the model
  does not declare (it is `hortalica`). Only the arithmetic of both
  actions, for the intended names, is modelled; module loading and name
  lookup are not.
- The consolidated calendar endpoint and the splash screen's timer.
- Loading and selecting crops on the add-crop screen (`loadHortalicas`,
  `handleSelectHortalica`) only copy server data into state. They are not
  modelled.
- Picker.NextAfterPrevious: holds only outside years 0 to 100, because
  `new Date` reads years 0 to 99 as 1900 to 1999
  (Picker.TwoDigitYearBreaksRoundTrip shows the failure).
- Picker.PreviousAfterNext: the same two-digit window applies.
- Picker.DayNumber: JavaScript `Date`'s range limit (±8.64e15 ms, about ±275,760 years from 1970, past which a date is invalid) is not modelled; day numbers are unbounded.
- Picker.FirstWeekdayOfNextMonth: excludes December of year -1, whose next
  month is read as 1900.
- Picker.HandleDateSelect: the day must be within the month, which the
  grid guarantees. The read-back is stated for four-digit years only.
- AddHortalica.AplicarCalculo: JavaScript writes counts of 1e21 and above
  in exponent notation; the model writes them in plain decimal.
- Agenda.ExactlyOneBucket: a null planting date is placed on 1 January 1970
  (day 0). West of UTC, local midnight of that instant is the day before;
  the model does not distinguish the two.
- The error bodies of the sizing action carry `erro`, while the client reads
  `detail`. So Api.MensagemDeErro shows the fallback for those answers. The
  model states this through the `detail` parameter; it does not model the
  response bodies.

## Findings

| source | as written | input that shows it | evidently intended | confidence | as-written member | corrected member |
|---|---|---|---|---|---|---|
| frontend_expo_ios/App.js:23-29 | `goBack` restores only the previous screen, and it neither pops the history nor restores parameters | HortaList → navigate HortaDetalhe {horta} → navigate HortalicaDetalhe {cultivoDetalhado} → goBack: HortaDetalhe is shown without `horta`; a second goBack stays on HortaDetalhe | going back restores the screen below together with its own parameters, and repeated back steps walk back to the list | not executed | Navigation.OneLevelHistory | Navigation.StackBackUndoesNavigate |
