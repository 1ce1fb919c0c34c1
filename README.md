# Weekly collections reporting: a verified model of its record-processing rules

The repository feeds a weekly report on collections for a telecom campaign.
It takes assignments, current debts, contacts (`gestiones`) and payments out of a
data warehouse. It works out which debts can be managed, marks units (`cod_luna`)
assigned more than once, and credits each payment to the contact that earned it.
It also aggregates contacts, portfolios (`carteras`) and agents for an Excel/PowerPoint report.
A setup script reads a `.env` file and chooses the server settings.

This Dafny project models those rules and proves what they promise:

- **Universe** (`create_universo_gestionable`, `resolve_duplicated_cod_lunas`). Two parts:
  - the manageable universe is an inner join of debts with the distinct `(cuenta, cod_luna)` pairs;
  - the duplicate-marking method of an assignment frame class adds the `es_duplicado` column in place.
- **Attribution** (`attribute_payments`). Contacts and payments are joined to units through the
  distinct `(nro_documento, cod_luna)` pairs of the universe. Each joined payment row looks back 30 days over its
  unit's contacts and takes the best one. "Best" means the better outcome first, then the more recent day. If no
  contact qualifies, the row is `SIN_GESTION`. The loop is a method proved equal to a specification function,
  and the properties are lemmas about that function.
- **CorporateAllocation / CorporateReport** (`_process_asignacion_cartera`):
  - clients per portfolio and service, with the `KeyError` of an unknown service as a `Result` that leaves the
    report state unchanged;
  - line sums per zero-padded due day and portfolio.
- **AgentRanking / CorporateReport** (`_process_ranking_agentes`). Per-agent counts over the non-null,
  identified agents, in the `groupby`'s ascending key order. Then a stable descending sort on convertibility, the
  top 20, positions and quartile labels.
- **WeeklyReport** (`TelefonicaReportGenerator`). The per-channel counts, the consolidated CALL + VOICEBOT summary,
  the daily evolution, and the per-type client sums of the active-portfolio slide.
- **EnvSetup** (`setup.py`). The `.env` line parser over lines already read, the configuration table
  of `_load_config`, and the critical-variable check.

**Common** and **Relational** hold shared pieces:

- `drop_duplicates` keeping the first copy of each row;
- the code-point order of strings, with sorted insertion modelling `groupby`'s key order;
- a nested-loop inner join with its membership and multiplicity laws, modelling `merge(how='inner')`.

How the model represents the data:

- Dates are integer day numbers and amounts are integers.
- A null cell is `Option.None`, and so is a column `row.get` does not find.
- Contacts reach their unit by joining through the document map, as payments do.
- A payment row gives one joined row per distinct unit its document maps to.
- Among candidates equal on outcome and day, the first in joined order is credited, since a pandas multi-key sort is stable.
  The joined order is that of pandas 2.2 and later.

## Model

| member | source | states |
|---|---|---|
| Common.DistinctProjection | main.py:245 | `drop_duplicates` on projected columns: no repeats, and exactly the projected values of the rows |
| Common.DistinctFirstSeen | main.py:245 | `drop_duplicates` keeps first occurrences in order: of two kept values, the earlier one occurs in the input before the later one first does |
| Common.SortedKeys | report_generator_corporate.py:384 | group keys come out strictly ascending and are exactly the keys present |
| Common.SortedInts | report_generator.py:212-224 | the dates of the daily groups are strictly increasing and are exactly the dates present |
| Relational.JoinMember | main.py:248-253 | a pair is in an inner join iff its left row and right row are present with equal keys |
| Relational.JoinMultiplicity | main.py:248-253 | a pair occurs in the join (copies of the left row) × (copies of the right row) times when the keys match, else never |
| Relational.JoinLength | main.py:248-253 | the join's length is the number of left-right pairs with matching keys |
| Relational.UnmatchedDropped | main.py:248-253 | a left row whose key matches no right row produces no joined row |
| Universe.UniversoMember | main.py:245-253 | a universe row is a debt with an assignment link of the same account; debts of unassigned accounts are dropped |
| Universe.UniversoMultiplicity | main.py:245-253 | one universe row per copy of a debt row and per distinct matching `(cuenta, cod_luna)` pair |
| Universe.DuplicatedMask | main.py:227 | `keep=False`: entry i is true iff another position holds the same `cod_luna` |
| Universe.AssignmentFrame.ResolveDuplicatedCodLunas | main.py:219-237 | adds `es_duplicado`, true exactly on rows whose `cod_luna` another row shares; the rows stay as they were |
| Attribution.LabelsAscending | main.py:306-309 | `CONTACTO_EFECTIVO` < `CONTACTO_NO_EFECTIVO` < `NO_CONTACTO` in string order |
| Attribution.RankMatchesLabelOrder | main.py:306-309 | the explicit rank table orders outcomes exactly as sorting the labels ascending does |
| Attribution.Candidates | main.py:298-302 | the candidates are exactly the contacts of the same unit dated in `[fecha_pago - 30, fecha_pago]` |
| Attribution.BestIndex | main.py:306-311 | the row `iloc[0]` takes: no candidate sorts before it, and every earlier candidate sorts after it |
| Attribution.AttributeOne | main.py:296-336 | the loop body yields the record of one joined payment row |
| Attribution.AttributeEach | main.py:294-336 | the loop over joined payment rows appends one record per row, in order |
| Attribution.AttributePayments | main.py:265-338 | the method returns exactly the specified attribution table |
| Attribution.GestionesWithLunaMember | main.py:275-284 | a joined contact carries a universe unit of its own document |
| Attribution.PagosWithLunaMember | main.py:275-291 | a joined payment carries a universe unit of its own document |
| Attribution.CandidatesAreQualifying | main.py:298-302 | the candidates of a joined payment are exactly the qualifying contacts of its unit |
| Attribution.EmptyInputsGiveNoRecords | main.py:271-272 | no contacts or no payments gives an empty result |
| Attribution.OneRecordPerMappedPayment | main.py:286-291 | a payment row is joined once per distinct unit its document maps to, and not at all if unmapped |
| Attribution.RecordsFollowJoinedPayments | main.py:313-317 | record k copies document, unit, payment day and amount from joined payment row k |
| Attribution.RecordsComeFromMappedPayments | main.py:286-296 | every record's `(nro_documento, cod_luna)` is a pair of the universe |
| Attribution.UnmappedPaymentsDropped | main.py:286-291 | a document no universe row carries gets no record |
| Attribution.AttributeFacts | main.py:298-336 | the record is `SIN_GESTION` iff no contact qualifies. Otherwise: `0 <= dias_desde_gestion <= 30`; the credited fields are those of a qualifying contact; no qualifying contact has a better outcome, or the same outcome on a later day. |
| Attribution.AttributedContactIsBest | main.py:298-336 | the same facts for every record of the result, and `SIN_GESTION` exactly when there is no contact |
| Attribution.OutcomeBeforeRecency | main.py:306-311 | an effective contact 10 days back beats a no-contact 5 days back |
| Attribution.RecencyBreaksTies | main.py:306-311 | between contacts of equal outcome the more recent is credited |
| Attribution.WindowBoundary | main.py:301 | a contact exactly 30 days back qualifies, one 31 days back does not, and one after the payment does not |
| Attribution.OtherUnitNotCredited | main.py:300 | a contact of another unit on the same document is not credited |
| Attribution.SharedDocumentCountedPerUnit | main.py:275-291 | a document of two units yields two records for one payment |
| CorporateAllocation.ZFill | report_generator_corporate.py:171 | the padded key has length max(len, width) |
| CorporateAllocation.VencimientoKeyRoundTrip | report_generator_corporate.py:171 | a due-day key has at least two characters, is an integer literal, and reads back as the due day |
| CorporateAllocation.VencimientoKeyInjective | report_generator_corporate.py:171-176 | distinct due days never share a key |
| CorporateAllocation.SummarizeFailsIffUnknownService | report_generator_corporate.py:161-165 | the accumulation fails with KeyError iff some row's service is not `FIJA`, `MOVIL` or `total` |
| CorporateAllocation.AddAssignmentEntry | report_generator_corporate.py:161-165 | one row adds its clients to its portfolio's service and total, and to no other portfolio |
| CorporateAllocation.SummarizeSums | report_generator_corporate.py:156-165 | the portfolios present are those of the rows; FIJA and MOVIL are their rows' client sums; total is the portfolio's clients, plus the clients again for rows whose service is `total`. |
| CorporateAllocation.TotalIsFijaPlusMovil | report_generator_corporate.py:161-165 | with only FIJA/MOVIL rows the accumulation succeeds and each total is FIJA + MOVIL and the portfolio's clients |
| CorporateAllocation.FijaMovilPartition | report_generator_corporate.py:161-165 | with only FIJA/MOVIL rows a portfolio's clients split into its FIJA and MOVIL sums |
| CorporateAllocation.KeyErrorPersists | report_generator_corporate.py:164 | once a prefix raises KeyError, the whole accumulation raises the same KeyError |
| CorporateAllocation.SummarizeAssignment | report_generator_corporate.py:154-165 | the first loop computes the specified summary or its KeyError, and on success the portfolios in the order they entered the dict |
| CorporateAllocation.SummaryKeyOrder | report_generator_corporate.py:156-162 | the summary's key order lists its portfolios without repeats, exactly the summary's keys, each listed portfolio first occurring in the rows before the ones after it |
| CorporateAllocation.ByVencimientoKeys | report_generator_corporate.py:169-181 | the due-day keys present are exactly those of the calendar rows |
| CorporateAllocation.ByVencimientoCells | report_generator_corporate.py:175-181 | the `[key][cartera]` cells present are exactly the pairs of the calendar rows |
| CorporateAllocation.ByVencimientoCellSum | report_generator_corporate.py:169-181 | each cell is the sum of `suma_lineas` over the rows of that key and portfolio |
| CorporateAllocation.AddCalendarRow | report_generator_corporate.py:170-181 | the second loop's body adds one row to its cell |
| CorporateAllocation.SummarizeCalendar | report_generator_corporate.py:168-181 | the second loop computes the specified by-due-day table, and its due-day keys in the order they entered the dict |
| CorporateAllocation.DueDayKeyOrder | report_generator_corporate.py:169-176 | the table's key order lists its due-day keys without repeats, exactly the table's keys, each listed key first occurring in the rows before the ones after it |
| CorporateReport.CorporateReport.constructor | report_generator_corporate.py:87-106 | the month names are the given ones and both slots start empty |
| CorporateReport.CorporateReport.ProcessAsignacionCartera | report_generator_corporate.py:148-190 | empty input: the allocation slot is unchanged; unknown service: KeyError, with the allocation slot unchanged; otherwise the slot holds the summary and its portfolio order, the by-due-day table and its key order, and the months; the ranking slot is untouched in every case. |
| CorporateReport.CorporateReport.ProcessRankingAgentes | report_generator_corporate.py:377-433 | empty table: ranking slot unchanged; otherwise it holds the specified top-20 ranking; allocation slot untouched |
| AgentRanking.Percent | report_generator_corporate.py:403-404 | basis points of num/den rounded half up, 0 when the divisor is 0 |
| AgentRanking.PercentBounded | report_generator_corporate.py:403 | a ratio of at most 1 is between 0 and 100.00 % |
| AgentRanking.Groups | report_generator_corporate.py:384 | groups are the non-null agent values, strictly ascending |
| AgentRanking.CollectMember | report_generator_corporate.py:393-414 | an entry is collected iff its agent is a group, is eligible, and the entry is that agent's stats |
| AgentRanking.CollectNoDup | report_generator_corporate.py:393-414 | no entry is collected twice from distinct groups |
| AgentRanking.CountBounded | report_generator_corporate.py:398-400 | each filtered count is at most the agent's contact count |
| AgentRanking.CountSplit | report_generator_corporate.py:398-399 | effective plus non-effective contacts are at most the agent's contacts |
| AgentRanking.InsertDesc | report_generator_corporate.py:417 | insertion adds exactly the new entry |
| AgentRanking.InsertDescSorted | report_generator_corporate.py:417 | insertion into a descending list keeps it descending |
| AgentRanking.SortDescSorted | report_generator_corporate.py:417 | the sort result is non-increasing in convertibility |
| AgentRanking.SortDescPermutes | report_generator_corporate.py:417 | the sort result is a permutation of its input |
| AgentRanking.SortDescStable | report_generator_corporate.py:417 | entries of equal convertibility keep their input order |
| AgentRanking.Top | report_generator_corporate.py:420 | `ranking[:20]` has min(n, 20) entries |
| AgentRanking.RankingQuartiles | report_generator_corporate.py:420-433 | at most 20 entries, ranked 1, 2, … in order. Quartile q holds exactly positions 5q to 5q+4, so a full ranking has five entries per label. An entry of a better quartile has at least the convertibility of every entry of a worse one. |
| AgentRanking.RankingEntries | report_generator_corporate.py:393-433 | every entry is the stats of an eligible agent present in the table; no agent appears twice; the entries are non-increasing in convertibility. |
| AgentRanking.RankingIsTop | report_generator_corporate.py:417-433 | an eligible agent left out of the ranking is outranked by all of a full top 20 |
| AgentRanking.RankingStable | report_generator_corporate.py:384-417 | ties keep the groups' ascending agent order |
| AgentRanking.RankedStatsBounds | report_generator_corporate.py:397-403 | `cef + nef <= gestiones` and convertibility lies in `[0, 100.00 %]` |
| AgentRanking.CollectStats | report_generator_corporate.py:393-414 | the loop over groups builds the specified list |
| AgentRanking.AssignRanks | report_generator_corporate.py:420-433 | the numbering loop builds the specified ranked top 20 |
| AgentRanking.BuildRanking | report_generator_corporate.py:383-433 | the whole computation yields the specified ranking |
| WeeklyReport.GuardedRate | report_generator.py:178-179 | the divisor of every rate is `max(x, 1)`, never 0 |
| WeeklyReport.OfChannel | report_generator.py:131-132 | the channel's rows are exactly the rows with that `canal` |
| WeeklyReport.Lunas | report_generator.py:170 | the non-null `cod_luna` values of the rows |
| WeeklyReport.LabelCountsBounded | report_generator.py:164-167 | the three outcome counts add up to at most the row count. They add up to exactly the row count when every row has one of the labels. |
| WeeklyReport.ChannelCounts | report_generator.py:147-192 | an empty channel gives the all-zero record; the total is the row count and the outcome counts stay within it; `compromisos` is at most the row count, equal to it when every row is `SI` and 0 when none is; `monto` is 0 without the column or when every cell is null; the rates have divisor at least 1. |
| WeeklyReport.ChannelUniqueUnits | report_generator.py:170 | `clientes_unicos` is the number of distinct non-null units, at most the row count |
| WeeklyReport.ChannelsPartition | report_generator.py:131-132 | CALL rows plus VOICEBOT rows are the rows of either channel, at most all rows |
| WeeklyReport.ConsolidatedFromTable | report_generator.py:312-321 | the consolidated total counts each CALL/VOICEBOT row once. The effective contacts, and the global rate's numerator, never exceed it. |
| WeeklyReport.EvolutionDays | report_generator.py:212-224 | the outer join's days: strictly increasing, exactly the dated days of either channel |
| WeeklyReport.DailyEvolutionDays | report_generator.py:224-240 | one entry per dated CALL/VOICEBOT day, in ascending order |
| WeeklyReport.DailyEvolutionConserves | report_generator.py:208-237 | the outer join loses and double-counts no row. Summed over the evolution, each channel's `gestiones` column is its dated rows with a non-null `cod_luna`, and its contacts column is its dated `CONTACTO_EFECTIVO` rows. Each day's totals are the two channels' sums. |
| WeeklyReport.DayCountsZero | report_generator.py:224 | a channel with no row that day counts 0 |
| WeeklyReport.MissingChannelCountsZero | report_generator.py:224-226 | a missing channel contributes 0, so the day's total is the other channel's |
| WeeklyReport.TypeOrder | report_generator.py:895-902 | the summary's keys: no repeats, exactly the types present |
| WeeklyReport.TypeOrderFirstSeen | report_generator.py:895-904 | the keys are in insertion order: of two listed types, the earlier one occurs in the portfolios before the later one first does |
| WeeklyReport.ActiveCount | report_generator.py:910 | the number of `ACTIVA` portfolios is at most the number of portfolios |
| WeeklyReport.TypeSumsAddUp | report_generator.py:890-902 | the per-type sums add up to the total of clients |
| WeeklyReport.AddCartera | report_generator.py:896-902 | one step of the loop extends the per-type summary by one portfolio |
| WeeklyReport.CarterasSlideConsistent | report_generator.py:890-912 | the slide's per-type lines add up to its total, and its active count is at most its portfolio count |
| WeeklyReport.TelefonicaReport.constructor | report_generator.py:75-83 | the channel and summary slots start empty, the lists start empty |
| WeeklyReport.TelefonicaReport.ProcessGestionesData | report_generator.py:123-145 | empty table: nothing changes; otherwise both channel records and the daily evolution are set |
| WeeklyReport.TelefonicaReport.CalculateDailyEvolution | report_generator.py:194-240 | empty table or no date column: unchanged; otherwise the specified daily evolution |
| WeeklyReport.TelefonicaReport.CalculateConsolidatedMetrics | report_generator.py:306-324 | the summary is CALL plus VOICEBOT, an empty channel entry reading 0 |
| WeeklyReport.TelefonicaReport.CarterasActivasSummary | report_generator.py:890-912 | the slide's total clients; the per-type sums, keyed in insertion order; the active count, which is at most the number of portfolios. |
| EnvSetup.TrimLeft | setup.py:156 | the result is no longer than the input and does not start with a stripped character |
| EnvSetup.TrimRight | setup.py:156 | the result is no longer than the input and does not end with a stripped character |
| EnvSetup.TrimLeftDropsOnlyP | setup.py:156 | left trimming removes a prefix made only of stripped characters |
| EnvSetup.TrimRightDropsOnlyP | setup.py:156 | right trimming removes a suffix made only of stripped characters |
| EnvSetup.Strip | setup.py:156-159 | the result neither starts nor ends with a stripped character |
| EnvSetup.StripKeepsInfix | setup.py:156-159 | the result is a contiguous slice of the input |
| EnvSetup.StripCutsOnly | setup.py:156-159 | everything cut off on either side is a stripped character |
| EnvSetup.StripIdempotent | setup.py:156-159 | stripping twice is stripping once |
| EnvSetup.FirstEq | setup.py:158 | the position of the first `=` |
| EnvSetup.SkippedLines | setup.py:155-159 | blank lines, `#` lines and lines without `=` are exactly the lines that set nothing, and reading one leaves `env_vars` unchanged |
| EnvSetup.ParsedLineShape | setup.py:158-159 | the stripped line is the key, `=`, then the raw value. The key holds no `=`. The value is the raw value with surrounding quotes stripped, so it may itself hold `=`. |
| EnvSetup.ParseLineRoundTrip | setup.py:156-159 | `key=value` is read back as `(key, value)` for any key and value that survive stripping |
| EnvSetup.SpacedAssignmentKeepsSpaces | setup.py:156-159 | the key is not stripped, and an inner quote behind a space survives |
| EnvSetup.FoldKeys | setup.py:159 | a key is in the dict iff some line sets it |
| EnvSetup.FoldLastValue | setup.py:159 | a key's value is the one of the last line that sets it |
| EnvSetup.ReadEnvLastWins | setup.py:150-163 | the same two facts for raw file lines |
| EnvSetup.ParseEnvLine | setup.py:156-159 | the loop body computes one line's contribution |
| EnvSetup.ReadEnvFile | setup.py:150-163 | the reading loop builds the specified dict |
| EnvSetup.LoadConfigTable | setup.py:35-60 | an unknown mode gets the development settings; only production turns reload off; testing uses port 8001 and the others use 8000; workers >= 1. |
| EnvSetup.MissingOf | setup.py:130-132 | the missing variables are exactly those absent or empty |
| EnvSetup.MissingCriticalVars | setup.py:121-132 | the check's loop computes the specified list |
| EnvSetup.MissingCriticalOrder | setup.py:125-132 | the project id is listed before the dataset, each exactly when absent or empty |
| EnvSetup.MissingAfterReading | setup.py:121-132 | a critical variable is reported iff no line sets it or its last setting is empty |

## Left out

- BigQuery queries and their execution (main.py:41-211) are not modelled. Their outputs are the inputs here, with contact outcomes already homologated into an enumeration.
- The FastAPI endpoints, uvicorn startup and `KPICalculator` are not modelled. They are HTTP plumbing and float ratios over pandas grouping.
- Floating-point rates:
  - the weekly report keeps each `round(x / max(y, 1) * 100, 2)` as the exact fraction with its guarded divisor;
  - the agent ranking rounds to basis points, half up, where Python rounds the binary float half to even;
  - `duracion_promedio` (a float mean of durations) is not modelled;
  - the corporate KPI sections that are float percentages are not modelled;
  - the float thresholds that generate recommendations are not modelled.
- All Excel and PowerPoint rendering is not modelled. Of `_create_ppt_carteras_activas`, only the sums its text shows are modelled.
- report_generator_enhanced.py is not part of this model.
- setup.py: pip, subprocess, file copying and writing, the BigQuery probe and `run_setup` are not modelled.
- `_read_env_file`'s file opening is not modelled. Its lines are an input, and a read that fails part-way leaves the dict of the lines before the failure, which is `ReadEnv` of that prefix.
- The test scripts and all logging are not modelled.
- Month names default from `fecha_fin` by date formatting. That formatting is not modelled, and the months are inputs of the corporate report constructor.
- Dates are day numbers: `pd.to_datetime`, the `'%Y-%m-%d'` formatting of evolution days and `timedelta` are integer arithmetic here. The side effect of adding a `fecha` column to the caller's frame is not modelled.
- The exception handlers of the daily evolution and of the consolidated metrics are not modelled, because no modelled input raises there.
- Python dicts keep insertion order. The model keeps that order as an explicit key sequence wherever a slide lists the keys: the active-portfolio types, the portfolios of `resumen_cartera` and the due-day keys of `por_vencimiento` (listed at report_generator_corporate.py:542 and :555). The per-portfolio dicts inside `por_vencimiento` and `env_vars` are unordered maps: the slide only sums the former's values, and the configuration only looks keys up in the latter.
- The ranking's in-place `list.sort` and the per-dict updates of `ranking` and `cuartil` are modelled on sequence values, not on shared mutable dicts.
- A pandas NaN cell read through `row.get` stays NaN in the source; only a missing column takes the default. The model represents missing columns as `None` and has no NaN values.
- `vencimiento` is taken as an integer column. A float column would print as `5.0` before padding, and that case is not modelled.
- `_process_calendario_data` (report_generator.py:246-275), which fills `carteras_activas`, is not modelled, so `carteras_activas` is an input field of the weekly report.
- CorporateAllocation.SummarizeAssignment: exceptions other than the KeyError of an unknown service are not modelled: the TypeError of a non-numeric client count at the `+=` of report_generator_corporate.py:164-165, and the `KeyError(nan)` of a NaN `servicio` at :164, since the model has no NaN. A missing column never raises there, because `row.get` supplies its default.
- Input frames are records with fixed fields, so each frame is assumed to carry every column the warehouse queries produce. The model never reproduces the `KeyError` of indexing a column that is absent, such as the `groupby('ejecutivo_homologado').agg(...)` at report_generator_corporate.py:384-390 or `df['canal']` at report_generator.py:131-132 and :208-209.
- AgentRanking.Percent: rounding follows exact half-up on the rational value, not Python's binary-float `round`, so results can differ at exact halves.
- Attribution.BestIndex: the order among candidates equal on outcome and day is fixed as "first in joined order", which matches pandas' stable multi-key sort of the joined frame.
- Relational.JoinMember: the joined order (every left row in order, each followed by its matching right rows) is that of `merge(how='inner')` in pandas 2.2 and later. Earlier pandas groups the output by key, in order of first appearance, and can then credit a different one of two fully tied contacts. That older order is not modelled.
