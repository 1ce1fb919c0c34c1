/** The counting behind the weekly Telefónica report (`TelefonicaReportGenerator`):
    per-channel metrics, the consolidated summary, the daily evolution and the
    per-type summary of active portfolios. */
module WeeklyReport {
  import opened Common

  const CallChannel: string := "CALL"
  const VoicebotChannel: string := "VOICEBOT"
  const ActiveState: string := "ACTIVA"

  /** A contact row as the report reads it; `None` is a null cell. The day number
      stands for the `date` column. */
  datatype WeeklyGestion = WeeklyGestion(canal: Option<string>, contactabilidad: Option<string>, esPdp: Option<string>,
                                         montoCompromiso: Option<int>, codLuna: Option<string>, date: Option<int>)

  /** A contact table: its rows and whether the optional columns exist. */
  datatype GestionFrame = GestionFrame(rows: seq<WeeklyGestion>, hasMontoColumn: bool, hasDateColumn: bool)

  /** `round(num / max(den, 1) * 100, 2)` kept as the exact fraction `num / den`,
      with the divisor already guarded. */
  datatype Rate = Rate(num: int, den: int)

  function GuardedRate(num: int, den: int): (r: Rate)
    ensures r.den >= 1 && r.num == num
    ensures den >= 1 ==> r.den == den
  {
    Rate(num, if den > 1 then den else 1)
  }

  /** The dict `_calculate_channel_metrics` returns. */
  datatype ChannelMetrics = ChannelMetrics(totalGestiones: nat, contactosEfectivos: nat, contactosNoEfectivos: nat,
                                           noContactos: nat, compromisos: nat, montoCompromisos: int,
                                           clientesUnicos: nat, tasaContactabilidad: Rate, tasaCompromiso: Rate)

  // ---------------------------------------------------------------------------
  // Counting
  // ---------------------------------------------------------------------------

  /** `df[df['canal'] == name]`. */
  function OfChannel(rows: seq<WeeklyGestion>, name: string): (r: seq<WeeklyGestion>)
    ensures forall g :: g in r <==> g in rows && g.canal == Some(name)
  {
    if rows == [] then []
    else
      assert rows == [rows[0]] + rows[1..];
      (if rows[0].canal == Some(name) then [rows[0]] else []) + OfChannel(rows[1..], name)
  }

  /** `len(df[df['contactabilidad'] == outcome])`. */
  function CountLabel(rows: seq<WeeklyGestion>, outcome: string): (n: nat)
    ensures n <= |rows|
  {
    if rows == [] then 0 else (if rows[0].contactabilidad == Some(outcome) then 1 else 0) + CountLabel(rows[1..], outcome)
  }

  /** `len(df[df['es_pdp'] == 'SI'])`. */
  function CountPdp(rows: seq<WeeklyGestion>): (n: nat)
    ensures n <= |rows|
  {
    if rows == [] then 0 else (if rows[0].esPdp == Some(PdpYes) then 1 else 0) + CountPdp(rows[1..])
  }

  /** `df['monto_compromiso'].sum()`, skipping null cells. */
  function MontoSum(rows: seq<WeeklyGestion>): int {
    if rows == [] then 0 else rows[0].montoCompromiso.GetOr(0) + MontoSum(rows[1..])
  }

  /** The non-null `cod_luna` cells, in order. */
  function Lunas(rows: seq<WeeklyGestion>): (l: seq<string>)
    ensures |l| <= |rows|
    ensures forall u :: u in l <==> exists i :: 0 <= i < |rows| && rows[i].codLuna == Some(u)
  {
    if rows == [] then []
    else
      assert forall i :: 1 <= i < |rows| ==> rows[i] == rows[1..][i - 1];
      (if rows[0].codLuna.Some? then [rows[0].codLuna.value] else []) + Lunas(rows[1..])
  }

  /** `df['cod_luna'].nunique()`: distinct non-null values. */
  function NUnique(rows: seq<WeeklyGestion>): nat {
    |Distinct(Lunas(rows))|
  }

  /** `_calculate_channel_metrics` on the rows of one channel. */
  function ChannelMetricsOf(channel: seq<WeeklyGestion>, hasMontoColumn: bool): ChannelMetrics {
    if channel == [] then ChannelMetrics(0, 0, 0, 0, 0, 0, 0, Rate(0, 1), Rate(0, 1))
    else
      var total := |channel|;
      var cef := CountLabel(channel, EfectivoLabel);
      var pdp := CountPdp(channel);
      ChannelMetrics(total, cef, CountLabel(channel, NoEfectivoLabel), CountLabel(channel, NoContactoLabel), pdp,
                     if hasMontoColumn then MontoSum(channel) else 0, NUnique(channel),
                     GuardedRate(cef, total), GuardedRate(pdp, cef))
  }

  predicate HasKnownLabel(g: WeeklyGestion) {
    g.contactabilidad == Some(EfectivoLabel) || g.contactabilidad == Some(NoEfectivoLabel)
    || g.contactabilidad == Some(NoContactoLabel)
  }

  // ---------------------------------------------------------------------------
  // Properties of the channel metrics
  // ---------------------------------------------------------------------------

  lemma {:induction false} LabelCountsBounded(rows: seq<WeeklyGestion>)
    ensures CountLabel(rows, EfectivoLabel) + CountLabel(rows, NoEfectivoLabel) + CountLabel(rows, NoContactoLabel) <= |rows|
    ensures (forall i :: 0 <= i < |rows| ==> HasKnownLabel(rows[i])) ==>
              CountLabel(rows, EfectivoLabel) + CountLabel(rows, NoEfectivoLabel) + CountLabel(rows, NoContactoLabel) == |rows|
  {
    if rows != [] {
      LabelCountsBounded(rows[1..]);
      assert forall i :: 1 <= i < |rows| ==> rows[i] == rows[1..][i - 1];
    }
  }

  /** A distinct-value list is as long as the set of its values. */
  lemma {:induction false} NoDupCardinality<T>(s: seq<T>)
    requires NoDup(s)
    ensures |Elems(s)| == |s|
  {
    if s != [] {
      assert NoDup(s[1..]) by {
        forall i, j | 0 <= i < j < |s[1..]| ensures s[1..][i] != s[1..][j] {
          assert s[1..][i] == s[i + 1] && s[1..][j] == s[j + 1];
        }
      }
      NoDupCardinality(s[1..]);
      ElemsSplit(s);
      assert s[0] !in Elems(s[1..]) by {
        forall k | 0 <= k < |s[1..]| ensures s[1..][k] != s[0] {
          assert s[1..][k] == s[k + 1];
        }
      }
    }
  }

  lemma {:induction false} ElemsCardinality<T>(s: seq<T>)
    ensures |Elems(s)| <= |s|
  {
    if s != [] {
      ElemsCardinality(s[1..]);
      ElemsSplit(s);
    }
  }

  /** The counts of one channel: all zero for an empty channel; otherwise the three
      outcome counts add up to at most the row count (exactly, when every row carries
      one of them); commitments are at most the rows, all of them when every row is
      'SI' and none when no row is; the amount is 0 without the column or when every
      cell is null; both rates have a positive divisor. */
  lemma ChannelCounts(channel: seq<WeeklyGestion>, hasMontoColumn: bool)
    ensures var m := ChannelMetricsOf(channel, hasMontoColumn);
      && (channel == [] ==> m == ChannelMetrics(0, 0, 0, 0, 0, 0, 0, Rate(0, 1), Rate(0, 1)))
      && m.totalGestiones == |channel|
      && m.contactosEfectivos + m.contactosNoEfectivos + m.noContactos <= m.totalGestiones
      && ((forall i :: 0 <= i < |channel| ==> HasKnownLabel(channel[i])) ==>
            m.contactosEfectivos + m.contactosNoEfectivos + m.noContactos == m.totalGestiones)
      && m.compromisos <= m.totalGestiones
      && ((forall i :: 0 <= i < |channel| ==> channel[i].esPdp == Some(PdpYes)) ==> m.compromisos == m.totalGestiones)
      && ((forall i :: 0 <= i < |channel| ==> channel[i].esPdp != Some(PdpYes)) ==> m.compromisos == 0)
      && ((!hasMontoColumn || forall i :: 0 <= i < |channel| ==> channel[i].montoCompromiso.None?) ==> m.montoCompromisos == 0)
      && 1 <= m.tasaContactabilidad.den && 0 <= m.tasaContactabilidad.num <= m.tasaContactabilidad.den
      && 1 <= m.tasaCompromiso.den && 0 <= m.tasaCompromiso.num
  {
    LabelCountsBounded(channel);
    PdpExtremes(channel);
    MontoAllNull(channel);
  }

  /** All 'SI' rows count fully, and no 'SI' row counts nothing. */
  lemma {:induction false} PdpExtremes(rows: seq<WeeklyGestion>)
    ensures (forall i :: 0 <= i < |rows| ==> rows[i].esPdp == Some(PdpYes)) ==> CountPdp(rows) == |rows|
    ensures (forall i :: 0 <= i < |rows| ==> rows[i].esPdp != Some(PdpYes)) ==> CountPdp(rows) == 0
  {
    if rows != [] {
      PdpExtremes(rows[1..]);
      assert forall i :: 0 <= i < |rows[1..]| ==> rows[1..][i] == rows[i + 1];
    }
  }

  /** A column of null amounts sums to 0. */
  lemma {:induction false} MontoAllNull(rows: seq<WeeklyGestion>)
    ensures (forall i :: 0 <= i < |rows| ==> rows[i].montoCompromiso.None?) ==> MontoSum(rows) == 0
  {
    if rows != [] {
      MontoAllNull(rows[1..]);
      assert forall i :: 0 <= i < |rows[1..]| ==> rows[1..][i] == rows[i + 1];
    }
  }

  /** `clientes_unicos` is the number of distinct non-null units, at most the row count. */
  lemma ChannelUniqueUnits(channel: seq<WeeklyGestion>, hasMontoColumn: bool)
    ensures ChannelMetricsOf(channel, hasMontoColumn).clientesUnicos == |Elems(Lunas(channel))|
    ensures ChannelMetricsOf(channel, hasMontoColumn).clientesUnicos <= |channel|
  {
    var l := Lunas(channel);
    NoDupCardinality(Distinct(l));
    ElemsCardinality(l);
  }

  // ---------------------------------------------------------------------------
  // Consolidated summary
  // ---------------------------------------------------------------------------

  /** `self.data['resumen_ejecutivo']`. */
  datatype ExecutiveSummary = ExecutiveSummary(totalGestiones: int, totalContactosEfectivos: int, totalCompromisos: int,
                                               tasaContactabilidadGlobal: Rate, tasaCompromisoGlobal: Rate,
                                               montoCompromisosCall: int, clientesUnicosTotal: int)

  /** A channel entry still the empty dict reads 0 through `.get(key, 0)`. */
  function Gestiones(m: Option<ChannelMetrics>): int { if m.Some? then m.value.totalGestiones else 0 }
  function Efectivos(m: Option<ChannelMetrics>): int { if m.Some? then m.value.contactosEfectivos else 0 }
  function Compromisos(m: Option<ChannelMetrics>): int { if m.Some? then m.value.compromisos else 0 }
  function MontoCompromisos(m: Option<ChannelMetrics>): int { if m.Some? then m.value.montoCompromisos else 0 }
  function ClientesUnicos(m: Option<ChannelMetrics>): int { if m.Some? then m.value.clientesUnicos else 0 }

  function Consolidated(call: Option<ChannelMetrics>, voicebot: Option<ChannelMetrics>): ExecutiveSummary {
    var g := Gestiones(call) + Gestiones(voicebot);
    var c := Efectivos(call) + Efectivos(voicebot);
    var p := Compromisos(call) + Compromisos(voicebot);
    ExecutiveSummary(g, c, p, GuardedRate(c, g), GuardedRate(p, c), MontoCompromisos(call),
                     ClientesUnicos(call) + ClientesUnicos(voicebot))
  }

  /** Rows on either channel. */
  function CallOrVoicebot(rows: seq<WeeklyGestion>): nat {
    if rows == [] then 0
    else (if rows[0].canal == Some(CallChannel) || rows[0].canal == Some(VoicebotChannel) then 1 else 0) + CallOrVoicebot(rows[1..])
  }

  lemma {:induction false} ChannelsPartition(rows: seq<WeeklyGestion>)
    ensures |OfChannel(rows, CallChannel)| + |OfChannel(rows, VoicebotChannel)| == CallOrVoicebot(rows) <= |rows|
  {
    if rows != [] {
      ChannelsPartition(rows[1..]);
    }
  }

  /** Built from one contact table, the summary counts every CALL and VOICEBOT row once,
      and its effective contacts are among them. */
  lemma ConsolidatedFromTable(gestiones: GestionFrame)
    ensures var call := ChannelMetricsOf(OfChannel(gestiones.rows, CallChannel), gestiones.hasMontoColumn);
            var voicebot := ChannelMetricsOf(OfChannel(gestiones.rows, VoicebotChannel), gestiones.hasMontoColumn);
            var r := Consolidated(Some(call), Some(voicebot));
            r.totalGestiones == CallOrVoicebot(gestiones.rows) <= |gestiones.rows|
            && 0 <= r.totalContactosEfectivos <= r.totalGestiones
            && r.tasaContactabilidadGlobal.num <= r.tasaContactabilidadGlobal.den
  {
    ChannelsPartition(gestiones.rows);
  }

  // ---------------------------------------------------------------------------
  // Daily evolution
  // ---------------------------------------------------------------------------

  /** One `evolucion_diaria` entry; the day stands for the formatted date. */
  datatype DayEntry = DayEntry(fecha: int, callGestiones: nat, callContactos: nat, voicebotGestiones: nat,
                               voicebotContactos: nat, totalGestiones: nat, totalContactos: nat, tasaContactabilidad: Rate)

  /** The days with a dated row on `channel`. */
  function ChannelDates(rows: seq<WeeklyGestion>, channel: string): (d: seq<int>)
    ensures forall x :: x in d <==> exists i :: 0 <= i < |rows| && rows[i].canal == Some(channel) && rows[i].date == Some(x)
  {
    if rows == [] then []
    else
      assert forall i :: 1 <= i < |rows| ==> rows[i] == rows[1..][i - 1];
      (if rows[0].canal == Some(channel) && rows[0].date.Some? then [rows[0].date.value] else []) + ChannelDates(rows[1..], channel)
  }

  /** Whether a row of `channel` enters a daily count: for `gestiones` (`effective` false)
      a non-null `cod_luna` (`'cod_luna': 'count'`), for effective contacts (`effective`
      true) the outcome CONTACTO_EFECTIVO. */
  predicate Tallied(g: WeeklyGestion, channel: string, effective: bool) {
    g.canal == Some(channel) && (if effective then g.contactabilidad == Some(EfectivoLabel) else g.codLuna.Some?)
  }

  /** The rows of `day` that a daily count of `channel` tallies. */
  function DayCount(rows: seq<WeeklyGestion>, channel: string, day: int, effective: bool): nat {
    if rows == [] then 0
    else (if Tallied(rows[0], channel, effective) && rows[0].date == Some(day) then 1 else 0)
           + DayCount(rows[1..], channel, day, effective)
  }

  /** `groupby('fecha').agg({'cod_luna': 'count'})` on one channel: rows of that day
      whose `cod_luna` is not null. */
  function DayGestiones(rows: seq<WeeklyGestion>, channel: string, day: int): nat {
    DayCount(rows, channel, day, false)
  }

  /** Rows of that day and channel whose outcome is CONTACTO_EFECTIVO. */
  function DayContactos(rows: seq<WeeklyGestion>, channel: string, day: int): nat {
    DayCount(rows, channel, day, true)
  }

  /** The entry of one day, absent channels filled with 0 (`join(how='outer').fillna(0)`). */
  function Day(rows: seq<WeeklyGestion>, day: int): DayEntry {
    var cg, cc := DayGestiones(rows, CallChannel, day), DayContactos(rows, CallChannel, day);
    var vg, vc := DayGestiones(rows, VoicebotChannel, day), DayContactos(rows, VoicebotChannel, day);
    DayEntry(day, cg, cc, vg, vc, cg + vg, cc + vc, GuardedRate(cc + vc, cg + vg))
  }

  lemma {:induction false} DayCountsZero(rows: seq<WeeklyGestion>, channel: string, day: int)
    requires forall i :: 0 <= i < |rows| ==> !(rows[i].canal == Some(channel) && rows[i].date == Some(day))
    ensures DayGestiones(rows, channel, day) == 0 && DayContactos(rows, channel, day) == 0
  {
    DayCountZero(rows, channel, day, false);
    DayCountZero(rows, channel, day, true);
  }

  lemma {:induction false} DayCountZero(rows: seq<WeeklyGestion>, channel: string, day: int, effective: bool)
    requires forall i :: 0 <= i < |rows| ==> !(rows[i].canal == Some(channel) && rows[i].date == Some(day))
    ensures DayCount(rows, channel, day, effective) == 0
  {
    if rows != [] {
      assert forall i :: 1 <= i < |rows| ==> rows[i] == rows[1..][i - 1];
      DayCountZero(rows[1..], channel, day, effective);
    }
  }

  /** The days of the evolution, ascending and without repeats. */
  function EvolutionDays(rows: seq<WeeklyGestion>): (days: seq<int>)
    ensures Increasing(days)
    ensures forall day :: day in days <==>
              exists i :: 0 <= i < |rows| && rows[i].date == Some(day)
                          && (rows[i].canal == Some(CallChannel) || rows[i].canal == Some(VoicebotChannel))
  {
    var call, voicebot := ChannelDates(rows, CallChannel), ChannelDates(rows, VoicebotChannel);
    var days := SortedInts(call + voicebot);
    assert forall day :: day in days <==> day in call + voicebot by {
      forall day ensures day in days <==> day in call + voicebot {
        assert day in days <==> day in Elems(days);
      }
    }
    assert forall day :: day in call + voicebot <==> day in call || day in voicebot;
    assert forall i :: 0 <= i < |rows| && rows[i].date.Some? && rows[i].canal == Some(CallChannel) ==> rows[i].date.value in call;
    assert forall i :: 0 <= i < |rows| && rows[i].date.Some? && rows[i].canal == Some(VoicebotChannel) ==> rows[i].date.value in voicebot;
    days
  }

  /** The entries of the given days, in their order. */
  function Entries(rows: seq<WeeklyGestion>, days: seq<int>): seq<DayEntry> {
    seq(|days|, k requires 0 <= k < |days| => Day(rows, days[k]))
  }

  /** The list stored in `evolucion_diaria`: one entry per day of either channel, ascending. */
  function DailyEvolution(rows: seq<WeeklyGestion>): seq<DayEntry> {
    Entries(rows, EvolutionDays(rows))
  }

  /** The daily evolution lists each day that has a dated CALL or VOICEBOT row exactly
      once, in ascending order. */
  lemma DailyEvolutionDays(rows: seq<WeeklyGestion>)
    ensures var e := DailyEvolution(rows);
      && (forall i, j :: 0 <= i < j < |e| ==> e[i].fecha < e[j].fecha)
      && (forall day :: (exists k :: 0 <= k < |e| && e[k].fecha == day) <==>
            exists i :: 0 <= i < |rows| && rows[i].date == Some(day)
                        && (rows[i].canal == Some(CallChannel) || rows[i].canal == Some(VoicebotChannel)))
  {
    var days := EvolutionDays(rows);
    var e := DailyEvolution(rows);
    forall day ensures (exists k :: 0 <= k < |e| && e[k].fecha == day) <==> day in days {
      if day in days {
        var k :| 0 <= k < |days| && days[k] == day;
        assert e[k].fecha == day;
      }
    }
  }

  /** The four per-channel columns of the evolution. */
  datatype Column = CallGestiones | CallContactos | VoicebotGestiones | VoicebotContactos

  function ColumnChannel(c: Column): string {
    if c == CallGestiones || c == CallContactos then CallChannel else VoicebotChannel
  }

  function ColumnEffective(c: Column): bool {
    c == CallContactos || c == VoicebotContactos
  }

  function ColumnOf(e: DayEntry, c: Column): nat {
    match c
    case CallGestiones => e.callGestiones
    case CallContactos => e.callContactos
    case VoicebotGestiones => e.voicebotGestiones
    case VoicebotContactos => e.voicebotContactos
  }

  /** A column summed over the whole evolution. */
  function ColumnTotal(es: seq<DayEntry>, c: Column): nat {
    if es == [] then 0 else ColumnOf(es[0], c) + ColumnTotal(es[1..], c)
  }

  /** The dated rows of `channel` that its daily count tallies, over all days. */
  function DatedCount(rows: seq<WeeklyGestion>, channel: string, effective: bool): nat {
    if rows == [] then 0
    else (if Tallied(rows[0], channel, effective) && rows[0].date.Some? then 1 else 0)
           + DatedCount(rows[1..], channel, effective)
  }

  /** A daily count summed over a list of days. */
  function SumOverDays(rows: seq<WeeklyGestion>, channel: string, effective: bool, days: seq<int>): nat {
    if days == [] then 0 else DayCount(rows, channel, days[0], effective) + SumOverDays(rows, channel, effective, days[1..])
  }

  /** How many of the days one row is tallied on. */
  function Hits(g: WeeklyGestion, channel: string, effective: bool, days: seq<int>): nat {
    if days == [] then 0
    else (if Tallied(g, channel, effective) && g.date == Some(days[0]) then 1 else 0) + Hits(g, channel, effective, days[1..])
  }

  /** Over distinct days, a row is tallied once if its day is among them, else never. */
  lemma {:induction false} HitsOnce(g: WeeklyGestion, channel: string, effective: bool, days: seq<int>)
    requires Increasing(days)
    ensures Hits(g, channel, effective, days)
            == if Tallied(g, channel, effective) && g.date.Some? && g.date.value in days then 1 else 0
  {
    if days != [] {
      assert Increasing(days[1..]) by {
        forall i, j | 0 <= i < j < |days[1..]| ensures days[1..][i] < days[1..][j] {
          assert days[1..][i] == days[i + 1] && days[1..][j] == days[j + 1];
        }
      }
      HitsOnce(g, channel, effective, days[1..]);
      assert days[0] !in days[1..] by {
        forall k | 0 <= k < |days[1..]| ensures days[1..][k] != days[0] {
          assert days[1..][k] == days[k + 1];
        }
      }
      assert days == [days[0]] + days[1..];
    }
  }

  /** Summing over the days splits off the first row. */
  lemma {:induction false} SumOverDaysSplit(rows: seq<WeeklyGestion>, channel: string, effective: bool, days: seq<int>)
    requires rows != []
    ensures SumOverDays(rows, channel, effective, days)
            == Hits(rows[0], channel, effective, days) + SumOverDays(rows[1..], channel, effective, days)
  {
    if days != [] {
      SumOverDaysSplit(rows, channel, effective, days[1..]);
    }
  }

  /** Over distinct days that cover every tallied dated row, the daily counts add up to
      the tallied dated rows: none is lost and none is counted twice. */
  lemma {:induction false} SumOverDaysConserves(rows: seq<WeeklyGestion>, channel: string, effective: bool, days: seq<int>)
    requires Increasing(days)
    requires forall i :: 0 <= i < |rows| && Tallied(rows[i], channel, effective) && rows[i].date.Some? ==>
               rows[i].date.value in days
    ensures SumOverDays(rows, channel, effective, days) == DatedCount(rows, channel, effective)
  {
    if rows == [] {
      SumOverDaysEmpty(channel, effective, days);
    } else {
      assert forall i :: 1 <= i < |rows| ==> rows[i] == rows[1..][i - 1];
      SumOverDaysSplit(rows, channel, effective, days);
      HitsOnce(rows[0], channel, effective, days);
      SumOverDaysConserves(rows[1..], channel, effective, days);
    }
  }

  lemma {:induction false} SumOverDaysEmpty(channel: string, effective: bool, days: seq<int>)
    ensures SumOverDays([], channel, effective, days) == 0
  {
    if days != [] {
      SumOverDaysEmpty(channel, effective, days[1..]);
    }
  }

  /** A column of the entries is the channel's daily count summed over their days. */
  lemma {:induction false} EntriesColumn(rows: seq<WeeklyGestion>, days: seq<int>, c: Column)
    ensures ColumnTotal(Entries(rows, days), c) == SumOverDays(rows, ColumnChannel(c), ColumnEffective(c), days)
  {
    if days != [] {
      assert Entries(rows, days)[1..] == Entries(rows, days[1..]);
      EntriesColumn(rows, days[1..], c);
    }
  }

  /** The outer join of the two channels' daily groups neither loses nor double-counts a
      row: summed over the evolution, each channel's `gestiones` column is its dated rows
      with a non-null `cod_luna`, and its effective-contact column its dated
      CONTACTO_EFECTIVO rows; each day's totals are the two channels' sums. */
  lemma DailyEvolutionConserves(rows: seq<WeeklyGestion>)
    ensures var e := DailyEvolution(rows);
      && (forall c :: ColumnTotal(e, c) == DatedCount(rows, ColumnChannel(c), ColumnEffective(c)))
      && (forall k :: 0 <= k < |e| ==>
            e[k].totalGestiones == e[k].callGestiones + e[k].voicebotGestiones
            && e[k].totalContactos == e[k].callContactos + e[k].voicebotContactos)
  {
    var days := EvolutionDays(rows);
    forall c ensures ColumnTotal(DailyEvolution(rows), c) == DatedCount(rows, ColumnChannel(c), ColumnEffective(c)) {
      EntriesColumn(rows, days, c);
      SumOverDaysConserves(rows, ColumnChannel(c), ColumnEffective(c), days);
    }
  }

  /** A channel with no row on a listed day contributes 0 to it. */
  lemma MissingChannelCountsZero(rows: seq<WeeklyGestion>, channel: string, day: int)
    requires forall i :: 0 <= i < |rows| ==> !(rows[i].canal == Some(channel) && rows[i].date == Some(day))
    ensures Day(rows, day).callGestiones == 0 || channel != CallChannel
    ensures Day(rows, day).voicebotGestiones == 0 || channel != VoicebotChannel
    ensures channel == CallChannel ==> Day(rows, day).totalGestiones == Day(rows, day).voicebotGestiones
    ensures channel == VoicebotChannel ==> Day(rows, day).totalGestiones == Day(rows, day).callGestiones
  {
    DayCountsZero(rows, channel, day);
  }

  // ---------------------------------------------------------------------------
  // Active portfolios slide
  // ---------------------------------------------------------------------------

  /** An entry of `carteras_activas`; `clientesAsignados` is None when no assignment
      row matched its file. */
  datatype CarteraActiva = CarteraActiva(tipoCartera: string, clientesAsignados: Option<int>, estado: string)

  function Clientes(c: CarteraActiva): int { c.clientesAsignados.GetOr(0) }

  /** `sum(c.get('clientes_asignados', 0) for c in carteras)`. */
  function TotalClientes(cs: seq<CarteraActiva>): int {
    if cs == [] then 0 else TotalClientes(cs[..|cs| - 1]) + Clientes(cs[|cs| - 1])
  }

  /** Clients of the entries of type `tipo`. */
  function TypeSum(cs: seq<CarteraActiva>, tipo: string): int {
    if cs == [] then 0
    else TypeSum(cs[..|cs| - 1], tipo) + (if cs[|cs| - 1].tipoCartera == tipo then Clientes(cs[|cs| - 1]) else 0)
  }

  /** The keys of `cartera_summary` in insertion order: types by first occurrence. */
  function TypeOrder(cs: seq<CarteraActiva>): (ts: seq<string>)
    ensures NoDup(ts)
    ensures forall t :: t in ts <==> exists i :: 0 <= i < |cs| && cs[i].tipoCartera == t
  {
    if cs == [] then []
    else
      var pre := TypeOrder(cs[..|cs| - 1]);
      var t := cs[|cs| - 1].tipoCartera;
      assert forall i :: 0 <= i < |cs| - 1 ==> cs[..|cs| - 1][i] == cs[i];
      if t in pre then pre else pre + [t]
  }

  /** Type `a` occurs in `cs` before the first occurrence of type `b`. */
  predicate SeenBefore(cs: seq<CarteraActiva>, a: string, b: string) {
    exists k :: 0 <= k < |cs| && cs[k].tipoCartera == a && forall m :: 0 <= m < k ==> cs[m].tipoCartera != b
  }

  /** Insertion order: of two listed types, the earlier one is seen first in the
      portfolios, so the keys are the types ordered by first occurrence. */
  lemma {:induction false} TypeOrderFirstSeen(cs: seq<CarteraActiva>, i: int, j: int)
    requires 0 <= i < j < |TypeOrder(cs)|
    ensures SeenBefore(cs, TypeOrder(cs)[i], TypeOrder(cs)[j])
  {
    var pre := cs[..|cs| - 1];
    var t := cs[|cs| - 1].tipoCartera;
    var tsPre := TypeOrder(pre);
    var a, b := TypeOrder(cs)[i], TypeOrder(cs)[j];
    assert forall m :: 0 <= m < |pre| ==> pre[m] == cs[m];
    if j < |tsPre| {
      assert tsPre[i] == a && tsPre[j] == b;
      TypeOrderFirstSeen(pre, i, j);
      var k :| 0 <= k < |pre| && pre[k].tipoCartera == a && forall m :: 0 <= m < k ==> pre[m].tipoCartera != b;
      assert cs[k].tipoCartera == a;
    } else {
      assert t !in tsPre && b == t && a == tsPre[i];
      assert a in tsPre;
      var k :| 0 <= k < |pre| && pre[k].tipoCartera == a;
      assert forall m :: 0 <= m < |pre| ==> pre[m].tipoCartera != t;
      assert cs[k].tipoCartera == a;
    }
  }

  /** `len([c for c in carteras if c['estado'] == 'ACTIVA'])`. */
  function ActiveCount(cs: seq<CarteraActiva>): (n: nat)
    ensures n <= |cs|
  {
    if cs == [] then 0 else ActiveCount(cs[..|cs| - 1]) + (if cs[|cs| - 1].estado == ActiveState then 1 else 0)
  }

  /** The sum of `TypeSum` over a list of types. */
  function SumTypes(cs: seq<CarteraActiva>, ts: seq<string>): int {
    if ts == [] then 0 else TypeSum(cs, ts[0]) + SumTypes(cs, ts[1..])
  }

  lemma {:induction false} TypeSumAbsent(cs: seq<CarteraActiva>, t: string)
    requires forall i :: 0 <= i < |cs| ==> cs[i].tipoCartera != t
    ensures TypeSum(cs, t) == 0
  {
    if cs != [] {
      assert forall i :: 0 <= i < |cs| - 1 ==> cs[..|cs| - 1][i] == cs[i];
      TypeSumAbsent(cs[..|cs| - 1], t);
    }
  }

  /** Adding one entry raises exactly one type's sum, by its clients. */
  lemma {:induction false} SumTypesStep(cs: seq<CarteraActiva>, ts: seq<string>)
    requires cs != [] && NoDup(ts)
    ensures SumTypes(cs, ts) == SumTypes(cs[..|cs| - 1], ts)
                                 + (if cs[|cs| - 1].tipoCartera in ts then Clientes(cs[|cs| - 1]) else 0)
  {
    if ts != [] {
      assert NoDup(ts[1..]) by {
        forall i, j | 0 <= i < j < |ts[1..]| ensures ts[1..][i] != ts[1..][j] {
          assert ts[1..][i] == ts[i + 1] && ts[1..][j] == ts[j + 1];
        }
      }
      SumTypesStep(cs, ts[1..]);
      assert ts == [ts[0]] + ts[1..];
      if cs[|cs| - 1].tipoCartera == ts[0] {
        assert ts[0] !in ts[1..] by {
          forall k | 0 <= k < |ts[1..]| ensures ts[1..][k] != ts[0] {
            assert ts[1..][k] == ts[k + 1];
          }
        }
      }
    }
  }

  lemma {:induction false} SumTypesAppend(cs: seq<CarteraActiva>, ts: seq<string>, t: string)
    ensures SumTypes(cs, ts + [t]) == SumTypes(cs, ts) + TypeSum(cs, t)
  {
    if ts != [] {
      assert (ts + [t])[1..] == ts[1..] + [t];
      SumTypesAppend(cs, ts[1..], t);
    }
  }

  /** The per-type lines add up to the total line of the slide. */
  lemma {:induction false} TypeSumsAddUp(cs: seq<CarteraActiva>)
    ensures SumTypes(cs, TypeOrder(cs)) == TotalClientes(cs)
  {
    if cs != [] {
      var pre := cs[..|cs| - 1];
      var c := cs[|cs| - 1];
      var tsPre := TypeOrder(pre);
      TypeSumsAddUp(pre);
      SumTypesStep(cs, TypeOrder(cs));
      if c.tipoCartera !in tsPre {
        SumTypesAppend(pre, tsPre, c.tipoCartera);
        assert forall i :: 0 <= i < |pre| ==> pre[i].tipoCartera != c.tipoCartera;
        TypeSumAbsent(pre, c.tipoCartera);
      }
    }
  }

  /** `summary` holds the clients per portfolio type of `cs`, and `tipos` its types in
      first-seen order. */
  ghost predicate SummaryOf(summary: map<string, int>, tipos: seq<string>, cs: seq<CarteraActiva>) {
    && tipos == TypeOrder(cs)
    && (forall t :: t in summary <==> t in tipos)
    && (forall t :: t in summary ==> summary[t] == TypeSum(cs, t))
  }

  /** The body of the slide's loop: adds one portfolio's clients to its type,
      appending the type the first time it is seen. */
  method AddCartera(summary: map<string, int>, tipos: seq<string>, ghost pre: seq<CarteraActiva>, c: CarteraActiva)
      returns (summary': map<string, int>, tipos': seq<string>)
    requires SummaryOf(summary, tipos, pre)
    ensures SummaryOf(summary', tipos', pre + [c])
  {
    var cs := pre + [c];
    assert cs[..|cs| - 1] == pre;
    var tipo := c.tipoCartera;
    var clientes := c.clientesAsignados.GetOr(0);
    if tipo in summary {
      summary', tipos' := summary[tipo := summary[tipo] + clientes], tipos;
    } else {
      summary', tipos' := summary[tipo := clientes], tipos + [tipo];
      assert forall k :: 0 <= k < |pre| ==> pre[k].tipoCartera != tipo;
      TypeSumAbsent(pre, tipo);
    }
  }

  // ---------------------------------------------------------------------------
  // The generator's state
  // ---------------------------------------------------------------------------

  /** The weekly report generator's `self.data`, as far as these operations go. */
  class TelefonicaReport {
    /** `canal_call` / `canal_voicebot`; None while still the empty dict. */
    var canalCall: Option<ChannelMetrics>
    var canalVoicebot: Option<ChannelMetrics>
    var evolucionDiaria: seq<DayEntry>
    var carterasActivas: seq<CarteraActiva>
    /** `resumen_ejecutivo`; None while still the empty dict. */
    var resumenEjecutivo: Option<ExecutiveSummary>

    constructor ()
      ensures canalCall == None && canalVoicebot == None && resumenEjecutivo == None
      ensures evolucionDiaria == [] && carterasActivas == []
    {
      canalCall := None;
      canalVoicebot := None;
      evolucionDiaria := [];
      carterasActivas := [];
      resumenEjecutivo := None;
    }

    /** `_process_gestiones_data`: nothing for an empty table; otherwise the two channel
        records and the daily evolution. */
    method ProcessGestionesData(gestiones: GestionFrame)
      modifies this
      ensures unchanged(`carterasActivas, `resumenEjecutivo)
      ensures gestiones.rows == [] ==>
                canalCall == old(canalCall) && canalVoicebot == old(canalVoicebot) && evolucionDiaria == old(evolucionDiaria)
      ensures gestiones.rows != [] ==>
                canalCall == Some(ChannelMetricsOf(OfChannel(gestiones.rows, CallChannel), gestiones.hasMontoColumn))
                && canalVoicebot == Some(ChannelMetricsOf(OfChannel(gestiones.rows, VoicebotChannel), gestiones.hasMontoColumn))
                && evolucionDiaria == (if gestiones.hasDateColumn then DailyEvolution(gestiones.rows) else old(evolucionDiaria))
    {
      if gestiones.rows == [] {
        return;
      }
      canalCall := Some(ChannelMetricsOf(OfChannel(gestiones.rows, CallChannel), gestiones.hasMontoColumn));
      canalVoicebot := Some(ChannelMetricsOf(OfChannel(gestiones.rows, VoicebotChannel), gestiones.hasMontoColumn));
      CalculateDailyEvolution(gestiones);
    }

    /** `_calculate_daily_evolution`: nothing for an empty table or one without a date column. */
    method CalculateDailyEvolution(gestiones: GestionFrame)
      modifies this
      ensures unchanged(`canalCall, `canalVoicebot, `carterasActivas, `resumenEjecutivo)
      ensures evolucionDiaria == if gestiones.rows != [] && gestiones.hasDateColumn then DailyEvolution(gestiones.rows)
                                 else old(evolucionDiaria)
    {
      if gestiones.rows == [] || !gestiones.hasDateColumn {
        return;
      }
      evolucionDiaria := DailyEvolution(gestiones.rows);
    }

    /** `_calculate_consolidated_metrics`: CALL plus VOICEBOT. */
    method CalculateConsolidatedMetrics()
      modifies this
      ensures unchanged(`canalCall, `canalVoicebot, `evolucionDiaria, `carterasActivas)
      ensures resumenEjecutivo == Some(Consolidated(canalCall, canalVoicebot))
    {
      resumenEjecutivo := Some(Consolidated(canalCall, canalVoicebot));
    }

    /** The loop of the active-portfolios slide: clients per portfolio type, keys in
        insertion order; together with the slide's total and its active count. */
    method CarterasActivasSummary() returns (totalClientes: int, tipos: seq<string>, summary: map<string, int>, activas: nat)
      ensures totalClientes == TotalClientes(carterasActivas)
      ensures tipos == TypeOrder(carterasActivas)
      ensures forall t :: t in summary <==> t in tipos
      ensures forall t :: t in summary ==> summary[t] == TypeSum(carterasActivas, t)
      ensures activas == ActiveCount(carterasActivas) && activas <= |carterasActivas|
    {
      var cs := carterasActivas;
      totalClientes := TotalClientes(cs);
      tipos := [];
      summary := map[];
      var i := 0;
      while i < |cs|
        invariant 0 <= i <= |cs|
        invariant SummaryOf(summary, tipos, cs[..i])
      {
        assert cs[..i + 1] == cs[..i] + [cs[i]];
        summary, tipos := AddCartera(summary, tipos, cs[..i], cs[i]);
        i := i + 1;
      }
      assert cs[..i] == cs;
      activas := ActiveCount(cs);
    }
  }

  /** The per-type lines of the slide add up to its total, and the active count is at
      most the number of portfolios. */
  lemma CarterasSlideConsistent(cs: seq<CarteraActiva>)
    ensures SumTypes(cs, TypeOrder(cs)) == TotalClientes(cs)
    ensures ActiveCount(cs) <= |cs|
  {
    TypeSumsAddUp(cs);
  }
}
