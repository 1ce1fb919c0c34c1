/** The allocation slide of the corporate report (`_process_asignacion_cartera`):
    clients per portfolio and service, and line counts per due day and portfolio. */
module CorporateAllocation {
  import opened Common

  // ---------------------------------------------------------------------------
  // str(int) and str.zfill
  // ---------------------------------------------------------------------------

  function DigitChar(d: int): char
    requires 0 <= d < 10
  {
    "0123456789"[d]
  }

  predicate IsDigit(c: char) {
    '0' <= c <= '9'
  }

  function DigitValue(c: char): int
    requires IsDigit(c)
  {
    c as int - '0' as int
  }

  /** Decimal digits of a natural number, without leading zeros. */
  function NatToStr(n: nat): (s: string)
    ensures |s| >= 1 && forall k :: 0 <= k < |s| ==> IsDigit(s[k])
    ensures n < 10 <==> |s| == 1
  {
    if n < 10 then [DigitChar(n)] else NatToStr(n / 10) + [DigitChar(n % 10)]
  }

  /** `str(n)` for an int. */
  function IntToStr(n: int): string {
    if n < 0 then "-" + NatToStr(-n) else NatToStr(n)
  }

  function Zeros(k: nat): (z: string)
    ensures |z| == k && forall i :: 0 <= i < k ==> z[i] == '0'
  {
    if k == 0 then "" else "0" + Zeros(k - 1)
  }

  /** `s.zfill(width)`: left-pads with '0' to `width`, keeping a leading sign in front. */
  function ZFill(s: string, width: nat): (r: string)
    ensures |r| == if |s| >= width then |s| else width
  {
    if |s| >= width then s
    else if |s| > 0 && (s[0] == '+' || s[0] == '-') then [s[0]] + Zeros(width - |s|) + s[1..]
    else Zeros(width - |s|) + s
  }

  /** The key `str(vencimiento).zfill(2)`. */
  function VencimientoKey(v: int): string {
    ZFill(IntToStr(v), 2)
  }

  /** Value of a string of decimal digits (leading zeros allowed). */
  function DigitsValue(s: string): int
    requires forall k :: 0 <= k < |s| ==> IsDigit(s[k])
  {
    if s == [] then 0 else 10 * DigitsValue(s[..|s| - 1]) + DigitValue(s[|s| - 1])
  }

  /** `int(s)` on an optionally signed string of decimal digits. */
  function StrToInt(s: string): int
    requires |s| > 0
    requires forall k :: 0 < k < |s| ==> IsDigit(s[k])
    requires IsDigit(s[0]) || s[0] == '-'
  {
    if s[0] == '-' then -DigitsValue(s[1..]) else DigitsValue(s)
  }

  lemma {:induction false} NatToStrValue(n: nat)
    ensures DigitsValue(NatToStr(n)) == n
  {
    if n >= 10 {
      NatToStrValue(n / 10);
      var s := NatToStr(n);
      assert s[..|s| - 1] == NatToStr(n / 10);
      DigitCharValue(n % 10);
      assert DigitsValue(s) == 10 * (n / 10) + n % 10;
    } else {
      DigitCharValue(n);
    }
  }

  lemma DigitCharValue(d: int)
    requires 0 <= d < 10
    ensures IsDigit(DigitChar(d)) && DigitValue(DigitChar(d)) == d
  {
  }

  lemma {:induction false} LeadingZeroValue(s: string)
    requires forall k :: 0 <= k < |s| ==> IsDigit(s[k])
    ensures DigitsValue("0" + s) == DigitsValue(s)
    decreases |s|
  {
    if s != [] {
      var t := "0" + s;
      assert t[..|t| - 1] == "0" + s[..|s| - 1];
      LeadingZeroValue(s[..|s| - 1]);
    }
  }

  /** A key is a string that `int()` accepts: an optional minus sign, then digits. */
  predicate IntLiteral(s: string) {
    |s| > 0 && (IsDigit(s[0]) || s[0] == '-') && forall k :: 0 < k < |s| ==> IsDigit(s[k])
  }

  lemma NegativeKey(v: int)
    requires v < 0
    ensures VencimientoKey(v) == "-" + NatToStr(-v)
  {
    var s := NatToStr(-v);
    assert IntToStr(v) == "-" + s;
  }

  lemma OneDigitKey(v: int)
    requires 0 <= v < 10
    ensures VencimientoKey(v) == "0" + NatToStr(v)
  {
    assert NatToStr(v) == [DigitChar(v)];
    assert Zeros(1) == "0";
  }

  /** What a key looks like: at least two characters, all digits after an optional
      minus sign, and `int(key)` gives the due day back. */
  lemma VencimientoKeyRoundTrip(v: int)
    ensures var key := VencimientoKey(v);
            |key| >= 2 && IntLiteral(key) && StrToInt(key) == v
  {
    if v < 0 {
      NegativeKeyRoundTrip(v);
    } else if v < 10 {
      OneDigitKeyRoundTrip(v);
    } else {
      WideKeyRoundTrip(v);
    }
  }

  lemma NegativeKeyRoundTrip(v: int)
    requires v < 0
    ensures var key := VencimientoKey(v);
            |key| >= 2 && IntLiteral(key) && StrToInt(key) == v
  {
    NatToStrValue(-v);
    NegativeKey(v);
    SignedLiteral(NatToStr(-v));
  }

  /** A minus sign before digits is an int literal whose value is the negated digits. */
  lemma SignedLiteral(s: string)
    requires |s| >= 1 && forall k :: 0 <= k < |s| ==> IsDigit(s[k])
    ensures IntLiteral("-" + s) && StrToInt("-" + s) == -DigitsValue(s)
  {
    var key := "-" + s;
    assert key[1..] == s;
    assert forall k :: 0 < k < |key| ==> key[k] == s[k - 1];
  }

  lemma OneDigitKeyRoundTrip(v: int)
    requires 0 <= v < 10
    ensures var key := VencimientoKey(v);
            |key| >= 2 && IntLiteral(key) && StrToInt(key) == v
  {
    var s := NatToStr(v);
    NatToStrValue(v);
    OneDigitKey(v);
    LeadingZeroValue(s);
    var key := "0" + s;
    assert forall k :: 0 < k < |key| ==> key[k] == s[k - 1];
  }

  lemma WideKeyRoundTrip(v: int)
    requires v >= 10
    ensures var key := VencimientoKey(v);
            |key| >= 2 && IntLiteral(key) && StrToInt(key) == v
  {
    NatToStrValue(v);
    assert VencimientoKey(v) == NatToStr(v);
  }

  /** Different due days never share a key. */
  lemma VencimientoKeyInjective(v: int, w: int)
    requires VencimientoKey(v) == VencimientoKey(w)
    ensures v == w
  {
    VencimientoKeyRoundTrip(v);
    VencimientoKeyRoundTrip(w);
  }

  // ---------------------------------------------------------------------------
  // Rows and accumulated tables
  // ---------------------------------------------------------------------------

  /** A row of the assignment table; `None` stands for a column the frame does not
      have, which `row.get(column, default)` replaces by the default. */
  datatype AssignmentRow = AssignmentRow(tipoCartera: Option<string>, servicio: Option<string>, clientesAsignados: Option<int>)

  /** A row of the calendar table. */
  datatype CalendarRow = CalendarRow(vencimiento: Option<int>, sumaLineas: Option<int>, tipoCartera: Option<string>)

  function Cartera(r: AssignmentRow): string { r.tipoCartera.GetOr("Otro") }
  function Servicio(r: AssignmentRow): string { r.servicio.GetOr("FIJA") }
  function Clientes(r: AssignmentRow): int { r.clientesAsignados.GetOr(0) }

  function CalCartera(r: CalendarRow): string { r.tipoCartera.GetOr("Otro") }
  function CalKey(r: CalendarRow): string { VencimientoKey(r.vencimiento.GetOr(0)) }
  function Lineas(r: CalendarRow): int { r.sumaLineas.GetOr(0) }

  /** The `{'FIJA': …, 'MOVIL': …, 'total': …}` entry of one portfolio. */
  datatype ServiceTotals = ServiceTotals(fija: int, movil: int, total: int)

  type Summary = map<string, ServiceTotals>
  type ByDueDay = map<string, map<string, int>>

  function Entry(m: Summary, cartera: string): ServiceTotals {
    if cartera in m then m[cartera] else ServiceTotals(0, 0, 0)
  }

  /** `summary[cartera][servicio] += clientes; summary[cartera]['total'] += clientes`.
      The entry dict has only the keys 'FIJA', 'MOVIL' and 'total', so any other
      service raises KeyError; a service named 'total' adds twice to the total. */
  function AddAssignment(m: Summary, r: AssignmentRow): Result<Summary> {
    var e := Entry(m, Cartera(r));
    var c := Clientes(r);
    match Servicio(r)
    case "FIJA" => Ok(m[Cartera(r) := ServiceTotals(e.fija + c, e.movil, e.total + c)])
    case "MOVIL" => Ok(m[Cartera(r) := ServiceTotals(e.fija, e.movil + c, e.total + c)])
    case "total" => Ok(m[Cartera(r) := ServiceTotals(e.fija, e.movil, e.total + c + c)])
    case other => KeyError(other)
  }

  /** The summary after the rows in order, or the KeyError of the first bad row. */
  function Summarize(rows: seq<AssignmentRow>): Result<Summary> {
    if rows == [] then Ok(map[])
    else
      match Summarize(rows[..|rows| - 1])
      case KeyError(k) => KeyError(k)
      case Ok(m) => AddAssignment(m, rows[|rows| - 1])
  }

  /** `by_due[key][cartera] += lineas`, creating missing entries at 0. */
  function AddCalendar(d: ByDueDay, r: CalendarRow): ByDueDay {
    var inner := if CalKey(r) in d then d[CalKey(r)] else map[];
    var cell := if CalCartera(r) in inner then inner[CalCartera(r)] else 0;
    d[CalKey(r) := inner[CalCartera(r) := cell + Lineas(r)]]
  }

  function ByVencimiento(rows: seq<CalendarRow>): ByDueDay {
    if rows == [] then map[] else AddCalendar(ByVencimiento(rows[..|rows| - 1]), rows[|rows| - 1])
  }

  /** The portfolio of each assignment row, in row order. */
  function Carteras(rows: seq<AssignmentRow>): seq<string> {
    seq(|rows|, i requires 0 <= i < |rows| => Cartera(rows[i]))
  }

  /** The due-day key of each calendar row, in row order. */
  function DueKeys(rows: seq<CalendarRow>): seq<string> {
    seq(|rows|, i requires 0 <= i < |rows| => CalKey(rows[i]))
  }

  /** The insertion order of the summary's keys: portfolios by first occurrence. */
  function CarteraOrder(rows: seq<AssignmentRow>): seq<string> {
    Distinct(Carteras(rows))
  }

  /** The insertion order of the due-day table's keys: keys by first occurrence. */
  function DueDayOrder(rows: seq<CalendarRow>): seq<string> {
    Distinct(DueKeys(rows))
  }

  // ---------------------------------------------------------------------------
  // Reference sums
  // ---------------------------------------------------------------------------

  predicate KnownService(s: string) {
    s == "FIJA" || s == "MOVIL" || s == "total"
  }

  /** Clients of portfolio `cartera` whose service is `servicio`. */
  function ServiceSum(rows: seq<AssignmentRow>, cartera: string, servicio: string): int {
    if rows == [] then 0
    else
      var r := rows[|rows| - 1];
      ServiceSum(rows[..|rows| - 1], cartera, servicio)
        + (if Cartera(r) == cartera && Servicio(r) == servicio then Clientes(r) else 0)
  }

  /** Clients of portfolio `cartera`, over all its rows. */
  function CarteraSum(rows: seq<AssignmentRow>, cartera: string): int {
    if rows == [] then 0
    else
      var r := rows[|rows| - 1];
      CarteraSum(rows[..|rows| - 1], cartera) + (if Cartera(r) == cartera then Clientes(r) else 0)
  }

  /** Row `r` falls into the cell (`key`, `cartera`). */
  predicate InCell(r: CalendarRow, key: string, cartera: string) {
    CellOf(r) == (key, cartera)
  }

  /** The (due-day key, portfolio) cell a calendar row is counted in. */
  function CellOf(r: CalendarRow): (string, string) {
    (CalKey(r), CalCartera(r))
  }

  /** Lines of the calendar rows with key `key` and portfolio `cartera`. */
  function CellSum(rows: seq<CalendarRow>, key: string, cartera: string): int {
    if rows == [] then 0
    else
      var r := rows[|rows| - 1];
      CellSum(rows[..|rows| - 1], key, cartera) + (if InCell(r, key, cartera) then Lineas(r) else 0)
  }

  // ---------------------------------------------------------------------------
  // Properties of the accumulation
  // ---------------------------------------------------------------------------

  /** The accumulation fails exactly when some row has a service outside the entry's keys. */
  lemma {:induction false} SummarizeFailsIffUnknownService(rows: seq<AssignmentRow>)
    ensures Summarize(rows).KeyError? <==> exists i :: 0 <= i < |rows| && !KnownService(Servicio(rows[i]))
  {
    if rows != [] {
      var pre := rows[..|rows| - 1];
      SummarizeFailsIffUnknownService(pre);
      assert forall i :: 0 <= i < |pre| ==> pre[i] == rows[i];
      if exists i :: 0 <= i < |rows| && !KnownService(Servicio(rows[i])) {
        var i :| 0 <= i < |rows| && !KnownService(Servicio(rows[i]));
        if i < |pre| {
          assert !KnownService(Servicio(pre[i]));
        }
      }
    }
  }

  /** Each portfolio entry holds its rows' clients per service, and the total is their
      sum (plus twice any rows whose service is literally 'total'); the portfolios
      present are exactly those of the rows. */
  lemma {:induction false} SummarizeSums(rows: seq<AssignmentRow>, cartera: string)
    requires Summarize(rows).Ok?
    ensures var m := Summarize(rows).value;
            && (cartera in m <==> exists i :: 0 <= i < |rows| && Cartera(rows[i]) == cartera)
            && Entry(m, cartera).fija == ServiceSum(rows, cartera, "FIJA")
            && Entry(m, cartera).movil == ServiceSum(rows, cartera, "MOVIL")
            && Entry(m, cartera).total == CarteraSum(rows, cartera) + ServiceSum(rows, cartera, "total")
  {
    if rows != [] {
      var pre := rows[..|rows| - 1];
      var r := rows[|rows| - 1];
      SummarizeSums(pre, cartera);
      AddAssignmentEntry(Summarize(pre).value, r, cartera);
      ExistsSnoc(rows, pre, Cartera, cartera);
    }
  }

  /** One row adds its clients to its portfolio's service and total, and to no other portfolio. */
  lemma AddAssignmentEntry(m: Summary, r: AssignmentRow, cartera: string)
    requires AddAssignment(m, r).Ok?
    ensures var m', e, c := AddAssignment(m, r).value, Entry(m, cartera), (if Cartera(r) == cartera then Clientes(r) else 0);
            && (cartera in m' <==> cartera in m || Cartera(r) == cartera)
            && Entry(m', cartera).fija == e.fija + (if Servicio(r) == "FIJA" then c else 0)
            && Entry(m', cartera).movil == e.movil + (if Servicio(r) == "MOVIL" then c else 0)
            && Entry(m', cartera).total == e.total + c + (if Servicio(r) == "total" then c else 0)
  {
  }

  /** With only 'FIJA' and 'MOVIL' rows, every total is FIJA + MOVIL and equals the
      portfolio's clients. */
  lemma TotalIsFijaPlusMovil(rows: seq<AssignmentRow>, cartera: string)
    requires forall i :: 0 <= i < |rows| ==> Servicio(rows[i]) == "FIJA" || Servicio(rows[i]) == "MOVIL"
    ensures Summarize(rows).Ok?
    ensures var e := Entry(Summarize(rows).value, cartera);
            e.total == e.fija + e.movil && e.total == CarteraSum(rows, cartera)
  {
    SummarizeFailsIffUnknownService(rows);
    SummarizeSums(rows, cartera);
    FijaMovilPartition(rows, cartera);
  }

  lemma {:induction false} FijaMovilPartition(rows: seq<AssignmentRow>, cartera: string)
    requires forall i :: 0 <= i < |rows| ==> Servicio(rows[i]) == "FIJA" || Servicio(rows[i]) == "MOVIL"
    ensures CarteraSum(rows, cartera) == ServiceSum(rows, cartera, "FIJA") + ServiceSum(rows, cartera, "MOVIL")
    ensures ServiceSum(rows, cartera, "total") == 0
  {
    if rows != [] {
      var pre := rows[..|rows| - 1];
      assert forall i :: 0 <= i < |pre| ==> pre[i] == rows[i];
      FijaMovilPartition(pre, cartera);
      assert Servicio(rows[|rows| - 1]) in {"FIJA", "MOVIL"};
    }
  }

  lemma AddCalendarKeys(d: ByDueDay, r: CalendarRow, key: string)
    ensures key in AddCalendar(d, r) <==> key in d || CalKey(r) == key
  {
  }

  /** The keys of the due-day table are exactly the keys of the rows. */
  lemma {:induction false} ByVencimientoKeys(rows: seq<CalendarRow>, key: string)
    ensures key in ByVencimiento(rows) <==> exists i :: 0 <= i < |rows| && CalKey(rows[i]) == key
  {
    if rows != [] {
      var pre := rows[..|rows| - 1];
      ByVencimientoKeys(pre, key);
      AddCalendarKeys(ByVencimiento(pre), rows[|rows| - 1], key);
      ExistsSnoc(rows, pre, CalKey, key);
    }
  }

  /** `by_due[key][cartera]`, or 0 where the table has no such cell. */
  function Cell(d: ByDueDay, key: string, cartera: string): int {
    if key in d && cartera in d[key] then d[key][cartera] else 0
  }

  lemma AddCalendarCell(d: ByDueDay, r: CalendarRow, key: string, cartera: string)
    ensures Cell(AddCalendar(d, r), key, cartera) == Cell(d, key, cartera) + (if InCell(r, key, cartera) then Lineas(r) else 0)
    ensures key in AddCalendar(d, r) && cartera in AddCalendar(d, r)[key]
        <==> (key in d && cartera in d[key]) || InCell(r, key, cartera)
  {
  }

  /** Each cell of the due-day table is the sum of the lines of its rows. */
  lemma {:induction false} ByVencimientoCellSum(rows: seq<CalendarRow>, key: string, cartera: string)
    ensures Cell(ByVencimiento(rows), key, cartera) == CellSum(rows, key, cartera)
  {
    if rows != [] {
      ByVencimientoCellSum(rows[..|rows| - 1], key, cartera);
      AddCalendarCell(ByVencimiento(rows[..|rows| - 1]), rows[|rows| - 1], key, cartera);
    }
  }

  /** The cells present are exactly the (key, portfolio) pairs of the rows. */
  lemma {:induction false} ByVencimientoCells(rows: seq<CalendarRow>, key: string, cartera: string)
    ensures key in ByVencimiento(rows) && cartera in ByVencimiento(rows)[key]
        <==> exists i :: 0 <= i < |rows| && InCell(rows[i], key, cartera)
  {
    if rows != [] {
      var pre := rows[..|rows| - 1];
      ByVencimientoCells(pre, key, cartera);
      AddCalendarCell(ByVencimiento(pre), rows[|rows| - 1], key, cartera);
      ExistsSnoc(rows, pre, CellOf, (key, cartera));
    }
  }

  lemma CarterasMember(rows: seq<AssignmentRow>, c: string)
    ensures c in CarteraOrder(rows) <==> exists i :: 0 <= i < |rows| && Cartera(rows[i]) == c
  {
    var cs := Carteras(rows);
    DistinctMember(cs, c);
    if c in cs {
      var i :| 0 <= i < |cs| && cs[i] == c;
      assert Cartera(rows[i]) == c;
    }
    if exists i :: 0 <= i < |rows| && Cartera(rows[i]) == c {
      var i :| 0 <= i < |rows| && Cartera(rows[i]) == c;
      assert cs[i] == c;
    }
  }

  lemma DueKeysMember(rows: seq<CalendarRow>, k: string)
    ensures k in DueDayOrder(rows) <==> exists i :: 0 <= i < |rows| && CalKey(rows[i]) == k
  {
    var ks := DueKeys(rows);
    DistinctMember(ks, k);
    if k in ks {
      var i :| 0 <= i < |ks| && ks[i] == k;
      assert CalKey(rows[i]) == k;
    }
    if exists i :: 0 <= i < |rows| && CalKey(rows[i]) == k {
      var i :| 0 <= i < |rows| && CalKey(rows[i]) == k;
      assert ks[i] == k;
    }
  }

  /** The summary's keys, in insertion order, are its portfolios without repeats, each
      listed portfolio first occurring in the rows before the ones after it. */
  lemma SummaryKeyOrder(rows: seq<AssignmentRow>)
    ensures NoDup(CarteraOrder(rows))
    ensures Summarize(rows).Ok? ==> forall c :: c in Summarize(rows).value <==> c in CarteraOrder(rows)
    ensures forall i, j :: 0 <= i < j < |CarteraOrder(rows)| ==>
              OccursBefore(Carteras(rows), CarteraOrder(rows)[i], CarteraOrder(rows)[j])
  {
    if Summarize(rows).Ok? {
      forall c ensures c in Summarize(rows).value <==> c in CarteraOrder(rows) {
        SummarizeSums(rows, c);
        CarterasMember(rows, c);
      }
    }
    forall i, j | 0 <= i < j < |CarteraOrder(rows)|
      ensures OccursBefore(Carteras(rows), CarteraOrder(rows)[i], CarteraOrder(rows)[j])
    {
      DistinctFirstSeen(Carteras(rows), i, j);
    }
  }

  /** The due-day table's keys, in insertion order, are its keys without repeats, each
      listed key first occurring in the rows before the ones after it. */
  lemma DueDayKeyOrder(rows: seq<CalendarRow>)
    ensures NoDup(DueDayOrder(rows))
    ensures forall k :: k in ByVencimiento(rows) <==> k in DueDayOrder(rows)
    ensures forall i, j :: 0 <= i < j < |DueDayOrder(rows)| ==>
              OccursBefore(DueKeys(rows), DueDayOrder(rows)[i], DueDayOrder(rows)[j])
  {
    forall k ensures k in ByVencimiento(rows) <==> k in DueDayOrder(rows) {
      ByVencimientoKeys(rows, k);
      DueKeysMember(rows, k);
    }
    forall i, j | 0 <= i < j < |DueDayOrder(rows)|
      ensures OccursBefore(DueKeys(rows), DueDayOrder(rows)[i], DueDayOrder(rows)[j])
    {
      DistinctFirstSeen(DueKeys(rows), i, j);
    }
  }

  /** One more assignment row appends its portfolio to the key order when it is new. */
  lemma CarteraOrderStep(rows: seq<AssignmentRow>, n: nat)
    requires n < |rows| && Summarize(rows[..n]).Ok?
    ensures CarteraOrder(rows[..n + 1]) == CarteraOrder(rows[..n])
              + (if Cartera(rows[n]) in Summarize(rows[..n]).value then [] else [Cartera(rows[n])])
  {
    assert Carteras(rows[..n + 1]) == Carteras(rows[..n]) + [Cartera(rows[n])];
    DistinctSnoc(Carteras(rows[..n]), Cartera(rows[n]));
    DistinctMember(Carteras(rows[..n]), Cartera(rows[n]));
    SummaryKeyOrder(rows[..n]);
  }

  /** One more calendar row appends its key to the key order when it is new. */
  lemma DueDayOrderStep(rows: seq<CalendarRow>, n: nat)
    requires n < |rows|
    ensures DueDayOrder(rows[..n + 1]) == DueDayOrder(rows[..n])
              + (if CalKey(rows[n]) in ByVencimiento(rows[..n]) then [] else [CalKey(rows[n])])
  {
    assert DueKeys(rows[..n + 1]) == DueKeys(rows[..n]) + [CalKey(rows[n])];
    DistinctSnoc(DueKeys(rows[..n]), CalKey(rows[n]));
    DistinctMember(DueKeys(rows[..n]), CalKey(rows[n]));
    DueDayKeyOrder(rows[..n]);
  }

  // ---------------------------------------------------------------------------
  // The loops and the report state
  // ---------------------------------------------------------------------------

  /** The first loop: accumulates clients per portfolio and service, stopping at the
      first KeyError; `carteras` is the order in which portfolios enter the dict. */
  method SummarizeAssignment(asignacion: seq<AssignmentRow>) returns (r: Result<Summary>, carteras: seq<string>)
    ensures r == Summarize(asignacion)
    ensures r.Ok? ==> carteras == CarteraOrder(asignacion)
  {
    var summary: Summary := map[];
    carteras := [];
    var i := 0;
    while i < |asignacion|
      invariant 0 <= i <= |asignacion|
      invariant Summarize(asignacion[..i]) == Ok(summary)
      invariant carteras == CarteraOrder(asignacion[..i])
    {
      assert asignacion[..i + 1][..i] == asignacion[..i];
      var row := asignacion[i];
      CarteraOrderStep(asignacion, i);
      if Cartera(row) !in summary {
        carteras := carteras + [Cartera(row)];
      }
      var e := Entry(summary, Cartera(row));
      var c := Clientes(row);
      var servicio := Servicio(row);
      if servicio == "FIJA" {
        summary := summary[Cartera(row) := e.(fija := e.fija + c, total := e.total + c)];
      } else if servicio == "MOVIL" {
        summary := summary[Cartera(row) := e.(movil := e.movil + c, total := e.total + c)];
      } else if servicio == "total" {
        summary := summary[Cartera(row) := e.(total := e.total + c + c)];
      } else {
        KeyErrorPersists(asignacion, i + 1);
        return KeyError(servicio), carteras;
      }
      i := i + 1;
    }
    assert asignacion[..i] == asignacion;
    return Ok(summary), carteras;
  }

  /** Once a prefix fails, the whole accumulation fails with the same key. */
  lemma {:induction false} KeyErrorPersists(rows: seq<AssignmentRow>, n: nat)
    requires n <= |rows| && Summarize(rows[..n]).KeyError?
    ensures Summarize(rows) == Summarize(rows[..n])
    decreases |rows| - n
  {
    if n < |rows| {
      assert rows[..n + 1][..n] == rows[..n];
      KeyErrorPersists(rows, n + 1);
    } else {
      assert rows[..n] == rows;
    }
  }

  /** The body of the second loop: adds one row's lines to its cell, creating the
      key's dict and the portfolio's counter at 0 when missing. */
  method AddCalendarRow(d: ByDueDay, row: CalendarRow) returns (d': ByDueDay)
    ensures d' == AddCalendar(d, row)
  {
    var key := CalKey(row);
    var cartera := CalCartera(row);
    ghost var inner := if key in d then d[key] else map[];
    ghost var cell := if cartera in inner then inner[cartera] else 0;
    d' := d;
    if key !in d' {
      d' := d'[key := map[]];
    }
    assert d'[key] == inner && d' - {key} == d - {key};
    if cartera !in d'[key] {
      d' := d'[key := d'[key][cartera := 0]];
    }
    assert d'[key][cartera] == cell && d'[key] - {cartera} == inner - {cartera};
    d' := d'[key := d'[key][cartera := d'[key][cartera] + Lineas(row)]];
    assert d'[key] == inner[cartera := cell + Lineas(row)];
  }

  /** The second loop: sums lines per due-day key and portfolio; `vencimientos` is the
      order in which due-day keys enter the dict. */
  method SummarizeCalendar(calendario: seq<CalendarRow>) returns (d: ByDueDay, vencimientos: seq<string>)
    ensures d == ByVencimiento(calendario)
    ensures vencimientos == DueDayOrder(calendario)
  {
    d := map[];
    vencimientos := [];
    var i := 0;
    while i < |calendario|
      invariant 0 <= i <= |calendario|
      invariant d == ByVencimiento(calendario[..i])
      invariant vencimientos == DueDayOrder(calendario[..i])
    {
      assert calendario[..i + 1][..i] == calendario[..i];
      var key := CalKey(calendario[i]);
      DueDayOrderStep(calendario, i);
      if key !in d {
        vencimientos := vencimientos + [key];
      }
      d := AddCalendarRow(d, calendario[i]);
      i := i + 1;
    }
    assert calendario[..i] == calendario;
  }
}
