/** The agent ranking slide of the corporate report (`_process_ranking_agentes`):
    per-agent counts, a stable descending sort on convertibility, the top 20 and
    their quartile labels. */
module AgentRanking {
  import opened Common

  const NoAgent: string := "AGENTE NO IDENTIFICADO"
  const TopSize: nat := 20

  /** A row of the contact table, as far as the ranking reads it; `None` is a null cell. */
  datatype GestionRow = GestionRow(ejecutivoHomologado: Option<string>, contactabilidad: Option<string>,
                                   esPdp: Option<string>, montoCompromiso: Option<int>)

  /** One ranking dict before `ranking` and `cuartil` are set; the two rates are in
      basis points (hundredths of a percent). */
  datatype AgentStats = AgentStats(agente: string, gestiones: nat, cef: nat, nef: nat, montoPagado: int,
                                   convertibilidad: int, tasaCierre: int)

  /** A stored ranking dict. */
  datatype RankedAgent = RankedAgent(stats: AgentStats, ranking: int, cuartil: string)

  /** Which rows a count takes. */
  datatype Measure = AllRows | Efectivo | NoEfectivo | Compromiso

  predicate HasMeasure(r: GestionRow, m: Measure) {
    match m
    case AllRows => true
    case Efectivo => r.contactabilidad == Some(EfectivoLabel)
    case NoEfectivo => r.contactabilidad == Some(NoEfectivoLabel)
    case Compromiso => r.esPdp == Some(PdpYes)
  }

  /** Rows of agent `a` satisfying `m`: `len(gestiones_agente[…])`. */
  function Count(rows: seq<GestionRow>, a: string, m: Measure): (n: nat)
    ensures n <= |rows|
  {
    if rows == [] then 0
    else Count(rows[1..], a, m) + (if rows[0].ejecutivoHomologado == Some(a) && HasMeasure(rows[0], m) then 1 else 0)
  }

  /** `gestiones_agente['monto_compromiso'].sum()`, which skips null cells. */
  function Monto(rows: seq<GestionRow>, a: string): int {
    if rows == [] then 0
    else Monto(rows[1..], a) + (if rows[0].ejecutivoHomologado == Some(a) then rows[0].montoCompromiso.GetOr(0) else 0)
  }

  lemma {:induction false} CountBounded(rows: seq<GestionRow>, a: string, m: Measure)
    ensures Count(rows, a, m) <= Count(rows, a, AllRows)
  {
    if rows != [] {
      CountBounded(rows[1..], a, m);
    }
  }

  lemma {:induction false} CountPositive(rows: seq<GestionRow>, a: string)
    requires exists i :: 0 <= i < |rows| && rows[i].ejecutivoHomologado == Some(a)
    ensures Count(rows, a, AllRows) > 0
  {
    var i :| 0 <= i < |rows| && rows[i].ejecutivoHomologado == Some(a);
    if i > 0 {
      assert rows[1..][i - 1] == rows[i];
      CountPositive(rows[1..], a);
    }
  }

  /** `round(num / den * 100, 2)` in basis points, halves rounded up; 0 when `den` is 0. */
  function Percent(num: nat, den: nat): (bp: int)
    ensures den > 0 ==> 2 * den * bp <= 20000 * num + den < 2 * den * (bp + 1)
    ensures den == 0 ==> bp == 0
  {
    if den > 0 then (20000 * num + den) / (2 * den) else 0
  }

  lemma PercentBounded(num: nat, den: nat)
    requires num <= den
    ensures 0 <= Percent(num, den) <= 10000
  {
    if den > 0 {
      var bp := Percent(num, den);
      if bp > 10000 {
        MulAtLeast(2 * den, bp, 10001);
      }
      if bp < 0 {
        MulAtLeast(2 * den, 0, bp + 1);
      }
    }
  }

  lemma MulAtLeast(k: nat, a: int, b: int)
    requires a >= b
    ensures k * a >= k * b
  {
  }

  /** The dict appended for agent `a`. */
  function Stats(rows: seq<GestionRow>, a: string): AgentStats {
    var total := Count(rows, a, AllRows);
    var cef := Count(rows, a, Efectivo);
    var compromisos := Count(rows, a, Compromiso);
    AgentStats(a, total, cef, Count(rows, a, NoEfectivo), Monto(rows, a), Percent(compromisos, total), Percent(compromisos, cef))
  }

  /** `if agente and agente != 'AGENTE NO IDENTIFICADO'`. */
  predicate Eligible(a: string) {
    a != "" && a != NoAgent
  }

  /** The non-null agent cells, in row order. */
  function AgentNames(rows: seq<GestionRow>): (names: seq<string>)
    ensures forall a :: a in names <==> exists i :: 0 <= i < |rows| && rows[i].ejecutivoHomologado == Some(a)
  {
    if rows == [] then []
    else
      assert forall i :: 1 <= i < |rows| ==> rows[i] == rows[1..][i - 1];
      var rest := AgentNames(rows[1..]);
      if rows[0].ejecutivoHomologado.Some? then [rows[0].ejecutivoHomologado.value] + rest else rest
  }

  /** The groups of `groupby('ejecutivo_homologado')`, in its (ascending) key order. */
  function Groups(rows: seq<GestionRow>): (keys: seq<string>)
    ensures StrictlyAscending(keys)
    ensures forall a :: a in keys <==> exists i :: 0 <= i < |rows| && rows[i].ejecutivoHomologado == Some(a)
  {
    var keys := SortedKeys(AgentNames(rows));
    assert forall a :: a in keys <==> a in Elems(keys);
    keys
  }

  /** The list built by the loop over groups. */
  function Collect(rows: seq<GestionRow>, keys: seq<string>): (r: seq<AgentStats>)
    ensures |r| <= |keys|
  {
    if keys == [] then []
    else
      var a := keys[|keys| - 1];
      Collect(rows, keys[..|keys| - 1]) + (if Eligible(a) then [Stats(rows, a)] else [])
  }

  // ---------------------------------------------------------------------------
  // list.sort(key=convertibilidad, reverse=True): stable, descending
  // ---------------------------------------------------------------------------

  function Key(s: AgentStats): int { s.convertibilidad }

  predicate SortedDesc(s: seq<AgentStats>) {
    forall i, j :: 0 <= i < j < |s| ==> Key(s[i]) >= Key(s[j])
  }

  /** Inserts `x` after every element whose key is at least its own. */
  function InsertDesc(t: seq<AgentStats>, x: AgentStats): (r: seq<AgentStats>)
    ensures multiset(r) == multiset(t) + multiset{x}
    ensures |r| == |t| + 1
  {
    if t == [] then [x]
    else if Key(t[0]) >= Key(x) then
      assert t == [t[0]] + t[1..];
      [t[0]] + InsertDesc(t[1..], x)
    else [x] + t
  }

  lemma {:induction false} InsertDescSorted(t: seq<AgentStats>, x: AgentStats)
    requires SortedDesc(t)
    ensures SortedDesc(InsertDesc(t, x))
  {
    if t != [] && Key(t[0]) >= Key(x) {
      assert SortedDesc(t[1..]) by {
        forall i, j | 0 <= i < j < |t[1..]| ensures Key(t[1..][i]) >= Key(t[1..][j]) {
          assert t[1..][i] == t[i + 1] && t[1..][j] == t[j + 1];
        }
      }
      InsertDescSorted(t[1..], x);
      var r := InsertDesc(t[1..], x);
      forall k | 0 <= k < |r| ensures Key(t[0]) >= Key(r[k]) {
        assert r[k] in multiset(t[1..]) + multiset{x};
        if r[k] != x {
          assert r[k] in t[1..];
          var m :| 0 <= m < |t[1..]| && t[1..][m] == r[k];
          assert t[m + 1] == r[k];
        }
      }
    }
  }

  /** `ranking.sort(key=lambda x: x['convertibilidad_%'], reverse=True)`. */
  function SortDesc(s: seq<AgentStats>): seq<AgentStats> {
    if s == [] then [] else InsertDesc(SortDesc(s[..|s| - 1]), s[|s| - 1])
  }

  /** The elements with key `v`, in order. */
  function WithKey(s: seq<AgentStats>, v: int): seq<AgentStats> {
    if s == [] then [] else (if Key(s[0]) == v then [s[0]] else []) + WithKey(s[1..], v)
  }

  lemma {:induction false} WithKeyConcat(a: seq<AgentStats>, b: seq<AgentStats>, v: int)
    ensures WithKey(a + b, v) == WithKey(a, v) + WithKey(b, v)
  {
    if a != [] {
      assert (a + b)[1..] == a[1..] + b;
      WithKeyConcat(a[1..], b, v);
    } else {
      assert a + b == b;
    }
  }

  lemma {:induction false} InsertDescStable(t: seq<AgentStats>, x: AgentStats, v: int)
    requires SortedDesc(t)
    ensures WithKey(InsertDesc(t, x), v) == WithKey(t, v) + (if Key(x) == v then [x] else [])
  {
    var xs := if Key(x) == v then [x] else [];
    if t == [] {
    } else if Key(t[0]) >= Key(x) {
      var h := if Key(t[0]) == v then [t[0]] else [];
      SortedDescTail(t);
      InsertDescStable(t[1..], x, v);
      assert InsertDesc(t, x) == [t[0]] + InsertDesc(t[1..], x);
      WithKeyCons(t[0], InsertDesc(t[1..], x), v);
      assert WithKey(t, v) == h + WithKey(t[1..], v);
      ConcatAssoc(h, WithKey(t[1..], v), xs);
    } else {
      assert InsertDesc(t, x) == [x] + t;
      WithKeyCons(x, t, v);
      if Key(x) == v {
        WithKeyBelow(t, v);
        assert xs + [] == [] + xs;
      } else {
        assert [] + WithKey(t, v) == WithKey(t, v) + [];
      }
    }
  }

  lemma ConcatAssoc(a: seq<AgentStats>, b: seq<AgentStats>, c: seq<AgentStats>)
    ensures a + (b + c) == (a + b) + c
  {
  }

  lemma SortedDescTail(t: seq<AgentStats>)
    requires SortedDesc(t) && t != []
    ensures SortedDesc(t[1..])
  {
    forall i, j | 0 <= i < j < |t[1..]| ensures Key(t[1..][i]) >= Key(t[1..][j]) {
      assert t[1..][i] == t[i + 1] && t[1..][j] == t[j + 1];
    }
  }

  lemma WithKeyCons(h: AgentStats, t: seq<AgentStats>, v: int)
    ensures WithKey([h] + t, v) == (if Key(h) == v then [h] else []) + WithKey(t, v)
  {
    assert ([h] + t)[1..] == t;
  }


  /** In a descending sequence that starts below `v`, nothing has key `v`. */
  lemma {:induction false} WithKeyBelow(t: seq<AgentStats>, v: int)
    requires SortedDesc(t) && t != [] && Key(t[0]) < v
    ensures WithKey(t, v) == []
  {
    if |t| > 1 {
      assert SortedDesc(t[1..]) by {
        forall i, j | 0 <= i < j < |t[1..]| ensures Key(t[1..][i]) >= Key(t[1..][j]) {
          assert t[1..][i] == t[i + 1] && t[1..][j] == t[j + 1];
        }
      }
      assert Key(t[1]) <= Key(t[0]);
      WithKeyBelow(t[1..], v);
    }
  }

  /** The sort orders by key. */
  lemma {:induction false} SortDescSorted(s: seq<AgentStats>)
    ensures SortedDesc(SortDesc(s))
  {
    if s != [] {
      SortDescSorted(s[..|s| - 1]);
      InsertDescSorted(SortDesc(s[..|s| - 1]), s[|s| - 1]);
    }
  }

  /** The sort keeps every element, as often as it occurs. */
  lemma {:induction false} SortDescPermutes(s: seq<AgentStats>)
    ensures multiset(SortDesc(s)) == multiset(s)
  {
    if s != [] {
      var pre := s[..|s| - 1];
      SortDescPermutes(pre);
      assert s == pre + [s[|s| - 1]];
    }
  }

  /** The sort keeps elements of equal key in their original order. */
  lemma {:induction false} SortDescStable(s: seq<AgentStats>, v: int)
    ensures WithKey(SortDesc(s), v) == WithKey(s, v)
  {
    if s != [] {
      var pre := s[..|s| - 1];
      var x := s[|s| - 1];
      assert SortDesc(s) == InsertDesc(SortDesc(pre), x);
      SortDescStable(pre, v);
      SortDescSorted(pre);
      InsertDescStable(SortDesc(pre), x, v);
      WithKeySnoc(s, v);
    }
  }

  lemma WithKeySnoc(s: seq<AgentStats>, v: int)
    requires s != []
    ensures WithKey(s, v) == WithKey(s[..|s| - 1], v) + (if Key(s[|s| - 1]) == v then [s[|s| - 1]] else [])
  {
    var pre, x := s[..|s| - 1], s[|s| - 1];
    assert s == pre + [x];
    WithKeyConcat(pre, [x], v);
    assert [x][1..] == [];
  }

  // ---------------------------------------------------------------------------
  // Top 20 and quartiles
  // ---------------------------------------------------------------------------

  /** The quartile label of position `i` (0-based) in the top 20. */
  function Quartile(i: int): string {
    if i < 5 then "Q1 - Excelente"
    else if i < 10 then "Q2 - Bueno"
    else if i < 15 then "Q3 - Regular"
    else "Q4 - Necesita Mejora"
  }

  /** `ranking[:20]`. */
  function Top(s: seq<AgentStats>): (t: seq<AgentStats>)
    ensures |t| == if |s| < TopSize then |s| else TopSize
  {
    if |s| <= TopSize then s else s[..TopSize]
  }

  /** The first 20 after sorting, with `ranking = i + 1` and the quartile of `i`. */
  function Rank(s: seq<AgentStats>): seq<RankedAgent> {
    var t := Top(s);
    seq(|t|, i requires 0 <= i < |t| => RankedAgent(t[i], i + 1, Quartile(i)))
  }

  /** What `self.data['ranking_agentes']` becomes for a non-empty contact table. */
  function Ranking(rows: seq<GestionRow>): seq<RankedAgent> {
    Rank(SortDesc(Collect(rows, Groups(rows))))
  }

  // ---------------------------------------------------------------------------
  // Properties of the ranking
  // ---------------------------------------------------------------------------

  /** The collected list has one entry per eligible group, and that entry is the
      group's stats. */
  lemma {:induction false} CollectMember(rows: seq<GestionRow>, keys: seq<string>, e: AgentStats)
    ensures e in Collect(rows, keys) <==> e.agente in keys && Eligible(e.agente) && e == Stats(rows, e.agente)
  {
    if keys != [] {
      var pre := keys[..|keys| - 1];
      CollectMember(rows, pre, e);
      assert keys == pre + [keys[|keys| - 1]];
    }
  }

  lemma {:induction false} CollectNoDup(rows: seq<GestionRow>, keys: seq<string>, e: AgentStats)
    requires StrictlyAscending(keys)
    ensures multiset(Collect(rows, keys))[e] <= 1
  {
    if keys != [] {
      var pre := keys[..|keys| - 1];
      var a := keys[|keys| - 1];
      var last := if Eligible(a) then [Stats(rows, a)] else [];
      assert StrictlyAscending(pre);
      CollectNoDup(rows, pre, e);
      assert multiset(Collect(rows, keys)) == multiset(Collect(rows, pre)) + multiset(last);
      if Eligible(a) && e == Stats(rows, a) {
        assert e.agente == a;
        forall k | 0 <= k < |pre| ensures pre[k] != a {
          assert StrLess(keys[k], keys[|keys| - 1]);
          StrLessIrreflexive(pre[k]);
        }
        CollectMember(rows, pre, e);
        assert multiset(Collect(rows, pre))[e] == 0;
      }
    }
  }


  /** `Rank` keeps the first 20 elements, in order. */
  lemma RankPrefix(s: seq<AgentStats>)
    ensures |Rank(s)| == if |s| < TopSize then |s| else TopSize
    ensures forall i :: 0 <= i < |Rank(s)| ==> Rank(s)[i].stats == s[i]
  {
  }

  /** The quartile labels, best first. */
  const QuartileLabels: seq<string> := ["Q1 - Excelente", "Q2 - Bueno", "Q3 - Regular", "Q4 - Necesita Mejora"]

  /** The number of ranked entries carrying the label `quartile`. */
  function LabelCount(r: seq<RankedAgent>, quartile: string): nat {
    if r == [] then 0 else LabelCount(r[..|r| - 1], quartile) + (if r[|r| - 1].cuartil == quartile then 1 else 0)
  }

  function Clip(x: int, n: int): int { if x < n then x else n }

  /** Entries labelled exactly on positions `[lo, hi)` number as many of those positions as exist. */
  lemma {:induction false} LabelCountRange(r: seq<RankedAgent>, quartile: string, lo: int, hi: int)
    requires 0 <= lo <= hi
    requires forall i :: 0 <= i < |r| ==> (r[i].cuartil == quartile <==> lo <= i < hi)
    ensures LabelCount(r, quartile) == Clip(hi, |r|) - Clip(lo, |r|)
  {
    if r != [] {
      var pre := r[..|r| - 1];
      assert forall i :: 0 <= i < |pre| ==> pre[i] == r[i];
      LabelCountRange(pre, quartile, lo, hi);
    }
  }

  /** Ranks run 1, 2, …; quartile q holds exactly positions 5q to 5q + 4, so a full
      ranking has five entries per label; and an entry of a better quartile has at
      least the convertibility of any entry of a worse one. */
  lemma RankingQuartiles(rows: seq<GestionRow>)
    ensures var r := Ranking(rows);
      && |r| <= TopSize
      && (forall i :: 0 <= i < |r| ==> r[i].ranking == i + 1)
      && (forall i, q :: 0 <= i < |r| && 0 <= q < |QuartileLabels| ==>
            (r[i].cuartil == QuartileLabels[q] <==> 5 * q <= i < 5 * q + 5))
      && (|r| == TopSize ==> forall q :: 0 <= q < |QuartileLabels| ==> LabelCount(r, QuartileLabels[q]) == 5)
      && (forall i, j, p, q ::
            0 <= i < |r| && 0 <= j < |r| && 0 <= p < q < |QuartileLabels|
            && r[i].cuartil == QuartileLabels[p] && r[j].cuartil == QuartileLabels[q]
            ==> r[i].stats.convertibilidad >= r[j].stats.convertibilidad)
  {
    var r := Ranking(rows);
    forall i, q | 0 <= i < |r| && 0 <= q < |QuartileLabels|
      ensures r[i].cuartil == QuartileLabels[q] <==> 5 * q <= i < 5 * q + 5
    {
      assert r[i].cuartil == Quartile(i);
    }
    if |r| == TopSize {
      forall q | 0 <= q < |QuartileLabels| ensures LabelCount(r, QuartileLabels[q]) == 5 {
        LabelCountRange(r, QuartileLabels[q], 5 * q, 5 * q + 5);
      }
    }
    RankingEntries(rows);
  }

  /** Every entry is the stats of an eligible agent that occurs in the table, no
      agent appears twice, and the entries are ordered by convertibility. */
  lemma RankingEntries(rows: seq<GestionRow>)
    ensures forall i :: 0 <= i < |Ranking(rows)| ==>
              var e := Ranking(rows)[i].stats;
              Eligible(e.agente) && e == Stats(rows, e.agente)
              && exists k :: 0 <= k < |rows| && rows[k].ejecutivoHomologado == Some(e.agente)
    ensures forall i, j :: 0 <= i < j < |Ranking(rows)| ==>
              Ranking(rows)[i].stats.convertibilidad >= Ranking(rows)[j].stats.convertibilidad
              && Ranking(rows)[i].stats.agente != Ranking(rows)[j].stats.agente
  {
    var keys := Groups(rows);
    var c := Collect(rows, keys);
    var s := SortDesc(c);
    var r := Rank(s);
    assert r == Ranking(rows);
    SortDescSorted(c);
    SortDescPermutes(c);
    RankPrefix(s);
    forall i | 0 <= i < |r|
      ensures Eligible(r[i].stats.agente) && r[i].stats == Stats(rows, r[i].stats.agente)
      ensures r[i].stats.agente in keys
    {
      assert s[i] in multiset(c);
      CollectMember(rows, keys, s[i]);
    }
    forall i, j | 0 <= i < j < |r|
      ensures r[i].stats.convertibilidad >= r[j].stats.convertibilidad
      ensures r[i].stats.agente != r[j].stats.agente
    {
      if r[i].stats.agente == r[j].stats.agente {
        DuplicateInMultiset(s, i, j);
        CollectNoDup(rows, keys, s[i]);
      }
    }
  }

  lemma DuplicateInMultiset(s: seq<AgentStats>, i: int, j: int)
    requires 0 <= i < j < |s| && s[i] == s[j]
    ensures multiset(s)[s[i]] >= 2
  {
    assert s == s[..j] + s[j..];
    assert s[i] == s[..j][i];
    assert s[j] == s[j..][0];
    assert multiset(s) == multiset(s[..j]) + multiset(s[j..]);
  }

  /** The top 20 really are the top: an eligible agent of the table that is not in
      the ranking has no higher convertibility than any ranked agent, and then the
      ranking is full. */
  lemma RankingIsTop(rows: seq<GestionRow>, a: string)
    requires Eligible(a)
    requires exists k :: 0 <= k < |rows| && rows[k].ejecutivoHomologado == Some(a)
    ensures (exists i :: 0 <= i < |Ranking(rows)| && Ranking(rows)[i].stats.agente == a)
         || (|Ranking(rows)| == TopSize
             && forall i :: 0 <= i < TopSize ==> Ranking(rows)[i].stats.convertibilidad >= Stats(rows, a).convertibilidad)
  {
    var keys := Groups(rows);
    var c := Collect(rows, keys);
    var s := SortDesc(c);
    var r := Rank(s);
    assert r == Ranking(rows);
    SortDescSorted(c);
    SortDescPermutes(c);
    RankPrefix(s);
    var st := Stats(rows, a);
    CollectMember(rows, keys, st);
    assert st in multiset(s);
    var j :| 0 <= j < |s| && s[j] == st;
    if j < TopSize {
      assert r[j].stats.agente == a;
    } else {
      assert |r| == TopSize;
      forall i | 0 <= i < TopSize ensures r[i].stats.convertibilidad >= st.convertibilidad {
        assert Key(s[i]) >= Key(s[j]);
      }
    }
  }

  /** Ties on convertibility keep the order of the groups (ascending agent names). */
  lemma RankingStable(rows: seq<GestionRow>, v: int)
    ensures WithKey(SortDesc(Collect(rows, Groups(rows))), v) == WithKey(Collect(rows, Groups(rows)), v)
  {
    SortDescStable(Collect(rows, Groups(rows)), v);
  }

  /** The counts of a ranked agent are consistent: effective, non-effective and
      commitment counts are among its contacts, and convertibility is a percentage. */
  lemma RankedStatsBounds(rows: seq<GestionRow>, a: string)
    ensures var st := Stats(rows, a);
            st.cef + st.nef <= st.gestiones && st.cef <= st.gestiones
            && 0 <= st.convertibilidad <= 10000
  {
    CountSplit(rows, a);
    CountBounded(rows, a, Compromiso);
    PercentBounded(Count(rows, a, Compromiso), Count(rows, a, AllRows));
  }

  lemma {:induction false} CountSplit(rows: seq<GestionRow>, a: string)
    ensures Count(rows, a, Efectivo) + Count(rows, a, NoEfectivo) <= Count(rows, a, AllRows)
  {
    if rows != [] {
      CountSplit(rows[1..], a);
    }
  }

  // ---------------------------------------------------------------------------
  // The loops
  // ---------------------------------------------------------------------------

  /** The loop over the groups: appends the stats of every eligible agent. */
  method CollectStats(rows: seq<GestionRow>, keys: seq<string>) returns (ranking: seq<AgentStats>)
    ensures ranking == Collect(rows, keys)
  {
    ranking := [];
    var i := 0;
    while i < |keys|
      invariant 0 <= i <= |keys|
      invariant ranking == Collect(rows, keys[..i])
    {
      assert keys[..i + 1][..i] == keys[..i];
      var agente := keys[i];
      if agente != "" && agente != NoAgent {
        ranking := ranking + [Stats(rows, agente)];
      }
      i := i + 1;
    }
    assert keys[..i] == keys;
  }

  /** The `enumerate(ranking[:20])` loop: sets `ranking` and `cuartil` on each entry. */
  method AssignRanks(sorted: seq<AgentStats>) returns (top: seq<RankedAgent>)
    ensures top == Rank(sorted)
  {
    var t := Top(sorted);
    top := [];
    var i := 0;
    while i < |t|
      invariant 0 <= i <= |t|
      invariant |top| == i
      invariant forall k :: 0 <= k < i ==> top[k] == RankedAgent(t[k], k + 1, Quartile(k))
    {
      var cuartil: string;
      if i < 5 {
        cuartil := "Q1 - Excelente";
      } else if i < 10 {
        cuartil := "Q2 - Bueno";
      } else if i < 15 {
        cuartil := "Q3 - Regular";
      } else {
        cuartil := "Q4 - Necesita Mejora";
      }
      top := top + [RankedAgent(t[i], i + 1, cuartil)];
      i := i + 1;
    }
  }

  /** Builds the stored ranking from a contact table. */
  method BuildRanking(rows: seq<GestionRow>) returns (top: seq<RankedAgent>)
    ensures top == Ranking(rows)
  {
    var ranking := CollectStats(rows, Groups(rows));
    ranking := SortDesc(ranking);
    top := AssignRanks(ranking);
  }
}
