/** Payment attribution (`BusinessLogicProcessor.attribute_payments`): every payment
    that joins to a unit is credited to one contact of that unit from the 30 days up
    to the payment date, preferring the better outcome and then the more recent day. */
module Attribution {
  import opened Common
  import opened Relational
  import opened Universe

  /** Length of the look-back window, in days (`timedelta(days=30)`). */
  const WindowDays: int := 30

  /** Outcome label given to a payment that no contact can be credited with. */
  const SinGestion: string := "SIN_GESTION"

  /** The homologated outcome of a contact (`tipo_contacto`). */
  datatype ContactType = ContactoEfectivo | ContactoNoEfectivo | NoContacto

  function Label(t: ContactType): string {
    match t
    case ContactoEfectivo => EfectivoLabel
    case ContactoNoEfectivo => NoEfectivoLabel
    case NoContacto => NoContactoLabel
  }

  /** Position of an outcome when `tipo_contacto` is sorted ascending. */
  function Rank(t: ContactType): nat {
    match t
    case ContactoEfectivo => 0
    case ContactoNoEfectivo => 1
    case NoContacto => 2
  }

  lemma LabelsAscending()
    ensures StrLess(Label(ContactoEfectivo), Label(ContactoNoEfectivo))
    ensures StrLess(Label(ContactoNoEfectivo), Label(NoContacto))
  {
    var e, n, x := Label(ContactoEfectivo), Label(ContactoNoEfectivo), Label(NoContacto);
    assert e[..9] == n[..9];
    StrLessAtFirstDifference(e, n, 9);
    StrLessAtFirstDifference(n, x, 0);
  }

  /** The rank table is exactly the lexical order of the labels that the source sorts on. */
  lemma RankMatchesLabelOrder(a: ContactType, b: ContactType)
    ensures Rank(a) < Rank(b) <==> StrLess(Label(a), Label(b))
  {
    LabelsAscending();
    var e, n, x := Label(ContactoEfectivo), Label(ContactoNoEfectivo), Label(NoContacto);
    StrLessTransitive(e, n, x);
    StrLessAsymmetric(e, n);
    StrLessAsymmetric(n, x);
    StrLessAsymmetric(e, x);
    StrLessIrreflexive(Label(a));
  }

  /** A contact row: channel (`CALL`/`VOICEBOT`), the document it was made on,
      its day number, the agent and the homologated outcome. */
  datatype Gestion = Gestion(canal: string, codDocumento: string, fechaGestion: int, ejecutivo: string, tipoContacto: ContactType)

  /** A payment row: document, amount paid and day number. */
  datatype Pago = Pago(nroDocumento: string, montoCancelado: int, fechaPago: int)

  /** The `(nro_documento, cod_luna)` columns of a universe row. */
  datatype DocUnit = DocUnit(nroDocumento: string, codLuna: string)

  /** The contact credited to a payment. */
  datatype AttributedContact = AttributedContact(ejecutivo: string, canal: string, fechaGestion: int,
                                                 tipoContacto: ContactType, diasDesdeGestion: int)

  /** One output row; `contact == None` is the SIN_GESTION row with null agent, channel,
      contact date and elapsed days. */
  datatype Attribution = Attribution(nroDocumento: string, codLuna: string, fechaPago: int, montoPagado: int,
                                     contact: Option<AttributedContact>)

  /** The `tipo_contacto_atribuido` column. */
  function TipoContactoAtribuido(a: Attribution): string {
    if a.contact.None? then SinGestion else Label(a.contact.value.tipoContacto)
  }

  function DocUnitOf(u: ManageableRow): DocUnit {
    DocUnit(u.debt.nroDocumento, u.link.codLuna)
  }

  function GestionDoc(g: Gestion): string {
    g.codDocumento
  }

  function PagoDoc(p: Pago): string {
    p.nroDocumento
  }

  function UnitDoc(d: DocUnit): string {
    d.nroDocumento
  }

  /** `universo_df[['nro_documento', 'cod_luna']].drop_duplicates()`: a set of pairs,
      so one document may belong to several units. */
  function DocUnitMap(universo: seq<ManageableRow>): seq<DocUnit> {
    DistinctProjection(universo, DocUnitOf)
  }

  /** A contact or payment row together with the unit its document maps to. */
  type LinkedGestion = (Gestion, DocUnit)
  type LinkedPago = (Pago, DocUnit)

  /** Same unit, and contact day in `[fecha_pago - 30, fecha_pago]`. */
  predicate InWindow(c: LinkedGestion, p: LinkedPago) {
    c.1.codLuna == p.1.codLuna
    && c.0.fechaGestion <= p.0.fechaPago
    && c.0.fechaGestion >= p.0.fechaPago - WindowDays
  }

  /** The candidate contacts of one payment, in joined order. */
  function Candidates(cs: seq<LinkedGestion>, p: LinkedPago): (r: seq<LinkedGestion>)
    ensures forall c :: c in r <==> c in cs && InWindow(c, p)
  {
    if cs == [] then []
    else
      assert cs == [cs[0]] + cs[1..];
      if InWindow(cs[0], p) then [cs[0]] + Candidates(cs[1..], p) else Candidates(cs[1..], p)
  }

  /** `a` comes strictly before `b` under `sort_values(['tipo_contacto', 'fecha_gestion'],
      ascending=[True, False])`. */
  predicate Precedes(a: Gestion, b: Gestion) {
    Rank(a.tipoContacto) < Rank(b.tipoContacto)
    || (Rank(a.tipoContacto) == Rank(b.tipoContacto) && a.fechaGestion > b.fechaGestion)
  }

  /** The position of the row that `iloc[0]` takes after the sort: no row comes
      strictly before it, and every earlier row comes strictly after it, so among
      rows equal on both keys the first in input order is taken. */
  function BestIndex(cs: seq<LinkedGestion>): (i: nat)
    requires |cs| > 0
    ensures i < |cs|
    ensures forall c :: c in cs ==> !Precedes(c.0, cs[i].0)
    ensures forall k :: 0 <= k < i ==> Precedes(cs[i].0, cs[k].0)
  {
    if |cs| == 1 then 0
    else
      var j := 1 + BestIndex(cs[1..]);
      assert cs[j] == cs[1..][j - 1];
      assert forall c :: c in cs <==> c == cs[0] || c in cs[1..] by {
        assert cs == [cs[0]] + cs[1..];
      }
      if Precedes(cs[j].0, cs[0].0) then
        assert forall k :: 1 <= k < j ==> cs[k] == cs[1..][k - 1];
        j
      else 0
  }

  /** The attribution record of one joined payment row. */
  function Attribute(cs: seq<LinkedGestion>, p: LinkedPago): Attribution {
    var cands := Candidates(cs, p);
    var contact :=
      if |cands| == 0 then None
      else
        var b := cands[BestIndex(cands)].0;
        Some(AttributedContact(b.ejecutivo, b.canal, b.fechaGestion, b.tipoContacto, p.0.fechaPago - b.fechaGestion));
    Attribution(p.0.nroDocumento, p.1.codLuna, p.0.fechaPago, p.0.montoCancelado, contact)
  }

  /** `gestiones_df.merge(doc_luna_map, left_on='cod_documento', right_on='nro_documento', how='inner')`. */
  function GestionesWithLuna(gs: seq<Gestion>, universo: seq<ManageableRow>): seq<LinkedGestion> {
    InnerJoin(gs, DocUnitMap(universo), GestionDoc, UnitDoc)
  }

  /** `pagos_df.merge(doc_luna_map, on='nro_documento', how='inner')`. */
  function PagosWithLuna(ps: seq<Pago>, universo: seq<ManageableRow>): seq<LinkedPago> {
    InnerJoin(ps, DocUnitMap(universo), PagoDoc, UnitDoc)
  }

  /** One record per joined payment row, in order. */
  function AttributeAll(cs: seq<LinkedGestion>, lps: seq<LinkedPago>): (r: seq<Attribution>)
    ensures |r| == |lps|
  {
    if lps == [] then [] else AttributeAll(cs, lps[..|lps| - 1]) + [Attribute(cs, lps[|lps| - 1])]
  }

  lemma {:induction false} AttributeAllAt(cs: seq<LinkedGestion>, lps: seq<LinkedPago>, k: int)
    requires 0 <= k < |lps|
    ensures AttributeAll(cs, lps)[k] == Attribute(cs, lps[k])
  {
    if k < |lps| - 1 {
      AttributeAllAt(cs, lps[..|lps| - 1], k);
    }
  }

  /** What `attribute_payments` returns: nothing when either input table is empty,
      otherwise one record per joined payment row, in joined order. */
  function AttributionSpec(gs: seq<Gestion>, ps: seq<Pago>, universo: seq<ManageableRow>): seq<Attribution> {
    if |gs| == 0 || |ps| == 0 then []
    else AttributeAll(GestionesWithLuna(gs, universo), PagosWithLuna(ps, universo))
  }

  /** The body of the loop over joined payment rows: filter the unit's contacts to
      the window, take the best one, or emit the SIN_GESTION row. Its result is the
      record `Attribute` specifies, whose properties `AttributeFacts` proves. */
  method AttributeOne(gestionesWithLuna: seq<LinkedGestion>, pago: LinkedPago) returns (registro: Attribution)
    ensures registro == Attribute(gestionesWithLuna, pago)
  {
    var candidatas := Candidates(gestionesWithLuna, pago);
    if |candidatas| > 0 {
      var ultima := candidatas[BestIndex(candidatas)].0;
      registro := Attribution(pago.0.nroDocumento, pago.1.codLuna, pago.0.fechaPago, pago.0.montoCancelado,
        Some(AttributedContact(ultima.ejecutivo, ultima.canal, ultima.fechaGestion, ultima.tipoContacto,
                               pago.0.fechaPago - ultima.fechaGestion)));
    } else {
      registro := Attribution(pago.0.nroDocumento, pago.1.codLuna, pago.0.fechaPago, pago.0.montoCancelado, None);
    }
  }

  /** The loop over joined payment rows, one record appended per row. */
  method AttributeEach(gestionesWithLuna: seq<LinkedGestion>, pagosWithLuna: seq<LinkedPago>)
    returns (atribuciones: seq<Attribution>)
    ensures atribuciones == AttributeAll(gestionesWithLuna, pagosWithLuna)
  {
    atribuciones := [];
    var i := 0;
    while i < |pagosWithLuna|
      invariant 0 <= i <= |pagosWithLuna|
      invariant atribuciones == AttributeAll(gestionesWithLuna, pagosWithLuna[..i])
    {
      var registro := AttributeOne(gestionesWithLuna, pagosWithLuna[i]);
      assert pagosWithLuna[..i + 1][..i] == pagosWithLuna[..i];
      atribuciones := atribuciones + [registro];
      i := i + 1;
    }
    assert pagosWithLuna[..i] == pagosWithLuna;
  }

  /** `attribute_payments`: empty when either table is empty, otherwise joins both
      tables to the document map and attributes every joined payment row. */
  method AttributePayments(gs: seq<Gestion>, ps: seq<Pago>, universo: seq<ManageableRow>)
    returns (atribuciones: seq<Attribution>)
    ensures atribuciones == AttributionSpec(gs, ps, universo)
  {
    if |gs| == 0 || |ps| == 0 {
      return [];
    }
    var gestionesWithLuna := GestionesWithLuna(gs, universo);
    var pagosWithLuna := PagosWithLuna(ps, universo);
    atribuciones := AttributeEach(gestionesWithLuna, pagosWithLuna);
  }

  // ---------------------------------------------------------------------------
  // Properties of the attribution
  // ---------------------------------------------------------------------------

  /** `g` is a contact the source could credit to a payment of unit `codLuna` on day
      `fechaPago`: its document maps to that unit and its day is inside the window. */
  ghost predicate Qualifies(g: Gestion, universo: seq<ManageableRow>, codLuna: string, fechaPago: int) {
    (exists i :: 0 <= i < |universo| && DocUnitOf(universo[i]) == DocUnit(g.codDocumento, codLuna))
    && fechaPago - WindowDays <= g.fechaGestion <= fechaPago
  }

  lemma GestionesWithLunaMember(gs: seq<Gestion>, universo: seq<ManageableRow>, g: Gestion, u: DocUnit)
    ensures (g, u) in GestionesWithLuna(gs, universo)
        <==> g in gs && u.nroDocumento == g.codDocumento
             && exists i :: 0 <= i < |universo| && DocUnitOf(universo[i]) == u
  {
    JoinMember(gs, DocUnitMap(universo), GestionDoc, UnitDoc, g, u);
  }

  lemma PagosWithLunaMember(ps: seq<Pago>, universo: seq<ManageableRow>, p: Pago, u: DocUnit)
    ensures (p, u) in PagosWithLuna(ps, universo)
        <==> p in ps && u.nroDocumento == p.nroDocumento
             && exists i :: 0 <= i < |universo| && DocUnitOf(universo[i]) == u
  {
    JoinMember(ps, DocUnitMap(universo), PagoDoc, UnitDoc, p, u);
  }

  /** The candidates of a joined payment are exactly its qualifying contacts, each
      linked to the payment's unit. */
  lemma CandidatesAreQualifying(gs: seq<Gestion>, universo: seq<ManageableRow>, lp: LinkedPago, g: Gestion)
    ensures (g, DocUnit(g.codDocumento, lp.1.codLuna)) in Candidates(GestionesWithLuna(gs, universo), lp)
        <==> g in gs && Qualifies(g, universo, lp.1.codLuna, lp.0.fechaPago)
    ensures forall c :: c in Candidates(GestionesWithLuna(gs, universo), lp) ==>
              c.1 == DocUnit(c.0.codDocumento, lp.1.codLuna)
  {
    GestionesWithLunaMember(gs, universo, g, DocUnit(g.codDocumento, lp.1.codLuna));
    forall c | c in Candidates(GestionesWithLuna(gs, universo), lp)
      ensures c.1 == DocUnit(c.0.codDocumento, lp.1.codLuna)
    {
      GestionesWithLunaMember(gs, universo, c.0, c.1);
    }
  }

  /** With no contacts or no payments the result is empty. */
  lemma EmptyInputsGiveNoRecords(gs: seq<Gestion>, ps: seq<Pago>, universo: seq<ManageableRow>)
    requires |gs| == 0 || |ps| == 0
    ensures AttributionSpec(gs, ps, universo) == []
  {
  }

  /** A payment row and a unit of its document occur together in the joined payments
      as often as the row occurs among the payments: one record per such pair. */
  lemma OneRecordPerMappedPayment(ps: seq<Pago>, universo: seq<ManageableRow>, p: Pago, u: DocUnit)
    ensures multiset(PagosWithLuna(ps, universo))[(p, u)]
         == if u.nroDocumento == p.nroDocumento && exists i :: 0 <= i < |universo| && DocUnitOf(universo[i]) == u
            then multiset(ps)[p] else 0
  {
    var m := DocUnitMap(universo);
    JoinMultiplicity(ps, m, PagoDoc, UnitDoc, p, u);
    NoDupOccursOnce(m, u);
  }

  /** Record `k` is made from joined payment row `k`, whose document, unit, day and
      amount it copies unchanged. */
  lemma RecordsFollowJoinedPayments(gs: seq<Gestion>, ps: seq<Pago>, universo: seq<ManageableRow>)
    requires |gs| > 0 && |ps| > 0
    ensures |AttributionSpec(gs, ps, universo)| == |PagosWithLuna(ps, universo)|
    ensures forall k :: 0 <= k < |PagosWithLuna(ps, universo)| ==>
              var r, lp := AttributionSpec(gs, ps, universo)[k], PagosWithLuna(ps, universo)[k];
              r.nroDocumento == lp.0.nroDocumento && r.codLuna == lp.1.codLuna
              && r.fechaPago == lp.0.fechaPago && r.montoPagado == lp.0.montoCancelado
  {
    forall k | 0 <= k < |PagosWithLuna(ps, universo)| {
      AttributeAllAt(GestionesWithLuna(gs, universo), PagosWithLuna(ps, universo), k);
    }
  }

  /** Every record comes from a payment row whose document maps to the record's unit. */
  lemma RecordsComeFromMappedPayments(gs: seq<Gestion>, ps: seq<Pago>, universo: seq<ManageableRow>, k: int)
    requires 0 <= k < |AttributionSpec(gs, ps, universo)|
    ensures var r := AttributionSpec(gs, ps, universo)[k];
            Pago(r.nroDocumento, r.montoPagado, r.fechaPago) in ps
            && exists i :: 0 <= i < |universo| && DocUnitOf(universo[i]) == DocUnit(r.nroDocumento, r.codLuna)
  {
    var lps := PagosWithLuna(ps, universo);
    var lp := lps[k];
    assert lp in lps;
    AttributeAllAt(GestionesWithLuna(gs, universo), lps, k);
    PagosWithLunaMember(ps, universo, lp.0, lp.1);
  }

  /** A payment whose document no universe row carries produces no record. */
  lemma UnmappedPaymentsDropped(gs: seq<Gestion>, ps: seq<Pago>, universo: seq<ManageableRow>, doc: string)
    requires forall i :: 0 <= i < |universo| ==> universo[i].debt.nroDocumento != doc
    ensures forall r :: r in AttributionSpec(gs, ps, universo) ==> r.nroDocumento != doc
  {
    forall r | r in AttributionSpec(gs, ps, universo) ensures r.nroDocumento != doc {
      var k :| 0 <= k < |AttributionSpec(gs, ps, universo)| && AttributionSpec(gs, ps, universo)[k] == r;
      RecordsComeFromMappedPayments(gs, ps, universo, k);
    }
  }

  /** The record of one joined payment row: SIN_GESTION exactly when no contact
      qualifies; otherwise a qualifying contact, inside the window, with no better
      outcome and no more recent day of the same outcome among the qualifying ones. */
  lemma AttributeFacts(gs: seq<Gestion>, universo: seq<ManageableRow>, lp: LinkedPago)
    ensures var r := Attribute(GestionesWithLuna(gs, universo), lp);
      && (r.contact.None? <==> forall g :: g in gs ==> !Qualifies(g, universo, lp.1.codLuna, lp.0.fechaPago))
      && (r.contact.Some? ==>
            var c := r.contact.value;
            && 0 <= c.diasDesdeGestion <= WindowDays
            && c.fechaGestion == lp.0.fechaPago - c.diasDesdeGestion
            && (exists g :: g in gs && Qualifies(g, universo, lp.1.codLuna, lp.0.fechaPago)
                 && g.ejecutivo == c.ejecutivo && g.canal == c.canal
                 && g.fechaGestion == c.fechaGestion && g.tipoContacto == c.tipoContacto)
            && (forall g :: g in gs && Qualifies(g, universo, lp.1.codLuna, lp.0.fechaPago) ==>
                  Rank(c.tipoContacto) <= Rank(g.tipoContacto)
                  && (Rank(c.tipoContacto) == Rank(g.tipoContacto) ==> c.fechaGestion >= g.fechaGestion)))
  {
    var cs := GestionesWithLuna(gs, universo);
    var cands := Candidates(cs, lp);
    forall g | g in gs && Qualifies(g, universo, lp.1.codLuna, lp.0.fechaPago)
      ensures (g, DocUnit(g.codDocumento, lp.1.codLuna)) in cands
    {
      CandidatesAreQualifying(gs, universo, lp, g);
    }
    if |cands| > 0 {
      var b := cands[BestIndex(cands)].0;
      assert cands[BestIndex(cands)] in cands;
      CandidatesAreQualifying(gs, universo, lp, b);
      assert b in gs && Qualifies(b, universo, lp.1.codLuna, lp.0.fechaPago);
    }
  }

  /** The per-record facts, over the whole result: window bounds, origin of the
      credited contact, and its being best among the unit's qualifying contacts. */
  lemma AttributedContactIsBest(gs: seq<Gestion>, ps: seq<Pago>, universo: seq<ManageableRow>, k: int)
    requires 0 <= k < |AttributionSpec(gs, ps, universo)|
    ensures var r := AttributionSpec(gs, ps, universo)[k];
      && (r.contact.None? <==> forall g :: g in gs ==> !Qualifies(g, universo, r.codLuna, r.fechaPago))
      && (TipoContactoAtribuido(r) == SinGestion <==> r.contact.None?)
      && (r.contact.Some? ==>
            var c := r.contact.value;
            && 0 <= c.diasDesdeGestion <= WindowDays
            && c.fechaGestion == r.fechaPago - c.diasDesdeGestion
            && (exists g :: g in gs && Qualifies(g, universo, r.codLuna, r.fechaPago)
                 && g.ejecutivo == c.ejecutivo && g.canal == c.canal
                 && g.fechaGestion == c.fechaGestion && g.tipoContacto == c.tipoContacto)
            && (forall g :: g in gs && Qualifies(g, universo, r.codLuna, r.fechaPago) ==>
                  Rank(c.tipoContacto) <= Rank(g.tipoContacto)
                  && (Rank(c.tipoContacto) == Rank(g.tipoContacto) ==> c.fechaGestion >= g.fechaGestion)))
  {
    var lp := PagosWithLuna(ps, universo)[k];
    AttributeAllAt(GestionesWithLuna(gs, universo), PagosWithLuna(ps, universo), k);
    AttributeFacts(gs, universo, lp);
    var r := AttributionSpec(gs, ps, universo)[k];
    if r.contact.Some? {
      var t := r.contact.value.tipoContacto;
      assert Label(t)[0] != 'S';
    }
  }

  // ---------------------------------------------------------------------------
  // Worked cases
  // ---------------------------------------------------------------------------

  /** A universe row carrying document `doc` of unit `luna`. */
  function UnitRow(doc: string, luna: string): ManageableRow {
    ManageableRow(Debt("C-" + luna, doc, 0, 100, "cartera"), AccountLink("C-" + luna, luna))
  }

  /** An effective contact on day 0 beats a no-contact on day 5 for a payment on day 10:
      the outcome decides before recency, and the credited contact is 10 days old. */
  lemma OutcomeBeforeRecency()
    ensures var gs := [Gestion("CALL", "D1", 0, "ANA", ContactoEfectivo), Gestion("VOICEBOT", "D1", 5, "BOT", NoContacto)];
            var r := AttributionSpec(gs, [Pago("D1", 50, 10)], [UnitRow("D1", "U1")]);
            r == [Attribution("D1", "U1", 10, 50, Some(AttributedContact("ANA", "CALL", 0, ContactoEfectivo, 10)))]
  {
    var gs := [Gestion("CALL", "D1", 0, "ANA", ContactoEfectivo), Gestion("VOICEBOT", "D1", 5, "BOT", NoContacto)];
    var u := DocUnit("D1", "U1");
    DistinctProjectionNoDup([UnitRow("D1", "U1")], DocUnitOf);
    assert DocUnitMap([UnitRow("D1", "U1")]) == [u];
    assert GestionesWithLuna(gs, [UnitRow("D1", "U1")]) == [(gs[0], u), (gs[1], u)];
    assert PagosWithLuna([Pago("D1", 50, 10)], [UnitRow("D1", "U1")]) == [(Pago("D1", 50, 10), u)];
  }

  /** Between two contacts of the same outcome the more recent one is credited. */
  lemma RecencyBreaksTies()
    ensures var u := DocUnit("D1", "U1");
            var cs := [(Gestion("CALL", "D1", 0, "ANA", ContactoEfectivo), u), (Gestion("CALL", "D1", 7, "LUIS", ContactoEfectivo), u)];
            Attribute(cs, (Pago("D1", 50, 10), u)).contact == Some(AttributedContact("LUIS", "CALL", 7, ContactoEfectivo, 3))
  {
  }

  /** A contact exactly 30 days before the payment is inside the window; one 31 days before is not. */
  lemma WindowBoundary()
    ensures var u := DocUnit("D1", "U1");
            Attribute([(Gestion("CALL", "D1", -20, "ANA", NoContacto), u)], (Pago("D1", 50, 10), u)).contact
              == Some(AttributedContact("ANA", "CALL", -20, NoContacto, 30))
    ensures var u := DocUnit("D1", "U1");
            Attribute([(Gestion("CALL", "D1", -21, "ANA", NoContacto), u)], (Pago("D1", 50, 10), u)).contact == None
    ensures var u := DocUnit("D1", "U1");
            Attribute([(Gestion("CALL", "D1", 11, "ANA", NoContacto), u)], (Pago("D1", 50, 10), u)).contact == None
  {
  }

  /** A contact of another unit is never credited, even on the same document. */
  lemma OtherUnitNotCredited()
    ensures Attribute([(Gestion("CALL", "D1", 5, "ANA", ContactoEfectivo), DocUnit("D1", "U2"))],
                      (Pago("D1", 50, 10), DocUnit("D1", "U1"))).contact == None
  {
  }

  /** A document that belongs to two units yields one record per unit for a single payment. */
  lemma SharedDocumentCountedPerUnit()
    ensures |AttributionSpec([Gestion("CALL", "D1", 5, "ANA", ContactoEfectivo)], [Pago("D1", 50, 10)],
                             [UnitRow("D1", "U1"), UnitRow("D1", "U2")])| == 2
  {
    var universo := [UnitRow("D1", "U1"), UnitRow("D1", "U2")];
    DistinctProjectionNoDup(universo, DocUnitOf);
    assert DocUnitMap(universo) == [DocUnit("D1", "U1"), DocUnit("D1", "U2")];
    assert PagosWithLuna([Pago("D1", 50, 10)], universo)
        == [(Pago("D1", 50, 10), DocUnit("D1", "U1")), (Pago("D1", 50, 10), DocUnit("D1", "U2"))];
  }
}
