/** The state of the corporate report generator (`TelefonicaCorporateReportGenerator`)
    that the allocation and ranking slides fill in. */
module CorporateReport {
  import opened Common
  import opened CorporateAllocation
  import opened AgentRanking

  /** `self.data['asignacion_cartera']` once filled; `carteras` and `vencimientos` are
      the insertion orders of the two dicts, in which the slide lists them. */
  datatype AllocationData = AllocationData(resumenCartera: Summary, carteras: seq<string>,
                                           porVencimiento: ByDueDay, vencimientos: seq<string>,
                                           mesActual: string, mesAnterior: string)

  /** The corporate report generator's state, as far as these two slides go. */
  class CorporateReport {
    const mesActual: string
    const mesAnterior: string
    /** `self.data['asignacion_cartera']`; None while it is still the empty dict. */
    var asignacionCartera: Option<AllocationData>
    /** `self.data['ranking_agentes']`; None while it is still the empty dict. */
    var rankingAgentes: Option<seq<RankedAgent>>

    constructor (mesActual: string, mesAnterior: string)
      ensures this.mesActual == mesActual && this.mesAnterior == mesAnterior
      ensures asignacionCartera == None && rankingAgentes == None
    {
      this.mesActual := mesActual;
      this.mesAnterior := mesAnterior;
      asignacionCartera := None;
      rankingAgentes := None;
    }

    /** Skips empty inputs; raises (as `KeyError`, state untouched) on an unknown
        service; otherwise stores both tables and the month names. */
    method ProcessAsignacionCartera(calendario: seq<CalendarRow>, asignacion: seq<AssignmentRow>)
      returns (outcome: Result<()>)
      modifies this
      ensures unchanged(`rankingAgentes)
      ensures calendario == [] || asignacion == [] ==> outcome == Ok(()) && asignacionCartera == old(asignacionCartera)
      ensures calendario != [] && asignacion != [] && Summarize(asignacion).KeyError? ==>
                outcome == KeyError(Summarize(asignacion).key) && asignacionCartera == old(asignacionCartera)
      ensures calendario != [] && asignacion != [] && Summarize(asignacion).Ok? ==>
                outcome == Ok(())
                && asignacionCartera == Some(AllocationData(Summarize(asignacion).value, CarteraOrder(asignacion),
                                                            ByVencimiento(calendario), DueDayOrder(calendario),
                                                            mesActual, mesAnterior))
    {
      if calendario == [] || asignacion == [] {
        return Ok(());
      }
      var summary, carteras := SummarizeAssignment(asignacion);
      if summary.KeyError? {
        return KeyError(summary.key);
      }
      var porVencimiento, vencimientos := SummarizeCalendar(calendario);
      asignacionCartera := Some(AllocationData(summary.value, carteras, porVencimiento, vencimientos,
                                               mesActual, mesAnterior));
      return Ok(());
    }

    /** Skips an empty contact table; otherwise stores the top-20 ranking. */
    method ProcessRankingAgentes(gestiones: seq<GestionRow>)
      modifies this
      ensures unchanged(`asignacionCartera)
      ensures gestiones == [] ==> rankingAgentes == old(rankingAgentes)
      ensures gestiones != [] ==> rankingAgentes == Some(Ranking(gestiones))
    {
      if gestiones == [] {
        return;
      }
      var top := BuildRanking(gestiones);
      rankingAgentes := Some(top);
    }
  }
}
