/** The manageable universe (`create_universo_gestionable`) and the marking of
    units assigned more than once (`resolve_duplicated_cod_lunas`). */
module Universe {
  import opened Common
  import opened Relational

  /** A row of the assignment table: an account of a unit (cod_luna) in one portfolio file. */
  datatype Assignment = Assignment(cliente: string, cuenta: string, codLuna: string, negocio: string, archivo: string)

  /** A row of the current-debt table. */
  datatype Debt = Debt(codCuenta: string, nroDocumento: string, fechaVencimiento: int, montoExigible: int, archivo: string)

  /** The `(cuenta, cod_luna)` columns of an assignment row. */
  datatype AccountLink = AccountLink(cuenta: string, codLuna: string)

  /** A row of the manageable universe: a debt row merged with a matching account link. */
  datatype ManageableRow = ManageableRow(debt: Debt, link: AccountLink)

  function LinkOf(a: Assignment): AccountLink {
    AccountLink(a.cuenta, a.codLuna)
  }

  function DebtAccount(d: Debt): string {
    d.codCuenta
  }

  function LinkAccount(k: AccountLink): string {
    k.cuenta
  }

  /** `asignacion_df[['cuenta', 'cod_luna']].drop_duplicates()`. */
  function AccountLinks(asig: seq<Assignment>): seq<AccountLink>
  {
    DistinctProjection(asig, LinkOf)
  }

  function ToRows(j: seq<(Debt, AccountLink)>): (rows: seq<ManageableRow>)
    ensures |rows| == |j|
  {
    if j == [] then [] else [ManageableRow(j[0].0, j[0].1)] + ToRows(j[1..])
  }

  lemma {:induction false} ToRowsMultiplicity(j: seq<(Debt, AccountLink)>, row: ManageableRow)
    ensures multiset(ToRows(j))[row] == multiset(j)[(row.debt, row.link)]
  {
    if j != [] {
      ToRowsMultiplicity(j[1..], row);
      assert j == [j[0]] + j[1..];
      assert multiset(j) == multiset([j[0]]) + multiset(j[1..]);
      assert multiset(ToRows(j)) == multiset([ManageableRow(j[0].0, j[0].1)]) + multiset(ToRows(j[1..]));
    }
  }

  /** `deuda_df.merge(cuenta_luna_map, left_on='cod_cuenta', right_on='cuenta', how='inner')`. */
  function CreateUniversoGestionable(asig: seq<Assignment>, deudas: seq<Debt>): seq<ManageableRow>
  {
    ToRows(InnerJoin(deudas, AccountLinks(asig), DebtAccount, LinkAccount))
  }

  lemma ToRowsMember(j: seq<(Debt, AccountLink)>, row: ManageableRow)
    ensures row in ToRows(j) <==> (row.debt, row.link) in j
  {
    ToRowsMultiplicity(j, row);
  }

  /** A universe row is a debt row together with an assignment link of the same account;
      debts whose account is not assigned produce no row. */
  lemma UniversoMember(asig: seq<Assignment>, deudas: seq<Debt>, row: ManageableRow)
    ensures row in CreateUniversoGestionable(asig, deudas)
        <==> row.debt in deudas && row.link.cuenta == row.debt.codCuenta
             && exists i :: 0 <= i < |asig| && LinkOf(asig[i]) == row.link
  {
    var links := AccountLinks(asig);
    ToRowsMember(InnerJoin(deudas, links, DebtAccount, LinkAccount), row);
    JoinMember(deudas, links, DebtAccount, LinkAccount, row.debt, row.link);
  }

  /** One row per copy of a debt row and per distinct matching `(cuenta, cod_luna)` pair. */
  lemma UniversoMultiplicity(asig: seq<Assignment>, deudas: seq<Debt>, row: ManageableRow)
    ensures multiset(CreateUniversoGestionable(asig, deudas))[row]
         == if row.link in AccountLinks(asig) && row.link.cuenta == row.debt.codCuenta
            then multiset(deudas)[row.debt] else 0
  {
    var links := AccountLinks(asig);
    ToRowsMultiplicity(InnerJoin(deudas, links, DebtAccount, LinkAccount), row);
    JoinMultiplicity(deudas, links, DebtAccount, LinkAccount, row.debt, row.link);
    NoDupOccursOnce(links, row.link);
  }

  // ---------------------------------------------------------------------------
  // resolve_duplicated_cod_lunas
  // ---------------------------------------------------------------------------

  lemma OccursElsewhere(s: seq<string>, i: int)
    requires 0 <= i < |s|
    ensures multiset(s)[s[i]] > 1 <==> exists j :: 0 <= j < |s| && j != i && s[j] == s[i]
  {
    assert s == s[..i] + [s[i]] + s[i + 1..];
    assert multiset(s) == multiset(s[..i]) + multiset([s[i]]) + multiset(s[i + 1..]);
    if multiset(s)[s[i]] > 1 {
      if s[i] in s[..i] {
        var j :| 0 <= j < i && s[..i][j] == s[i];
      } else {
        assert s[i] in multiset(s[i + 1..]);
        var k :| 0 <= k < |s[i + 1..]| && s[i + 1..][k] == s[i];
        assert s[i + 1 + k] == s[i];
      }
    }
    if exists j :: 0 <= j < |s| && j != i && s[j] == s[i] {
      var j :| 0 <= j < |s| && j != i && s[j] == s[i];
      if j < i {
        assert s[..i][j] == s[i];
      } else {
        assert s[i + 1..][j - i - 1] == s[i];
      }
    }
  }

  /** `duplicated(subset=['cod_luna'], keep=False)`: true for every copy of a repeated value. */
  function DuplicatedMask(lunas: seq<string>): (m: seq<bool>)
    ensures |m| == |lunas|
    ensures forall i :: 0 <= i < |lunas| ==>
              (m[i] <==> exists j :: 0 <= j < |lunas| && j != i && lunas[j] == lunas[i])
  {
    assert forall i :: 0 <= i < |lunas| ==>
             (multiset(lunas)[lunas[i]] > 1 <==> exists j :: 0 <= j < |lunas| && j != i && lunas[j] == lunas[i]) by {
      forall i | 0 <= i < |lunas| {
        OccursElsewhere(lunas, i);
      }
    }
    seq(|lunas|, i requires 0 <= i < |lunas| => multiset(lunas)[lunas[i]] > 1)
  }

  /** The assignment DataFrame, to which `resolve_duplicated_cod_lunas` adds a column. */
  class AssignmentFrame {
    var rows: seq<Assignment>
    /** The `es_duplicado` column; None while the frame does not have it. */
    var esDuplicado: Option<seq<bool>>

    constructor (rows: seq<Assignment>)
      ensures this.rows == rows && esDuplicado == None
    {
      this.rows := rows;
      esDuplicado := None;
    }

    /** Adds `es_duplicado`, true exactly on rows whose cod_luna another row shares;
        the rows themselves are left as they were. */
    method ResolveDuplicatedCodLunas()
      modifies this
      ensures rows == old(rows)
      ensures esDuplicado.Some? && |esDuplicado.value| == |rows|
      ensures forall i :: 0 <= i < |rows| ==>
                (esDuplicado.value[i] <==> exists j :: 0 <= j < |rows| && j != i && rows[j].codLuna == rows[i].codLuna)
    {
      var current := rows;
      var lunas := seq(|current|, i requires 0 <= i < |current| => current[i].codLuna);
      var mask := DuplicatedMask(lunas);
      forall i | 0 <= i < |current|
        ensures mask[i] <==> exists j :: 0 <= j < |current| && j != i && current[j].codLuna == current[i].codLuna
      {
        if exists j :: 0 <= j < |current| && j != i && current[j].codLuna == current[i].codLuna {
          var j :| 0 <= j < |current| && j != i && current[j].codLuna == current[i].codLuna;
          assert lunas[j] == lunas[i];
        }
      }
      esDuplicado := Some(mask);
    }
  }
}
