/**
 * The two Spring Data repositories, as read-only queries over the tables:
 * `UnidadeCndRepository` over the issuance records (a map from id to row) and
 * `UnidadeRepository` over the units. Writes go through `save`, which the
 * services perform by replacing a row in the map.
 */
module Repositorios {
  import opened Wrappers
  import opened Requisicao
  import opened Entidades

  type Registros = map<int, UnidadeCnd>
  type Unidades = map<int, Unidade>

  /**
   * The outcome of a finder declared to return one `Optional`: no row, one
   * row, or several rows, where Spring Data throws instead of choosing.
   */
  datatype Consulta = Nenhum | Um(id: int) | Varios

  function ConsultaUnica(r: Registros, p: UnidadeCnd -> bool): (c: Consulta)
    ensures c == Nenhum <==> forall i :: i in r ==> !p(r[i])
    ensures c.Um? ==> c.id in r && p(r[c.id]) && forall j :: j in r && p(r[j]) ==> j == c.id
    ensures c == Varios <==> exists i, j :: i in r && j in r && i != j && p(r[i]) && p(r[j])
  {
    if exists i, j :: i in r && j in r && i != j && p(r[i]) && p(r[j]) then Varios
    else if exists i :: i in r && p(r[i]) then
      var i :| i in r && p(r[i]);
      Um(i)
    else Nenhum
  }

  /** The unique constraint on `codigo_validacao`. */
  ghost predicate CodigosUnicos(r: Registros)
  {
    forall i, j :: i in r && j in r && r[i].codigoValidacao == r[j].codigoValidacao ==> i == j
  }

  /** `findByCodigoValidacao`: the row with exactly that code; never several while the column is unique. */
  function FindByCodigoValidacao(r: Registros, codigo: string): (c: Consulta)
    ensures c == Nenhum <==> forall i :: i in r ==> r[i].codigoValidacao != codigo
    ensures c.Um? ==> c.id in r && r[c.id].codigoValidacao == codigo
    ensures CodigosUnicos(r) ==> c != Varios
    ensures CodigosUnicos(r) ==> forall i :: i in r && r[i].codigoValidacao == codigo ==> c == Um(i)
  {
    ConsultaUnica(r, (c: UnidadeCnd) => c.codigoValidacao == codigo)
  }

  /** The row lies in the anti-fraud window: same unit, same fingerprint, created strictly after `limite`. */
  predicate NaJanela(c: UnidadeCnd, unidadeId: int, hashParametros: string, limite: int)
  {
    c.unidadeId == unidadeId && c.hashParametros == hashParametros && c.dtCriacao > limite
  }

  /** The JPQL window query, declared to return a single `Optional`. */
  function FindByUnidadeIdAndHashParametrosAndDtCriacaoAfter(
    r: Registros, unidadeId: int, hashParametros: string, dataLimite: int): (c: Consulta)
    ensures c == Nenhum <==> forall i :: i in r ==> !NaJanela(r[i], unidadeId, hashParametros, dataLimite)
    ensures c.Um? ==> c.id in r && NaJanela(r[c.id], unidadeId, hashParametros, dataLimite)
    ensures c.Um? ==> forall j :: j in r && NaJanela(r[j], unidadeId, hashParametros, dataLimite) ==> j == c.id
    ensures c == Varios <==> (exists i, j :: (i in r && j in r && i != j &&
                                             NaJanela(r[i], unidadeId, hashParametros, dataLimite) &&
                                             NaJanela(r[j], unidadeId, hashParametros, dataLimite)))
  {
    ConsultaUnica(r, (c: UnidadeCnd) => NaJanela(c, unidadeId, hashParametros, dataLimite))
  }

  /** `findByIdAndRegAtivoIsTrue`: the unit with that id, only while `reg_ativo` is true. */
  function FindByIdAndRegAtivoIsTrue(us: Unidades, id: int): (u: Option<Unidade>)
    ensures u.Some? <==> id in us && us[id].regAtivo == Some(true)
    ensures u.Some? ==> u.value == us[id]
  {
    if id in us && IsTrue(us[id].regAtivo) then Some(us[id]) else None
  }

  /** `isUnidadeAdimplente`: `COUNT(u) > 0` over the units with that id and `reg_ativo = true`. */
  function IsUnidadeAdimplente(us: Unidades, id: int): (b: bool)
    ensures b <==> id in us && us[id].regAtivo == Some(true)
  {
    var linhas := set k | k in us && k == id && IsTrue(us[k].regAtivo);
    if id in us && IsTrue(us[id].regAtivo) then
      assert id in linhas;
      |linhas| > 0
    else
      assert linhas == {};
      |linhas| > 0
  }

  /** Whenever the active-unit lookup finds the unit, the debt check passes: it queries the same rows. */
  lemma AtivaEntaoAdimplente(us: Unidades, id: int)
    ensures FindByIdAndRegAtivoIsTrue(us, id).Some? <==> IsUnidadeAdimplente(us, id)
  {
  }
}
