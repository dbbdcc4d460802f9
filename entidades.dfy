/**
 * The persisted rows the core reads and writes. `UnidadeCnd` is the issuance
 * record; `Unidade` and `Condominio` are the parts of the unit table the core
 * looks at. A column declared `nullable = false` has a plain type here; every
 * other column that may be null is an `Option`.
 */
module Entidades {
  import opened Wrappers
  import opened Texto
  import opened Calendario

  const PROCESSANDO: string := "PROCESSANDO"
  const ASSINADO: string := "ASSINADO"
  const ERRO: string := "ERRO"

  const TENTATIVAS_INICIAIS: int := 1

  /** The JSON column `dados_assinatura`: the four keys the signing step writes. */
  datatype DadosAssinatura = DadosAssinatura(
    algoritmo: string,
    certificado: string,
    timestamp: Instante,
    hash: string)

  datatype UnidadeCnd = UnidadeCnd(
    codigoValidacao: string,
    unidadeId: int,
    hashParametros: string,
    status: string,
    canalEmissao: string,
    documentoPdf: Option<Bytes>,
    documentoAssinado: Option<Bytes>,
    dadosAssinatura: Option<DadosAssinatura>,
    dtCriacao: Instante,
    dtAssinatura: Option<Instante>,
    dtExpiracao: Option<Instante>,
    tentativasEmissao: int,
    ipOrigem: Option<string>,
    regAtivo: bool,
    dtAlteracao: Instante)

  /**
   * `new UnidadeCnd()` at instant `agora` followed by the setters of the four
   * non-null columns: the field initialisers give the status, the attempt
   * counter, the active flag and both timestamps; every other column is null.
   */
  function NovaUnidadeCnd(codigo: string, unidadeId: int, hashParametros: string, canal: string, agora: Instante): (c: UnidadeCnd)
    ensures c.codigoValidacao == codigo && c.unidadeId == unidadeId
    ensures c.hashParametros == hashParametros && c.canalEmissao == canal
    ensures c.status == PROCESSANDO && c.tentativasEmissao == 1 && c.regAtivo
    ensures c.dtCriacao == agora && c.dtAlteracao == agora
    ensures c.documentoPdf.None? && c.documentoAssinado.None? && c.dadosAssinatura.None?
    ensures c.dtAssinatura.None? && c.dtExpiracao.None? && c.ipOrigem.None?
  {
    UnidadeCnd(codigo, unidadeId, hashParametros, PROCESSANDO, canal,
               None, None, None, agora, None, None, TENTATIVAS_INICIAIS, None, true, agora)
  }

  datatype Condominio = Condominio(razaoSocial: string)

  /** A unit: its code, its optional block, its condominium (absent when the row is missing) and `reg_ativo`. */
  datatype Unidade = Unidade(
    codigo: string,
    bloco: Option<string>,
    condominio: Option<Condominio>,
    regAtivo: Option<bool>)
}
