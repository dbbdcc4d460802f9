/**
 * The issuance request body (`UnidadeCndRequest`). Its fields are boxed Java
 * values: a client may send JSON `null` for any of them, which is `None` here.
 */
module Requisicao {
  import opened Wrappers
  import opened Texto

  datatype UnidadeCndRequest = UnidadeCndRequest(
    comAssinatura: Option<bool>,
    comPeriodo: Option<bool>,
    canalEmissao: Option<string>)

  const CANAL_PADRAO: string := "WEB"

  /** A request with no field sent: both options off and the "WEB" channel. */
  function RequisicaoPadrao(): (r: UnidadeCndRequest)
    ensures r.comAssinatura.Some? && !IsTrue(r.comAssinatura)
    ensures r.comPeriodo.Some? && !IsTrue(r.comPeriodo)
    ensures r.canalEmissao == Some("WEB")
  {
    UnidadeCndRequest(Some(false), Some(false), Some(CANAL_PADRAO))
  }

  /** `Boolean.TRUE.equals(param)`: true only for a present `true`. */
  function IsTrue(param: Option<bool>): (r: bool)
    ensures r <==> param == Some(true)
    ensures param.None? ==> !r
  {
    match param
    case Some(v) => v
    case None => false
  }

  lemma IsTrueIdempotente(param: Option<bool>)
    ensures IsTrue(Some(IsTrue(param))) == IsTrue(param)
  {
  }

  /** `String.valueOf` of a boxed `Boolean`, as string concatenation writes it. */
  function BooleanToString(b: Option<bool>): (s: string)
    ensures Ascii(s) && '|' !in s && 4 <= |s| <= 5
  {
    match b
    case Some(true) => "true"
    case Some(false) => "false"
    case None => "null"
  }

  lemma BooleanToStringInjetivo(a: Option<bool>, b: Option<bool>)
    requires BooleanToString(a) == BooleanToString(b)
    ensures a == b
  {
  }
}
