/**
 * `CndController`: the download metadata, the hash check over the document a
 * download would serve, and the client address taken from the proxy headers.
 * HTTP plumbing is not modelled; a header is `None` when it is absent.
 */
module Controlador {
  import opened Wrappers
  import opened Erros
  import opened Texto
  import opened Entidades
  import opened Repositorios
  import opened Validacao

  /** A download answer: the attachment's file name, the declared length and the body. */
  datatype Download = Download(nomeArquivo: string, tamanho: nat, corpo: Bytes)

  /** `downloadCnd`: the document `obterDocumentoAssinado` selects, served as "cnd-<code>.pdf" with its exact length. */
  function DownloadCnd(r: Registros, codigo: string): (res: Result<Download, Erro>)
    ensures res.Ok? <==> ObterDocumentoAssinado(r, codigo).Ok?
    ensures res.Err? ==> res.error == ObterDocumentoAssinado(r, codigo).error
    ensures res.Ok? ==>
      && res.value.corpo == ObterDocumentoAssinado(r, codigo).value
      && res.value.tamanho == |res.value.corpo|
      && |res.value.nomeArquivo| == |codigo| + 8
      && res.value.nomeArquivo[..4] == "cnd-"
      && res.value.nomeArquivo[4..4 + |codigo|] == codigo
      && res.value.nomeArquivo[4 + |codigo|..] == ".pdf"
  {
    match ObterDocumentoAssinado(r, codigo)
    case Err(e) => Err(e)
    case Ok(pdf) => Ok(Download("cnd-" + codigo + ".pdf", |pdf|, pdf))
  }

  /**
   * `validarHash`: the digest of the document a download would serve, compared
   * with the candidate after trimming the candidate only; the comparison is
   * case-sensitive, and any failure to obtain the document answers `false`.
   */
  function ValidarHash(r: Registros, sha256Hex: Sha256Hex, codigo: string, hash: string): (valido: bool)
    ensures valido <==> DownloadCnd(r, codigo).Ok? && sha256Hex(DownloadCnd(r, codigo).value.corpo) == Trim(hash)
  {
    match ObterDocumentoAssinado(r, codigo)
    case Err(_) => false
    case Ok(documento) => sha256Hex(documento) == Trim(hash)
  }

  /** A code no row carries, or a row without any document, never validates. */
  lemma ValidarHashSemDocumento(r: Registros, sha256Hex: Sha256Hex, codigo: string, hash: string)
    requires CodigosUnicos(r)
    requires forall i :: i in r && r[i].codigoValidacao == codigo ==>
      r[i].documentoAssinado.None? && r[i].documentoPdf.None?
    ensures !ValidarHash(r, sha256Hex, codigo, hash)
  {
    if forall i :: i in r ==> r[i].codigoValidacao != codigo {
    } else {
      var i :| i in r && r[i].codigoValidacao == codigo;
      assert ObterDocumentoAssinado(r, codigo) == Err(DocumentoNaoDisponivel);
    }
  }

  /**
   * The digest of the served document, surrounded by any whitespace (a
   * trailing newline in the request body, say), validates.
   */
  lemma ValidarHashAceitaPreenchimento(r: Registros, sha256Hex: Sha256Hex, codigo: string, antes: string, depois: string)
    requires ObterDocumentoAssinado(r, codigo).Ok?
    requires SoEspacos(antes) && SoEspacos(depois)
    ensures ValidarHash(r, sha256Hex, codigo, antes + sha256Hex(ObterDocumentoAssinado(r, codigo).value) + depois)
  {
    var h := sha256Hex(ObterDocumentoAssinado(r, codigo).value);
    TrimRemovePreenchimento(antes, h, depois);
  }

  /**
   * The comparison is case-sensitive: a candidate holding an upper-case
   * letter once trimmed never validates, even when it names the right digest
   * in upper case.
   */
  lemma ValidarHashSensivelAMaiusculas(r: Registros, sha256Hex: Sha256Hex, codigo: string, hash: string, k: nat)
    requires k < |Trim(hash)| && 'A' <= Trim(hash)[k] <= 'Z'
    ensures !ValidarHash(r, sha256Hex, codigo, hash)
  {
  }

  /**
   * `getClientIpAddress`: the first comma-separated element of a non-empty
   * X-Forwarded-For, trimmed; else a non-empty X-Real-IP verbatim; else the
   * remote address. `split(",")` drops trailing empty elements, so a header
   * made only of commas splits into nothing and indexing it throws.
   */
  function GetClientIpAddress(xForwardedFor: Option<string>, xRealIp: Option<string>, remoteAddr: string): (res: Result<string, Erro>)
    ensures xForwardedFor.Some? && xForwardedFor.value != [] ==>
      var x := xForwardedFor.value;
      && (res.Err? <==> forall k :: 0 <= k < |x| ==> x[k] == ',')
      && (res.Err? ==> res.error == IndiceForaDoArray)
      && (res.Ok? ==> exists p :: |p| <= |x| && p == x[..|p|] && ',' !in p && (|p| < |x| ==> x[|p|] == ',') && res.value == Trim(p))
    ensures (xForwardedFor.None? || xForwardedFor.value == []) && xRealIp.Some? && xRealIp.value != [] ==>
      res == Ok(xRealIp.value)
    ensures (xForwardedFor.None? || xForwardedFor.value == []) && (xRealIp.None? || xRealIp.value == []) ==>
      res == Ok(remoteAddr)
    ensures res.Ok? && xForwardedFor.Some? && xForwardedFor.value != [] ==> ',' !in res.value
  {
    if xForwardedFor.Some? && xForwardedFor.value != [] then
      match PrimeiroDoSplit(xForwardedFor.value, ',')
      case None => Err(IndiceForaDoArray)
      case Some(primeiro) => TrimSemVirgula(primeiro); Ok(Trim(primeiro))
    else if xRealIp.Some? && xRealIp.value != [] then Ok(xRealIp.value)
    else Ok(remoteAddr)
  }

  /** Trimming keeps only characters of the original. */
  lemma TrimSemVirgula(s: string)
    requires ',' !in s
    ensures ',' !in Trim(s)
  {
    var i := TrimInicio(s);
    FatiaSemCaractere(s, ',', |s| - |i|, |s|);
    FatiaSemCaractere(i, ',', 0, |TrimFim(i)|);
  }

  /** A slice of a text without some character is without it too. */
  lemma FatiaSemCaractere(s: string, c: char, de: nat, ate: nat)
    requires c !in s && de <= ate <= |s|
    ensures c !in s[de..ate]
  {
  }

  /**
   * The first element of a forwarding chain is taken whatever follows it, and
   * the other headers are then ignored.
   */
  lemma PrimeiroElementoDaCadeia(primeiro: string, resto: string, xRealIp: Option<string>, remoteAddr: string)
    requires primeiro != [] && ',' !in primeiro
    ensures GetClientIpAddress(Some(primeiro + "," + resto), xRealIp, remoteAddr) == Ok(Trim(primeiro))
  {
    var x := primeiro + "," + resto;
    assert x[0] == primeiro[0] != ',';
    PrefixoAteSeparador(primeiro, ',', resto);
  }

  /**
   * A non-empty X-Forwarded-For made only of commas makes the lookup throw
   * instead of falling back, whatever the other headers say.
   */
  lemma CabecalhoSoDeVirgulas(xForwardedFor: string, xRealIp: Option<string>, remoteAddr: string)
    requires xForwardedFor != [] && forall k :: 0 <= k < |xForwardedFor| ==> xForwardedFor[k] == ','
    ensures GetClientIpAddress(Some(xForwardedFor), xRealIp, remoteAddr) == Err(IndiceForaDoArray)
  {
    assert PrimeiroDoSplit(xForwardedFor, ',') == None;
  }
}
