/**
 * `CndAssinaturaService`: the local signing of a document (the document's
 * bytes followed by the signature's) and the signing step that moves a record
 * to "ASSINADO", or to "ERRO" when the step throws.
 *
 * Loading the PKCS12 key and computing the SHA256withRSA signature are not
 * modelled: the signing step receives their outcome as `assinatura`, the
 * signature bytes, or `None` when loading the key or signing threw.
 */
module Assinatura {
  import opened Wrappers
  import opened Texto
  import opened Calendario
  import opened Entidades
  import opened Repositorios

  const ALGORITMO: string := "SHA256withRSA"
  const CERTIFICADO: string := "CN=LLZ Garantidora, OU=TI, O=LLZ"

  /** `System.arraycopy(src, 0, dest, destPos, src.length)`. */
  method ArrayCopy(src: Bytes, dest: array<Byte>, destPos: nat)
    requires destPos + |src| <= dest.Length
    modifies dest
    ensures dest[destPos..destPos + |src|] == src
    ensures dest[..destPos] == old(dest[..destPos])
    ensures dest[destPos + |src|..] == old(dest[destPos + |src|..])
  {
    var i := 0;
    while i < |src|
      invariant 0 <= i <= |src|
      invariant dest[destPos..destPos + i] == src[..i]
      invariant dest[..destPos] == old(dest[..destPos])
      invariant dest[destPos + i..] == old(dest[destPos + i..])
    {
      dest[destPos + i] := src[i];
      i := i + 1;
    }
  }

  /** The signed artifact: the document followed by the signature, or the document alone when signing failed. */
  function DocumentoAssinado(documento: Bytes, assinatura: Option<Bytes>): (r: Bytes)
    ensures assinatura.None? ==> r == documento
    ensures assinatura.Some? ==> |r| == |documento| + |assinatura.value|
    ensures assinatura.Some? ==> r[..|documento|] == documento && r[|documento|..] == assinatura.value
  {
    if assinatura.Some? then documento + assinatura.value else documento
  }

  /**
   * `assinarDocumentoLocal`: a new array filled by two copies, the document
   * and then the signature. When the key or the signature could not be
   * obtained, or the document is null, the exception is swallowed and the
   * document itself (possibly null) is returned.
   */
  method AssinarDocumentoLocal(documento: Option<Bytes>, assinatura: Option<Bytes>) returns (r: Option<Bytes>)
    ensures documento.None? ==> r.None?
    ensures documento.Some? ==> r == Some(DocumentoAssinado(documento.value, assinatura))
  {
    if documento.None? || assinatura.None? {
      return documento;
    }
    var doc, sig := documento.value, assinatura.value;
    var documentoAssinado := new Byte[|doc| + |sig|];
    ArrayCopy(doc, documentoAssinado, 0);
    ArrayCopy(sig, documentoAssinado, |doc|);
    assert documentoAssinado[..] == documentoAssinado[..|doc|] + documentoAssinado[|doc|..|doc| + |sig|];
    return Some(documentoAssinado[..]);
  }

  /** `obterHashDocumento`: the hex SHA-256 of a document. */
  function ObterHashDocumento(sha256Hex: Sha256Hex, documento: Bytes): (h: string)
    ensures HexMinusculo(h)
  {
    sha256Hex(documento)
  }

  /** What the signing step writes into a row when it succeeds: the four signature fields and the status. */
  function RegistroAssinado(cnd: UnidadeCnd, documentoAssinado: Bytes, sha256Hex: Sha256Hex, agora: Instante): UnidadeCnd
  {
    var dados := DadosAssinatura(ALGORITMO, CERTIFICADO, agora, ObterHashDocumento(sha256Hex, documentoAssinado));
    cnd.(documentoAssinado := Some(documentoAssinado), status := ASSINADO, dtAssinatura := Some(agora), dadosAssinatura := Some(dados))
  }

  /**
   * `processarAssinaturaAsync` as a function of the stored rows. A missing id
   * writes nothing. A row without a PDF makes the hash of the (null) signed
   * document throw, and the handler reloads the row and saves it with status
   * "ERRO". Otherwise the row is saved signed, whatever its current status.
   */
  function ProcessarAssinatura(r: Registros, cndId: int, assinatura: Option<Bytes>, sha256Hex: Sha256Hex, agora: Instante): (r': Registros)
    ensures cndId !in r ==> r' == r
    ensures r'.Keys == r.Keys
    ensures forall j :: j in r && j != cndId ==> r'[j] == r[j]
    ensures cndId in r && r[cndId].documentoPdf.None? ==> r'[cndId] == r[cndId].(status := ERRO)
    ensures cndId in r && r[cndId].documentoPdf.Some? ==>
      var cnd, doc := r'[cndId], DocumentoAssinado(r[cndId].documentoPdf.value, assinatura);
      && cnd.status == ASSINADO
      && cnd.documentoAssinado == Some(doc)
      && cnd.dtAssinatura == Some(agora)
      && cnd.dadosAssinatura == Some(DadosAssinatura(ALGORITMO, CERTIFICADO, agora, sha256Hex(doc)))
      && cnd == r[cndId].(status := ASSINADO, documentoAssinado := cnd.documentoAssinado,
                          dtAssinatura := cnd.dtAssinatura, dadosAssinatura := cnd.dadosAssinatura)
    ensures cndId in r ==> r'[cndId].status == ASSINADO || r'[cndId].status == ERRO
  {
    if cndId !in r then r
    else
      var cnd := r[cndId];
      match cnd.documentoPdf
      case None => r[cndId := cnd.(status := ERRO)]
      case Some(pdf) => r[cndId := RegistroAssinado(cnd, DocumentoAssinado(pdf, assinatura), sha256Hex, agora)]
  }

  /** When the signature cannot be produced the row is still marked "ASSINADO", carrying the unsigned PDF. */
  lemma FalhaDeAssinaturaAindaAssina(r: Registros, cndId: int, sha256Hex: Sha256Hex, agora: Instante)
    requires cndId in r && r[cndId].documentoPdf.Some?
    ensures var r' := ProcessarAssinatura(r, cndId, None, sha256Hex, agora);
      r'[cndId].status == ASSINADO && r'[cndId].documentoAssinado == r[cndId].documentoPdf
  {
  }
}
