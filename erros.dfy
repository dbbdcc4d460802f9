/**
 * The exceptions the core can raise, one constructor per distinguishable
 * failure. Messages of the source are given in the comments.
 */
module Erros {
  datatype Erro =
    | UnidadeNaoEncontrada     // "Unidade não encontrada"
    | UnidadeComDebitos        // "Unidade possui débitos em aberto. CND não pode ser emitida."
    | MuitasTentativas         // "Muitas tentativas. Tente novamente em 60 minutos"
    | ResultadoNaoUnico        // a finder declared to return one Optional matched several rows
    | ValorNulo                // NullPointerException: a null Boolean unboxed
    | ErroGerarPdf             // "Erro ao gerar PDF da CND"
    | CodigoDuplicado          // unique constraint on codigo_validacao violated
    | ColunaObrigatoriaNula    // not-null constraint on canal_emissao violated
    | CndNaoEncontrada         // "CND não encontrada"
    | DocumentoNaoDisponivel   // "Documento não disponível"
    | IndiceForaDoArray        // ArrayIndexOutOfBoundsException
}
