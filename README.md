# CND issuance and signing, modelled in Dafny

This project models the core of a Spring service that issues a condominium's
debt-clearance certificate (CND, *certidão negativa de débitos*):

- the issuance pipeline `UnidadeService.emitirCndPdf`, in the source's order:
  active-unit lookup, debt check, anti-fraud gate, validation code, unit data,
  PDF, save of a "PROCESSANDO" record, and scheduling of the signing;
- the anti-fraud gate and the code generator of `CndValidacaoService`;
- the signing step of `CndAssinaturaService`, which moves a record to
  "ASSINADO", or to "ERRO" when it throws;
- the read side: the validation report by code, the document download, and
  the controller's hash check;
- the client-address parsing of `CndController`.

The persisted `unidade_cnd` rows are datatype values in a map from id to row
(`Repositorios.Registros`). The store (`Emissao.Banco`) holds these rows, the
next identity value, and the ids whose signing was handed to the asynchronous
executor. Each operation is a transition function on the store, and the
lemmas state their properties.

The services also exist as a class, `Servicos.Aplicacao`, whose fields the
methods update in place. Each method is proved equal to its transition
function, so every property of the functions holds of the methods.
`@Transactional` is modelled as rollback: an exception anywhere in the
issuance leaves the store exactly as it was, the gate's counter increment
included.

Opaque parts are parameters:

- `sha256Hex` is any function from bytes to 64 lower-case hex characters
  (`Texto.Sha256Hex`).
- The RSA signature is an `Option<Bytes>`: `None` when loading the key or
  signing threw.
- The PDF renderer is a `GeradorPdf`: any function from the unit data and the
  code to bytes, or to `None` when it throws.
- The clock reading is `agora`, in whole seconds since 1970-01-01 local time.
- The random draw is `aleatorio < 1000`.

Some finder methods are declared to return a single `Optional`. The model
gives them three outcomes, none, one, or several (`Repositorios.Consulta`).
Several matches is an explicit error, `ResultadoNaoUnico`, which Spring Data
would throw.

The model follows the code in these points:

- A duplicate validation code is not retried. The insert fails on the unique
  column (`CodigoDuplicado`), and the transaction rolls back.
- The hash check compares case-sensitively and trims only the candidate.
- A failure inside `assinarDocumentoLocal` is swallowed. The record still
  becomes "ASSINADO", carrying the unsigned PDF. Only an exception in the
  outer step (a record without a PDF) gives "ERRO".
- Status values are the source's strings "PROCESSANDO", "ASSINADO" and "ERRO".

## Model

| member | source | states |
|---|---|---|
| Requisicao.RequisicaoPadrao | src/main/java/br/com/llz/cnd/dto/UnidadeCndRequest.java:7-9 | a fresh request has both options present and false, and the channel "WEB" |
| Requisicao.IsTrue | src/main/java/br/com/llz/cnd/dto/UnidadeCndRequest.java:11-13 | true exactly for a present `true`; null gives false |
| Requisicao.IsTrueIdempotente | src/main/java/br/com/llz/cnd/dto/UnidadeCndRequest.java:12 | `isTrue(isTrue(x)) == isTrue(x)` for every input, null included |
| Requisicao.BooleanToString | src/main/java/br/com/llz/cnd/service/CndValidacaoService.java:86 | a boxed Boolean prints as 4 or 5 ASCII characters with no `|` |
| Requisicao.BooleanToStringInjetivo | src/main/java/br/com/llz/cnd/service/CndValidacaoService.java:86 | distinct Boolean values (true, false, null) print differently |
| Entidades.NovaUnidadeCnd | src/main/java/br/com/llz/cnd/entity/UnidadeCnd.java:13-71 | a new record: status "PROCESSANDO", counter 1, `regAtivo`, both timestamps at construction time, signature fields, expiry and address absent |
| Repositorios.ConsultaUnica | src/main/java/br/com/llz/cnd/repository/UnidadeCndRepository.java:21 | a single-`Optional` finder: none iff no row matches, one only when that row is the only match, several iff two distinct rows match |
| Repositorios.FindByCodigoValidacao | src/main/java/br/com/llz/cnd/repository/UnidadeCndRepository.java:14 | the row with exactly that code, or none; never several while codes are unique |
| Repositorios.FindByUnidadeIdAndHashParametrosAndDtCriacaoAfter | src/main/java/br/com/llz/cnd/repository/UnidadeCndRepository.java:18-25 | matches only rows with equal unit, equal fingerprint and creation strictly after the limit; two matches give `Varios` |
| Repositorios.FindByIdAndRegAtivoIsTrue | src/main/java/br/com/llz/cnd/repository/UnidadeRepository.java:13 | the unit is found iff its id is present and `regAtivo` is true |
| Repositorios.IsUnidadeAdimplente | src/main/java/br/com/llz/cnd/repository/UnidadeRepository.java:15-17 | `COUNT > 0` holds iff a unit with that id and `regAtivo = true` exists |
| Repositorios.AtivaEntaoAdimplente | src/main/java/br/com/llz/cnd/repository/UnidadeRepository.java:13-17 | the active-unit lookup succeeds iff the debt predicate is true |
| Calendario.MaisDias | src/main/java/br/com/llz/cnd/service/UnidadeService.java:101 | `plusDays(n)` adds exactly n days of seconds |
| Calendario.FormatoYYMMDD | src/main/java/br/com/llz/cnd/service/CndValidacaoService.java:47 | six digits that read as the two-digit year, month and day of the instant |
| Calendario.FormatoDDMMYYYY | src/main/java/br/com/llz/cnd/service/UnidadeService.java:84 | day and month as two digits each, separated by `/`, then the year |
| Validacao.TextoParametrosInjetivo | src/main/java/br/com/llz/cnd/service/CndValidacaoService.java:85-86 | two fingerprint texts are equal iff unit, `comPeriodo` and `comAssinatura` are equal; the channel plays no part |
| Validacao.CalcularHash | src/main/java/br/com/llz/cnd/service/CndValidacaoService.java:85-88 | the fingerprint is a 64-character lower-case hex digest |
| Validacao.CalcularHashIgnoraCanal | src/main/java/br/com/llz/cnd/service/CndValidacaoService.java:85-88 | requests that differ only in the channel share the fingerprint |
| Validacao.Incrementado | src/main/java/br/com/llz/cnd/service/CndValidacaoService.java:39-41 | the counter of one row rises by exactly one; every other row and field is unchanged |
| Validacao.AntiFraude | src/main/java/br/com/llz/cnd/service/CndValidacaoService.java:25-43 | no row in the window gives Ok with nothing changed; several give the non-unique error; one with counter at 5 or more gives "Muitas tentativas"; one below 5 gives Ok with that counter raised by one; no other error |
| Validacao.AntiFraudeIgnoraCanalEIp | src/main/java/br/com/llz/cnd/service/CndValidacaoService.java:25-26 | the gate's decision and write do not depend on the channel or the caller's address |
| Validacao.GerarCodigoValidacao | src/main/java/br/com/llz/cnd/service/CndValidacaoService.java:45-50 | 12 characters: "CND", then yyMMdd of the instant, then the draw as three digits |
| Validacao.GerarCodigoValidacaoInjetivo | src/main/java/br/com/llz/cnd/service/CndValidacaoService.java:45-50 | equal codes mean equal draws and the same two-digit date |
| Validacao.Relatorio | src/main/java/br/com/llz/cnd/service/CndValidacaoService.java:56-69 | `valido` iff status "ASSINADO"; status, dates and signature data copied; document hash present iff a signed document exists, and then its digest; "N/A" fallbacks for a missing unit or condominium |
| Validacao.ValidarPorCodigo | src/main/java/br/com/llz/cnd/service/CndValidacaoService.java:52-70 | "CND não encontrada" iff no row has the code; otherwise the report of that row |
| Validacao.ObterDocumentoAssinado | src/main/java/br/com/llz/cnd/service/CndValidacaoService.java:72-83 | the signed document if present, else the PDF, else "Documento não disponível"; an unknown code fails |
| Assinatura.ArrayCopy | src/main/java/br/com/llz/cnd/service/CndAssinaturaService.java:95-96 | the destination range holds the source; the rest of the array is unchanged |
| Assinatura.DocumentoAssinado | src/main/java/br/com/llz/cnd/service/CndAssinaturaService.java:94-98 | the signed artifact is the document followed by the signature, of the summed length, or the document alone when signing failed |
| Assinatura.AssinarDocumentoLocal | src/main/java/br/com/llz/cnd/service/CndAssinaturaService.java:75-105 | the array filled by two copies equals the concatenation; a failure returns the input unchanged, null included |
| Assinatura.ObterHashDocumento | src/main/java/br/com/llz/cnd/service/CndAssinaturaService.java:107-109 | the document hash is a 64-character lower-case hex digest |
| Assinatura.ProcessarAssinatura | src/main/java/br/com/llz/cnd/service/CndAssinaturaService.java:37-73 | a missing id writes nothing; a record without a PDF becomes "ERRO" with nothing else changed; otherwise status "ASSINADO", signed document, signing time and signature data with hash of the signed document, whatever the previous status; no other record changes |
| Assinatura.FalhaDeAssinaturaAindaAssina | src/main/java/br/com/llz/cnd/service/CndAssinaturaService.java:100-104 | when the signature cannot be produced, the record still becomes "ASSINADO" with the unsigned PDF as its signed document |
| Emissao.ColetarDadosUnidade | src/main/java/br/com/llz/cnd/service/UnidadeService.java:69-89 | the three fixed due dates iff `comPeriodo`, else none; `comPeriodo` copied; validity 30 days ahead; a null `comPeriodo` throws |
| Emissao.EntidadeEmitida | src/main/java/br/com/llz/cnd/service/UnidadeService.java:91-102 | the saved record: code, unit, gate fingerprint, "PROCESSANDO", counter 1, channel, PDF, address, expiry 30 days after creation |
| Emissao.SalvarCndEmitida | src/main/java/br/com/llz/cnd/service/UnidadeService.java:91-105 | a null channel fails the not-null column; no errors other than the two column constraints; a success stores the record as built under the new id on top of the given rows |
| Emissao.SalvarRecusaCodigoDuplicado | src/main/java/br/com/llz/cnd/entity/UnidadeCnd.java:19-20 | with a channel present, the save fails on the unique column iff some stored row already has the code |
| Emissao.SalvarPreservaCodigosUnicos | src/main/java/br/com/llz/cnd/entity/UnidadeCnd.java:19-20 | a successful save keeps validation codes unique across rows |
| Emissao.EmitirCndPdf | src/main/java/br/com/llz/cnd/service/UnidadeService.java:29-67 | any failure leaves the whole store unchanged (transaction rollback) |
| Emissao.Etapas | src/main/java/br/com/llz/cnd/service/UnidadeService.java:32-66 | any step's failure leaves the store unchanged, the gate's write included |
| Emissao.EtapasOrdemDosPassos | src/main/java/br/com/llz/cnd/service/UnidadeService.java:32-57 | the first failing step decides the error, in the order unit, debt, gate, data, PDF, save; success iff every step passes |
| Emissao.EtapasConcluidas | src/main/java/br/com/llz/cnd/service/UnidadeService.java:32-57 | a success found the unit active and paid up, passed the gate, and is exactly the steps after the gate run on the gate's rows |
| Emissao.Concluir | src/main/java/br/com/llz/cnd/service/UnidadeService.java:45-66 | after the gate, a failure of the data, PDF or save step leaves the store as before the gate, with one of those steps' errors |
| Emissao.Gravar | src/main/java/br/com/llz/cnd/service/UnidadeService.java:54-66 | a refused save leaves the store as before the gate, with a column error; a success answers the code, takes the next id and queues it for signing |
| Emissao.ConcluirSucesso | src/main/java/br/com/llz/cnd/service/UnidadeService.java:45-66 | a success after the gate had unit data, a PDF, a channel and a fresh code, stored exactly the built record under the next id, queued it once, and answers the code, "PROCESSANDO", expiry 30 days on, the validation URL and the PDF's hash |
| Emissao.EmissaoNuncaRecusaPorDebito | src/main/java/br/com/llz/cnd/service/UnidadeService.java:35-39 | the debt rejection can never fire |
| Emissao.EtapasSucesso | src/main/java/br/com/llz/cnd/service/UnidadeService.java:54-66 | success adds exactly one record under the next id on top of the gate's rows, with all its fields as saved, and queues its signing once; the response repeats the code, "PROCESSANDO", the validation URL and the hash of the unsigned PDF |
| Emissao.AntiFraudePreservaRegistros | src/main/java/br/com/llz/cnd/service/CndValidacaoService.java:39-41 | the gate keeps every row's key and every field but the counter |
| Emissao.EntidadeEmitidaValida | src/main/java/br/com/llz/cnd/service/UnidadeService.java:94-102 | a record as saved satisfies the record invariant |
| Emissao.ContadoresPreservamBancoValido | src/main/java/br/com/llz/cnd/service/CndValidacaoService.java:40-41 | changing counters keeps the store invariant |
| Emissao.InsercaoPreservaBancoValido | src/main/java/br/com/llz/cnd/service/UnidadeService.java:104 | inserting a valid record with a fresh code under the next id, and queueing it, keeps the store invariant |
| Emissao.EtapasSucessoInsere | src/main/java/br/com/llz/cnd/service/UnidadeService.java:54-57 | a successful emission is such an insertion on top of the gate's rows |
| Emissao.EtapasPreservaBancoValido | src/main/java/br/com/llz/cnd/service/UnidadeService.java:30-67 | the steps keep the store invariant whenever the gate's write does |
| Emissao.EmissaoPreservaBancoValido | src/main/java/br/com/llz/cnd/service/UnidadeService.java:30-67 | emission keeps unique codes, ids below the next id, queued ids stored, and every record valid |
| Emissao.AssinaturaPreservaBancoValido | src/main/java/br/com/llz/cnd/service/CndAssinaturaService.java:37-73 | signing keeps the store invariant, including that "ASSINADO" carries a signed document |
| Controlador.DownloadCnd | src/main/java/br/com/llz/cnd/controller/CndController.java:51-64 | serves what the document lookup selects, named "cnd-" + code + ".pdf", with its exact length; the lookup's errors pass through |
| Controlador.ValidarHash | src/main/java/br/com/llz/cnd/controller/CndController.java:68-82 | true iff the download succeeds and its digest equals the trimmed candidate; never an error |
| Controlador.ValidarHashSemDocumento | src/main/java/br/com/llz/cnd/controller/CndController.java:73-81 | an unknown code, or a record without any document, gives false |
| Controlador.ValidarHashAceitaPreenchimento | src/main/java/br/com/llz/cnd/controller/CndController.java:76 | the served digest surrounded by whitespace validates |
| Controlador.ValidarHashSensivelAMaiusculas | src/main/java/br/com/llz/cnd/controller/CndController.java:76 | a trimmed candidate with an upper-case letter never validates |
| Controlador.GetClientIpAddress | src/main/java/br/com/llz/cnd/controller/CndController.java:84-96 | a non-empty X-Forwarded-For gives its first comma-separated element, trimmed, and fails only when it holds nothing but commas; otherwise a non-empty X-Real-IP verbatim; otherwise the remote address |
| Controlador.PrimeiroElementoDaCadeia | src/main/java/br/com/llz/cnd/controller/CndController.java:86-88 | the first element of a forwarding chain is taken, whatever follows it and whatever the other headers say |
| Controlador.CabecalhoSoDeVirgulas | src/main/java/br/com/llz/cnd/controller/CndController.java:86-88 | every non-empty X-Forwarded-For made only of commas throws instead of falling back, whatever X-Real-IP and the remote address are |
| Servicos.Aplicacao.ValidarAntiFraude | src/main/java/br/com/llz/cnd/service/CndValidacaoService.java:25-43 | the in-place gate leaves the rows equal to `AntiFraude`'s, succeeds iff it does, and keeps the store invariant when it held before |
| Servicos.Aplicacao.SalvarCndEmitida | src/main/java/br/com/llz/cnd/service/UnidadeService.java:91-105 | the in-place save answers the new id and leaves the rows equal to `SalvarCndEmitida`'s; on failure nothing changes |
| Servicos.Aplicacao.EmitirCndPdf | src/main/java/br/com/llz/cnd/service/UnidadeService.java:29-67 | the in-place pipeline, with snapshot rollback, leaves the store and the answer equal to `EmitirCndPdf`'s, and keeps the store invariant |
| Servicos.Aplicacao.ConcluirEmissao | src/main/java/br/com/llz/cnd/service/UnidadeService.java:45-57 | the in-place steps after the gate, restoring the pre-gate rows on failure, leave the store and the answer equal to `Concluir`'s |
| Servicos.Aplicacao.GravarEmissao | src/main/java/br/com/llz/cnd/service/UnidadeService.java:54-66 | the in-place save and scheduling, restoring the pre-gate rows on a refused save, leave the store and the answer equal to `Gravar`'s |
| Servicos.Aplicacao.ProcessarAssinaturaAsync | src/main/java/br/com/llz/cnd/service/CndAssinaturaService.java:36-73 | the in-place signing leaves the rows equal to `ProcessarAssinatura`'s and keeps the store invariant |
| Servicos.Aplicacao.ValidarCnd | src/main/java/br/com/llz/cnd/service/UnidadeService.java:107-109 | the report for a code, read-only; the only error is "CND não encontrada" |
| Servicos.Aplicacao.DownloadCnd | src/main/java/br/com/llz/cnd/service/UnidadeService.java:111-113 | the download for a code, read-only; errors are only unknown code and no document |
| Fraude.LimiteNuncaAtingido | src/main/java/br/com/llz/cnd/service/CndValidacaoService.java:35-37 | while counters are bounded by 2, "Muitas tentativas" never happens |
| Fraude.UnicoNaJanela | src/main/java/br/com/llz/cnd/repository/UnidadeCndRepository.java:18-21 | the only row in a window has counter at most 1 |
| Fraude.AssinaturaPreservaContadores | src/main/java/br/com/llz/cnd/service/CndAssinaturaService.java:55-60 | signing keeps counters bounded by 2 |
| Fraude.InsercaoPreservaContadores | src/main/java/br/com/llz/cnd/service/UnidadeService.java:54 | a new row with counter 1 keeps counters bounded by 2 |
| Fraude.IncrementoPreservaContadores | src/main/java/br/com/llz/cnd/service/CndValidacaoService.java:39-41 | raising a counter to 2, next to a new later row for the same request, keeps the bound |
| Fraude.AntiFraudeEInsercaoPreservamContadores | src/main/java/br/com/llz/cnd/service/UnidadeService.java:42-54 | the gate followed by the insert keeps counters bounded by 2 |
| Fraude.EmissaoAcrescentaPedido | src/main/java/br/com/llz/cnd/service/UnidadeService.java:42-54 | a successful emission passed the gate and added, under the next id, a row with counter 1 created now for the same unit and fingerprint |
| Fraude.EmissaoPreservaContadores | src/main/java/br/com/llz/cnd/service/UnidadeService.java:42-54 | emission as written keeps every counter at 2 or below, for requests in clock order |
| Fraude.PrimeiraEmissaoAbreJanela | src/main/java/br/com/llz/cnd/service/UnidadeService.java:42-54 | after a first emission, a repeat within the hour finds that single row and raises its counter |
| Fraude.SegundaEmissaoBloqueiaJanela | src/main/java/br/com/llz/cnd/repository/UnidadeCndRepository.java:21 | after an emission that passed a one-row window, the next matching request in that window fails with the non-unique result |
| Fraude.JanelaDoPedido | src/main/java/br/com/llz/cnd/repository/UnidadeCndRepository.java:18-20 | the ids of the rows in the request's one-hour window |
| Fraude.AntiFraudeCorrigida | src/main/java/br/com/llz/cnd/service/CndValidacaoService.java:22-42 | the intended gate: passes iff fewer than 5 rows lie in the window, writes nothing, and otherwise says "Muitas tentativas" |
| Fraude.EmitirCndPdfCorrigido | src/main/java/br/com/llz/cnd/service/UnidadeService.java:30-67 | emission with the intended gate; failures leave the store unchanged |
| Fraude.EmissaoCorrigidaRecusaNoLimite | src/main/java/br/com/llz/cnd/service/CndValidacaoService.java:22-42 | with the intended gate the non-unique error never happens, and an active unit with 5 rows in the window is refused with nothing changed |
| Fraude.InsercaoNaJanela | src/main/java/br/com/llz/cnd/service/UnidadeService.java:54 | storing a new row that lies in the window adds exactly its id to the window |
| Fraude.ConcluirAcrescentaJanela | src/main/java/br/com/llz/cnd/service/UnidadeService.java:45-57 | after the gate, a successful save adds exactly the new id to the request's window |
| Fraude.EmissaoCorrigidaAcrescentaJanela | src/main/java/br/com/llz/cnd/service/CndValidacaoService.java:22-42 | a successful emission with the intended gate adds exactly its own row to the window, which then holds at most 5 |
| Fraude.EmissaoCorrigidaPreservaBancoValido | src/main/java/br/com/llz/cnd/service/UnidadeService.java:30-67 | emission with the intended gate keeps the store invariant |
| Fraude.EmissaoCorrigidaLimitaJanela | src/main/java/br/com/llz/cnd/service/CndValidacaoService.java:22-42 | with the intended gate the non-unique error never happens; with 5 rows in the window an active unit is refused and nothing changes; a success adds exactly one row to the window, which then holds at most 5 |
| Fluxo.EmitidaAntesDeAssinar | src/main/java/br/com/llz/cnd/service/UnidadeService.java:59-66 | right after issuance the code reports "PROCESSANDO", not valid, without a hash; the download's digest is the response's hash, and the hash check accepts it |
| Fluxo.AssinadaDepoisDeAssinar | src/main/java/br/com/llz/cnd/service/CndAssinaturaService.java:45-60 | after signing, the report is valid and "ASSINADO"; its hash is the one in the signature data; the download serves the signed document; the hash check accepts the stored hash |

## Left out

- SHA-256, the PKCS12 key store and the SHA256withRSA signature are cryptographic library calls. They are parameters: an arbitrary hex digest function and a signature outcome.
- The PDF and QR rendering of `CndPdfService` is a foreign library. The renderer is an arbitrary function that may fail, and `calcularHashDocumento` is the same digest function.
- `@Async` and concurrency are left out. Signing runs as a separate, sequential step on the queued id. Interleavings, including two requests racing on the counter increment, are not modelled.
- Database failures other than the two constraints on the record (not-null channel, unique code) are not modelled.
- Identity values consumed by a rolled-back insert are not modelled. A failed emission leaves the next id unchanged.
- Entity identity and aliasing are not modelled. A saved entity is a value that replaces the row in the map. The columns `codigo_plataforma`, `usr_criacao` and `usr_alteracao` are not written by the core and are left out.
- `LocalDateTime` is modelled as whole seconds of local time. The signature data's `timestamp` is this instant, not its `toString` text.
- All `LocalDateTime.now()` calls of one request are modelled as one reading `agora`: the window limit (CndValidacaoService.java line 30), the code's date (line 47), the row's `dtCriacao` (UnidadeCnd.java line 53), `dtExpiracao` (UnidadeService.java line 101), `validadeDocumento` (line 84) and the response's dates (lines 62-63). The source reads the clock separately for each, so these may differ by the time between the calls. As a consequence, `Emissao.EntidadeEmitida` and the record invariant state `dtExpiracao` as exactly 30 days after `dtCriacao`. `Emissao.ConcluirSucesso` and `Emissao.EtapasSucesso` state that the response's `dataExpiracao` equals the row's `dtExpiracao`. `Fluxo.EmitidaAntesDeAssinar` states that the report's `dataEmissao` equals the response's. In the source these hold only up to the time between the readings.
- Calendario.FormatoYYMMDD: does not prove that month and day lie in 1..12 and 1..31, only that the printed digits are the date's fields modulo 100.
- Calendario.FormatoDDMMYYYY: states the day and month digits and separators only; the year is printed with as many digits as it has.
- HTTP plumbing, the Swagger annotations and logging are left out. Thrown exceptions are values of `Erros.Erro`.
- `CndPdfService`, the configuration classes and the other controllers are not part of this model.

## Findings

| source | as written | input that shows it | evidently intended | confidence | as-written member | corrected member |
|---|---|---|---|---|---|---|
| src/main/java/br/com/llz/cnd/repository/UnidadeCndRepository.java:21 | the gate looks up the window's row through a finder returning one `Optional`, while every request it lets through saves a further row for the same unit and fingerprint (UnidadeService.java lines 42 and 54); the window then holds two rows, the finder fails on a non-unique result, and no counter ever passes 2, so the limit of 5 is never reached | three requests for the same active unit with the same `comPeriodo` and `comAssinatura` within one hour: the first saves a row, the second finds it and saves another, the third fails with a non-unique result instead of counting attempts | at most 5 emissions per unit and parameters per hour, counted over the rows in the window, and then "Muitas tentativas" | not executed | Fraude.SegundaEmissaoBloqueiaJanela | Fraude.EmissaoCorrigidaLimitaJanela |
