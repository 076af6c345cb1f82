# Cadastro de Pessoas — verified model of the validation and mapping core

A Dafny model of the back-end core of a Spring Boot person registry ("cadastro de pessoas"). A
Pessoa has one address (Endereco) and one phone contact (Contato). The model covers:

- **Validation pipelines.** IncluirPessoaRegras, AlterarPessoaRegras and DeletarPessoaRegras run
  fixed, fail-fast sequences of checks, each with its exact message. The name is trimmed in place,
  and the service is called only when every check passes.
- **The phone mask** `\(\d{2}\) \d{4,5}-\d{4}` of TelefoneEnum, written as a recognizer. Beside
  it are the two Angular `formatarTelefone` functions that produce phones in that form.
- **The duplicate-phone queries** of PessoaDataRepository, with SQL's null semantics, and the
  lookups, listing and "not found" behaviour of PessoaRepositoryImpl and PessoaService.
- **The mappers and DTO conversions**: null-preserving field copies between domain objects,
  persistence rows and DTOs.

How the source's constructs appear in the model:

- Java `null` is `Option.None`.
- A `Long` is the 64-bit newtype `Entidades.Long`.
- A thrown exception is the `Erro` value returned in a `Result` or `Outcome`.
- `Pessoa` is a class, because the rules call `setNome` on the caller's object. Every other
  entity is a datatype, so a mapped or converted value never shares state with its source.
- The name and phone checks are word-for-word the same in IncluirPessoaRegras and
  AlterarPessoaRegras. They are defined once, in module `RegrasPessoa`, and both pipelines use
  them. Rows citing IncluirPessoaRegras.java for those checks stand equally for the same methods of
  AlterarPessoaRegras.java (lines 50-122).

Two behaviours of the name checks that the proofs make explicit:

- **The length limit applies to the untrimmed name.** A name of ten letters and one trailing space
  is refused, although its trim has ten characters (`RegrasPessoa.LimiteAntesDoTrim`).
- **A name that passes can trim to empty.**
  `isBlank` and `trim` use different character sets: a name made of U+0001 passes both checks and
  is then trimmed to the empty string (`RegrasPessoa.ControleViraVazio`).

Other behaviour the proofs make explicit:

- **An update without an id is never a duplicate.** SQL's `id <> null` is never true, so the
  self-excluding query finds nothing (`RegrasPessoa.AlteracaoSemId`).
- **The insert-screen formatter is not idempotent.** It re-slices an already formatted phone
  (`PessoaCadastrarComponent.NaoIdempotente`). The edit-screen formatter is idempotent.

## Model

| member | source | states |
|---|---|---|
| `Entidades.Pessoa.constructor` | aplicacao/aplicacao/src/main/java/br/com/aplicacao/cadastro/pessoa/dominio/entidade/Pessoa.java:19-30 | the all-arguments constructor (and builder) sets the four fields to the given values |
| `Entidades.Pessoa.ComId` | aplicacao/aplicacao/src/main/java/br/com/aplicacao/cadastro/pessoa/dominio/entidade/Pessoa.java:37-39 | `new Pessoa(id)` has that id and null nome, endereco and contato |
| `JavaText.IsBlankIff` | aplicacao/aplicacao/src/main/java/br/com/aplicacao/cadastro/pessoa/dominio/regras/IncluirPessoaRegras.java:62 | `isBlank`'s scan is true exactly when every character is `Character.isWhitespace` |
| `JavaText.TrimStart` | aplicacao/aplicacao/src/main/java/br/com/aplicacao/cadastro/pessoa/dominio/regras/IncluirPessoaRegras.java:85 | the first half of `trim` leaves a suffix of the input |
| `JavaText.TrimEnd` | aplicacao/aplicacao/src/main/java/br/com/aplicacao/cadastro/pessoa/dominio/regras/IncluirPessoaRegras.java:85 | the second half of `trim` leaves a prefix of the input |
| `JavaText.TrimSpec` | aplicacao/aplicacao/src/main/java/br/com/aplicacao/cadastro/pessoa/dominio/regras/IncluirPessoaRegras.java:85 | `trim` keeps a contiguous piece of the input (inner spaces stay), cuts only characters at most U+0020, and leaves none at either end |
| `JavaText.TrimIdempotent` | aplicacao/aplicacao/src/main/java/br/com/aplicacao/cadastro/pessoa/dominio/regras/IncluirPessoaRegras.java:85 | trimming twice is trimming once |
| `JavaText.TrimVazioSse` | aplicacao/aplicacao/src/main/java/br/com/aplicacao/cadastro/pessoa/dominio/regras/IncluirPessoaRegras.java:85 | `trim` gives "" exactly when every character is at most U+0020 |
| `JavaText.Substring` | aplicacao/frontend/app/src/app/cadastro/pessoa/pessoa-editar/pessoa-editar/pessoa-editar.component.ts:41 | JavaScript `substring`: arguments clamped to the length and swapped when reversed; within range it is the slice |
| `TelefoneEnum.MontarAceito` | aplicacao/aplicacao/src/main/java/br/com/aplicacao/cadastro/contato/dominio/enums/TelefoneEnum.java:21 | "(" + 2 digits + ") " + 4 or 5 digits + "-" + 4 digits matches the mask |
| `TelefoneEnum.AceitoMontar` | aplicacao/aplicacao/src/main/java/br/com/aplicacao/cadastro/contato/dominio/enums/TelefoneEnum.java:21 | every string the mask accepts has length 14 or 15 and is exactly such a layout of its own digit groups |
| `TelefoneEnum.MontarAceitoSse` | aplicacao/aplicacao/src/main/java/br/com/aplicacao/cadastro/contato/dominio/enums/TelefoneEnum.java:21 | for groups of lengths 2, 4-or-5 and 4, the layout matches exactly when all three are ASCII digits |
| `TelefoneEnum.RemoverPontuacaoMontar` | aplicacao/aplicacao/src/main/java/br/com/aplicacao/cadastro/contato/dominio/enums/TelefoneEnum.java:21 | removing "(", ")", " " and "-" from the layout gives the three groups, each stripped |
| `TelefoneEnum.AceitoTamanhoEDigitos` | aplicacao/aplicacao/src/main/java/br/com/aplicacao/cadastro/contato/dominio/enums/TelefoneEnum.java:21 | an accepted phone has length 14 or 15, holds exactly length-4 (10 or 11) digits, and stripping it leaves only those digits |
| `TelefoneEnum.ExemplosAceitos` | aplicacao/aplicacao/src/test/java/br/com/aplicacao/cadastro/pessoa/dominio/regras/IncluirPessoaRegrasTest.java:695-721 | "(12) 3456-7890" and "(12) 34567-8901" are accepted |
| `TelefoneEnum.ExemplosRejeitados` | aplicacao/aplicacao/src/test/java/br/com/aplicacao/cadastro/pessoa/dominio/regras/IncluirPessoaRegrasTest.java:723-777 | missing parentheses or hyphen, a 6-digit middle, a 3-digit end, a letter, a doubled space, outer spaces and bare digits are all refused |
| `PessoaEditarComponent.FormatarTelefone` | aplicacao/frontend/app/src/app/cadastro/pessoa/pessoa-editar/pessoa-editar/pessoa-editar.component.ts:39-47 | 10 or 11 characters: the output is 4 longer and has the same characters once punctuation is removed; any other length, or null, is returned unchanged |
| `PessoaEditarComponent.Cortes` | aplicacao/frontend/app/src/app/cadastro/pessoa/pessoa-editar/pessoa-editar/pessoa-editar.component.ts:40-43 | the groups are characters 0-2, 2-6 and 6-10 for length 10, and 0-2, 2-7 and 7-11 for length 11 |
| `PessoaEditarComponent.FormatadoAceitoSse` | aplicacao/frontend/app/src/app/cadastro/pessoa/pessoa-editar/pessoa-editar/pessoa-editar.component.ts:40-43 | for 10 or 11 characters, the mask accepts the output exactly when the input is all digits, and stripping the output then gives the input back |
| `PessoaEditarComponent.Idempotente` | aplicacao/frontend/app/src/app/cadastro/pessoa/pessoa-editar/pessoa-editar/pessoa-editar.component.ts:39-47 | formatting twice equals formatting once |
| `PessoaEditarComponent.MascaraSseFormatado` | aplicacao/frontend/app/src/app/cadastro/pessoa/pessoa-editar/pessoa-editar/pessoa-editar.component.ts:40-43 | a string matches the mask exactly when it is the formatting of 10 or 11 digits (namely its own digits) |
| `PessoaCadastrarComponent.FormatarTelefone` | aplicacao/frontend/app/src/app/cadastro/pessoa/pessoa-cadastrar/pessoa-cadastrar/pessoa-cadastrar.component.ts:34-40 | output length 14 for 10 characters, otherwise 4 + min(length, 11) (clamped slicing) |
| `PessoaCadastrarComponent.IgualAoEditar` | aplicacao/frontend/app/src/app/cadastro/pessoa/pessoa-cadastrar/pessoa-cadastrar/pessoa-cadastrar.component.ts:34-40 | for 10 or 11 characters both screens' formatters agree |
| `PessoaCadastrarComponent.Trunca` | aplicacao/frontend/app/src/app/cadastro/pessoa/pessoa-cadastrar/pessoa-cadastrar/pessoa-cadastrar.component.ts:37-39 | characters past the eleventh never reach the output |
| `PessoaCadastrarComponent.AceitoSse` | aplicacao/frontend/app/src/app/cadastro/pessoa/pessoa-cadastrar/pessoa-cadastrar/pessoa-cadastrar.component.ts:34-40 | the output passes the mask exactly when the input is 10 digits, or its first 11 characters are digits |
| `PessoaCadastrarComponent.NaoIdempotente` | aplicacao/frontend/app/src/app/cadastro/pessoa/pessoa-cadastrar/pessoa-cadastrar/pessoa-cadastrar.component.ts:37-39 | an already formatted phone is re-sliced into "((1) 2) 34-56-7", which the mask refuses |
| `BaseMapper.Mapear` | aplicacao/aplicacao/src/main/java/br/com/aplicacao/core/BaseMapper.java:70 | the stream map keeps length and order, element i mapped from element i |
| `BaseMapper.MapearLista` | aplicacao/aplicacao/src/main/java/br/com/aplicacao/core/BaseMapper.java:68-70 | null or empty list gives an empty list, otherwise the element-wise mapping |
| `BaseMapper.MapearConjunto` | aplicacao/aplicacao/src/main/java/br/com/aplicacao/core/BaseMapper.java:92-94 | null or empty set gives an empty set, otherwise exactly the image of the set |
| `BaseMapper.ListaIdaEVolta` | aplicacao/aplicacao/src/main/java/br/com/aplicacao/core/BaseMapper.java:68-82 | when the element mappings are inverse, the list round trip gives the list back |
| `BaseMapper.ConjuntoIdaEVolta` | aplicacao/aplicacao/src/main/java/br/com/aplicacao/core/BaseMapper.java:92-106 | when the element mappings are inverse, the set round trip gives the set back |
| `BaseMapper.ConjuntoTamanho` | aplicacao/aplicacao/src/main/java/br/com/aplicacao/core/BaseMapper.java:94 | the set lift never grows a set, and keeps its size when the element mapping is injective |
| `BaseMapper.ListaEConjunto` | aplicacao/aplicacao/src/main/java/br/com/aplicacao/core/BaseMapper.java:68-106 | the list and set lifts produce the same elements |
| `ContatoMapper.ToDomain` | aplicacao/aplicacao/src/main/java/br/com/aplicacao/cadastro/contato/ContatoMapper.java:28-35 | null stays null; id and telefone copied verbatim |
| `ContatoMapper.ToData` | aplicacao/aplicacao/src/main/java/br/com/aplicacao/cadastro/contato/ContatoMapper.java:44-51 | null stays null; id and telefone copied verbatim |
| `ContatoMapper.IdaEVolta` | aplicacao/aplicacao/src/main/java/br/com/aplicacao/cadastro/contato/ContatoMapper.java:28-51 | `toDomain(toData(c)) == c` and `toData(toDomain(d)) == d`, null included |
| `ContatoMapper.ListaIdaEVolta` | aplicacao/aplicacao/src/main/java/br/com/aplicacao/core/BaseMapper.java:68-82 | the inherited list lifts round-trip a list of contacts |
| `ContatoMapper.ConjuntoTamanho` | aplicacao/aplicacao/src/main/java/br/com/aplicacao/core/BaseMapper.java:104-106 | the inherited set lift keeps the size of a set of contacts |
| `EnderecoMapper.ToDomain` | aplicacao/aplicacao/src/main/java/br/com/aplicacao/cadastro/endereco/EnderecoMapper.java:28-35 | null stays null; id and bairro copied verbatim |
| `EnderecoMapper.ToData` | aplicacao/aplicacao/src/main/java/br/com/aplicacao/cadastro/endereco/EnderecoMapper.java:44-51 | null stays null; id and bairro copied verbatim |
| `EnderecoMapper.IdaEVolta` | aplicacao/aplicacao/src/main/java/br/com/aplicacao/cadastro/endereco/EnderecoMapper.java:28-51 | both round trips are the identity, null included |
| `PessoaMapper.ToData` | aplicacao/aplicacao/src/main/java/br/com/aplicacao/cadastro/pessoa/PessoaMapper.java:54-63 | null gives null; id and nome copied; a null endereco or contato stays null; the phone is copied |
| `PessoaMapper.ToDomain` | aplicacao/aplicacao/src/main/java/br/com/aplicacao/cadastro/pessoa/PessoaMapper.java:36-45 | null gives null; otherwise a new Pessoa with id, nome and the nested mappers' results, and `toData` of it is the row again |
| `PessoaMapper.IdaEVolta` | aplicacao/aplicacao/src/main/java/br/com/aplicacao/cadastro/pessoa/PessoaMapper.java:36-63 | the row built from a person maps back to that person's id, nome, endereco and contato |
| `ContatoDto.ComTelefone` | aplicacao/aplicacao/src/main/java/br/com/aplicacao/cadastro/contato/dto/ContatoDto.java:39-41 | the one-argument constructor sets the phone and leaves id null |
| `ContatoDto.ToEntity` | aplicacao/aplicacao/src/main/java/br/com/aplicacao/cadastro/contato/dto/ContatoDto.java:48-53 | id and telefone copied as they are, nulls and spaces included |
| `ContatoDto.ToEntityInjetiva` | aplicacao/aplicacao/src/main/java/br/com/aplicacao/cadastro/contato/dto/ContatoDto.java:48-53 | no information is lost: distinct DTOs give distinct contacts, whose row has the DTO's fields |
| `EnderecoDto.ToEntity` | aplicacao/aplicacao/src/main/java/br/com/aplicacao/cadastro/endereco/dto/EnderecoDto.java:39-44 | id and bairro copied as they are |
| `EnderecoDto.ToEntityInjetiva` | aplicacao/aplicacao/src/main/java/br/com/aplicacao/cadastro/endereco/dto/EnderecoDto.java:39-44 | distinct DTOs give distinct addresses, whose row has the DTO's fields |
| `PessoaDto.EnderecoEntidade` | aplicacao/aplicacao/src/main/java/br/com/aplicacao/cadastro/pessoa/dto/PessoaDto.java:60 | a null address DTO gives null, otherwise its `toEntity` |
| `PessoaDto.ContatoEntidade` | aplicacao/aplicacao/src/main/java/br/com/aplicacao/cadastro/pessoa/dto/PessoaDto.java:61 | a null contact DTO gives null, otherwise its `toEntity` |
| `PessoaDto.ToEntity` | aplicacao/aplicacao/src/main/java/br/com/aplicacao/cadastro/pessoa/dto/PessoaDto.java:56-63 | a new Pessoa with id and nome unchanged (no trim, no check) and the converted nested DTOs |
| `PessoaDto.AninhadosPreservados` | aplicacao/aplicacao/src/main/java/br/com/aplicacao/cadastro/pessoa/dto/PessoaDto.java:56-63 | nested ids and fields survive, a null nested id included |
| `PessoaListagemDto.From` | aplicacao/aplicacao/src/main/java/br/com/aplicacao/cadastro/pessoa/dto/PessoaListagemDto.java:56-64 | null gives null; a person without endereco or contato raises NullPointerException; otherwise id, nome, bairro and telefone copied |
| `PessoaListagemDto.ToEntity` | aplicacao/aplicacao/src/main/java/br/com/aplicacao/cadastro/pessoa/dto/PessoaListagemDto.java:71-76 | a new Pessoa with only id and nome; endereco and contato null |
| `PessoaDataRepository.ContagemPositiva` | aplicacao/aplicacao/src/main/java/br/com/aplicacao/cadastro/pessoa/infra/PessoaDataRepository.java:33-49 | `count(pessoa.id) > 0` holds exactly when some row is counted |
| `PessoaDataRepository.TelefoneJaCadastrado` | aplicacao/aplicacao/src/main/java/br/com/aplicacao/cadastro/pessoa/infra/PessoaDataRepository.java:46-49 | true exactly when some row with an id has a contact whose phone equals the (non-null) parameter |
| `PessoaDataRepository.TelefoneJaCadastradoSemSerEu` | aplicacao/aplicacao/src/main/java/br/com/aplicacao/cadastro/pessoa/infra/PessoaDataRepository.java:33-37 | true exactly when some such row also has an id different from the (non-null) id parameter |
| `PessoaDataRepository.SemSerEuImplicaJaCadastrado` | aplicacao/aplicacao/src/main/java/br/com/aplicacao/cadastro/pessoa/infra/PessoaDataRepository.java:33-49 | a duplicate for someone else is a registered phone |
| `PessoaDataRepository.AutoExclusao` | aplicacao/aplicacao/src/main/java/br/com/aplicacao/cadastro/pessoa/infra/PessoaDataRepository.java:33-49 | when only the caller's rows hold the phone, it is registered but not a duplicate for the caller |
| `PessoaDataRepository.SemSerEuComIdNulo` | aplicacao/aplicacao/src/main/java/br/com/aplicacao/cadastro/pessoa/infra/PessoaDataRepository.java:33-37 | with a null id the self-excluding query is always false |
| `PessoaDataRepository.TelefoneNuloNuncaCadastrado` | aplicacao/aplicacao/src/main/java/br/com/aplicacao/cadastro/pessoa/infra/PessoaDataRepository.java:46-49 | a null phone is never registered |
| `PessoaDataRepository.SemId` | aplicacao/aplicacao/src/main/java/br/com/aplicacao/cadastro/pessoa/infra/PessoaDataRepository.java:36 | the table without the rows of one id keeps every other row |
| `PessoaDataRepository.SemSerEuSseSemMinhasLinhas` | aplicacao/aplicacao/src/main/java/br/com/aplicacao/cadastro/pessoa/infra/PessoaDataRepository.java:33-49 | the self-excluding query equals the plain query over the table without the caller's rows |
| `PessoaRepositoryImpl.BuscarPorId` | aplicacao/aplicacao/src/main/java/br/com/aplicacao/cadastro/pessoa/infra/impl/PessoaRepositoryImpl.java:73 | `findById`: a stored row with that id, and empty exactly when no row has it |
| `PessoaRepositoryImpl.PessoaRepositoryImpl.Consultar` | aplicacao/aplicacao/src/main/java/br/com/aplicacao/cadastro/pessoa/infra/impl/PessoaRepositoryImpl.java:72-74 | the found row mapped to a new Pessoa, or empty when the id is not stored |
| `PessoaRepositoryImpl.PessoaRepositoryImpl.Listar` | aplicacao/aplicacao/src/main/java/br/com/aplicacao/cadastro/pessoa/infra/impl/PessoaRepositoryImpl.java:82-84 | every row mapped to a distinct new Pessoa, same count and order; empty table gives empty page |
| `PessoaRepositoryImpl.PessoaRepositoryImpl.ContatoJaUtilizado` | aplicacao/aplicacao/src/main/java/br/com/aplicacao/cadastro/pessoa/infra/impl/PessoaRepositoryImpl.java:93-95 | the plain query on the person's own phone; NullPointerException without a contact |
| `PessoaRepositoryImpl.PessoaRepositoryImpl.ContatoJaUtilizadoSemSerEu` | aplicacao/aplicacao/src/main/java/br/com/aplicacao/cadastro/pessoa/infra/impl/PessoaRepositoryImpl.java:105-107 | the self-excluding query on the person's own phone and id; NullPointerException without a contact |
| `PessoaRepositoryImpl.PessoaRepositoryImpl.Incluir` | aplicacao/aplicacao/src/main/java/br/com/aplicacao/core/infra/impl/BaseRepositoryImpl.java:42-51 | the table becomes `save`'s, and the result is a new Pessoa mapped from the saved row |
| `PessoaRepositoryImpl.PessoaRepositoryImpl.Alterar` | aplicacao/aplicacao/src/main/java/br/com/aplicacao/core/infra/impl/BaseRepositoryImpl.java:60-69 | the same as `incluir` |
| `PessoaRepositoryImpl.PessoaRepositoryImpl.Excluir` | aplicacao/aplicacao/src/main/java/br/com/aplicacao/core/infra/impl/BaseRepositoryImpl.java:78-86 | the table becomes `deleteById`'s, and the id is returned |
| `PessoaService.PessoaService.Incluir` | aplicacao/aplicacao/src/main/java/br/com/aplicacao/cadastro/pessoa/aplicacao/PessoaService.java:35-37 | one logged call; the repository's result and table |
| `PessoaService.PessoaService.Alterar` | aplicacao/aplicacao/src/main/java/br/com/aplicacao/cadastro/pessoa/aplicacao/PessoaService.java:45-47 | one logged call; the repository's result and table |
| `PessoaService.PessoaService.Deletar` | aplicacao/aplicacao/src/main/java/br/com/aplicacao/cadastro/pessoa/aplicacao/PessoaService.java:54-56 | one logged call; `excluir` with the same id |
| `PessoaService.PessoaService.Consultar` | aplicacao/aplicacao/src/main/java/br/com/aplicacao/cadastro/pessoa/aplicacao/PessoaService.java:65-67 | the stored person when present, NaoEncontrado("Pessoa não encontrada") otherwise; nothing written |
| `PessoaService.PessoaService.Listar` | aplicacao/aplicacao/src/main/java/br/com/aplicacao/cadastro/pessoa/aplicacao/PessoaService.java:74-76 | the repository's page; only a Listar call is logged and the table is untouched |
| `PessoaService.PessoaService.ContatoJaUtilizado` | aplicacao/aplicacao/src/main/java/br/com/aplicacao/cadastro/pessoa/aplicacao/PessoaService.java:84-86 | the repository's answer unchanged |
| `PessoaService.PessoaService.ContatoJaUtilizadoSemSerEu` | aplicacao/aplicacao/src/main/java/br/com/aplicacao/cadastro/pessoa/aplicacao/PessoaService.java:94-96 | the repository's answer unchanged |
| `RegrasPessoa.ValidarNomeNulo` | aplicacao/aplicacao/src/main/java/br/com/aplicacao/cadastro/pessoa/dominio/regras/IncluirPessoaRegras.java:61-65 | fails with "Nome é obrigatório" exactly when the name is null or every character is whitespace (empty included) |
| `RegrasPessoa.ValidarTamanhoNome` | aplicacao/aplicacao/src/main/java/br/com/aplicacao/cadastro/pessoa/dominio/regras/IncluirPessoaRegras.java:73-77 | fails with the size message exactly when the untrimmed length exceeds 10; a null name is a NullPointerException |
| `RegrasPessoa.ValidacaoNome` | aplicacao/aplicacao/src/main/java/br/com/aplicacao/cadastro/pessoa/dominio/regras/IncluirPessoaRegras.java:49-53 | the two name checks in order pass exactly for a non-null, non-blank name of at most 10 characters; only the two messages can result |
| `RegrasPessoa.TratarNomeComEspacosEmBranco` | aplicacao/aplicacao/src/main/java/br/com/aplicacao/cadastro/pessoa/dominio/regras/IncluirPessoaRegras.java:84-86 | the name becomes its trim; a null name raises NullPointerException and is left alone |
| `RegrasPessoa.ValidarNome` | aplicacao/aplicacao/src/main/java/br/com/aplicacao/cadastro/pessoa/dominio/regras/IncluirPessoaRegras.java:49-53 | the verdict of the two checks; the name is trimmed only when both pass, and unchanged otherwise |
| `RegrasPessoa.VerificarTelefoneNulo` | aplicacao/aplicacao/src/main/java/br/com/aplicacao/cadastro/pessoa/dominio/regras/IncluirPessoaRegras.java:104-108 | "Telefone é obrigatório" exactly for a null or blank phone; a missing contact is a NullPointerException |
| `RegrasPessoa.VerificarFormatoTelefone` | aplicacao/aplicacao/src/main/java/br/com/aplicacao/cadastro/pessoa/dominio/regras/IncluirPessoaRegras.java:116-120 | "Telefone inválido" exactly when the phone does not match the whole mask |
| `RegrasPessoa.MascaraNaoEmBranco` | aplicacao/aplicacao/src/main/java/br/com/aplicacao/cadastro/pessoa/dominio/regras/IncluirPessoaRegras.java:104-120 | a phone the mask accepts is not blank |
| `RegrasPessoa.ValidarTelefoneContato` | aplicacao/aplicacao/src/main/java/br/com/aplicacao/cadastro/pessoa/dominio/regras/IncluirPessoaRegras.java:93-96 | the two phone checks pass exactly when the phone matches the mask; only the two messages or a missing-contact NullPointerException result |
| `RegrasPessoa.ValidarCampos` | aplicacao/aplicacao/src/main/java/br/com/aplicacao/cadastro/pessoa/dominio/regras/IncluirPessoaRegras.java:37-40 | name checks first, then phone checks |
| `RegrasPessoa.SeDuplicado` | aplicacao/aplicacao/src/main/java/br/com/aplicacao/cadastro/pessoa/dominio/regras/IncluirPessoaRegras.java:128-132 | a true answer becomes "Contato já cadastrado"; a thrown exception passes through |
| `RegrasPessoa.Inclusao` | aplicacao/aplicacao/src/main/java/br/com/aplicacao/cadastro/pessoa/dominio/regras/IncluirPessoaRegras.java:37-42 | inclusion passes exactly when the fields pass and the phone is not registered |
| `RegrasPessoa.Alteracao` | aplicacao/aplicacao/src/main/java/br/com/aplicacao/cadastro/pessoa/dominio/regras/AlterarPessoaRegras.java:37-42 | update passes exactly when the fields pass and no other id holds the phone |
| `RegrasPessoa.InclusaoImplicaAlteracao` | aplicacao/aplicacao/src/main/java/br/com/aplicacao/cadastro/pessoa/dominio/regras/AlterarPessoaRegras.java:130-134 | whatever passes inclusion passes an update, for any id |
| `RegrasPessoa.MantendoProprioTelefone` | aplicacao/aplicacao/src/main/java/br/com/aplicacao/cadastro/pessoa/dominio/regras/AlterarPessoaRegras.java:130-134 | keeping one's own phone passes an update, while including it again is refused as a duplicate |
| `RegrasPessoa.AlteracaoSemId` | aplicacao/aplicacao/src/main/java/br/com/aplicacao/cadastro/pessoa/dominio/regras/AlterarPessoaRegras.java:130-134 | with a null id the duplicate check never fails an update |
| `RegrasPessoa.NomeAceito` | aplicacao/aplicacao/src/main/java/br/com/aplicacao/cadastro/pessoa/dominio/regras/IncluirPessoaRegras.java:49-86 | an accepted name trims to at most 10 characters, a contiguous piece of the input, empty exactly when every character is at most U+0020 |
| `RegrasPessoa.LimiteAntesDoTrim` | aplicacao/aplicacao/src/main/java/br/com/aplicacao/cadastro/pessoa/dominio/regras/IncluirPessoaRegras.java:73-77 | 10 characters pass; 10 letters plus a trailing space are refused although their trim has 10 |
| `RegrasPessoa.ControleViraVazio` | aplicacao/aplicacao/src/main/java/br/com/aplicacao/cadastro/pessoa/dominio/regras/IncluirPessoaRegras.java:61-86 | the name U+0001 passes both checks and trims to "" |
| `IncluirPessoaRegras.IncluirPessoaRegras.ValidarContatoJaCadastrado` | aplicacao/aplicacao/src/main/java/br/com/aplicacao/cadastro/pessoa/dominio/regras/IncluirPessoaRegras.java:128-132 | one `contatoJaUtilizado` call; "Contato já cadastrado" exactly when it answers true |
| `IncluirPessoaRegras.IncluirPessoaRegras.Execute` | aplicacao/aplicacao/src/main/java/br/com/aplicacao/cadastro/pessoa/dominio/regras/IncluirPessoaRegras.java:37-42 | fails with the first failing check's error; trims the name once the name checks pass; calls the duplicate check only after the field checks, and `incluir` once, only when all pass, returning its result |
| `AlterarPessoaRegras.AlterarPessoaRegras.ValidarContatoJaCadastrado` | aplicacao/aplicacao/src/main/java/br/com/aplicacao/cadastro/pessoa/dominio/regras/AlterarPessoaRegras.java:130-134 | one `contatoJaUtilizadoSemSerEu` call (never `contatoJaUtilizado`); "Contato já cadastrado" exactly when it answers true |
| `AlterarPessoaRegras.AlterarPessoaRegras.Execute` | aplicacao/aplicacao/src/main/java/br/com/aplicacao/cadastro/pessoa/dominio/regras/AlterarPessoaRegras.java:37-42 | the same pipeline with the self-excluding check, ending in one `alterar` call only when all pass |
| `DeletarPessoaRegras.ValidarIdNulo` | aplicacao/aplicacao/src/main/java/br/com/aplicacao/cadastro/pessoa/dominio/regras/DeletarPessoaRegras.java:56-60 | NullPointerException("Id é obrigatório") exactly for a null id; every other Long, extremes included, passes |
| `DeletarPessoaRegras.DeletarPessoaRegras.ExecutePorId` | aplicacao/aplicacao/src/main/java/br/com/aplicacao/cadastro/pessoa/dominio/regras/DeletarPessoaRegras.java:44-48 | a null id reaches no service method; otherwise one `deletar` call with that id and the id returned; no memory of earlier calls |
| `DeletarPessoaRegras.DeletarPessoaRegras.Execute` | aplicacao/aplicacao/src/main/java/br/com/aplicacao/cadastro/pessoa/dominio/regras/DeletarPessoaRegras.java:33-35 | a null id is refused and the table is unchanged; otherwise one `deletar` call, the table becomes `apagar`'s result for that id, and a new Pessoa with that id and every other field null is returned |

## Left out

- HTTP and UI are not modelled: PessoaController, the Angular forms, routing and HTTP client, logging, `@Transactional`, and the JPA mapping annotations.
- PessoaRepositoryImpl.PessoaRepositoryImpl.Incluir, PessoaRepositoryImpl.PessoaRepositoryImpl.Alterar, PessoaRepositoryImpl.PessoaRepositoryImpl.Excluir: what Spring Data's `save` and `deleteById` do to the table is not visible in the source. They are the parameters `salvar` and `apagar`. Their exceptions, and the RuntimeException wrapping in BaseRepositoryImpl, are not modelled.
- PessoaRepositoryImpl.PessoaRepositoryImpl.Consultar: takes a non-null id. What `findById(null)` does is Spring Data's behaviour and is not modelled.
- PessoaService.PessoaService.Deletar: takes a non-null id, since `deleteById(null)` is Spring Data's behaviour. DeletarPessoaRegras refuses a null id before this point.
- IncluirPessoaRegras.IncluirPessoaRegras.Execute: the person passed in is never null. A null person would raise a NullPointerException at the first getter. The same holds for every other member that takes a Pessoa.
- RegrasPessoa.ValidarTamanhoNome: counts Unicode scalar values. Java's `length()` counts UTF-16 code units, so the two differ for characters outside the Basic Multilingual Plane.
- PessoaEditarComponent.FormatarTelefone: counts Unicode scalar values. JavaScript's `length` and `substring` count UTF-16 code units, so for input with characters outside the Basic Multilingual Plane the branch taken and the cut points differ, and `substring` may split a surrogate pair; the model does not capture that.
- PessoaCadastrarComponent.FormatarTelefone: counts Unicode scalar values, not UTF-16 code units, with the same consequence as for the edit-screen formatter.
- JavaText.Substring: indices count Unicode scalar values, not JavaScript's UTF-16 code units, so it cannot split a surrogate pair as JavaScript's `substring` can.
- PessoaCadastrarComponent.FormatarTelefone: takes a non-null string. With `null` or `undefined` the TypeScript code crashes in `substring`; that case is not modelled.
- The model is sequential. It does not cover the race between the duplicate check and the save, or the thread-based tests.
- The result of `listar` is a Page in the source. Here it is the sequence of its content; paging metadata is left out.
- Java sets compare elements with `equals`, and the domain classes do not override it. Dafny sets of datatypes compare by value, so the set lifts are stated for value equality.
- `Character.isWhitespace` is written out from its documented list. `trim`'s set of characters (at most U+0020) is a separate predicate; the model does not treat the two as the same.
