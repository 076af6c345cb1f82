/**
 * The checks IncluirPessoaRegras.java and AlterarPessoaRegras.java share word for word: the name
 * checks and trim, and the phone checks. Each Java check throws; here it returns the exception
 * as an `Outcome`. The two pipelines' verdicts, and how they relate, are at the end.
 */
module RegrasPessoa {
  import opened Wrappers
  import opened Entidades
  import opened Excecoes
  import opened JavaText
  import opened TelefoneEnum
  import PessoaDataRepository

  /** PessoaEnum.NOME_TAMANHO_MAXIMO. */
  const NomeTamanhoMaximo: nat := 10

  const NomeObrigatorio := "Nome é obrigatório"
  const NomeMuitoLongo := "O nome não deve ter mais de 10 caracteres"
  const TelefoneObrigatorio := "Telefone é obrigatório"
  const TelefoneInvalido := "Telefone inválido"
  const ContatoJaCadastrado := "Contato já cadastrado"

  /** Every character is `Character.isWhitespace` (true of the empty string). */
  predicate SoEspacos(s: string) {
    forall i :: 0 <= i < |s| ==> IsWhitespace(s[i])
  }

  /** `validarNomeNulo`: the name is required, and may be neither empty nor all whitespace. */
  function ValidarNomeNulo(nome: Option<string>): (r: Outcome<Erro>)
    ensures r.Fail? <==> nome.None? || SoEspacos(nome.value)
    ensures r.Fail? ==> r.error == IllegalArgument(NomeObrigatorio)
  {
    if nome.None? then Fail(IllegalArgument(NomeObrigatorio))
    else
      IsBlankIff(nome.value);
      if |nome.value| == 0 || IsBlank(nome.value) then Fail(IllegalArgument(NomeObrigatorio)) else Pass
  }

  /** `validarTamanhoNome`: at most ten characters, counted before any trimming; a null name cannot be measured. */
  function ValidarTamanhoNome(nome: Option<string>): (r: Outcome<Erro>)
    ensures nome.None? ==> r == Fail(DesreferenciaNula)
    ensures nome.Some? ==> (r.Fail? <==> |nome.value| > NomeTamanhoMaximo)
    ensures nome.Some? && r.Fail? ==> r.error == IllegalArgument(NomeMuitoLongo)
  {
    if nome.None? then Fail(DesreferenciaNula)
    else if |nome.value| > NomeTamanhoMaximo then Fail(IllegalArgument(NomeMuitoLongo))
    else Pass
  }

  /**
   * The verdict of `validarNome`'s two checks in their order: since the null check runs first,
   * the length check never meets a null name, and the only errors are the two messages.
   */
  function ValidacaoNome(nome: Option<string>): (r: Outcome<Erro>)
    ensures r.Pass? <==> nome.Some? && !SoEspacos(nome.value) && |nome.value| <= NomeTamanhoMaximo
    ensures r.Fail? ==> r.error == IllegalArgument(NomeObrigatorio) || r.error == IllegalArgument(NomeMuitoLongo)
  {
    var nulo := ValidarNomeNulo(nome);
    if nulo.Fail? then nulo else ValidarTamanhoNome(nome)
  }

  /** `tratarNomeComEspacosEmBranco`: the name becomes its trim; a null name cannot be trimmed. */
  method TratarNomeComEspacosEmBranco(p: Pessoa) returns (r: Outcome<Erro>)
    modifies p`nome
    ensures old(p.nome).None? ==> r == Fail(DesreferenciaNula) && p.nome == old(p.nome)
    ensures old(p.nome).Some? ==> r == Pass && p.nome == Some(Trim(old(p.nome).value))
  {
    if p.nome.None? {
      return Fail(DesreferenciaNula);
    }
    p.nome := Some(Trim(p.nome.value));
    r := Pass;
  }

  /**
   * `validarNome`: the null/blank check, then the length check on the untrimmed name, and the
   * trim only once both have passed; on a failure the name is left as it was.
   */
  method ValidarNome(p: Pessoa) returns (r: Outcome<Erro>)
    modifies p`nome
    ensures r == ValidacaoNome(old(p.nome))
    ensures r.Pass? ==> p.nome == Some(Trim(old(p.nome).value))
    ensures r.Fail? ==> p.nome == old(p.nome)
  {
    r := ValidarNomeNulo(p.nome);
    if r.Fail? {
      return;
    }
    r := ValidarTamanhoNome(p.nome);
    if r.Fail? {
      return;
    }
    r := TratarNomeComEspacosEmBranco(p);
  }

  /** `verificarTelefoneNulo`: the contact must exist, and its phone be present and not blank. */
  function VerificarTelefoneNulo(contato: Option<Contato>): (r: Outcome<Erro>)
    ensures contato.None? ==> r == Fail(DesreferenciaNula)
    ensures contato.Some? ==>
              (r.Fail? <==> contato.value.telefone.None? || SoEspacos(contato.value.telefone.value))
    ensures contato.Some? && r.Fail? ==> r.error == IllegalArgument(TelefoneObrigatorio)
  {
    if contato.None? then Fail(DesreferenciaNula)
    else
      var telefone := contato.value.telefone;
      if telefone.None? then Fail(IllegalArgument(TelefoneObrigatorio))
      else
        IsBlankIff(telefone.value);
        if |telefone.value| == 0 || IsBlank(telefone.value) then Fail(IllegalArgument(TelefoneObrigatorio))
        else Pass
  }

  /** `verificarFormatoTelefone`: the whole phone must match the mask; it is read, never changed. */
  function VerificarFormatoTelefone(contato: Option<Contato>): (r: Outcome<Erro>)
    ensures contato.None? || contato.value.telefone.None? ==> r == Fail(DesreferenciaNula)
    ensures contato.Some? && contato.value.telefone.Some? ==>
              (r.Fail? <==> !TelefoneMascara(contato.value.telefone.value))
    ensures r.Fail? && contato.Some? && contato.value.telefone.Some? ==> r.error == IllegalArgument(TelefoneInvalido)
  {
    if contato.None? || contato.value.telefone.None? then Fail(DesreferenciaNula)
    else if !TelefoneMascara(contato.value.telefone.value) then Fail(IllegalArgument(TelefoneInvalido))
    else Pass
  }

  /** A phone the mask accepts is never blank: it starts with '('. */
  lemma MascaraNaoEmBranco(s: string)
    ensures TelefoneMascara(s) ==> !SoEspacos(s)
  {
  }

  /**
   * `validarTelefoneContato`: the presence check, then the format check. It passes exactly when
   * the phone matches the mask, and the format check's null dereference cannot be reached.
   */
  function ValidarTelefoneContato(contato: Option<Contato>): (r: Outcome<Erro>)
    ensures r.Pass? <==> contato.Some? && contato.value.telefone.Some? && TelefoneMascara(contato.value.telefone.value)
    ensures contato.None? ==> r == Fail(DesreferenciaNula)
    ensures contato.Some? && r.Fail? ==>
              r.error == IllegalArgument(TelefoneObrigatorio) || r.error == IllegalArgument(TelefoneInvalido)
  {
    var nulo := VerificarTelefoneNulo(contato);
    if nulo.Fail? then nulo
    else
      MascaraNaoEmBranco(contato.value.telefone.value);
      VerificarFormatoTelefone(contato)
  }

  /** Name checks, then phone checks: everything `execute` verifies before asking about duplicates. */
  function ValidarCampos(nome: Option<string>, contato: Option<Contato>): (r: Outcome<Erro>)
    ensures r.Pass? <==> ValidacaoNome(nome).Pass? && ValidarTelefoneContato(contato).Pass?
    ensures ValidacaoNome(nome).Fail? ==> r == ValidacaoNome(nome)
  {
    var n := ValidacaoNome(nome);
    if n.Fail? then n else ValidarTelefoneContato(contato)
  }

  /** `validarContatoJaCadastrado`: a `true` answer from the service becomes "Contato já cadastrado". */
  function SeDuplicado(resposta: Result<bool, Erro>): (r: Outcome<Erro>)
    ensures r.Pass? <==> resposta == Success(false)
    ensures resposta.Failure? ==> r == Fail(resposta.error)
    ensures resposta == Success(true) ==> r == Fail(IllegalArgument(ContatoJaCadastrado))
  {
    match resposta
    case Failure(e) => Fail(e)
    case Success(usado) => if usado then Fail(IllegalArgument(ContatoJaCadastrado)) else Pass
  }

  /** The verdict of IncluirPessoaRegras.execute on a table: field checks, then the plain duplicate query. */
  function Inclusao(nome: Option<string>, contato: Option<Contato>, rows: seq<PessoaData>): (r: Outcome<Erro>)
    ensures r.Pass? <==>
              && ValidarCampos(nome, contato).Pass?
              && !PessoaDataRepository.TelefoneJaCadastrado(rows, contato.value.telefone)
  {
    var campos := ValidarCampos(nome, contato);
    if campos.Fail? then campos
    else SeDuplicado(Success(PessoaDataRepository.TelefoneJaCadastrado(rows, contato.value.telefone)))
  }

  /** The verdict of AlterarPessoaRegras.execute: the same, with the query that leaves out the person's own id. */
  function Alteracao(nome: Option<string>, contato: Option<Contato>, id: Option<Long>, rows: seq<PessoaData>): (r: Outcome<Erro>)
    ensures r.Pass? <==>
              && ValidarCampos(nome, contato).Pass?
              && !PessoaDataRepository.TelefoneJaCadastradoSemSerEu(rows, contato.value.telefone, id)
  {
    var campos := ValidarCampos(nome, contato);
    if campos.Fail? then campos
    else SeDuplicado(Success(PessoaDataRepository.TelefoneJaCadastradoSemSerEu(rows, contato.value.telefone, id)))
  }

  /** Whatever may be included may also be saved as an update, whatever its id. */
  lemma InclusaoImplicaAlteracao(nome: Option<string>, contato: Option<Contato>, id: Option<Long>, rows: seq<PessoaData>)
    ensures Inclusao(nome, contato, rows).Pass? ==> Alteracao(nome, contato, id, rows).Pass?
  {
  }

  /**
   * A person who keeps their own phone on an update: the update passes, while including a new
   * person with that phone is refused as a duplicate.
   */
  lemma MantendoProprioTelefone(nome: Option<string>, contato: Option<Contato>, id: Long, rows: seq<PessoaData>, k: nat)
    requires ValidarCampos(nome, contato).Pass?
    requires k < |rows| && PessoaDataRepository.Contado(rows[k], contato.value.telefone)
    requires forall i :: 0 <= i < |rows| && PessoaDataRepository.Contado(rows[i], contato.value.telefone) ==>
               rows[i].id == Some(id)
    ensures Alteracao(nome, contato, Some(id), rows) == Pass
    ensures Inclusao(nome, contato, rows) == Fail(IllegalArgument(ContatoJaCadastrado))
  {
  }

  /** An update of a person without an id never meets a duplicate: `id <> null` selects no row. */
  lemma AlteracaoSemId(nome: Option<string>, contato: Option<Contato>, rows: seq<PessoaData>)
    ensures Alteracao(nome, contato, None, rows) == ValidarCampos(nome, contato)
  {
  }

  /**
   * What a name that passes leaves behind after the trim: at most ten characters, a contiguous
   * piece of what was typed, and empty exactly when every typed character is at most U+0020.
   */
  lemma NomeAceito(nome: Option<string>)
    requires ValidacaoNome(nome).Pass?
    ensures |Trim(nome.value)| <= NomeTamanhoMaximo
    ensures exists i :: CutAt(nome.value, Trim(nome.value), i)
    ensures Trim(nome.value) == [] <==> AllTrimmable(nome.value)
  {
    TrimSpec(nome.value);
    TrimVazioSse(nome.value);
  }

  /** Ten characters are accepted and eleven refused, spaces included: the limit applies before the trim. */
  lemma LimiteAntesDoTrim()
    ensures ValidacaoNome(Some("abcdefghij")) == Pass
    ensures ValidacaoNome(Some("abcdefghij ")) == Fail(IllegalArgument(NomeMuitoLongo))
    ensures Trim("abcdefghij ") == "abcdefghij"
  {
    assert !IsWhitespace("abcdefghij"[0]);
    assert !IsWhitespace("abcdefghij "[0]);
    var s := "abcdefghij ";
    assert TrimStart(s) == s;
    assert s[..|s| - 1] == "abcdefghij";
    assert TrimEnd(s) == TrimEnd("abcdefghij");
  }

  /**
   * A name made of a control character that `isWhitespace` does not list passes both checks, and
   * `trim` then leaves an empty name behind.
   */
  lemma ControleViraVazio()
    ensures ValidacaoNome(Some("\U{1}")) == Pass
    ensures Trim("\U{1}") == ""
  {
    var nome := "\U{1}";
    assert !IsWhitespace(nome[0]) && !IsBlank(nome);
    assert Trimmable(nome[0]) && nome[1..] == "";
    assert TrimStart(nome) == TrimStart("") == "";
  }
}
