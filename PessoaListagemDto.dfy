/** PessoaListagemDto.java: the flat row of the person list (id, nome, bairro, telefone). */
module PessoaListagemDto {
  import opened Wrappers
  import opened Entidades
  import opened Excecoes

  datatype PessoaListagemDto = PessoaListagemDto(
    id: Option<Long>,
    nome: Option<string>,
    bairro: Option<string>,
    telefone: Option<string>)

  /**
   * `from`: null gives null; otherwise endereco and contato are dereferenced, so a person
   * without either ends in a NullPointerException.
   */
  function From(p: Pessoa?): (r: Result<Option<PessoaListagemDto>, Erro>)
    reads p
    ensures p == null ==> r == Success(None)
    ensures p != null && (p.endereco.None? || p.contato.None?) ==> r == Failure(DesreferenciaNula)
    ensures p != null && p.endereco.Some? && p.contato.Some? ==>
              && r.Success? && r.value.Some?
              && r.value.value.id == p.id && r.value.value.nome == p.nome
              && r.value.value.bairro == p.endereco.value.bairro
              && r.value.value.telefone == p.contato.value.telefone
  {
    if p == null then Success(None)
    else if p.endereco.None? || p.contato.None? then Failure(DesreferenciaNula)
    else Success(Some(PessoaListagemDto(p.id, p.nome, p.endereco.value.bairro, p.contato.value.telefone)))
  }

  /** `toEntity`: a new Pessoa with only id and nome; endereco and contato are left null. */
  method ToEntity(dto: PessoaListagemDto) returns (r: Pessoa)
    ensures fresh(r)
    ensures r.id == dto.id && r.nome == dto.nome
    ensures r.endereco.None? && r.contato.None?
  {
    r := new Pessoa(dto.id, dto.nome, None, None);
  }
}
