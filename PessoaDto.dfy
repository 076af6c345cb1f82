/** PessoaDto.java: the person as the inclusion and update endpoints receive it. */
module PessoaDto {
  import opened Wrappers
  import opened Entidades
  import ContatoDto
  import EnderecoDto

  datatype PessoaDto = PessoaDto(
    id: Option<Long>,
    nome: Option<string>,
    contato: Option<ContatoDto.ContatoDto>,
    endereco: Option<EnderecoDto.EnderecoDto>)

  /** The nested DTO converted when present; a null one stays null. */
  function EnderecoEntidade(e: Option<EnderecoDto.EnderecoDto>): (r: Option<Endereco>)
    ensures r.None? <==> e.None?
    ensures r.Some? ==> r.value == EnderecoDto.ToEntity(e.value)
  {
    if e.Some? then Some(EnderecoDto.ToEntity(e.value)) else None
  }

  function ContatoEntidade(c: Option<ContatoDto.ContatoDto>): (r: Option<Contato>)
    ensures r.None? <==> c.None?
    ensures r.Some? ==> r.value == ContatoDto.ToEntity(c.value)
  {
    if c.Some? then Some(ContatoDto.ToEntity(c.value)) else None
  }

  /** `toEntity`: a new Pessoa with id and nome as received, neither trimmed nor checked. */
  method ToEntity(dto: PessoaDto) returns (r: Pessoa)
    ensures fresh(r)
    ensures r.id == dto.id && r.nome == dto.nome
    ensures r.endereco == EnderecoEntidade(dto.endereco)
    ensures r.contato == ContatoEntidade(dto.contato)
  {
    r := new Pessoa(dto.id, dto.nome, EnderecoEntidade(dto.endereco), ContatoEntidade(dto.contato));
  }

  /** Nested ids and fields survive the conversion, a null nested id included. */
  lemma AninhadosPreservados(dto: PessoaDto)
    ensures EnderecoEntidade(dto.endereco).Some? ==>
              && EnderecoEntidade(dto.endereco).value.id == dto.endereco.value.id
              && EnderecoEntidade(dto.endereco).value.bairro == dto.endereco.value.bairro
    ensures ContatoEntidade(dto.contato).Some? ==>
              && ContatoEntidade(dto.contato).value.id == dto.contato.value.id
              && ContatoEntidade(dto.contato).value.telefone == dto.contato.value.telefone
  {
  }
}
