/** ContatoDto.java: the contact as the HTTP layer carries it. */
module ContatoDto {
  import opened Wrappers
  import opened Entidades
  import ContatoMapper

  datatype ContatoDto = ContatoDto(id: Option<Long>, telefone: Option<string>)

  /** The one-argument constructor `new ContatoDto(telefone)`: the id stays null. */
  function ComTelefone(telefone: Option<string>): (r: ContatoDto)
    ensures r.id.None? && r.telefone == telefone
  {
    ContatoDto(None, telefone)
  }

  /** `toEntity`: id and telefone copied as they are, with no trimming or reformatting. */
  function ToEntity(dto: ContatoDto): (r: Contato)
    ensures r.id == dto.id && r.telefone == dto.telefone
  {
    Contato(dto.id, dto.telefone)
  }

  /** Nothing is lost on the way in: distinct DTOs give distinct contacts, and the row stored for it has the DTO's fields. */
  lemma ToEntityInjetiva(a: ContatoDto, b: ContatoDto)
    ensures ToEntity(a) == ToEntity(b) ==> a == b
    ensures ContatoMapper.ToData(Some(ToEntity(a))) == Some(ContatoData(a.id, a.telefone))
  {
  }
}
