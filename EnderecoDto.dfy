/** EnderecoDto.java: the address as the HTTP layer carries it. */
module EnderecoDto {
  import opened Wrappers
  import opened Entidades
  import EnderecoMapper

  datatype EnderecoDto = EnderecoDto(id: Option<Long>, bairro: Option<string>)

  /** `toEntity`: id and bairro copied as they are, with no trimming. */
  function ToEntity(dto: EnderecoDto): (r: Endereco)
    ensures r.id == dto.id && r.bairro == dto.bairro
  {
    Endereco(dto.id, dto.bairro)
  }

  /** Nothing is lost on the way in: distinct DTOs give distinct addresses, and the row stored for it has the DTO's fields. */
  lemma ToEntityInjetiva(a: EnderecoDto, b: EnderecoDto)
    ensures ToEntity(a) == ToEntity(b) ==> a == b
    ensures EnderecoMapper.ToData(Some(ToEntity(a))) == Some(EnderecoData(a.id, a.bairro))
  {
  }
}
