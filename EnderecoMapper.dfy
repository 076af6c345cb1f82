/** EnderecoMapper.java: null-preserving field copy between Endereco and EnderecoData. */
module EnderecoMapper {
  import opened Wrappers
  import opened Entidades

  function ToDomain(d: Option<EnderecoData>): (r: Option<Endereco>)
    ensures r.None? <==> d.None?
    ensures r.Some? ==> r.value.id == d.value.id && r.value.bairro == d.value.bairro
  {
    match d
    case None => None
    case Some(c) => Some(Endereco(c.id, c.bairro))
  }

  function ToData(c: Option<Endereco>): (r: Option<EnderecoData>)
    ensures r.None? <==> c.None?
    ensures r.Some? ==> r.value.id == c.value.id && r.value.bairro == c.value.bairro
  {
    match c
    case None => None
    case Some(x) => Some(EnderecoData(x.id, x.bairro))
  }

  /** The two directions are inverse to each other, null included. */
  lemma IdaEVolta(c: Option<Endereco>, d: Option<EnderecoData>)
    ensures ToDomain(ToData(c)) == c
    ensures ToData(ToDomain(d)) == d
  {
  }
}
