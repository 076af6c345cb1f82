/**
 * PessoaMapper.java: Pessoa <-> PessoaData, copying id and nome and sending endereco and
 * contato through their own mappers. `toDomain` builds a new Pessoa object, so it is a method.
 */
module PessoaMapper {
  import opened Wrappers
  import opened Entidades
  import ContatoMapper
  import EnderecoMapper

  function ToData(p: Pessoa?): (r: Option<PessoaData>)
    reads p
    ensures r.None? <==> p == null
    ensures r.Some? ==> r.value.id == p.id && r.value.nome == p.nome
    ensures r.Some? ==> (r.value.endereco.None? <==> p.endereco.None?) && (r.value.contato.None? <==> p.contato.None?)
    ensures r.Some? && p.contato.Some? ==> r.value.contato.value.telefone == p.contato.value.telefone
  {
    if p == null then None
    else Some(PessoaData(p.id, p.nome, EnderecoMapper.ToData(p.endereco), ContatoMapper.ToData(p.contato)))
  }

  method ToDomain(d: Option<PessoaData>) returns (r: Pessoa?)
    ensures r == null <==> d.None?
    ensures r != null ==> fresh(r) && r.id == d.value.id && r.nome == d.value.nome
    ensures r != null ==> r.endereco == EnderecoMapper.ToDomain(d.value.endereco)
    ensures r != null ==> r.contato == ContatoMapper.ToDomain(d.value.contato)
    ensures ToData(r) == d
  {
    if d.None? {
      return null;
    }
    var x := d.value;
    r := new Pessoa(x.id, x.nome, EnderecoMapper.ToDomain(x.endereco), ContatoMapper.ToDomain(x.contato));
    EnderecoMapper.IdaEVolta(None, x.endereco);
    ContatoMapper.IdaEVolta(None, x.contato);
  }

  /**
   * The other round trip: the row built from `p`, mapped back by the nested mappers, gives
   * p's own endereco and contato, so `toDomain(toData(p))` has every field of `p`.
   */
  lemma IdaEVolta(p: Pessoa)
    ensures ToData(p).Some?
    ensures var d := ToData(p).value;
            && d.id == p.id && d.nome == p.nome
            && EnderecoMapper.ToDomain(d.endereco) == p.endereco
            && ContatoMapper.ToDomain(d.contato) == p.contato
  {
  }
}
