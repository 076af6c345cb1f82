/** ContatoMapper.java: null-preserving field copy between Contato and ContatoData. */
module ContatoMapper {
  import opened Wrappers
  import opened Entidades
  import BaseMapper

  function ToDomain(d: Option<ContatoData>): (r: Option<Contato>)
    ensures r.None? <==> d.None?
    ensures r.Some? ==> r.value.id == d.value.id && r.value.telefone == d.value.telefone
  {
    match d
    case None => None
    case Some(c) => Some(Contato(c.id, c.telefone))
  }

  function ToData(c: Option<Contato>): (r: Option<ContatoData>)
    ensures r.None? <==> c.None?
    ensures r.Some? ==> r.value.id == c.value.id && r.value.telefone == c.value.telefone
  {
    match c
    case None => None
    case Some(x) => Some(ContatoData(x.id, x.telefone))
  }

  /** The two directions are inverse to each other, null included. */
  lemma IdaEVolta(c: Option<Contato>, d: Option<ContatoData>)
    ensures ToDomain(ToData(c)) == c
    ensures ToData(ToDomain(d)) == d
  {
  }

  /** The inherited list lift, element by element: round trip of a list of contacts that may hold nulls. */
  lemma ListaIdaEVolta(cs: seq<Option<Contato>>)
    ensures BaseMapper.MapearLista(ToDomain, Some(BaseMapper.MapearLista(ToData, Some(cs)))) == cs
  {
  }

  /** No two distinct contacts map to the same row, so the inherited set lift keeps the set's size. */
  lemma ConjuntoTamanho(cs: set<Option<Contato>>)
    ensures |BaseMapper.MapearConjunto(ToData, Some(cs))| == |cs|
  {
    BaseMapper.ConjuntoTamanho(ToData, cs);
  }
}
