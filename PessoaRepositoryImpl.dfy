/**
 * PessoaRepositoryImpl.java: lookups and listing over the cadastro_pessoa table, mapped to the
 * domain, plus the duplicate-contact checks built on the two queries. The write operations it
 * inherits from BaseRepositoryImpl.java go through Spring Data's `save` and `deleteById`, whose
 * effect on the table is not part of this model: they are the parameters `salvar` and `apagar`.
 */
module PessoaRepositoryImpl {
  import opened Wrappers
  import opened Entidades
  import opened Excecoes
  import PessoaMapper
  import PessoaDataRepository

  /** `findById(id)`: the row with that id, if the table holds one. */
  function BuscarPorId(rows: seq<PessoaData>, id: Long): (r: Option<PessoaData>)
    ensures r.Some? ==> r.value in rows && r.value.id == Some(id)
    ensures r.None? <==> forall i :: 0 <= i < |rows| ==> rows[i].id != Some(id)
  {
    if rows == [] then None
    else if rows[0].id == Some(id) then Some(rows[0])
    else BuscarPorId(rows[1..], id)
  }

  class PessoaRepositoryImpl {
    /** The table, in the order `findAll` returns it. */
    var registros: seq<PessoaData>
    /** Spring Data `save`: the table afterwards and the row it returns. */
    const salvar: (seq<PessoaData>, PessoaData) -> (seq<PessoaData>, PessoaData)
    /** Spring Data `deleteById`: the table afterwards. */
    const apagar: (seq<PessoaData>, Long) -> seq<PessoaData>

    constructor (
      registros: seq<PessoaData>,
      salvar: (seq<PessoaData>, PessoaData) -> (seq<PessoaData>, PessoaData),
      apagar: (seq<PessoaData>, Long) -> seq<PessoaData>)
      ensures this.registros == registros && this.salvar == salvar && this.apagar == apagar
    {
      this.registros := registros;
      this.salvar := salvar;
      this.apagar := apagar;
    }

    /** `consultar(id)`: the stored row mapped to a new Pessoa, or empty when no row has that id. */
    method Consultar(id: Long) returns (r: Option<Pessoa>)
      ensures r.None? <==> BuscarPorId(registros, id).None?
      ensures r.Some? ==> fresh(r.value) && PessoaMapper.ToData(r.value) == BuscarPorId(registros, id)
    {
      var linha := BuscarPorId(registros, id);
      if linha.None? {
        return None;
      }
      var p := PessoaMapper.ToDomain(linha);
      r := Some(p);
    }

    /** `listar()`: every row mapped to a new Pessoa, with the same count and order. */
    method Listar() returns (r: seq<Pessoa>)
      ensures |r| == |registros|
      ensures forall i :: 0 <= i < |r| ==> fresh(r[i]) && PessoaMapper.ToData(r[i]) == Some(registros[i])
      ensures forall i, j :: 0 <= i < j < |r| ==> r[i] != r[j]
    {
      r := [];
      var k := 0;
      while k < |registros|
        invariant 0 <= k <= |registros| && |r| == k
        invariant forall i :: 0 <= i < k ==> fresh(r[i]) && PessoaMapper.ToData(r[i]) == Some(registros[i])
        invariant forall i, j :: 0 <= i < j < k ==> r[i] != r[j]
      {
        var p := PessoaMapper.ToDomain(Some(registros[k]));
        r := r + [p];
        k := k + 1;
      }
    }

    /**
     * `contatoJaUtilizado(pessoa)`: the plain query on the phone of `toData(pessoa)`, which is the
     * person's own phone; with no contato the dereference fails.
     */
    function ContatoJaUtilizado(p: Pessoa): (r: Result<bool, Erro>)
      reads this, p
      ensures p.contato.None? ==> r == Failure(DesreferenciaNula)
      ensures p.contato.Some? ==>
                r == Success(PessoaDataRepository.TelefoneJaCadastrado(registros, p.contato.value.telefone))
    {
      var d := PessoaMapper.ToData(p).value;
      if d.contato.None? then Failure(DesreferenciaNula)
      else Success(PessoaDataRepository.TelefoneJaCadastrado(registros, d.contato.value.telefone))
    }

    /** `contatoJaUtilizadoSemSerEu(pessoa)`: the self-excluding query with the person's phone and own id. */
    function ContatoJaUtilizadoSemSerEu(p: Pessoa): (r: Result<bool, Erro>)
      reads this, p
      ensures p.contato.None? ==> r == Failure(DesreferenciaNula)
      ensures p.contato.Some? ==>
                r == Success(PessoaDataRepository.TelefoneJaCadastradoSemSerEu(registros, p.contato.value.telefone, p.id))
    {
      var d := PessoaMapper.ToData(p).value;
      if d.contato.None? then Failure(DesreferenciaNula)
      else Success(PessoaDataRepository.TelefoneJaCadastradoSemSerEu(registros, d.contato.value.telefone, p.id))
    }

    /** `incluir` (BaseRepositoryImpl): `toData`, `save`, then `toDomain` of the saved row. */
    method Incluir(p: Pessoa) returns (r: Pessoa)
      modifies this
      ensures registros == salvar(old(registros), PessoaMapper.ToData(p).value).0
      ensures fresh(r) && PessoaMapper.ToData(r) == Some(salvar(old(registros), PessoaMapper.ToData(p).value).1)
    {
      var (tabela, salvo) := salvar(registros, PessoaMapper.ToData(p).value);
      registros := tabela;
      var q := PessoaMapper.ToDomain(Some(salvo));
      r := q;
    }

    /** `alterar` (BaseRepositoryImpl): the same steps as `incluir`; `save` decides between insert and update. */
    method Alterar(p: Pessoa) returns (r: Pessoa)
      modifies this
      ensures registros == salvar(old(registros), PessoaMapper.ToData(p).value).0
      ensures fresh(r) && PessoaMapper.ToData(r) == Some(salvar(old(registros), PessoaMapper.ToData(p).value).1)
    {
      var (tabela, salvo) := salvar(registros, PessoaMapper.ToData(p).value);
      registros := tabela;
      var q := PessoaMapper.ToDomain(Some(salvo));
      r := q;
    }

    /** `excluir(id)` (BaseRepositoryImpl): `deleteById`, then the id back. */
    method Excluir(id: Long) returns (r: Long)
      modifies this
      ensures registros == apagar(old(registros), id)
      ensures r == id
    {
      registros := apagar(registros, id);
      r := id;
    }
  }
}
