/**
 * PessoaService.java: the application service the validation rules call. Every operation
 * forwards to the repository; `consultar` turns an empty result into NaoEncontradoException.
 * The ghost log `chamadas` records each call the service receives, in order.
 */
module PessoaService {
  import opened Wrappers
  import opened Entidades
  import opened Excecoes
  import PessoaMapper
  import Repo = PessoaRepositoryImpl

  const PessoaNaoEncontrada := "Pessoa não encontrada"

  /** One call received by the service. */
  datatype Chamada =
    | Incluir(pessoa: Pessoa)
    | Alterar(pessoa: Pessoa)
    | Deletar(id: Long)
    | Consultar(id: Long)
    | Listar
    | ContatoJaUtilizado(pessoa: Pessoa)
    | ContatoJaUtilizadoSemSerEu(pessoa: Pessoa)

  class PessoaService {
    const repository: Repo.PessoaRepositoryImpl
    ghost var chamadas: seq<Chamada>

    constructor (repository: Repo.PessoaRepositoryImpl)
      ensures this.repository == repository && chamadas == []
    {
      this.repository := repository;
      chamadas := [];
    }

    /** `incluir`: the repository's result, after one call. */
    method Incluir(p: Pessoa) returns (r: Pessoa)
      modifies this, repository
      ensures chamadas == old(chamadas) + [Chamada.Incluir(p)]
      ensures repository.registros == repository.salvar(old(repository.registros), PessoaMapper.ToData(p).value).0
      ensures fresh(r)
      ensures PessoaMapper.ToData(r) == Some(repository.salvar(old(repository.registros), PessoaMapper.ToData(p).value).1)
    {
      chamadas := chamadas + [Chamada.Incluir(p)];
      r := repository.Incluir(p);
    }

    /** `alterar`: the repository's result, after one call. */
    method Alterar(p: Pessoa) returns (r: Pessoa)
      modifies this, repository
      ensures chamadas == old(chamadas) + [Chamada.Alterar(p)]
      ensures repository.registros == repository.salvar(old(repository.registros), PessoaMapper.ToData(p).value).0
      ensures fresh(r)
      ensures PessoaMapper.ToData(r) == Some(repository.salvar(old(repository.registros), PessoaMapper.ToData(p).value).1)
    {
      chamadas := chamadas + [Chamada.Alterar(p)];
      r := repository.Alterar(p);
    }

    /** `deletar`: `repository.excluir` once, with the same id. */
    method Deletar(id: Long)
      modifies this, repository
      ensures chamadas == old(chamadas) + [Chamada.Deletar(id)]
      ensures repository.registros == repository.apagar(old(repository.registros), id)
    {
      chamadas := chamadas + [Chamada.Deletar(id)];
      var _ := repository.Excluir(id);
    }

    /** `consultar`: the repository's person when present, NaoEncontradoException otherwise. */
    method Consultar(id: Long) returns (r: Result<Pessoa, Erro>)
      modifies this
      ensures chamadas == old(chamadas) + [Chamada.Consultar(id)]
      ensures Repo.BuscarPorId(repository.registros, id).None? ==> r == Failure(NaoEncontrado(PessoaNaoEncontrada))
      ensures Repo.BuscarPorId(repository.registros, id).Some? ==>
                r.Success? && fresh(r.value) && PessoaMapper.ToData(r.value) == Repo.BuscarPorId(repository.registros, id)
    {
      chamadas := chamadas + [Chamada.Consultar(id)];
      var encontrada := repository.Consultar(id);
      if encontrada.None? {
        return Failure(NaoEncontrado(PessoaNaoEncontrada));
      }
      r := Success(encontrada.value);
    }

    /** `listar`: the repository's page; nothing is written. */
    method Listar() returns (r: seq<Pessoa>)
      modifies this
      ensures chamadas == old(chamadas) + [Chamada.Listar]
      ensures |r| == |repository.registros|
      ensures forall i :: 0 <= i < |r| ==> fresh(r[i]) && PessoaMapper.ToData(r[i]) == Some(repository.registros[i])
    {
      chamadas := chamadas + [Chamada.Listar];
      r := repository.Listar();
    }

    /** `contatoJaUtilizado`: the repository's answer, unchanged. */
    method ContatoJaUtilizado(p: Pessoa) returns (r: Result<bool, Erro>)
      modifies this
      ensures chamadas == old(chamadas) + [Chamada.ContatoJaUtilizado(p)]
      ensures r == repository.ContatoJaUtilizado(p)
    {
      chamadas := chamadas + [Chamada.ContatoJaUtilizado(p)];
      r := repository.ContatoJaUtilizado(p);
    }

    /** `contatoJaUtilizadoSemSerEu`: the repository's answer, unchanged. */
    method ContatoJaUtilizadoSemSerEu(p: Pessoa) returns (r: Result<bool, Erro>)
      modifies this
      ensures chamadas == old(chamadas) + [Chamada.ContatoJaUtilizadoSemSerEu(p)]
      ensures r == repository.ContatoJaUtilizadoSemSerEu(p)
    {
      chamadas := chamadas + [Chamada.ContatoJaUtilizadoSemSerEu(p)];
      r := repository.ContatoJaUtilizadoSemSerEu(p);
    }
  }
}
