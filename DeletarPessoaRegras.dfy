/** DeletarPessoaRegras.java: the id check before `service.deletar`. */
module DeletarPessoaRegras {
  import opened Wrappers
  import opened Entidades
  import opened Excecoes
  import S = PessoaService

  const IdObrigatorio := "Id é obrigatório"

  /** `validarIdNulo`: only a null id is refused, with NullPointerException("Id é obrigatório"). */
  function ValidarIdNulo(id: Option<Long>): (r: Outcome<Erro>)
    ensures r.Fail? <==> id.None?
    ensures r.Fail? ==> r.error == NullPointer(Some(IdObrigatorio))
  {
    if id.None? then Fail(NullPointer(Some(IdObrigatorio))) else Pass
  }

  class DeletarPessoaRegras {
    const service: S.PessoaService

    constructor (service: S.PessoaService)
      ensures this.service == service
    {
      this.service := service;
    }

    /**
     * `execute(Long)`: a null id is refused before the service is reached; any other id is passed to
     * `service.deletar` once and returned unchanged. Nothing remembers earlier calls, so the same id
     * deleted twice reaches the service twice.
     */
    method ExecutePorId(id: Option<Long>) returns (r: Result<Long, Erro>)
      modifies service, service.repository
      ensures id.None? ==> r == Failure(NullPointer(Some(IdObrigatorio)))
      ensures id.None? ==> service.chamadas == old(service.chamadas)
      ensures id.None? ==> service.repository.registros == old(service.repository.registros)
      ensures id.Some? ==> r == Success(id.value)
      ensures id.Some? ==> service.chamadas == old(service.chamadas) + [S.Chamada.Deletar(id.value)]
      ensures id.Some? ==> service.repository.registros == service.repository.apagar(old(service.repository.registros), id.value)
    {
      var valido := ValidarIdNulo(id);
      if valido.Fail? {
        return Failure(valido.error);
      }
      service.Deletar(id.value);
      r := Success(id.value);
    }

    /** `execute(Pessoa)`: deletes by the person's id and answers with `new Pessoa(id)`, every other field null. */
    method Execute(p: Pessoa) returns (r: Result<Pessoa, Erro>)
      modifies service, service.repository
      ensures p.id.None? ==> r == Failure(NullPointer(Some(IdObrigatorio)))
      ensures p.id.None? ==> service.chamadas == old(service.chamadas)
      ensures p.id.None? ==> service.repository.registros == old(service.repository.registros)
      ensures p.id.Some? ==> service.chamadas == old(service.chamadas) + [S.Chamada.Deletar(p.id.value)]
      ensures p.id.Some? ==> r.Success? && fresh(r.value) && r.value != p && r.value.id == p.id
      ensures p.id.Some? ==> r.value.nome.None? && r.value.endereco.None? && r.value.contato.None?
      ensures p.id.Some? ==> service.repository.registros == service.repository.apagar(old(service.repository.registros), p.id.value)
    {
      var id := ExecutePorId(p.id);
      if id.Failure? {
        return Failure(id.error);
      }
      var q := new Pessoa.ComId(Some(id.value));
      r := Success(q);
    }
  }
}
