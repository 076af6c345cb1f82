/** AlterarPessoaRegras.java: the checks an update goes through before `service.alterar`. */
module AlterarPessoaRegras {
  import opened Wrappers
  import opened Entidades
  import opened Excecoes
  import opened JavaText
  import opened RegrasPessoa
  import PessoaMapper
  import S = PessoaService

  class AlterarPessoaRegras {
    const service: S.PessoaService

    constructor (service: S.PessoaService)
      ensures this.service == service
    {
      this.service := service;
    }

    /** `validarContatoJaCadastrado`: asks the service once, and refuses a phone some other person uses. */
    method ValidarContatoJaCadastrado(p: Pessoa) returns (r: Outcome<Erro>)
      modifies service
      ensures service.chamadas == old(service.chamadas) + [S.Chamada.ContatoJaUtilizadoSemSerEu(p)]
      ensures r == SeDuplicado(service.repository.ContatoJaUtilizadoSemSerEu(p))
    {
      var usado := service.ContatoJaUtilizadoSemSerEu(p);
      r := SeDuplicado(usado);
    }

    /**
     * `execute`: name, phone, duplicate, in that order, stopping at the first failure; the
     * service's `alterar` is called once, only when all pass, and its result is returned.
     */
    method Execute(p: Pessoa) returns (r: Result<Pessoa, Erro>)
      modifies p`nome, service, service.repository
      ensures var veredito := Alteracao(old(p.nome), p.contato, p.id, old(service.repository.registros));
              && (veredito.Fail? ==> r == Failure(veredito.error))
              && (veredito.Fail? ==> service.repository.registros == old(service.repository.registros))
              && (veredito.Pass? ==> r.Success? && fresh(r.value))
      ensures ValidacaoNome(old(p.nome)).Pass? ==> p.nome == Some(Trim(old(p.nome).value))
      ensures ValidacaoNome(old(p.nome)).Fail? ==> p.nome == old(p.nome)
      ensures ValidarCampos(old(p.nome), p.contato).Fail? ==> service.chamadas == old(service.chamadas)
      ensures ValidarCampos(old(p.nome), p.contato).Pass? ==>
                service.chamadas == old(service.chamadas) + [S.Chamada.ContatoJaUtilizadoSemSerEu(p)] +
                  (if Alteracao(old(p.nome), p.contato, p.id, old(service.repository.registros)).Pass?
                   then [S.Chamada.Alterar(p)] else [])
      ensures Alteracao(old(p.nome), p.contato, p.id, old(service.repository.registros)).Pass? ==>
                var (tabela, salvo) := service.repository.salvar(old(service.repository.registros), PessoaMapper.ToData(p).value);
                && service.repository.registros == tabela
                && PessoaMapper.ToData(r.value) == Some(salvo)
    {
      var nome := ValidarNome(p);
      if nome.Fail? {
        return Failure(nome.error);
      }
      var telefone := ValidarTelefoneContato(p.contato);
      if telefone.Fail? {
        return Failure(telefone.error);
      }
      var duplicado := ValidarContatoJaCadastrado(p);
      if duplicado.Fail? {
        return Failure(duplicado.error);
      }
      var alterada := service.Alterar(p);
      r := Success(alterada);
    }
  }
}
