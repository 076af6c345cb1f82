/** IncluirPessoaRegras.java: the checks an inclusion goes through before `service.incluir`. */
module IncluirPessoaRegras {
  import opened Wrappers
  import opened Entidades
  import opened Excecoes
  import opened JavaText
  import opened RegrasPessoa
  import PessoaMapper
  import S = PessoaService

  class IncluirPessoaRegras {
    const service: S.PessoaService

    constructor (service: S.PessoaService)
      ensures this.service == service
    {
      this.service := service;
    }

    /** `validarContatoJaCadastrado`: asks the service once, and refuses a phone already in use. */
    method ValidarContatoJaCadastrado(p: Pessoa) returns (r: Outcome<Erro>)
      modifies service
      ensures service.chamadas == old(service.chamadas) + [S.Chamada.ContatoJaUtilizado(p)]
      ensures r == SeDuplicado(service.repository.ContatoJaUtilizado(p))
    {
      var usado := service.ContatoJaUtilizado(p);
      r := SeDuplicado(usado);
    }

    /**
     * `execute`: name, phone, duplicate, in that order, stopping at the first failure; the
     * service's `incluir` is called once, only when all pass, and its result is returned.
     */
    method Execute(p: Pessoa) returns (r: Result<Pessoa, Erro>)
      modifies p`nome, service, service.repository
      ensures var veredito := Inclusao(old(p.nome), p.contato, old(service.repository.registros));
              && (veredito.Fail? ==> r == Failure(veredito.error))
              && (veredito.Fail? ==> service.repository.registros == old(service.repository.registros))
              && (veredito.Pass? ==> r.Success? && fresh(r.value))
      ensures ValidacaoNome(old(p.nome)).Pass? ==> p.nome == Some(Trim(old(p.nome).value))
      ensures ValidacaoNome(old(p.nome)).Fail? ==> p.nome == old(p.nome)
      ensures ValidarCampos(old(p.nome), p.contato).Fail? ==> service.chamadas == old(service.chamadas)
      ensures ValidarCampos(old(p.nome), p.contato).Pass? ==>
                service.chamadas == old(service.chamadas) + [S.Chamada.ContatoJaUtilizado(p)] +
                  (if Inclusao(old(p.nome), p.contato, old(service.repository.registros)).Pass?
                   then [S.Chamada.Incluir(p)] else [])
      ensures Inclusao(old(p.nome), p.contato, old(service.repository.registros)).Pass? ==>
                var (tabela, salvo) := service.repository.salvar(old(service.repository.registros), PessoaMapper.ToData(p).value);
                && service.repository.registros == tabela
                && PessoaMapper.ToData(r.value) == Some(salvo)
    {
      var nome := ValidarNome(p);
      if nome.Fail? {
        return Failure(nome.error);
      }
      var telefone := ValidarTelefoneContato(p.contato);
      if telefone.Fail? {
        return Failure(telefone.error);
      }
      var duplicado := ValidarContatoJaCadastrado(p);
      if duplicado.Fail? {
        return Failure(duplicado.error);
      }
      var incluida := service.Incluir(p);
      r := Success(incluida);
    }
  }
}
