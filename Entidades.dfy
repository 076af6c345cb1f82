/** The entities of the Pessoa aggregate, their persistence records, and the exceptions the core throws. */
module Entidades {
  import opened Wrappers

  /** The values of a Java `long`; a `Long` that may be null is an `Option<Long>`. */
  newtype Long = x: int | -0x8000_0000_0000_0000 <= x < 0x8000_0000_0000_0000

  /** Endereco.java: an address. Nothing in the core changes one in place, so it is a value. */
  datatype Endereco = Endereco(id: Option<Long>, bairro: Option<string>)

  /** Contato.java: a contact phone. */
  datatype Contato = Contato(id: Option<Long>, telefone: Option<string>)

  /** EnderecoData.java: the row of cadastro_endereco. */
  datatype EnderecoData = EnderecoData(id: Option<Long>, bairro: Option<string>)

  /** ContatoData.java: the row of cadastro_contato. */
  datatype ContatoData = ContatoData(id: Option<Long>, telefone: Option<string>)

  /** PessoaData.java: the row of cadastro_pessoa with its one-to-one address and contact. */
  datatype PessoaData = PessoaData(
    id: Option<Long>,
    nome: Option<string>,
    endereco: Option<EnderecoData>,
    contato: Option<ContatoData>)

  /**
   * Pessoa.java: the aggregate root. `id` and `nome` have setters and the validation rules
   * rewrite `nome` in place, so Pessoa is an object; `endereco` and `contato` have no setter.
   */
  class Pessoa {
    var id: Option<Long>
    var nome: Option<string>
    const endereco: Option<Endereco>
    const contato: Option<Contato>

    /** The all-arguments constructor, which the builder also uses. */
    constructor (id: Option<Long>, nome: Option<string>, endereco: Option<Endereco>, contato: Option<Contato>)
      ensures this.id == id && this.nome == nome
      ensures this.endereco == endereco && this.contato == contato
    {
      this.id := id;
      this.nome := nome;
      this.endereco := endereco;
      this.contato := contato;
    }

    /** `new Pessoa(id)`: every other field is left null. */
    constructor ComId(id: Option<Long>)
      ensures this.id == id && nome.None? && endereco.None? && contato.None?
    {
      this.id := id;
      this.nome := None;
      this.endereco := None;
      this.contato := None;
    }
  }
}

/** The exceptions the core throws, with the message each carries. */
module Excecoes {
  import opened Wrappers

  datatype Erro =
    | IllegalArgument(mensagem: string)
    | NullPointer(detalhe: Option<string>)
    | NaoEncontrado(mensagem: string)

  /** The NullPointerException the JVM raises on a null dereference; the model does not keep the JVM's message. */
  const DesreferenciaNula: Erro := NullPointer(None)
}
