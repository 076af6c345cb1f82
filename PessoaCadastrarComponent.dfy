/** pessoa-cadastrar.component.ts: `formatarTelefone`, applied to the phone before an inclusion is sent. */
module PessoaCadastrarComponent {
  import opened Wrappers
  import opened JavaText
  import opened TelefoneEnum
  import Editar = PessoaEditarComponent

  /**
   * Ten characters get a four-character middle group; every other value is cut with the
   * eleven-character layout, whatever its length (JavaScript's `substring` clamps to the end).
   */
  function FormatarTelefone(value: string): (r: string)
    ensures |value| == 10 ==> |r| == 14
    ensures |value| != 10 ==> |r| == 4 + Min(|value|, 11)
  {
    if |value| == 10 then
      Montar(Substring(value, 0, 2), Substring(value, 2, 6), Substring(value, 6, 10))
    else
      Montar(Substring(value, 0, 2), Substring(value, 2, 7), Substring(value, 7, 11))
  }

  /** On the lengths the edit screen formats, both screens produce the same string. */
  lemma IgualAoEditar(v: string)
    requires |v| == 10 || |v| == 11
    ensures Editar.FormatarTelefone(Some(v)) == Some(FormatarTelefone(v))
  {
  }

  /** Only the first eleven characters of a longer value reach the output. */
  lemma Trunca(v: string)
    requires |v| >= 11
    ensures FormatarTelefone(v) == FormatarTelefone(v[..11])
  {
  }

  /**
   * The output passes the backend mask exactly when the value is ten digits, or has at least
   * eleven characters of which the first eleven are digits.
   */
  lemma AceitoSse(v: string)
    ensures TelefoneMascara(FormatarTelefone(v)) <==>
              (|v| == 10 && Digits(v)) || (|v| >= 11 && Digits(v[..11]))
  {
    if |v| == 10 || |v| == 11 {
      IgualAoEditar(v);
      Editar.FormatadoAceitoSse(v);
      assert |v| == 11 ==> v[..11] == v;
    } else if |v| > 11 {
      Trunca(v);
      IgualAoEditar(v[..11]);
      Editar.FormatadoAceitoSse(v[..11]);
    } else {
      var r := FormatarTelefone(v);
      if TelefoneMascara(r) {
        AceitoTamanhoEDigitos(r);
        assert false;
      }
    }
  }

  /** Unlike the edit screen's, this formatter is not idempotent: an already formatted phone is mangled. */
  lemma NaoIdempotente()
    ensures var s := "(12) 3456-7890";
            && TelefoneMascara(s)
            && FormatarTelefone(s) == "((1) 2) 34-56-7"
            && !TelefoneMascara(FormatarTelefone(s))
  {
    var s := "(12) 3456-7890";
    ExemplosAceitos();
    assert Substring(s, 0, 2) == "(1";
    assert Substring(s, 2, 7) == "2) 34";
    assert Substring(s, 7, 11) == "56-7";
    var r := FormatarTelefone(s);
    assert r == "((1) 2) 34-56-7";
    assert !IsDigit(r[1]);
  }
}
