/** pessoa-editar.component.ts: `formatarTelefone`, applied to the phone before an update is sent. */
module PessoaEditarComponent {
  import opened Wrappers
  import opened JavaText
  import opened TelefoneEnum

  /**
   * Ten characters get a four-character middle group, eleven a five-character one; anything
   * else, `null` and `undefined` included, comes back as it was.
   */
  function FormatarTelefone(value: Option<string>): (r: Option<string>)
    ensures value.Some? && (|value.value| == 10 || |value.value| == 11) ==>
              && r.Some?
              && |r.value| == |value.value| + 4
              && RemoverPontuacao(r.value) == RemoverPontuacao(value.value)
    ensures value.None? || (|value.value| != 10 && |value.value| != 11) ==> r == value
  {
    if value.Some? && |value.value| == 10 then
      var v := value.value;
      var (ddd, meio, fim) := (Substring(v, 0, 2), Substring(v, 2, 6), Substring(v, 6, 10));
      assert v == ddd + meio + fim;
      RemoverPontuacaoConcat(ddd + meio, fim);
      RemoverPontuacaoConcat(ddd, meio);
      RemoverPontuacaoMontar(ddd, meio, fim);
      Some(Montar(ddd, meio, fim))
    else if value.Some? && |value.value| == 11 then
      var v := value.value;
      var (ddd, meio, fim) := (Substring(v, 0, 2), Substring(v, 2, 7), Substring(v, 7, 11));
      assert v == ddd + meio + fim;
      RemoverPontuacaoConcat(ddd + meio, fim);
      RemoverPontuacaoConcat(ddd, meio);
      RemoverPontuacaoMontar(ddd, meio, fim);
      Some(Montar(ddd, meio, fim))
    else
      value
  }

  /** The groups the formatter cuts a 10- or 11-character value into. */
  lemma Cortes(v: string)
    requires |v| == 10 || |v| == 11
    ensures var n := |v| - 6;
            FormatarTelefone(Some(v)) == Some(Montar(v[..2], v[2..2 + n], v[2 + n..]))
  {
    var n := |v| - 6;
    assert Substring(v, 0, 2) == v[..2];
    assert Substring(v, 2, 2 + n) == v[2..2 + n];
    assert Substring(v, 2 + n, |v|) == v[2 + n..];
  }

  /** Ten or eleven ASCII digits: what the form is expected to hold. */
  predicate DigitosTelefone(v: string) {
    Digits(v) && (|v| == 10 || |v| == 11)
  }

  /**
   * For 10- or 11-character input the backend mask accepts the output exactly when the input is
   * all digits, and removing the punctuation then gives the input back.
   */
  lemma FormatadoAceitoSse(v: string)
    requires |v| == 10 || |v| == 11
    ensures TelefoneMascara(FormatarTelefone(Some(v)).value) <==> Digits(v)
    ensures Digits(v) ==> RemoverPontuacao(FormatarTelefone(Some(v)).value) == v
  {
    var n := |v| - 6;
    Cortes(v);
    var ddd, meio, fim := v[..2], v[2..2 + n], v[2 + n..];
    assert v == ddd + meio + fim;
    MontarAceitoSse(ddd, meio, fim);
    if Digits(v) {
      RemoverPontuacaoDigitos(v);
    }
  }

  /** Formatting twice is formatting once: the 14- and 15-character output falls in the "as it was" branch. */
  lemma Idempotente(value: Option<string>)
    ensures FormatarTelefone(FormatarTelefone(value)) == FormatarTelefone(value)
  {
  }

  /**
   * The mask and the formatter describe the same strings: a phone matches the mask exactly when
   * it is the formatting of 10 or 11 digits, namely of its own digits.
   */
  lemma MascaraSseFormatado(s: string)
    ensures TelefoneMascara(s) <==> exists v :: DigitosTelefone(v) && FormatarTelefone(Some(v)) == Some(s)
    ensures TelefoneMascara(s) ==> FormatarTelefone(Some(RemoverPontuacao(s))) == Some(s)
  {
    if TelefoneMascara(s) {
      AceitoMontar(s);
      AceitoTamanhoEDigitos(s);
      var ddd, meio, fim := s[1..3], s[5..|s| - 5], s[|s| - 4..];
      var v := RemoverPontuacao(s);
      RemoverPontuacaoMontar(ddd, meio, fim);
      RemoverPontuacaoDigitos(ddd);
      RemoverPontuacaoDigitos(meio);
      RemoverPontuacaoDigitos(fim);
      assert v == ddd + meio + fim;
      Cortes(v);
      assert v[..2] == ddd && v[2..2 + |meio|] == meio && v[2 + |meio|..] == fim;
      assert DigitosTelefone(v);
    }
    forall v | DigitosTelefone(v) && FormatarTelefone(Some(v)) == Some(s)
      ensures TelefoneMascara(s)
    {
      FormatadoAceitoSse(v);
    }
  }
}
