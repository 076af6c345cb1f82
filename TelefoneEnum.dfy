/**
 * TelefoneEnum.TELEFONE_MASCARA_REGEX, `\(\d{2}\) \d{4,5}-\d{4}`, as the validation rules apply
 * it with `String.matches`: the whole string must match, and `\d` is an ASCII digit.
 */
module TelefoneEnum {

  /** `\d` without UNICODE_CHARACTER_CLASS: '0' to '9' only. */
  predicate IsDigit(c: char) {
    '0' <= c <= '9'
  }

  predicate Digits(s: string) {
    forall i :: 0 <= i < |s| ==> IsDigit(s[i])
  }

  /** `\d{n}-\d{4}` over the whole of `t`. */
  predicate MeioHifenFim(t: string, n: nat) {
    && |t| == n + 5
    && Digits(t[..n])
    && t[n] == '-'
    && Digits(t[n + 1..])
  }

  /** The mask, read left to right: `(`, two digits, `)`, one space, four or five digits, `-`, four digits. */
  predicate TelefoneMascara(s: string) {
    && |s| >= 5
    && s[0] == '('
    && IsDigit(s[1]) && IsDigit(s[2])
    && s[3] == ')'
    && s[4] == ' '
    && (MeioHifenFim(s[5..], 4) || MeioHifenFim(s[5..], 5))
  }

  /** The layout the mask describes, filled with an area code, a middle group and a last group. */
  function Montar(ddd: string, meio: string, fim: string): string {
    "(" + ddd + ") " + meio + "-" + fim
  }

  /** The three groups the mask asks for: 2 digits, 4 or 5 digits, 4 digits. */
  predicate Grupos(ddd: string, meio: string, fim: string) {
    && |ddd| == 2 && Digits(ddd)
    && (|meio| == 4 || |meio| == 5) && Digits(meio)
    && |fim| == 4 && Digits(fim)
  }

  /** Any three well-formed groups laid out by `Montar` match the mask. */
  lemma MontarAceito(ddd: string, meio: string, fim: string)
    requires Grupos(ddd, meio, fim)
    ensures TelefoneMascara(Montar(ddd, meio, fim))
  {
  }

  /** Every string the mask matches is such a layout, and the groups can be read back by position. */
  lemma AceitoMontar(s: string)
    requires TelefoneMascara(s)
    ensures |s| == 14 || |s| == 15
    ensures Grupos(s[1..3], s[5..|s| - 5], s[|s| - 4..])
    ensures s == Montar(s[1..3], s[5..|s| - 5], s[|s| - 4..])
  {
    var n := if MeioHifenFim(s[5..], 4) then 4 else 5;
    var t := s[5..];
    assert MeioHifenFim(t, n);
    assert s[5..|s| - 5] == t[..n];
    assert s[|s| - 4..] == t[n + 1..];
    assert s == s[..5] + t;
    assert t == t[..n] + "-" + t[n + 1..];
  }

  /** For groups of the right lengths, the layout matches the mask exactly when every group is digits. */
  lemma MontarAceitoSse(ddd: string, meio: string, fim: string)
    requires |ddd| == 2 && (|meio| == 4 || |meio| == 5) && |fim| == 4
    ensures TelefoneMascara(Montar(ddd, meio, fim)) <==> Digits(ddd) && Digits(meio) && Digits(fim)
  {
    var s := Montar(ddd, meio, fim);
    if TelefoneMascara(s) {
      AceitoMontar(s);
      assert s[1..3] == ddd;
      assert s[5..|s| - 5] == meio;
      assert s[|s| - 4..] == fim;
    }
    if Digits(ddd) && Digits(meio) && Digits(fim) {
      MontarAceito(ddd, meio, fim);
    }
  }

  /** The characters the mask adds around the digits. */
  predicate Pontuacao(c: char) {
    c == '(' || c == ')' || c == ' ' || c == '-'
  }

  /** The phone with its punctuation taken out. */
  function RemoverPontuacao(s: string): string {
    if s == [] then []
    else (if Pontuacao(s[0]) then [] else [s[0]]) + RemoverPontuacao(s[1..])
  }

  lemma {:induction false} RemoverPontuacaoConcat(a: string, b: string)
    ensures RemoverPontuacao(a + b) == RemoverPontuacao(a) + RemoverPontuacao(b)
  {
    if a == [] {
      assert a + b == b;
    } else {
      assert (a + b)[0] == a[0] && (a + b)[1..] == a[1..] + b;
      RemoverPontuacaoConcat(a[1..], b);
    }
  }

  /** A string of digits has no punctuation to remove. */
  lemma {:induction false} RemoverPontuacaoDigitos(s: string)
    requires Digits(s)
    ensures RemoverPontuacao(s) == s
  {
    if s != [] {
      RemoverPontuacaoDigitos(s[1..]);
    }
  }

  /** How many ASCII digits `s` holds. */
  function QuantidadeDigitos(s: string): nat {
    if s == [] then 0 else (if IsDigit(s[0]) then 1 else 0) + QuantidadeDigitos(s[1..])
  }

  lemma {:induction false} QuantidadeDigitosConcat(a: string, b: string)
    ensures QuantidadeDigitos(a + b) == QuantidadeDigitos(a) + QuantidadeDigitos(b)
  {
    if a == [] {
      assert a + b == b;
    } else {
      assert (a + b)[0] == a[0] && (a + b)[1..] == a[1..] + b;
      QuantidadeDigitosConcat(a[1..], b);
    }
  }

  lemma {:induction false} QuantidadeDigitosTodos(s: string)
    requires Digits(s)
    ensures QuantidadeDigitos(s) == |s|
  {
    if s != [] {
      QuantidadeDigitosTodos(s[1..]);
    }
  }

  /** Removing the punctuation of a layout leaves its three groups side by side. */
  lemma RemoverPontuacaoMontar(ddd: string, meio: string, fim: string)
    ensures RemoverPontuacao(Montar(ddd, meio, fim))
         == RemoverPontuacao(ddd) + RemoverPontuacao(meio) + RemoverPontuacao(fim)
  {
    var p1 := "(" + ddd;
    var p2 := p1 + ") ";
    var p3 := p2 + meio;
    var p4 := p3 + "-";
    assert Montar(ddd, meio, fim) == p4 + fim;
    assert RemoverPontuacao("(") == [] by { assert "("[1..] == []; }
    assert RemoverPontuacao("-") == [] by { assert "-"[1..] == []; }
    assert RemoverPontuacao(") ") == [] by { assert ") "[1..] == " " && " "[1..] == []; }
    RemoverPontuacaoConcat("(", ddd);
    assert RemoverPontuacao(p1) == RemoverPontuacao(ddd);
    RemoverPontuacaoConcat(p1, ") ");
    assert RemoverPontuacao(p2) == RemoverPontuacao(ddd);
    RemoverPontuacaoConcat(p2, meio);
    RemoverPontuacaoConcat(p3, "-");
    assert RemoverPontuacao(p4) == RemoverPontuacao(ddd) + RemoverPontuacao(meio);
    RemoverPontuacaoConcat(p4, fim);
  }

  /**
   * Every string the mask accepts is 14 or 15 characters long and holds exactly 10 or 11
   * digits, which are what is left once the punctuation is removed.
   */
  lemma AceitoTamanhoEDigitos(s: string)
    requires TelefoneMascara(s)
    ensures |s| == 14 || |s| == 15
    ensures QuantidadeDigitos(s) == |s| - 4
    ensures var v := RemoverPontuacao(s); Digits(v) && |v| == |s| - 4
  {
    AceitoMontar(s);
    var a, b, c := s[1..3], s[5..|s| - 5], s[|s| - 4..];
    RemoverPontuacaoMontar(a, b, c);
    RemoverPontuacaoDigitos(a);
    RemoverPontuacaoDigitos(b);
    RemoverPontuacaoDigitos(c);
    var p1 := "(" + a;
    var p2 := p1 + ") ";
    var p3 := p2 + b;
    var p4 := p3 + "-";
    assert s == p4 + c;
    QuantidadeDigitosConcat("(", a);
    QuantidadeDigitosConcat(p1, ") ");
    QuantidadeDigitosConcat(p2, b);
    QuantidadeDigitosConcat(p3, "-");
    QuantidadeDigitosConcat(p4, c);
    QuantidadeDigitosTodos(a);
    QuantidadeDigitosTodos(b);
    QuantidadeDigitosTodos(c);
    assert QuantidadeDigitos(") ") == 0;
    assert QuantidadeDigitos("-") == 0;
    assert QuantidadeDigitos("(") == 0;
  }

  /** The two layouts the source's tests accept. */
  lemma ExemplosAceitos()
    ensures TelefoneMascara("(12) 3456-7890")
    ensures TelefoneMascara("(12) 34567-8901")
  {
  }

  /**
   * What the source's tests reject: no parentheses, no hyphen, a six-digit middle group, a
   * three-digit last group, a letter, a doubled space, spaces around the phone, bare digits.
   */
  lemma ExemplosRejeitados()
    ensures !TelefoneMascara("12 3456-7890")
    ensures !TelefoneMascara("(12) 34567890")
    ensures !TelefoneMascara("(12) 345678-9012")
    ensures !TelefoneMascara("(12) 3456-789")
    ensures !TelefoneMascara("(12) 3456-78a0")
    ensures !TelefoneMascara("(12)  3456-7890")
    ensures !TelefoneMascara(" (12) 3456-7890 ")
    ensures !TelefoneMascara("1234567890")
  {
    var s := "(12) 3456-78a0";
    assert s[5..][5..] == "78a0" && !IsDigit(s[5..][5..][2]);
    var w := "(12)  3456-7890";
    assert w[5..][0] == ' ';
    var u := "(12) 345678-9012";
    assert u[5..][4] == '7' && u[5..][5] == '8';
  }
}
