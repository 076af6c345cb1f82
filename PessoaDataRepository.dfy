/**
 * PessoaDataRepository.java: the two duplicate-phone queries, each a
 * `select case when count(pessoa.id) > 0 ...` over the cadastro_pessoa rows.
 *
 * The comparisons follow SQL: `pessoa.contato.telefone` joins the contact, so a row without one
 * never matches; a comparison with a null parameter, or with a null column, is unknown and
 * never selects the row; `count(pessoa.id)` counts only rows whose id is not null.
 */
module PessoaDataRepository {
  import opened Wrappers
  import opened Entidades

  /** `pessoa.contato.telefone = ?1` holds for this row. */
  predicate TemTelefone(row: PessoaData, telefone: Option<string>) {
    telefone.Some? && row.contato.Some? && row.contato.value.telefone == telefone
  }

  /** `pessoa.id <> ?2` holds for this row. */
  predicate IdDiferente(row: PessoaData, id: Option<Long>) {
    id.Some? && row.id.Some? && row.id != id
  }

  /** A row that `count(pessoa.id)` counts for the plain query. */
  predicate Contado(row: PessoaData, telefone: Option<string>) {
    row.id.Some? && TemTelefone(row, telefone)
  }

  /** A row that `count(pessoa.id)` counts for the query that leaves the caller out. */
  predicate ContadoSemSerEu(row: PessoaData, telefone: Option<string>, id: Option<Long>) {
    Contado(row, telefone) && IdDiferente(row, id)
  }

  /** `count(pessoa.id)` for the plain query: the rows it counts, by position. */
  function Contagem(rows: seq<PessoaData>, telefone: Option<string>): nat {
    |set i | 0 <= i < |rows| && Contado(rows[i], telefone)|
  }

  /** `count(pessoa.id)` for the query that leaves the caller out. */
  function ContagemSemSerEu(rows: seq<PessoaData>, telefone: Option<string>, id: Option<Long>): nat {
    |set i | 0 <= i < |rows| && ContadoSemSerEu(rows[i], telefone, id)|
  }

  /** A count of rows is positive exactly when some row is counted. */
  lemma ContagemPositiva(rows: seq<PessoaData>, telefone: Option<string>, id: Option<Long>)
    ensures Contagem(rows, telefone) > 0 <==> exists i :: 0 <= i < |rows| && Contado(rows[i], telefone)
    ensures ContagemSemSerEu(rows, telefone, id) > 0 <==>
              exists i :: 0 <= i < |rows| && ContadoSemSerEu(rows[i], telefone, id)
  {
    var a := set i | 0 <= i < |rows| && Contado(rows[i], telefone);
    var b := set i | 0 <= i < |rows| && ContadoSemSerEu(rows[i], telefone, id);
    if forall i :: i !in a {
      assert a == {};
    }
    if i :| 0 <= i < |rows| && Contado(rows[i], telefone) {
      assert i in a && |a - {i}| + 1 == |a|;
    }
    if forall i :: i !in b {
      assert b == {};
    }
    if i :| 0 <= i < |rows| && ContadoSemSerEu(rows[i], telefone, id) {
      assert i in b && |b - {i}| + 1 == |b|;
    }
  }

  /** `telefoneJaCadastrado(telefone)`: some row holds the phone. */
  function TelefoneJaCadastrado(rows: seq<PessoaData>, telefone: Option<string>): (r: bool)
    ensures r <==> exists i :: 0 <= i < |rows| && Contado(rows[i], telefone)
  {
    ContagemPositiva(rows, telefone, None);
    Contagem(rows, telefone) > 0
  }

  /** `telefoneJaCadastradoSemSerEu(telefone, id)`: some row whose id differs from `id` holds the phone. */
  function TelefoneJaCadastradoSemSerEu(rows: seq<PessoaData>, telefone: Option<string>, id: Option<Long>): (r: bool)
    ensures r <==> exists i :: 0 <= i < |rows| && ContadoSemSerEu(rows[i], telefone, id)
  {
    ContagemPositiva(rows, telefone, id);
    ContagemSemSerEu(rows, telefone, id) > 0
  }

  /** A phone used by someone other than the caller is, a fortiori, used. */
  lemma SemSerEuImplicaJaCadastrado(rows: seq<PessoaData>, telefone: Option<string>, id: Option<Long>)
    ensures TelefoneJaCadastradoSemSerEu(rows, telefone, id) ==> TelefoneJaCadastrado(rows, telefone)
  {
  }

  /**
   * Self-exclusion: when every row holding the phone carries the caller's id, the phone is
   * registered, yet it is not a duplicate for the caller.
   */
  lemma AutoExclusao(rows: seq<PessoaData>, telefone: Option<string>, id: Option<Long>, k: nat)
    requires k < |rows| && Contado(rows[k], telefone)
    requires forall i :: 0 <= i < |rows| && Contado(rows[i], telefone) ==> rows[i].id == id
    ensures TelefoneJaCadastrado(rows, telefone)
    ensures !TelefoneJaCadastradoSemSerEu(rows, telefone, id)
  {
  }

  /** With a null id, `pessoa.id <> null` is never true, so the self-excluding query never finds a duplicate. */
  lemma SemSerEuComIdNulo(rows: seq<PessoaData>, telefone: Option<string>)
    ensures !TelefoneJaCadastradoSemSerEu(rows, telefone, None)
  {
  }

  /** `= null` is never true, so a null phone is never registered. */
  lemma TelefoneNuloNuncaCadastrado(rows: seq<PessoaData>)
    ensures !TelefoneJaCadastrado(rows, None)
  {
  }

  /** The table without the rows of person `id`. */
  function SemId(rows: seq<PessoaData>, id: Long): (r: seq<PessoaData>)
    ensures |r| <= |rows|
    ensures forall i :: 0 <= i < |r| ==> r[i] in rows && r[i].id != Some(id)
    ensures forall i :: 0 <= i < |rows| && rows[i].id != Some(id) ==> rows[i] in r
  {
    if rows == [] then []
    else if rows[0].id == Some(id) then SemId(rows[1..], id)
    else [rows[0]] + SemId(rows[1..], id)
  }

  /**
   * The self-excluding query is the plain query asked of the table from which the caller's own
   * rows have been removed.
   */
  lemma SemSerEuSseSemMinhasLinhas(rows: seq<PessoaData>, telefone: Option<string>, id: Long)
    ensures TelefoneJaCadastradoSemSerEu(rows, telefone, Some(id)) <==> TelefoneJaCadastrado(SemId(rows, id), telefone)
  {
  }
}
