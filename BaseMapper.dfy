/**
 * BaseMapper.java: the list and set lifts every mapper inherits. A null or empty collection
 * gives an empty one; otherwise each element goes through the single-element mapping.
 */
module BaseMapper {
  import opened Wrappers

  /** Element-wise mapping of a sequence, in order (`stream().map(...).collect(toList())`). */
  function Mapear<A, B>(f: A -> B, xs: seq<A>): (r: seq<B>)
    ensures |r| == |xs|
    ensures forall i :: 0 <= i < |xs| ==> r[i] == f(xs[i])
  {
    if xs == [] then [] else [f(xs[0])] + Mapear(f, xs[1..])
  }

  /** `toDomain(List)` / `toData(List)`: a null list is an absent `xs`. */
  function MapearLista<A, B>(f: A -> B, xs: Option<seq<A>>): (r: seq<B>)
    ensures xs.None? ==> r == []
    ensures xs.Some? ==> |r| == |xs.value| && forall i :: 0 <= i < |r| ==> r[i] == f(xs.value[i])
  {
    if xs.None? || |xs.value| == 0 then [] else Mapear(f, xs.value)
  }

  /** `toDomain(Set)` / `toData(Set)`: the image of the set; equal images collapse into one element. */
  function MapearConjunto<A, B>(f: A -> B, xs: Option<set<A>>): (r: set<B>)
    ensures xs.None? ==> r == {}
    ensures xs.Some? ==> forall a :: a in xs.value ==> f(a) in r
    ensures xs.Some? ==> forall b :: b in r ==> exists a :: a in xs.value && f(a) == b
  {
    if xs.None? || |xs.value| == 0 then {} else set a | a in xs.value :: f(a)
  }

  /** When `g` undoes `f`, mapping a list with `f` and then with `g` gives the list back. */
  lemma ListaIdaEVolta<A, B>(f: A -> B, g: B -> A, xs: seq<A>)
    requires forall a :: g(f(a)) == a
    ensures MapearLista(g, Some(MapearLista(f, Some(xs)))) == xs
  {
  }

  /** When `g` undoes `f`, mapping a set with `f` and then with `g` gives the set back. */
  lemma ConjuntoIdaEVolta<A, B>(f: A -> B, g: B -> A, xs: set<A>)
    requires forall a :: g(f(a)) == a
    ensures MapearConjunto(g, Some(MapearConjunto(f, Some(xs)))) == xs
  {
  }

  /** The set lift never grows a set, and shrinks it only when the element mapping merges elements. */
  lemma {:induction false} ConjuntoTamanho<A, B>(f: A -> B, xs: set<A>)
    ensures |MapearConjunto(f, Some(xs))| <= |xs|
    ensures (forall a, a' :: a in xs && a' in xs && f(a) == f(a') ==> a == a') ==>
              |MapearConjunto(f, Some(xs))| == |xs|
    decreases |xs|
  {
    if xs != {} {
      var a :| a in xs;
      var resto := xs - {a};
      ConjuntoTamanho(f, resto);
      var img, imgResto := MapearConjunto(f, Some(xs)), MapearConjunto(f, Some(resto));
      assert img == imgResto + {f(a)};
    }
  }

  /** The list and set lifts agree on the elements they produce. */
  lemma ListaEConjunto<A, B>(f: A -> B, xs: seq<A>)
    ensures (set b | b in MapearLista(f, Some(xs))) == MapearConjunto(f, Some(set a | a in xs))
  {
  }
}
