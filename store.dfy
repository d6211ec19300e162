/**
 * The application's persistent state (`useLotofacilData`): the stored
 * games, the stored check results and the last draws shown.  Each setter
 * replaces a list by a new one computed from the old; the functions below
 * compute those new lists and the class holds the current ones.
 */
module LotofacilData {
  import opened Wrappers
  import opened Seqs
  import opened LotofacilApi

  /** The settings a generated game was made with. */
  datatype GameConfig = GameConfig(numPerGame: int, fixos: seq<int>, estrategia: string)

  /**
   * A stored game.  `id` is a millisecond timestamp plus a random
   * fraction; `tipo` is set on imported games and `config` on generated ones.
   */
  datatype Jogo = Jogo(id: real, numeros: seq<int>, tipo: Option<string>, config: Option<GameConfig>)

  /** A game checked against a draw: `{...jogo, acertos, premio}`, the prize in centavos. */
  datatype Conferencia = Conferencia(jogo: Jogo, acertos: int, premio: int)

  /** The summary of one draw checked against every game. */
  datatype Resultado = Resultado(
    id: string,
    concurso: int,
    data: string,
    numerosSorteados: seq<int>,
    conferencias: seq<Conferencia>,
    totalPremio: int,
    jogosPremiados: int,
    melhorAcerto: int)

  function ConcursoOf(r: Resultado): int {
    r.concurso
  }

  /** `(a, b) => b.concurso - a.concurso`: larger contest numbers first. */
  function ConcursoDesc(r: Resultado): (int, int) {
    (r.concurso, 0)
  }

  function OtherId(id: real): Jogo -> bool {
    (j: Jogo) => j.id != id
  }

  /** `prev.filter(j => j.id !== id)`. */
  function WithoutId(jogos: seq<Jogo>, id: real): (r: seq<Jogo>)
    ensures forall j :: j in r <==> j in jogos && j.id != id
    ensures |r| <= |jogos|
  {
    Filter(jogos, OtherId(id))
  }

  /** Removing an id no game carries leaves the list as it was. */
  lemma WithoutAbsentId(jogos: seq<Jogo>, id: real)
    requires forall k :: 0 <= k < |jogos| ==> jogos[k].id != id
    ensures WithoutId(jogos, id) == jogos
  {
    FilterAll(jogos, OtherId(id));
  }

  /** Removing an id twice is removing it once. */
  lemma WithoutIdIdempotent(jogos: seq<Jogo>, id: real)
    ensures WithoutId(WithoutId(jogos, id), id) == WithoutId(jogos, id)
  {
    var once := WithoutId(jogos, id);
    forall k | 0 <= k < |once| ensures once[k].id != id {
      assert once[k] in once;
    }
    WithoutAbsentId(once, id);
  }

  /** Removal distributes over a split of the list: games keep their relative order. */
  lemma WithoutIdOrder(a: seq<Jogo>, b: seq<Jogo>, id: real)
    ensures WithoutId(a + b, id) == WithoutId(a, id) + WithoutId(b, id)
  {
    FilterConcat(a, b, OtherId(id));
  }

  /** Some stored result already has this contest number. */
  predicate HasConcurso(rs: seq<Resultado>, concurso: int) {
    exists k :: 0 <= k < |rs| && rs[k].concurso == concurso
  }

  /**
   * `addResultado`: a result whose contest is already stored is dropped;
   * otherwise it joins the list, which is sorted by contest, newest first.
   */
  function AddedResultado(rs: seq<Resultado>, r: Resultado): (out: seq<Resultado>)
    ensures HasConcurso(rs, r.concurso) ==> out == rs
    ensures !HasConcurso(rs, r.concurso) ==>
      |out| == |rs| + 1 && multiset(out) == multiset(rs) + multiset{r} && SortedBy(out, ConcursoDesc)
    ensures HasConcurso(out, r.concurso)
  {
    if HasConcurso(rs, r.concurso) then rs
    else
      var out := SortBy(rs + [r], ConcursoDesc);
      assert r in multiset(out);
      assert multiset(rs + [r]) == multiset(rs) + multiset{r};
      out
  }

  /** `addResultado` keeps the contest numbers pairwise distinct. */
  lemma AddedResultadoDistinct(rs: seq<Resultado>, r: Resultado)
    requires DistinctKeys(rs, ConcursoOf)
    ensures DistinctKeys(AddedResultado(rs, r), ConcursoOf)
  {
    if !HasConcurso(rs, r.concurso) {
      var s := rs + [r];
      forall i, j | 0 <= i < j < |s| ensures s[i].concurso != s[j].concurso {
        if j == |rs| {
          assert s[i] == rs[i];
        } else {
          assert s[i] == rs[i] && s[j] == rs[j];
        }
      }
      assert DistinctKeys(s, ConcursoOf);
      PermutationKeys(s, AddedResultado(rs, r), ConcursoOf);
    }
  }

  /** With distinct contest numbers the stored order is strictly decreasing. */
  lemma AddedResultadoDescending(rs: seq<Resultado>, r: Resultado)
    requires DistinctKeys(rs, ConcursoOf) && !HasConcurso(rs, r.concurso)
    ensures var out := AddedResultado(rs, r);
      forall i, j :: 0 <= i < j < |out| ==> out[i].concurso > out[j].concurso
  {
    AddedResultadoDistinct(rs, r);
    var out := AddedResultado(rs, r);
    assert forall i, j :: 0 <= i < j < |out| ==> KeyGe(ConcursoDesc(out[i]), ConcursoDesc(out[j]));
  }

  /** Whatever was stored before stays stored. */
  lemma AddedResultadoKeeps(rs: seq<Resultado>, r: Resultado)
    ensures forall x :: x in rs ==> x in AddedResultado(rs, r)
  {
    var out := AddedResultado(rs, r);
    if !HasConcurso(rs, r.concurso) {
      forall x | x in rs ensures x in out {
        assert x in multiset(rs);
        assert x in multiset(out);
      }
    }
  }

  /** The hook's state slots. */
  class Store {
    var jogos: seq<Jogo>
    var resultados: seq<Resultado>
    var ultimosSorteios: seq<Draw>

    /** The stored contest numbers are pairwise distinct. */
    predicate Valid()
      reads this
    {
      DistinctKeys(resultados, ConcursoOf)
    }

    /** The empty initial state (loading from browser storage is not modelled). */
    constructor()
      ensures jogos == [] && resultados == [] && ultimosSorteios == []
      ensures Valid()
    {
      jogos := [];
      resultados := [];
      ultimosSorteios := [];
    }

    /** `addJogo`: the new game goes at the end. */
    method AddJogo(novoJogo: Jogo)
      modifies this
      ensures jogos == old(jogos) + [novoJogo]
      ensures resultados == old(resultados) && ultimosSorteios == old(ultimosSorteios)
    {
      jogos := jogos + [novoJogo];
    }

    /** `removeJogo`: drops exactly the games with this id. */
    method RemoveJogo(id: real)
      modifies this
      ensures jogos == WithoutId(old(jogos), id)
      ensures resultados == old(resultados) && ultimosSorteios == old(ultimosSorteios)
    {
      jogos := WithoutId(jogos, id);
    }

    /** `clearJogos`. */
    method ClearJogos()
      modifies this
      ensures jogos == []
      ensures resultados == old(resultados) && ultimosSorteios == old(ultimosSorteios)
    {
      jogos := [];
    }

    /** `addResultado`, keeping the distinct-contest invariant. */
    method AddResultado(novoResultado: Resultado)
      modifies this
      ensures resultados == AddedResultado(old(resultados), novoResultado)
      ensures old(Valid()) ==> Valid()
      ensures jogos == old(jogos) && ultimosSorteios == old(ultimosSorteios)
    {
      if Valid() {
        AddedResultadoDistinct(resultados, novoResultado);
      }
      resultados := AddedResultado(resultados, novoResultado);
    }

    /** `setUltimosSorteios`. */
    method SetUltimosSorteios(list: seq<Draw>)
      modifies this
      ensures ultimosSorteios == list
      ensures jogos == old(jogos) && resultados == old(resultados)
    {
      ultimosSorteios := list;
    }
  }
}
