/**
 * The game engine: building a bet under one of four strategies, the
 * in-place Fisher-Yates shuffle, counting hits and pricing a hit count.
 * `Math.random` is a nondeterministic choice, so every property below
 * holds whatever the random numbers are.
 */
module GameLogic {
  import opened Wrappers
  import opened Seqs
  import opened Text

  // ---------------------------------------------------------------------
  // Strategies
  // ---------------------------------------------------------------------

  datatype Strategy = PolesImpares | Distribuida | MaisSorteados | Aleatorio

  /** The branch `generateGame` takes for a strategy name; any other name is random. */
  function StrategyOf(estrategia: string): (s: Strategy)
    ensures s == PolesImpares <==> estrategia == "poles-impares"
    ensures s == Distribuida <==> estrategia == "distribuida"
    ensures s == MaisSorteados <==> estrategia == "mais-sorteados"
  {
    if estrategia == "poles-impares" then PolesImpares
    else if estrategia == "distribuida" then Distribuida
    else if estrategia == "mais-sorteados" then MaisSorteados
    else Aleatorio
  }

  /**
   * The four names the generator form offers: "pares-impares" is not the
   * name the engine tests, so it is served by the random branch.
   */
  lemma FormStrategies()
    ensures StrategyOf("aleatorio") == Aleatorio
    ensures StrategyOf("pares-impares") == Aleatorio
    ensures StrategyOf("distribuida") == Distribuida
    ensures StrategyOf("mais-sorteados") == MaisSorteados
  {
  }

  // ---------------------------------------------------------------------
  // shuffleArray
  // ---------------------------------------------------------------------

  function Swap(s: seq<int>, i: nat, j: nat): (r: seq<int>)
    requires i < |s| && j < |s|
    ensures |r| == |s|
  {
    s[i := s[j]][j := s[i]]
  }

  /** Every swap stays inside a sequence of length n. */
  predicate InBounds(ps: seq<(nat, nat)>, n: nat) {
    forall k :: 0 <= k < |ps| ==> ps[k].0 < n && ps[k].1 < n
  }

  /** The sequence after performing the swaps in order. */
  function ApplySwaps(s: seq<int>, ps: seq<(nat, nat)>): (r: seq<int>)
    requires InBounds(ps, |s|)
    ensures |r| == |s|
  {
    if ps == [] then s
    else
      var init := ps[..|ps| - 1];
      assert InBounds(init, |s|) by {
        forall k | 0 <= k < |init| ensures init[k].0 < |s| && init[k].1 < |s| {
          assert init[k] == ps[k];
        }
      }
      Swap(ApplySwaps(s, init), ps[|ps| - 1].0, ps[|ps| - 1].1)
  }

  /**
   * The swaps of a Fisher-Yates pass over n elements: position n - 1,
   * then n - 2, ..., down to 1, each exchanged with a position at or
   * below it.
   */
  predicate FisherYates(ps: seq<(nat, nat)>, n: nat) {
    |ps| == (if n > 1 then n - 1 else 0) &&
    forall k :: 0 <= k < |ps| ==> ps[k].0 == n - 1 - k && ps[k].1 <= ps[k].0
  }

  lemma SwapPermutes(s: seq<int>, i: nat, j: nat)
    requires i < |s| && j < |s|
    ensures multiset(Swap(s, i, j)) == multiset(s)
  {
    var t := s[i := s[j]];
    assert multiset(t) == multiset(s) - multiset{s[i]} + multiset{s[j]};
  }

  /** Swapping never changes which values there are, or how often. */
  lemma {:induction false} ApplySwapsPermutes(s: seq<int>, ps: seq<(nat, nat)>)
    requires InBounds(ps, |s|)
    ensures multiset(ApplySwaps(s, ps)) == multiset(s)
  {
    if ps != [] {
      var init := ps[..|ps| - 1];
      assert InBounds(init, |s|) by {
        forall k | 0 <= k < |init| ensures init[k].0 < |s| && init[k].1 < |s| {
          assert init[k] == ps[k];
        }
      }
      ApplySwapsPermutes(s, init);
      SwapPermutes(ApplySwaps(s, init), ps[|ps| - 1].0, ps[|ps| - 1].1);
    }
  }

  /**
   * `shuffleArray(array)`: in place, for i from the last index down to 1,
   * exchange a[i] with a[j] for a random j in 0..i.  The ghost result
   * records the swaps made.
   */
  method Shuffle(a: array<int>) returns (ghost ps: seq<(nat, nat)>)
    modifies a
    ensures FisherYates(ps, a.Length) && InBounds(ps, a.Length)
    ensures a[..] == ApplySwaps(old(a[..]), ps)
    ensures multiset(a[..]) == multiset(old(a[..]))
  {
    ps := [];
    var i := a.Length - 1;
    while i > 0
      invariant -1 <= i < a.Length && (a.Length > 0 ==> i >= 0)
      invariant |ps| == a.Length - 1 - i
      invariant forall k :: 0 <= k < |ps| ==> ps[k].0 == a.Length - 1 - k && ps[k].1 <= ps[k].0
      invariant InBounds(ps, a.Length)
      invariant a[..] == ApplySwaps(old(a[..]), ps)
    {
      var j :| 0 <= j <= i;
      ghost var before := a[..];
      a[i], a[j] := a[j], a[i];
      ps := ps + [(i, j)];
      assert ps[..|ps| - 1] == ps[..|ps| - 1];
      assert a[..] == Swap(before, i, j);
      i := i - 1;
    }
    ApplySwapsPermutes(old(a[..]), ps);
  }

  /** `shuffleArray` applied to a freshly built array holding the values of p. */
  method ShuffledCopy(p: seq<int>) returns (r: seq<int>)
    ensures |r| == |p| && multiset(r) == multiset(p)
  {
    var a := new int[|p|](i requires 0 <= i < |p| => p[i]);
    assert a[..] == p;
    ghost var ps := Shuffle(a);
    r := a[..];
  }

  /** The values of a permutation of a distinct sequence: distinct, and the same. */
  lemma Permuted(p: seq<int>, r: seq<int>)
    requires multiset(r) == multiset(p) && Distinct(p)
    ensures Distinct(r) && forall x :: x in r <==> x in p
  {
    PermutationDistinct(p, r);
    forall x ensures x in r <==> x in p {
      assert x in r <==> x in multiset(r);
      assert x in p <==> x in multiset(p);
    }
  }

  // ---------------------------------------------------------------------
  // generateGame
  // ---------------------------------------------------------------------

  /** The numbers 1..25 that are not fixed, in increasing order. */
  function Available(fixed: seq<int>): (r: seq<int>)
    ensures Distinct(r) && AllIn(r, 1, 25)
    ensures forall x :: x in r <==> 1 <= x <= 25 && x !in fixed
  {
    var all := Range(1, 25);
    RangeMembers(1, 25);
    var r := Remove(all, Elems(fixed));
    assert forall i :: 0 <= i < |r| ==> r[i] in r;
    r
  }

  /** With distinct fixed numbers on the board, the pool has the rest of the 25. */
  lemma AvailableCount(fixed: seq<int>)
    requires Distinct(fixed) && AllIn(fixed, 1, 25)
    ensures |Available(fixed)| == 25 - |fixed|
  {
    var all := Range(1, 25);
    RangeMembers(1, 25);
    RemoveCard(all, Elems(fixed));
    assert Elems(all) * Elems(fixed) == Elems(fixed);
    DistinctCard(fixed);
  }

  /**
   * The game starts as a copy of the fixed numbers and the rest are
   * distinct pool numbers.
   */
  predicate Extends(game: seq<int>, fixed: seq<int>) {
    |fixed| <= |game| && game[..|fixed|] == fixed &&
    Distinct(game[|fixed|..]) &&
    forall x :: x in game[|fixed|..] ==> x in Available(fixed)
  }

  /** Appending distinct pool numbers not yet drawn keeps a game well formed. */
  lemma ExtendsAppend(game: seq<int>, fixed: seq<int>, more: seq<int>)
    requires Extends(game, fixed) && Distinct(more)
    requires forall x :: x in more ==> x in Available(fixed) && x !in game[|fixed|..]
    ensures Extends(game + more, fixed)
  {
    var g := game + more;
    assert g[..|fixed|] == fixed;
    assert g[|fixed|..] == game[|fixed|..] + more;
    assert forall x :: x in game[|fixed|..] ==> x !in more;
    DistinctConcat(game[|fixed|..], more);
  }

  /** The first k values of a shuffled distinct pool: distinct values of the pool. */
  lemma Drawn(pool: seq<int>, shuffled: seq<int>, k: int)
    requires multiset(shuffled) == multiset(pool) && Distinct(pool)
    ensures Distinct(SliceTo(shuffled, k))
    ensures forall x :: x in SliceTo(shuffled, k) ==> x in pool
  {
    Permuted(pool, shuffled);
    PrefixDistinct(shuffled, |SliceTo(shuffled, k)|);
  }

  /** Random branch (also every unrecognised strategy name). */
  method PickAleatorio(numPerGame: int, fixed: seq<int>) returns (game: seq<int>)
    ensures Extends(game, fixed)
    ensures |fixed| <= numPerGame ==> |game| <= numPerGame
    ensures Distinct(fixed) && AllIn(fixed, 1, 25) && |fixed| <= numPerGame <= 25 ==> |game| == numPerGame
  {
    var avail := Available(fixed);
    var shuffled := ShuffledCopy(avail);
    var numbersNeeded := numPerGame - |fixed|;
    var more := SliceTo(shuffled, numbersNeeded);
    Drawn(avail, shuffled, numbersNeeded);
    game := fixed + more;
    assert game[..|fixed|] == fixed && game[|fixed|..] == more;
    if Distinct(fixed) && AllIn(fixed, 1, 25) && |fixed| <= numPerGame <= 25 {
      AvailableCount(fixed);
    }
  }

  /** The pool numbers in a game are the ones drawn after the fixed numbers. */
  lemma PoolInGame(game: seq<int>, fixed: seq<int>)
    requires Extends(game, fixed)
    ensures Elems(Available(fixed)) * Elems(game) == Elems(game[|fixed|..])
  {
    var drawn := game[|fixed|..];
    assert game == fixed + drawn;
    forall x ensures x in Elems(Available(fixed)) * Elems(game) <==> x in Elems(drawn) {
      if x in drawn {
        assert x in game;
      }
      if x in game && x !in fixed {
        assert x in drawn;
      }
    }
  }

  /** The pool numbers not yet in the game. */
  lemma Unused(game: seq<int>, fixed: seq<int>)
    requires Extends(game, fixed)
    ensures |Remove(Available(fixed), Elems(game))| == |Available(fixed)| - (|game| - |fixed|)
  {
    RemoveCard(Available(fixed), Elems(game));
    PoolInGame(game, fixed);
    DistinctCard(game[|fixed|..]);
  }

  function IsEven(n: int): bool {
    n % 2 == 0
  }

  function IsOdd(n: int): bool {
    n % 2 == 1
  }

  /** The even pool numbers. */
  function Evens(fixed: seq<int>): seq<int> {
    Filter(Available(fixed), IsEven)
  }

  /** The odd pool numbers. */
  function Odds(fixed: seq<int>): seq<int> {
    Filter(Available(fixed), IsOdd)
  }

  /**
   * 'poles-impares' branch: half the missing numbers (rounded down) are
   * even and the rest odd, with no backfill when one parity runs out.
   */
  method PickPolesImpares(numPerGame: int, fixed: seq<int>) returns (game: seq<int>)
    ensures Extends(game, fixed)
    ensures |fixed| <= numPerGame ==> |game| <= numPerGame
    ensures |fixed| <= numPerGame ==>
      var need := numPerGame - |fixed|;
      |Filter(game[|fixed|..], IsEven)| == Min(need / 2, |Evens(fixed)|) &&
      |Filter(game[|fixed|..], IsOdd)| == Min(need - need / 2, |Odds(fixed)|)
    ensures |fixed| <= numPerGame ==>
      var need := numPerGame - |fixed|;
      (|game| == numPerGame <==> need / 2 <= |Evens(fixed)| && need - need / 2 <= |Odds(fixed)|)
  {
    var avail := Available(fixed);
    var pares := Filter(avail, IsEven);
    var impares := Filter(avail, IsOdd);
    var paresNeeded := Max(0, (numPerGame - |fixed|) / 2);
    var imparesNeeded := numPerGame - |fixed| - paresNeeded;
    var sp := ShuffledCopy(pares);
    var si := ShuffledCopy(impares);
    var e := SliceTo(sp, paresNeeded);
    var o := SliceTo(si, imparesNeeded);
    ParityDraw(fixed, sp, si, paresNeeded, imparesNeeded);
    game := fixed + e + o;
  }

  /** Even numbers drawn first and odd numbers after them make a well-formed game. */
  lemma ParityDraw(fixed: seq<int>, sp: seq<int>, si: seq<int>, pn: int, on: int)
    requires multiset(sp) == multiset(Evens(fixed)) && multiset(si) == multiset(Odds(fixed))
    ensures var e, o := SliceTo(sp, pn), SliceTo(si, on);
      Extends(fixed + e + o, fixed) && (fixed + e + o)[|fixed|..] == e + o &&
      |Filter(e + o, IsEven)| == |e| && |Filter(e + o, IsOdd)| == |o|
  {
    var e, o := SliceTo(sp, pn), SliceTo(si, on);
    DrawFirst(fixed, Evens(fixed), sp, pn);
    DrawParity(fixed, e, si, on);
    ExtendsAppend(fixed + e, fixed, o);
    DropConcat(fixed + e, o, |fixed|);
    ParityCounts(e, o);
  }

  /** The odd numbers drawn second are pool numbers not among the even ones. */
  lemma DrawParity(fixed: seq<int>, e: seq<int>, si: seq<int>, on: int)
    requires (fixed + e)[|fixed|..] == e && forall x :: x in e ==> x in Evens(fixed)
    requires multiset(si) == multiset(Odds(fixed))
    ensures Distinct(SliceTo(si, on))
    ensures forall x :: x in SliceTo(si, on) ==> x in Available(fixed) && x !in (fixed + e)[|fixed|..]
    ensures forall x :: x in SliceTo(si, on) ==> IsOdd(x)
  {
    Drawn(Odds(fixed), si, on);
  }

  /** Counting the parities of even numbers followed by odd ones. */
  lemma ParityCounts(e: seq<int>, o: seq<int>)
    requires forall x :: x in e ==> IsEven(x)
    requires forall x :: x in o ==> IsOdd(x)
    ensures |Filter(e + o, IsEven)| == |e| && |Filter(e + o, IsOdd)| == |o|
  {
    FilterConcat(e, o, IsEven);
    FilterConcat(e, o, IsOdd);
    FilterAll(e, IsEven);
    FilterNone(o, IsEven);
    FilterNone(e, IsOdd);
    FilterAll(o, IsOdd);
  }

  /** Which quarter of the board n lies in: up to 6, 7..12, 13..18, above 18. */
  function Band(n: int): (b: nat)
    ensures b < 4
  {
    if n <= 6 then 0 else if n <= 12 then 1 else if n <= 18 then 2 else 3
  }

  function InBand(b: int): int -> bool {
    n => Band(n) == b
  }

  /** The pool numbers in quarter b. */
  function Quadrant(fixed: seq<int>, b: int): seq<int> {
    Filter(Available(fixed), InBand(b))
  }

  /**
   * 'distribuida' branch: a quarter of the missing numbers (rounded down)
   * from each band, then the shortfall from the unused pool numbers.
   */
  method PickDistribuida(numPerGame: int, fixed: seq<int>) returns (game: seq<int>)
    ensures Extends(game, fixed)
    ensures |fixed| <= numPerGame ==> |game| <= numPerGame
    ensures Distinct(fixed) && AllIn(fixed, 1, 25) && |fixed| <= numPerGame <= 25 ==> |game| == numPerGame
    ensures forall b :: 0 <= b < 4 ==>
      |Filter(game[|fixed|..], InBand(b))| >= Min((numPerGame - |fixed|) / 4, |Quadrant(fixed, b)|)
  {
    var avail := Available(fixed);
    game := fixed;
    var per := (numPerGame - |game|) / 4;
    var q := 0;
    assert fixed[..|fixed|] == fixed && fixed[|fixed|..] == [];
    while q < 4
      invariant 0 <= q <= 4
      invariant Extends(game, fixed)
      invariant forall x :: x in game[|fixed|..] ==> Band(x) < q
      invariant per >= 0 ==> |game| - |fixed| <= q * per
      invariant forall b :: 0 <= b < q ==> |Filter(game[|fixed|..], InBand(b))| >= Min(per, |Quadrant(fixed, b)|)
    {
      var quadrante := Filter(avail, InBand(q));
      var shuffled := ShuffledCopy(quadrante);
      var more := SliceTo(shuffled, per);
      Drawn(quadrante, shuffled, per);
      DrawBand(game, fixed, more, q, per);
      game := game + more;
      q := q + 1;
    }
    var extrasNeeded := numPerGame - |game|;
    if extrasNeeded > 0 {
      var todosRestantes := Remove(avail, Elems(game));
      var shuffled := ShuffledCopy(todosRestantes);
      var more := SliceTo(shuffled, extrasNeeded);
      Drawn(todosRestantes, shuffled, extrasNeeded);
      Unused(game, fixed);
      KeepBands(game, fixed, more);
      game := game + more;
    }
    if Distinct(fixed) && AllIn(fixed, 1, 25) && |fixed| <= numPerGame <= 25 {
      AvailableCount(fixed);
    }
  }

  /** One band's draw appended to the game. */
  lemma DrawBand(game: seq<int>, fixed: seq<int>, more: seq<int>, q: int, per: int)
    requires 0 <= q < 4 && Extends(game, fixed)
    requires forall x :: x in game[|fixed|..] ==> Band(x) < q
    requires per >= 0 ==> |game| - |fixed| <= q * per
    requires forall b :: 0 <= b < q ==> |Filter(game[|fixed|..], InBand(b))| >= Min(per, |Quadrant(fixed, b)|)
    requires Distinct(more) && forall x :: x in more ==> x in Quadrant(fixed, q)
    requires |more| == |SliceTo(Quadrant(fixed, q), per)|
    ensures Extends(game + more, fixed)
    ensures forall x :: x in (game + more)[|fixed|..] ==> Band(x) < q + 1
    ensures per >= 0 ==> |game + more| - |fixed| <= (q + 1) * per
    ensures forall b :: 0 <= b < q + 1 ==> |Filter((game + more)[|fixed|..], InBand(b))| >= Min(per, |Quadrant(fixed, b)|)
  {
    var drawn := game[|fixed|..];
    ExtendsAppend(game, fixed, more);
    assert (game + more)[|fixed|..] == drawn + more;
    forall b | 0 <= b < q + 1
      ensures |Filter(drawn + more, InBand(b))| >= Min(per, |Quadrant(fixed, b)|)
    {
      FilterConcat(drawn, more, InBand(b));
      if b == q {
        FilterAll(more, InBand(b));
      }
    }
  }

  /** Appending unused pool numbers keeps the game well formed and the band counts. */
  lemma KeepBands(game: seq<int>, fixed: seq<int>, more: seq<int>)
    requires Extends(game, fixed) && Distinct(more)
    requires forall x :: x in more ==> x in Available(fixed) && x !in game
    ensures Extends(game + more, fixed)
    ensures forall b :: |Filter((game + more)[|fixed|..], InBand(b))| >= |Filter(game[|fixed|..], InBand(b))|
  {
    var drawn := game[|fixed|..];
    assert forall x :: x in drawn ==> x in game;
    ExtendsAppend(game, fixed, more);
    assert (game + more)[|fixed|..] == drawn + more;
    forall b ensures |Filter(drawn + more, InBand(b))| >= |Filter(drawn, InBand(b))| {
      FilterConcat(drawn, more, InBand(b));
    }
  }

  /** The fixed "most drawn" list of the 'mais-sorteados' strategy. */
  const MaisSorteadosList: seq<int> := [5, 10, 13, 20, 24, 2, 8, 15, 18, 22, 3, 7, 11, 16, 25]

  function InPool(fixed: seq<int>): int -> bool {
    n => n in Available(fixed)
  }

  /** The listed numbers still in the pool, in list order. */
  function Frequent(fixed: seq<int>): seq<int> {
    Filter(MaisSorteadosList, InPool(fixed))
  }

  /**
   * 'mais-sorteados' branch: floor(70%) of the missing numbers (at most
   * as many as remain on the list) from the list, the rest from the
   * unused pool.  `Math.floor(x * 0.7)` is x * 7 / 10.
   */
  method PickMaisSorteados(numPerGame: int, fixed: seq<int>) returns (game: seq<int>)
    ensures Extends(game, fixed)
    ensures |fixed| <= numPerGame ==> |game| <= numPerGame
    ensures Distinct(fixed) && AllIn(fixed, 1, 25) && |fixed| <= numPerGame <= 25 ==> |game| == numPerGame
    ensures |fixed| <= numPerGame ==>
      |Elems(game[|fixed|..]) * Elems(MaisSorteadosList)| >= Min(|Frequent(fixed)|, (numPerGame - |fixed|) * 7 / 10)
  {
    var first, qtdMaisSorteados := TakeListed(numPerGame, fixed);
    var qtdRestante := numPerGame - |fixed| - qtdMaisSorteados;
    game := fixed + first;
    var restantes := Remove(Available(fixed), Elems(game));
    var sr := ShuffledCopy(restantes);
    var rest := SliceTo(sr, qtdRestante);
    DrawUnused(game, fixed, sr, qtdRestante);
    KeepListed(fixed, first, rest);
    game := game + rest;
    if Distinct(fixed) && AllIn(fixed, 1, 25) && |fixed| <= numPerGame <= 25 {
      AvailableCount(fixed);
    }
  }

  /** The first draw of 'mais-sorteados': a shuffled prefix of the listed numbers still in the pool. */
  method TakeListed(numPerGame: int, fixed: seq<int>) returns (first: seq<int>, qtd: int)
    ensures qtd == Min(|Frequent(fixed)|, (numPerGame - |fixed|) * 7 / 10)
    ensures |fixed| <= numPerGame ==> 0 <= qtd && |first| == qtd
    ensures Extends(fixed + first, fixed) && (fixed + first)[|fixed|..] == first
    ensures |Elems(first) * Elems(MaisSorteadosList)| >= |first|
  {
    var disponiveis := Frequent(fixed);
    qtd := Min(|disponiveis|, (numPerGame - |fixed|) * 7 / 10);
    var sd := ShuffledCopy(disponiveis);
    first := SliceTo(sd, qtd);
    FrequentPool(fixed);
    DrawFirst(fixed, disponiveis, sd, qtd);
    FromList(first, fixed);
  }

  /** The first draw of a branch: the first k of a shuffled pool of distinct unfixed numbers. */
  lemma DrawFirst(fixed: seq<int>, pool: seq<int>, shuffled: seq<int>, k: int)
    requires Distinct(pool) && forall x :: x in pool ==> x in Available(fixed)
    requires multiset(shuffled) == multiset(pool)
    ensures Extends(fixed + SliceTo(shuffled, k), fixed)
    ensures (fixed + SliceTo(shuffled, k))[|fixed|..] == SliceTo(shuffled, k)
    ensures forall x :: x in SliceTo(shuffled, k) ==> x in pool
  {
    Drawn(pool, shuffled, k);
    assert fixed[..|fixed|] == fixed && fixed[|fixed|..] == [];
    ExtendsAppend(fixed, fixed, SliceTo(shuffled, k));
    assert (fixed + SliceTo(shuffled, k))[|fixed|..] == SliceTo(shuffled, k);
  }

  /** A later draw: the first k of the shuffled pool numbers not yet in the game. */
  lemma DrawUnused(game: seq<int>, fixed: seq<int>, shuffled: seq<int>, k: int)
    requires Extends(game, fixed)
    requires multiset(shuffled) == multiset(Remove(Available(fixed), Elems(game)))
    ensures Extends(game + SliceTo(shuffled, k), fixed)
    ensures (game + SliceTo(shuffled, k))[|fixed|..] == game[|fixed|..] + SliceTo(shuffled, k)
    ensures forall x :: x in SliceTo(shuffled, k) ==> x !in game
    ensures |shuffled| == |Available(fixed)| - (|game| - |fixed|)
  {
    var restantes := Remove(Available(fixed), Elems(game));
    var more := SliceTo(shuffled, k);
    PermutationLength(shuffled, restantes);
    Drawn(restantes, shuffled, k);
    Unused(game, fixed);
    FreshDraw(game, fixed, more);
    ExtendsAppend(game, fixed, more);
    DropConcat(game, more, |fixed|);
  }

  /** Numbers taken from the unused pool are pool numbers the game lacks. */
  lemma FreshDraw(game: seq<int>, fixed: seq<int>, more: seq<int>)
    requires |fixed| <= |game|
    requires forall x :: x in more ==> x in Remove(Available(fixed), Elems(game))
    ensures forall x :: x in more ==> x in Available(fixed) && x !in game && x !in game[|fixed|..]
  {
    assert forall x :: x in game[|fixed|..] ==> x in game;
  }

  /** The listed numbers drawn first stay in the game. */
  lemma KeepListed(fixed: seq<int>, first: seq<int>, rest: seq<int>)
    requires Extends(fixed + first, fixed) && (fixed + first)[|fixed|..] == first
    requires |Elems(first) * Elems(MaisSorteadosList)| >= |first|
    requires (fixed + first + rest)[|fixed|..] == first + rest
    ensures |Elems((fixed + first + rest)[|fixed|..]) * Elems(MaisSorteadosList)| >= |first|
  {
    assert Elems(first) * Elems(MaisSorteadosList) <= Elems(first + rest) * Elems(MaisSorteadosList);
    SubsetCard(Elems(first) * Elems(MaisSorteadosList), Elems(first + rest) * Elems(MaisSorteadosList));
  }

  lemma FrequentPool(fixed: seq<int>)
    ensures Distinct(Frequent(fixed))
    ensures forall x :: x in Frequent(fixed) ==> x in Available(fixed) && x in MaisSorteadosList
  {
    ListDistinct();
  }

  /** The 'mais-sorteados' list has no repeat. */
  lemma ListDistinct()
    ensures Distinct(MaisSorteadosList)
  {
  }

  /** Numbers drawn from the list count towards the listed numbers of the draw. */
  lemma FromList(first: seq<int>, fixed: seq<int>)
    requires Extends(fixed + first, fixed) && (fixed + first)[|fixed|..] == first
    requires forall x :: x in first ==> x in Frequent(fixed)
    ensures |Elems(first) * Elems(MaisSorteadosList)| >= |first|
  {
    DistinctCard(first);
    FrequentPool(fixed);
    forall x | x in Elems(first) ensures x in Elems(MaisSorteadosList) {
      assert x in first;
    }
    assert Elems(first) * Elems(MaisSorteadosList) == Elems(first);
  }

  /** What every branch guarantees, read off the unsorted game. */
  lemma ExtendsFacts(game: seq<int>, fixed: seq<int>)
    requires Extends(game, fixed)
    ensures multiset(fixed) <= multiset(game)
    ensures forall x :: x in game ==> x in fixed || x in Available(fixed)
    ensures Distinct(fixed) ==> Distinct(game)
    ensures AllIn(fixed, 1, 25) ==> AllIn(game, 1, 25)
  {
    var drawn := game[|fixed|..];
    assert game == fixed + drawn;
    assert multiset(game) == multiset(fixed) + multiset(drawn);
    assert forall x :: x in drawn ==> x !in fixed;
    if Distinct(fixed) {
      DistinctConcat(fixed, drawn);
    }
    assert forall i :: 0 <= i < |game| ==> game[i] in fixed || game[i] in drawn;
  }

  /**
   * What `generateGame(numPerGame, fixedNumbers, estrategia)` promises of
   * the game it returns, whatever the random numbers: it is sorted, holds
   * every fixed number (as often as it is given) and otherwise only
   * unfixed numbers of 1..25, has no repeat when the fixed numbers have
   * none, and is never longer than asked.  Every branch but
   * 'poles-impares' fills the game exactly; that one falls short exactly
   * when a parity runs out.  Each branch's share holds as `Shares` says.
   */
  predicate IsGenerated(numPerGame: int, fixed: seq<int>, estrategia: string, game: seq<int>) {
    SortedAsc(game) &&
    multiset(fixed) <= multiset(game) &&
    (forall x :: x in game ==> x in fixed || (1 <= x <= 25 && x !in fixed)) &&
    (Distinct(fixed) ==> Distinct(game)) &&
    (AllIn(fixed, 1, 25) ==> AllIn(game, 1, 25)) &&
    (|fixed| <= numPerGame ==> |game| <= numPerGame) &&
    ((StrategyOf(estrategia) != PolesImpares && Distinct(fixed) && AllIn(fixed, 1, 25) &&
      |fixed| <= numPerGame <= 25) ==> |game| == numPerGame) &&
    (StrategyOf(estrategia) == PolesImpares && |fixed| <= numPerGame ==>
      var need := numPerGame - |fixed|;
      (|game| == numPerGame <==> need / 2 <= |Evens(fixed)| && need - need / 2 <= |Odds(fixed)|)) &&
    (StrategyOf(estrategia) == MaisSorteados && |fixed| <= numPerGame ==>
      |Elems(game) * Elems(MaisSorteadosList)| >= Min(|Frequent(fixed)|, (numPerGame - |fixed|) * 7 / 10)) &&
    Shares(numPerGame, fixed, estrategia, game)
  }

  /** Membership of the 'mais-sorteados' list. */
  function IsListed(n: int): bool {
    n in MaisSorteadosList
  }

  /**
   * Each branch's share, counted in the sorted game on top of what the
   * fixed numbers bring: 'poles-impares' adds exactly min(need/2, evens
   * left) even and min(need - need/2, odds left) odd numbers;
   * 'distribuida' adds at least min(need/4, pool numbers of the band) to
   * every band; 'mais-sorteados' adds at least min(listed numbers left,
   * floor(need*7/10)) listed numbers.
   */
  predicate Shares(numPerGame: int, fixed: seq<int>, estrategia: string, game: seq<int>) {
    var need := numPerGame - |fixed|;
    (StrategyOf(estrategia) == PolesImpares && |fixed| <= numPerGame ==>
      |Filter(game, IsEven)| == |Filter(fixed, IsEven)| + Min(need / 2, |Evens(fixed)|) &&
      |Filter(game, IsOdd)| == |Filter(fixed, IsOdd)| + Min(need - need / 2, |Odds(fixed)|)) &&
    (StrategyOf(estrategia) == Distribuida ==> forall b :: 0 <= b < 4 ==>
      |Filter(game, InBand(b))| >= |Filter(fixed, InBand(b))| + Min(need / 4, |Quadrant(fixed, b)|)) &&
    (StrategyOf(estrategia) == MaisSorteados && |fixed| <= numPerGame ==>
      |Filter(game, IsListed)| >= |Filter(fixed, IsListed)| + Min(|Frequent(fixed)|, need * 7 / 10))
  }

  /** Sorting keeps every count: the sorted game counts what the fixed and the drawn numbers count. */
  lemma DrawnShare(unsorted: seq<int>, fixed: seq<int>, p: int -> bool)
    requires Extends(unsorted, fixed)
    ensures |Filter(SortAsc(unsorted), p)| == |Filter(fixed, p)| + |Filter(unsorted[|fixed|..], p)|
  {
    var drawn := unsorted[|fixed|..];
    assert unsorted == fixed + drawn;
    FilterConcat(fixed, drawn, p);
    FilterCount(unsorted, p);
    FilterCount(SortAsc(unsorted), p);
    SumByPermutation(SortAsc(unsorted), unsorted, Indicator(p));
  }

  /** Distinct drawn numbers: the listed ones counted one by one are the listed ones as a set. */
  lemma ListedCount(drawn: seq<int>)
    requires Distinct(drawn)
    ensures |Filter(drawn, IsListed)| == |Elems(drawn) * Elems(MaisSorteadosList)|
  {
    var r := Filter(drawn, IsListed);
    assert Elems(r) == Elems(drawn) * Elems(MaisSorteadosList);
    DistinctCard(r);
  }

  lemma PolesShares(numPerGame: int, fixed: seq<int>, estrategia: string, unsorted: seq<int>)
    requires Extends(unsorted, fixed) && StrategyOf(estrategia) == PolesImpares
    requires |fixed| <= numPerGame ==>
      var need := numPerGame - |fixed|;
      |Filter(unsorted[|fixed|..], IsEven)| == Min(need / 2, |Evens(fixed)|) &&
      |Filter(unsorted[|fixed|..], IsOdd)| == Min(need - need / 2, |Odds(fixed)|)
    ensures Shares(numPerGame, fixed, estrategia, SortAsc(unsorted))
  {
    DrawnShare(unsorted, fixed, IsEven);
    DrawnShare(unsorted, fixed, IsOdd);
  }

  lemma DistribuidaShares(numPerGame: int, fixed: seq<int>, estrategia: string, unsorted: seq<int>)
    requires Extends(unsorted, fixed) && StrategyOf(estrategia) == Distribuida
    requires forall b :: 0 <= b < 4 ==>
      |Filter(unsorted[|fixed|..], InBand(b))| >= Min((numPerGame - |fixed|) / 4, |Quadrant(fixed, b)|)
    ensures Shares(numPerGame, fixed, estrategia, SortAsc(unsorted))
  {
    forall b | 0 <= b < 4
      ensures |Filter(SortAsc(unsorted), InBand(b))| >=
        |Filter(fixed, InBand(b))| + Min((numPerGame - |fixed|) / 4, |Quadrant(fixed, b)|)
    {
      DrawnShare(unsorted, fixed, InBand(b));
    }
  }

  lemma MaisShares(numPerGame: int, fixed: seq<int>, estrategia: string, unsorted: seq<int>)
    requires Extends(unsorted, fixed) && StrategyOf(estrategia) == MaisSorteados
    requires |fixed| <= numPerGame ==>
      |Elems(unsorted[|fixed|..]) * Elems(MaisSorteadosList)| >= Min(|Frequent(fixed)|, (numPerGame - |fixed|) * 7 / 10)
    ensures Shares(numPerGame, fixed, estrategia, SortAsc(unsorted))
  {
    DrawnShare(unsorted, fixed, IsListed);
    ListedCount(unsorted[|fixed|..]);
  }

  /**
   * `generateGame(numPerGame, fixedNumbers, estrategia)`: the fixed
   * numbers plus the branch's draw, sorted ascending.
   */
  method GenerateGame(numPerGame: int, fixed: seq<int>, estrategia: string) returns (game: seq<int>)
    ensures IsGenerated(numPerGame, fixed, estrategia, game)
  {
    var unsorted: seq<int>;
    match StrategyOf(estrategia) {
      case PolesImpares =>
        unsorted := PickPolesImpares(numPerGame, fixed);
        PolesShares(numPerGame, fixed, estrategia, unsorted);
      case Distribuida =>
        unsorted := PickDistribuida(numPerGame, fixed);
        DistribuidaShares(numPerGame, fixed, estrategia, unsorted);
      case MaisSorteados =>
        unsorted := PickMaisSorteados(numPerGame, fixed);
        MaisShares(numPerGame, fixed, estrategia, unsorted);
      case Aleatorio =>
        unsorted := PickAleatorio(numPerGame, fixed);
    }
    SortedGame(unsorted, fixed);
    game := SortAsc(unsorted);
  }

  /**
   * The random branch with 1, 2 and 3 fixed, for a game of 15: the three
   * fixed numbers and twelve more distinct numbers from 4..25.
   */
  lemma RandomWithOneTwoThree(game: seq<int>)
    requires IsGenerated(15, [1, 2, 3], "aleatorio", game)
    ensures |game| == 15 && Distinct(game)
    ensures 1 in game && 2 in game && 3 in game
    ensures forall x :: x in game && x !in [1, 2, 3] ==> 4 <= x <= 25
  {
    var fixed := [1, 2, 3];
    assert StrategyOf("aleatorio") == Aleatorio;
    assert Distinct(fixed) && AllIn(fixed, 1, 25);
    forall x | x in fixed ensures x in game {
      assert x in multiset(fixed);
      assert x in multiset(game);
    }
  }

  /** Sorting a well-formed game keeps what every branch guarantees. */
  lemma SortedGame(unsorted: seq<int>, fixed: seq<int>)
    requires Extends(unsorted, fixed)
    ensures var game := SortAsc(unsorted);
      |game| == |unsorted| &&
      multiset(fixed) <= multiset(game) &&
      (forall x :: x in game ==> x in fixed || (1 <= x <= 25 && x !in fixed)) &&
      (Distinct(fixed) ==> Distinct(game)) &&
      (AllIn(fixed, 1, 25) ==> AllIn(game, 1, 25)) &&
      |Elems(game) * Elems(MaisSorteadosList)| >= |Elems(unsorted[|fixed|..]) * Elems(MaisSorteadosList)|
  {
    var game := SortAsc(unsorted);
    ExtendsFacts(unsorted, fixed);
    if Distinct(fixed) {
      SortAscDistinct(unsorted);
    }
    assert forall i :: 0 <= i < |game| ==> game[i] in unsorted;
    var drawn := unsorted[|fixed|..];
    assert forall x :: x in drawn ==> x in unsorted;
    assert Elems(drawn) * Elems(MaisSorteadosList) <= Elems(game) * Elems(MaisSorteadosList);
    SubsetCard(Elems(drawn) * Elems(MaisSorteadosList), Elems(game) * Elems(MaisSorteadosList));
  }

  // ---------------------------------------------------------------------
  // calcularAcertos
  // ---------------------------------------------------------------------

  /** `calcularAcertos(jogo, sorteados)`: how many entries of jogo were drawn. */
  function CalcularAcertos(jogo: seq<int>, sorteados: seq<int>): (r: nat)
    ensures r <= |jogo|
  {
    if jogo == [] then 0
    else (if jogo[0] in sorteados then 1 else 0) + CalcularAcertos(jogo[1..], sorteados)
  }

  /** For a game without repeats, the hits are the numbers the game and the draw share. */
  lemma {:induction false} AcertosShared(jogo: seq<int>, sorteados: seq<int>)
    requires Distinct(jogo)
    ensures CalcularAcertos(jogo, sorteados) == |Elems(jogo) * Elems(sorteados)|
  {
    if jogo != [] {
      InterHead(jogo, Elems(sorteados));
      AcertosShared(jogo[1..], sorteados);
    }
  }

  /** A game without repeats hits at most as many numbers as the draw has. */
  lemma AcertosBound(jogo: seq<int>, sorteados: seq<int>)
    requires Distinct(jogo)
    ensures CalcularAcertos(jogo, sorteados) <= |sorteados|
  {
    AcertosShared(jogo, sorteados);
    SubsetCard(Elems(jogo) * Elems(sorteados), Elems(sorteados));
    CardElems(sorteados);
  }

  lemma {:induction false} CardElems(s: seq<int>)
    ensures |Elems(s)| <= |s|
  {
    if s != [] {
      CardElems(s[1..]);
      assert Elems(s) == {s[0]} + Elems(s[1..]);
    }
  }

  /** A game with repeats can score more hits than there are drawn numbers. */
  lemma RepeatsOvercount()
    ensures CalcularAcertos([1, 1], [1]) == 2
  {
  }

  // ---------------------------------------------------------------------
  // calcularPremio
  // ---------------------------------------------------------------------

  /**
   * One row of the prize table the API returns; `faixa` is None when
   * absent, `descricao` is "" when absent, `valorPremio` is in centavos
   * (0 when absent).
   */
  datatype Premiacao = Premiacao(faixa: Option<int>, descricao: string, valorPremio: int)

  /** The `find` predicate of `calcularPremio`. */
  predicate PrizeMatches(p: Premiacao, acertos: int) {
    p.faixa == Some(if acertos == 15 then 1 else 2) || Contains(p.descricao, IntToString(acertos))
  }

  /** Row i matches and no row before it does. */
  predicate FirstMatch(ps: seq<Premiacao>, acertos: int, i: int) {
    0 <= i < |ps| && PrizeMatches(ps[i], acertos) &&
    forall j :: 0 <= j < i ==> !PrizeMatches(ps[j], acertos)
  }

  /** `premiacoesAPI.find(...)`: the first matching row. */
  function FindPrize(ps: seq<Premiacao>, acertos: int): (r: Option<Premiacao>)
    ensures r.None? <==> forall i :: 0 <= i < |ps| ==> !PrizeMatches(ps[i], acertos)
    ensures r.Some? ==> exists i :: FirstMatch(ps, acertos, i) && ps[i] == r.value
  {
    if ps == [] then None
    else if PrizeMatches(ps[0], acertos) then Some(ps[0])
    else
      var r := FindPrize(ps[1..], acertos);
      assert forall i :: 1 <= i < |ps| ==> ps[i] == ps[1..][i - 1];
      if r.Some? then
        var i :| FirstMatch(ps[1..], acertos, i) && ps[1..][i] == r.value;
        assert ps[i + 1] == r.value;
        assert forall j :: 1 <= j < i + 1 ==> ps[j] == ps[1..][j - 1];
        r
      else r
  }

  /** The fixed prizes, in centavos: R$ 7.00, 14.00 and 35.00. */
  function PremioFixo(acertos: int): int
    requires 11 <= acertos <= 13
  {
    if acertos == 11 then 700 else if acertos == 12 then 1400 else 3500
  }

  /**
   * `calcularPremio(acertos, numerosNoJogo, premiacoesAPI)` in centavos;
   * `None` for the table stands for null or anything that is not an array.
   */
  function CalcularPremio(acertos: int, numerosNoJogo: int, premiacoes: Option<seq<Premiacao>>): (r: int)
    ensures acertos == 11 ==> r == 700
    ensures acertos == 12 ==> r == 1400
    ensures acertos == 13 ==> r == 3500
    ensures acertos < 11 ==> r == 0
    ensures acertos >= 14 && premiacoes.None? ==> r == 0
    ensures acertos >= 14 && premiacoes.Some? ==>
      (if exists i :: 0 <= i < |premiacoes.value| && PrizeMatches(premiacoes.value[i], acertos)
       then exists i :: FirstMatch(premiacoes.value, acertos, i) && r == premiacoes.value[i].valorPremio
       else r == 0)
  {
    if 11 <= acertos <= 13 then PremioFixo(acertos)
    else if acertos >= 14 then
      match premiacoes
      case None => 0
      case Some(table) =>
        match FindPrize(table, acertos)
        case Some(p) => p.valorPremio
        case None => 0
    else 0
  }

  /** The payout never depends on the game's size. */
  lemma PremioIgnoresSize(acertos: int, n: int, m: int, t: Option<seq<Premiacao>>)
    ensures CalcularPremio(acertos, n, t) == CalcularPremio(acertos, m, t)
  {
  }

  /** Without a table only 11 to 13 hits pay. */
  lemma PremioWithoutTable(acertos: int, n: int)
    ensures CalcularPremio(acertos, n, None) > 0 <==> 11 <= acertos <= 13
  {
  }
}
