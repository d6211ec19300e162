/**
 * The history statistics (`History`): totals over the stored results and
 * the distribution of 11 to 15 hits that the bar chart draws, scaled by
 * its largest value.
 */
module History {
  import opened Seqs
  import opened LotofacilData

  // ---------------------------------------------------------------------
  // Totals
  // ---------------------------------------------------------------------

  function JogadosOf(r: Resultado): int {
    |r.conferencias|
  }

  function PremiadosOf(r: Resultado): int {
    r.jogosPremiados
  }

  function GanhoOf(r: Resultado): int {
    r.totalPremio
  }

  /** `totalJogados`: the checks over all results. */
  function TotalJogados(rs: seq<Resultado>): (n: int)
    ensures n >= 0
  {
    SumJogados(rs);
    SumBy(rs, JogadosOf)
  }

  lemma {:induction false} SumJogados(rs: seq<Resultado>)
    ensures SumBy(rs, JogadosOf) >= 0
  {
    if rs != [] {
      SumJogados(rs[1..]);
    }
  }

  /** `totalPremiados`. */
  function TotalPremiados(rs: seq<Resultado>): int {
    SumBy(rs, PremiadosOf)
  }

  /** `valorGanho`, in centavos. */
  function ValorGanho(rs: seq<Resultado>): int {
    SumBy(rs, GanhoOf)
  }

  /** A result counts no more winning checks than it has checks. */
  predicate Consistent(r: Resultado) {
    0 <= r.jogosPremiados <= |r.conferencias|
  }

  lemma {:induction false} SumByLe<T>(s: seq<T>, f: T -> int, g: T -> int)
    requires forall k :: 0 <= k < |s| ==> f(s[k]) <= g(s[k])
    ensures SumBy(s, f) <= SumBy(s, g)
  {
    if s != [] {
      SumByLe(s[1..], f, g);
    }
  }

  /** Over consistent results, the winning checks are at most all the checks. */
  lemma PremiadosBound(rs: seq<Resultado>)
    requires forall k :: 0 <= k < |rs| ==> Consistent(rs[k])
    ensures 0 <= TotalPremiados(rs) <= TotalJogados(rs)
  {
    SumByLe(rs, PremiadosOf, JogadosOf);
    SumByLe(rs, (r: Resultado) => 0, PremiadosOf);
    SumByZero(rs);
  }

  lemma {:induction false} SumByZero(rs: seq<Resultado>)
    ensures SumBy(rs, (r: Resultado) => 0) == 0
  {
    if rs != [] {
      SumByZero(rs[1..]);
    }
  }

  /**
   * `addResultado` adds a new contest's figures to each total and leaves
   * them alone for a contest already stored; re-sorting changes nothing.
   */
  lemma AddedTotals(rs: seq<Resultado>, r: Resultado)
    ensures HasConcurso(rs, r.concurso) ==> TotalJogados(AddedResultado(rs, r)) == TotalJogados(rs)
    ensures !HasConcurso(rs, r.concurso) ==>
      TotalJogados(AddedResultado(rs, r)) == TotalJogados(rs) + |r.conferencias| &&
      TotalPremiados(AddedResultado(rs, r)) == TotalPremiados(rs) + r.jogosPremiados &&
      ValorGanho(AddedResultado(rs, r)) == ValorGanho(rs) + r.totalPremio
  {
    if !HasConcurso(rs, r.concurso) {
      var out := AddedResultado(rs, r);
      assert multiset(out) == multiset(rs + [r]);
      AddedSum(rs, r, out, JogadosOf);
      AddedSum(rs, r, out, PremiadosOf);
      AddedSum(rs, r, out, GanhoOf);
    }
  }

  lemma AddedSum(rs: seq<Resultado>, r: Resultado, out: seq<Resultado>, f: Resultado -> int)
    requires multiset(out) == multiset(rs + [r])
    ensures SumBy(out, f) == SumBy(rs, f) + f(r)
  {
    SumByPermutation(out, rs + [r], f);
    SumByConcat(rs, [r], f);
    assert SumBy([r], f) == f(r) + SumBy([r][1..], f);
  }

  // ---------------------------------------------------------------------
  // The distribution of hits
  // ---------------------------------------------------------------------

  /** A chart entry: a count, or NaN once `undefined` has been incremented. */
  datatype Count = Num(n: nat) | NaN

  /** `{ 11: 0, 12: 0, 13: 0, 14: 0, 15: 0 }`. */
  function Initial(): map<int, Count> {
    map[11 := Num(0), 12 := Num(0), 13 := Num(0), 14 := Num(0), 15 := Num(0)]
  }

  /** `distribution[acertos]++`: a missing entry is undefined, and undefined + 1 is NaN. */
  function Bump(dist: map<int, Count>, acertos: int): map<int, Count> {
    dist[acertos := if acertos in dist && dist[acertos].Num? then Num(dist[acertos].n + 1) else NaN]
  }

  /** One check seen: counted when it has at least 11 hits. */
  function Step(dist: map<int, Count>, acertos: int): map<int, Count> {
    if acertos >= 11 then Bump(dist, acertos) else dist
  }

  /** The distribution after seeing these hit counts, in order. */
  function Tally(acs: seq<int>): map<int, Count> {
    if acs == [] then Initial() else Step(Tally(acs[..|acs| - 1]), acs[|acs| - 1])
  }

  lemma TallySnoc(acs: seq<int>, a: int)
    ensures Tally(acs + [a]) == Step(Tally(acs), a)
  {
    assert (acs + [a])[..|acs|] == acs;
  }

  /** The hit counts of a list of checks. */
  function HitsOf(cs: seq<Conferencia>): (r: seq<int>)
    ensures |r| == |cs|
    ensures forall k :: 0 <= k < |cs| ==> r[k] == cs[k].acertos
  {
    seq(|cs|, k requires 0 <= k < |cs| => cs[k].acertos)
  }

  /** The hit counts of every check of every result, result by result. */
  function Hits(rs: seq<Resultado>): seq<int> {
    if rs == [] then [] else Hits(rs[..|rs| - 1]) + HitsOf(rs[|rs| - 1].conferencias)
  }

  /** There is one hit count per check. */
  lemma {:induction false} HitsLength(rs: seq<Resultado>)
    ensures |Hits(rs)| == TotalJogados(rs)
  {
    if rs != [] {
      var init, last := rs[..|rs| - 1], rs[|rs| - 1];
      HitsLength(init);
      InitLast(rs);
      SumByConcat(init, [last], JogadosOf);
      assert SumBy([last], JogadosOf) == |last.conferencias| + SumBy([last][1..], JogadosOf);
    }
  }

  /** The nested `forEach` loops that fill the distribution. */
  method Distribution(resultados: seq<Resultado>) returns (dist: map<int, Count>)
    ensures dist == Tally(Hits(resultados))
  {
    dist := Initial();
    var i := 0;
    while i < |resultados|
      invariant 0 <= i <= |resultados|
      invariant dist == Tally(Hits(resultados[..i]))
    {
      var cs := resultados[i].conferencias;
      ghost var before := Hits(resultados[..i]);
      var j := 0;
      assert before + HitsOf(cs[..0]) == before;
      while j < |cs|
        invariant 0 <= j <= |cs|
        invariant dist == Tally(before + HitsOf(cs[..j]))
      {
        assert HitsOf(cs[..j + 1]) == HitsOf(cs[..j]) + [cs[j].acertos];
        ConcatAssoc(before, HitsOf(cs[..j]), [cs[j].acertos]);
        TallySnoc(before + HitsOf(cs[..j]), cs[j].acertos);
        if cs[j].acertos >= 11 {
          dist := Bump(dist, cs[j].acertos);
        }
        j := j + 1;
      }
      assert cs[..j] == cs;
      assert resultados[..i + 1][..i] == resultados[..i];
      i := i + 1;
    }
    assert resultados[..i] == resultados;
  }

  /** How many of the hit counts equal k. */
  function CountOf(acs: seq<int>, k: int): nat {
    if acs == [] then 0 else CountOf(acs[..|acs| - 1], k) + (if acs[|acs| - 1] == k then 1 else 0)
  }

  /**
   * For 11 to 15 hits the chart counts exactly the checks with that many
   * hits; any other entry belongs to a number of hits above 15 that
   * occurred, and is NaN.
   */
  lemma {:induction false} TallyCounts(acs: seq<int>)
    ensures forall k :: 11 <= k <= 15 ==> k in Tally(acs) && Tally(acs)[k] == Num(CountOf(acs, k))
    ensures forall k :: k in Tally(acs) <==> 11 <= k <= 15 || (k > 15 && k in acs)
    ensures forall k :: k in Tally(acs) && k > 15 ==> Tally(acs)[k] == NaN
  {
    if acs != [] {
      var init, a := acs[..|acs| - 1], acs[|acs| - 1];
      TallyCounts(init);
      InitLast(acs);
      forall k ensures k in acs <==> k in init || k == a {
        assert k in acs <==> k in init + [a];
      }
    }
  }

  /** The five counts together are at most the number of checks. */
  lemma {:induction false} CountsBound(acs: seq<int>)
    ensures CountOf(acs, 11) + CountOf(acs, 12) + CountOf(acs, 13) + CountOf(acs, 14) + CountOf(acs, 15) <= |acs|
  {
    if acs != [] {
      CountsBound(acs[..|acs| - 1]);
    }
  }

  /** The chart's five bars add up to at most `totalJogados`. */
  lemma DistributionBound(rs: seq<Resultado>)
    ensures var d := Tally(Hits(rs));
      11 in d && 12 in d && 13 in d && 14 in d && 15 in d &&
      d[11].Num? && d[12].Num? && d[13].Num? && d[14].Num? && d[15].Num? &&
      d[11].n + d[12].n + d[13].n + d[14].n + d[15].n <= TotalJogados(rs)
  {
    TallyCounts(Hits(rs));
    CountsBound(Hits(rs));
    HitsLength(rs);
  }

  /** A game that repeats a number can score 16 hits, which puts a NaN entry in the chart. */
  lemma SixteenHits()
    ensures 16 in Tally([16]) && Tally([16])[16] == NaN
  {
    TallyCounts([16]);
  }

  // ---------------------------------------------------------------------
  // The largest bar
  // ---------------------------------------------------------------------

  /** `Math.max(a, b)` on chart entries: NaN wins. */
  function MaxCount(a: Count, b: Count): Count {
    if a.NaN? || b.NaN? then NaN else Num(if a.n >= b.n then a.n else b.n)
  }

  /** m is `Math.max` of 1 and the entries with keys in ks. */
  predicate MaxOver(dist: map<int, Count>, ks: seq<int>, m: Count) {
    (m.NaN? <==> exists k :: k in ks && k in dist && dist[k].NaN?) &&
    (m.Num? ==>
      1 <= m.n &&
      (forall k :: k in ks && k in dist ==> dist[k].n <= m.n) &&
      (m.n == 1 || exists k :: k in ks && k in dist && dist[k] == m))
  }

  /**
   * `Math.max(...Object.values(distribution), 1)`, visiting the values in
   * the order of `keys`, which lists every key of the distribution.
   */
  method MaxVal(dist: map<int, Count>, keys: seq<int>) returns (m: Count)
    requires forall k :: k in keys <==> k in dist
    ensures MaxOver(dist, keys, m)
  {
    m := Num(1);
    var i := 0;
    while i < |keys|
      invariant 0 <= i <= |keys|
      invariant MaxOver(dist, keys[..i], m)
    {
      var k := keys[i];
      assert keys[..i + 1] == keys[..i] + [k];
      MaxStep(dist, keys[..i], m, k);
      m := MaxCount(m, dist[k]);
      i := i + 1;
    }
    assert keys[..i] == keys;
  }

  lemma MaxStep(dist: map<int, Count>, seen: seq<int>, m: Count, k: int)
    requires MaxOver(dist, seen, m) && k in dist
    ensures MaxOver(dist, seen + [k], MaxCount(m, dist[k]))
  {
    var m' := MaxCount(m, dist[k]);
    if m'.Num? {
      assert m.Num? && dist[k].Num?;
      if m'.n != 1 && m'.n != dist[k].n {
        assert m' == m;
      }
    }
  }

  /**
   * With every hit count at most 15 the largest bar is a number, at
   * least 1 and at least every count, so each bar's ratio lies in [0, 1];
   * a hit count above 15 makes it NaN.
   */
  lemma MaxValOfTally(acs: seq<int>, ks: seq<int>, m: Count)
    requires forall k :: k in ks <==> k in Tally(acs)
    requires MaxOver(Tally(acs), ks, m)
    ensures m.NaN? <==> exists a :: a in acs && a > 15
    ensures m.Num? ==> 1 <= m.n && forall k :: 11 <= k <= 15 ==> CountOf(acs, k) <= m.n
  {
    TallyCounts(acs);
    if exists a :: a in acs && a > 15 {
      var a :| a in acs && a > 15;
      assert a in ks;
    }
    if m.Num? {
      forall k | 11 <= k <= 15 ensures CountOf(acs, k) <= m.n {
        assert k in ks;
      }
    }
  }
}
