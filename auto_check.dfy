/**
 * Automatic checking (`AutoCheck`): every stored game is checked against
 * every draw of a date range, and each draw gets a summary: the checks
 * sorted by hits, the total prize, how many games won something and the
 * best number of hits.
 */
module AutoCheck {
  import opened Wrappers
  import opened Seqs
  import opened Text
  import opened Dates
  import opened GameLogic
  import opened LotofacilApi
  import opened LotofacilData

  /** `{...jogo, acertos, premio}`: one game checked against one draw. */
  function Conferir(draw: Draw, jogo: Jogo): Conferencia {
    var acertos := CalcularAcertos(jogo.numeros, draw.numeros);
    Conferencia(jogo, acertos, CalcularPremio(acertos, |jogo.numeros|, draw.premiacoes))
  }

  /** `jogos.map(...)`: the checks of every game, in the games' order. */
  function ConferirTodos(draw: Draw, jogos: seq<Jogo>): (cs: seq<Conferencia>)
    ensures |cs| == |jogos|
    ensures forall k :: 0 <= k < |jogos| ==>
      cs[k].jogo == jogos[k] && cs[k].acertos == CalcularAcertos(jogos[k].numeros, draw.numeros)
    ensures forall k :: 0 <= k < |jogos| ==> cs[k] == Conferir(draw, jogos[k])
  {
    if jogos == [] then [] else [Conferir(draw, jogos[0])] + ConferirTodos(draw, jogos[1..])
  }

  /** `(a, b) => b.acertos - a.acertos`: more hits first. */
  function AcertosKey(c: Conferencia): (int, int) {
    (c.acertos, 0)
  }

  function PremioOf(c: Conferencia): int {
    c.premio
  }

  function AcertosOf(c: Conferencia): int {
    c.acertos
  }

  function Premiada(c: Conferencia): bool {
    c.premio > 0
  }

  /**
   * The summary `draws.map(draw => ...)` builds for one draw.  Only
   * called with at least one game: `Math.max()` of nothing is -Infinity.
   */
  function Resumo(draw: Draw, jogos: seq<Jogo>): (r: Resultado)
    requires |jogos| > 0
    ensures r.id == IntToString(draw.numero) && r.concurso == draw.numero
    ensures r.data == draw.data && r.numerosSorteados == draw.numeros
    ensures var cs := ConferirTodos(draw, jogos);
      |r.conferencias| == |jogos| &&
      multiset(r.conferencias) == multiset(cs) &&
      SortedBy(r.conferencias, AcertosKey) &&
      r.totalPremio == SumBy(cs, PremioOf) &&
      r.jogosPremiados == |Filter(cs, Premiada)|
    ensures forall k :: 0 <= k < |r.conferencias| ==> r.conferencias[k].acertos <= r.melhorAcerto
    ensures r.melhorAcerto == r.conferencias[0].acertos
  {
    var cs0 := ConferirTodos(draw, jogos);
    SortedTotals(cs0);
    Summarize(draw, SortBy(cs0, AcertosKey))
  }

  /** The summary of checks already sorted by hits. */
  function Summarize(draw: Draw, cs: seq<Conferencia>): (r: Resultado)
    requires |cs| > 0 && SortedBy(cs, AcertosKey)
    ensures r.id == IntToString(draw.numero) && r.concurso == draw.numero
    ensures r.data == draw.data && r.numerosSorteados == draw.numeros && r.conferencias == cs
    ensures r.totalPremio == SumBy(cs, PremioOf) && r.jogosPremiados == |Filter(cs, Premiada)|
    ensures forall k :: 0 <= k < |cs| ==> cs[k].acertos <= r.melhorAcerto
    ensures r.melhorAcerto == cs[0].acertos
  {
    var best := MaxBy(cs, AcertosOf);
    BestIsFirst(cs, best);
    Resultado(IntToString(draw.numero), draw.numero, draw.data, draw.numeros, cs,
      SumBy(cs, PremioOf), |Filter(cs, Premiada)|, best)
  }

  /** Sorting changes neither the total prize nor the number of winning checks. */
  lemma SortedTotals(cs0: seq<Conferencia>)
    ensures SumBy(SortBy(cs0, AcertosKey), PremioOf) == SumBy(cs0, PremioOf)
    ensures |Filter(SortBy(cs0, AcertosKey), Premiada)| == |Filter(cs0, Premiada)|
  {
    var cs := SortBy(cs0, AcertosKey);
    SumByPermutation(cs, cs0, PremioOf);
    FilterCount(cs, Premiada);
    FilterCount(cs0, Premiada);
    SumByPermutation(cs, cs0, Indicator(Premiada));
  }

  /** In a list sorted by hits, a bound on the hits that some entry attains is the first entry's. */
  lemma BestIsFirst(cs: seq<Conferencia>, best: int)
    requires |cs| > 0 && SortedBy(cs, AcertosKey)
    requires forall x :: x in cs ==> x.acertos <= best
    requires exists k :: 0 <= k < |cs| && cs[k].acertos == best
    ensures best == cs[0].acertos
    ensures forall k :: 0 <= k < |cs| ==> cs[k].acertos <= best
  {
    var k :| 0 <= k < |cs| && cs[k].acertos == best;
    assert cs[0] in cs;
    if k > 0 {
      assert KeyGe(AcertosKey(cs[0]), AcertosKey(cs[k]));
    }
    forall j | 0 <= j < |cs| ensures cs[j].acertos <= best {
      assert cs[j] in cs;
    }
  }

  /**
   * The sort is stable: the games with the same number of hits keep the
   * order they had in the list of games.
   */
  lemma ResumoStable(draw: Draw, jogos: seq<Jogo>, acertos: int)
    requires |jogos| > 0
    ensures WithKey(Resumo(draw, jogos).conferencias, AcertosKey, (acertos, 0)) ==
      WithKey(ConferirTodos(draw, jogos), AcertosKey, (acertos, 0))
  {
    SortStable(ConferirTodos(draw, jogos), AcertosKey, (acertos, 0));
  }

  /** The best hit count is some game's hit count. */
  lemma MelhorAcertoAttained(draw: Draw, jogos: seq<Jogo>)
    requires |jogos| > 0
    ensures exists k ::
      0 <= k < |jogos| && Resumo(draw, jogos).melhorAcerto == CalcularAcertos(jogos[k].numeros, draw.numeros)
  {
    var r := Resumo(draw, jogos);
    var cs := ConferirTodos(draw, jogos);
    assert r.conferencias[0] in multiset(cs);
    var k :| 0 <= k < |cs| && cs[k] == r.conferencias[0];
  }

  /** With games that repeat no number, the best hit count is at most the draw's size. */
  lemma MelhorAcertoBound(draw: Draw, jogos: seq<Jogo>)
    requires |jogos| > 0
    requires forall k :: 0 <= k < |jogos| ==> Distinct(jogos[k].numeros)
    ensures 0 <= Resumo(draw, jogos).melhorAcerto <= |draw.numeros|
  {
    MelhorAcertoAttained(draw, jogos);
    var k :| 0 <= k < |jogos| &&
      Resumo(draw, jogos).melhorAcerto == CalcularAcertos(jogos[k].numeros, draw.numeros);
    AcertosBound(jogos[k].numeros, draw.numeros);
  }

  /** Against a draw without a prize table (a mock), exactly the checks with 11 to 13 hits win. */
  lemma MockPrizes(draw: Draw, jogos: seq<Jogo>)
    requires |jogos| > 0 && draw.premiacoes.None?
    ensures forall c :: c in Resumo(draw, jogos).conferencias ==>
      (c.premio > 0 <==> 11 <= c.acertos <= 13)
  {
    var r := Resumo(draw, jogos);
    var cs := ConferirTodos(draw, jogos);
    forall c | c in r.conferencias ensures c.premio > 0 <==> 11 <= c.acertos <= 13 {
      assert c in multiset(cs);
      var k :| 0 <= k < |cs| && cs[k] == c;
      PremioWithoutTable(c.acertos, |jogos[k].numeros|);
    }
  }

  /** Only games with at least 11 hits win anything, whatever the prize table. */
  lemma PremiadaHits(draw: Draw, jogos: seq<Jogo>)
    requires |jogos| > 0
    ensures forall c :: c in Resumo(draw, jogos).conferencias && c.premio > 0 ==> c.acertos >= 11
  {
    var r := Resumo(draw, jogos);
    var cs := ConferirTodos(draw, jogos);
    forall c | c in r.conferencias && c.premio > 0 ensures c.acertos >= 11 {
      assert c in multiset(cs);
      var k :| 0 <= k < |cs| && cs[k] == c;
    }
  }

  /** `draws.map(...)`: one summary per draw, in the draws' order. */
  function ResumoAll(draws: seq<Draw>, jogos: seq<Jogo>): (rs: seq<Resultado>)
    requires |jogos| > 0
    ensures |rs| == |draws|
    ensures forall k :: 0 <= k < |draws| ==> rs[k] == Resumo(draws[k], jogos)
  {
    seq(|draws|, k requires 0 <= k < |draws| => Resumo(draws[k], jogos))
  }

  /** `lastMonth`: the default first day of the period, 30 days before today. */
  function LastMonth(today: Day): (d: Day)
    ensures Index(d) <= Index(today)
  {
    DaysBefore(today, 30)
  }

  /** The component's state: the two date fields and the summaries shown. */
  class AutoCheckView {
    var startDate: string
    var endDate: string
    var results: seq<Resultado>

    /** The fields start 30 days back and today, as YYYY-MM-DD; nothing is shown. */
    constructor(today: Day)
      ensures startDate == IsoText(LastMonth(today)) && endDate == IsoText(today)
      ensures results == []
    {
      startDate := IsoText(LastMonth(today));
      endDate := IsoText(today);
      results := [];
    }

    /**
     * `handleAutoCheck`: without games nothing happens; otherwise the
     * draws of the range are fetched and each one is summarised.  An
     * empty range shows no summaries (`setResults([])` ran before).
     */
    method HandleAutoCheck(jogos: seq<Jogo>, latestResp: Response, fetch: int -> Response, today: Day)
      returns (ghost draws: seq<Draw>, ghost latest: Draw, ghost walked: seq<Draw>)
      modifies this
      ensures startDate == old(startDate) && endDate == old(endDate)
      ensures jogos == [] ==> results == old(results)
      ensures jogos != [] ==> AnswersLatest(latest, latestResp, today)
      ensures jogos != [] ==>
        RangeFrom(draws, latest, walked, DateInput(startDate), DateInput(endDate), fetch, today)
      ensures jogos != [] ==> |results| == |draws|
      ensures jogos != [] ==> forall k :: 0 <= k < |draws| ==> results[k] == Resumo(draws[k], jogos)
    {
      draws, latest, walked := [], Draw(0, "", [], None, false), [];
      if jogos == [] {
        return;
      }
      results := [];
      var found;
      found, latest, walked := FetchDrawsByDateRange(startDate, endDate, latestResp, fetch, today);
      draws := found;
      if found == [] {
        return;
      }
      results := ResumoAll(found, jogos);
    }
  }

  /**
   * The default period reads back as the days it was written from and
   * spans 31 calendar days, both ends included.
   */
  lemma DefaultPeriod(today: Day)
    requires 1030 <= today.year <= 9999
    ensures DateInput(IsoText(LastMonth(today))) == Some(LastMonth(today))
    ensures DateInput(IsoText(today)) == Some(today)
    ensures DayCount(LastMonth(today), today) == 31
  {
    DateInputIso(LastMonth(today));
    DateInputIso(today);
    DaysBeforeCount(today, 30);
  }
}
