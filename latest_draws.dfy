/**
 * The "latest draws" panel (`LatestDraws`): with both dates filled in,
 * the draws of that period are fetched; otherwise the latest draw and
 * the ones before it are fetched one contest number at a time.
 */
module LatestDraws {
  import opened Wrappers
  import opened Seqs
  import opened Dates
  import opened LotofacilApi
  import opened LotofacilData

  /** How many draws the panel asks for (`useState(10)`, never changed). */
  const DefaultQtd := 10

  /** The length of the recent list: qtd, but never fewer than the latest draw alone. */
  function RecentLength(qtd: int): nat {
    if qtd >= 1 then qtd else 1
  }

  /**
   * What the default branch of `loadDraws` stores: the latest draw,
   * then the answers to the requests for contests latest - 1, latest - 2,
   * ... in that order, qtd entries in all.
   */
  predicate Recent(list: seq<Draw>, qtd: int, latestResp: Response, fetch: int -> Response, today: Day) {
    |list| == RecentLength(qtd) &&
    AnswersLatest(list[0], latestResp, today) &&
    WalkAnswers(list[1..], list[0].numero - 1, fetch, today)
  }

  /**
   * The default branch of `loadDraws`.  `fetchSpecificDraw` never throws
   * (it falls back to a mock), so the `catch`/`break` of the loop is never
   * taken and every one of the qtd - 1 requests adds a draw.
   */
  method RecentDraws(qtd: int, latestResp: Response, fetch: int -> Response, today: Day) returns (list: seq<Draw>)
    ensures Recent(list, qtd, latestResp, fetch, today)
  {
    var latest := FetchLatestDraw(latestResp, today);
    var rest := WalkRecent(latest.numero - 1, RecentLength(qtd) - 1, fetch, today);
    list := [latest] + rest;
    assert list[1..] == rest;
  }

  /** The loop of the default branch: `count` requests from contest `first` down. */
  method WalkRecent(first: int, count: nat, fetch: int -> Response, today: Day) returns (rest: seq<Draw>)
    ensures |rest| == count
    ensures WalkAnswers(rest, first, fetch, today)
  {
    rest := [];
    var currentId := first;
    while |rest| < count
      invariant |rest| <= count
      invariant currentId == first - |rest|
      invariant WalkAnswers(rest, first, fetch, today)
    {
      var prevDraw := FetchSpecificDraw(currentId, fetch(currentId), today);
      WalkAnswersSnoc(rest, prevDraw, currentId, first, fetch, today);
      rest := rest + [prevDraw];
      currentId := currentId - 1;
    }
  }

  /**
   * Offline, the recent list is made of mocks numbered 3000, 2999, ...
   * (mock 3000 stands in for the latest draw), all dated today.
   */
  lemma {:induction false} RecentOffline(list: seq<Draw>, qtd: int, latestResp: Response, fetch: int -> Response, today: Day)
    requires Recent(list, qtd, latestResp, fetch, today) && Offline(latestResp, fetch)
    ensures forall k :: 0 <= k < |list| ==> IsMock(list[k], 3000 - k, today)
  {
    assert LatestAnswers(latestResp, today)(list[0]);
    assert IsMock(list[0], 0, today);
    forall k | 0 <= k < |list| ensures IsMock(list[k], 3000 - k, today) {
      if k > 0 {
        WalkAt(list, fetch, today, k);
        assert fetch(3000 - k).Failed?;
      }
    }
  }

  /** Offline, the numbers of the default ten-draw list count down from 3000. */
  lemma DefaultOffline(list: seq<Draw>, latestResp: Response, fetch: int -> Response, today: Day)
    requires Recent(list, DefaultQtd, latestResp, fetch, today) && Offline(latestResp, fetch)
    ensures |list| == 10
    ensures forall k :: 0 <= k < 10 ==> list[k].numero == 3000 - k && list[k].isMock
  {
    RecentOffline(list, DefaultQtd, latestResp, fetch, today);
  }

  /**
   * Online, when the latest draw and every earlier contest come back as
   * records, the list holds those records' draws, contest by contest back
   * from the latest one.
   */
  lemma RecentOnline(list: seq<Draw>, qtd: int, latestResp: Response, fetch: int -> Response, today: Day)
    requires Recent(list, qtd, latestResp, fetch, today)
    requires forall id :: fetch(id).Body? && fetch(id).payload.Single? && FormatApiData(fetch(id).payload.record).Some?
    ensures forall k :: 1 <= k < |list| ==>
      list[k] == FormatApiData(fetch(list[0].numero - k).payload.record).value
  {
    forall k | 1 <= k < |list|
      ensures list[k] == FormatApiData(fetch(list[0].numero - k).payload.record).value
    {
      WalkAt(list, fetch, today, k);
    }
  }

  /** The k-th entry after the latest answers the request for contest latest - k. */
  lemma WalkAt(list: seq<Draw>, fetch: int -> Response, today: Day, k: int)
    requires 1 <= k < |list| && WalkAnswers(list[1..], list[0].numero - 1, fetch, today)
    ensures Answers(list[k], list[0].numero - k, fetch(list[0].numero - k), today)
  {
    assert list[1..][k - 1] == list[k];
    assert AnswersFrom(list[0].numero - 1, fetch, today)(k - 1, list[1..][k - 1]);
  }

  /** `startDate && endDate`: both date fields are non-empty. */
  predicate RangeChosen(startDate: string, endDate: string) {
    startDate != "" && endDate != ""
  }

  /**
   * `loadDraws`.  With both dates set, the range fetch's results replace
   * the stored draws unless there are none (the alert is left out); the
   * ghost results say which draws the range fetch returned.  Otherwise
   * the recent list replaces them.  The outer `catch` is never reached,
   * since neither branch throws.
   */
  method LoadDraws(store: Store, startDate: string, endDate: string, qtd: int,
                   latestResp: Response, fetch: int -> Response, today: Day)
    returns (ghost found: seq<Draw>, ghost latest: Draw, ghost walked: seq<Draw>)
    modifies store
    ensures RangeChosen(startDate, endDate) ==>
      AnswersLatest(latest, latestResp, today) &&
      RangeFrom(found, latest, walked, DateInput(startDate), DateInput(endDate), fetch, today) &&
      store.ultimosSorteios == (if found == [] then old(store.ultimosSorteios) else found)
    ensures !RangeChosen(startDate, endDate) ==> Recent(store.ultimosSorteios, qtd, latestResp, fetch, today)
    ensures store.jogos == old(store.jogos) && store.resultados == old(store.resultados)
  {
    found, walked := [], [];
    latest := Draw(0, "", [], None, false);
    if RangeChosen(startDate, endDate) {
      var rangeResults;
      rangeResults, latest, walked := FetchDrawsByDateRange(startDate, endDate, latestResp, fetch, today);
      found := rangeResults;
      if rangeResults != [] {
        store.SetUltimosSorteios(rangeResults);
      }
    } else {
      var list := RecentDraws(qtd, latestResp, fetch, today);
      store.SetUltimosSorteios(list);
    }
  }

  /**
   * The mount effect: an empty list of stored draws triggers one load of
   * the ten most recent draws (both date fields start empty).
   */
  method Mount(store: Store, latestResp: Response, fetch: int -> Response, today: Day)
    modifies store
    ensures old(store.ultimosSorteios) == [] ==> Recent(store.ultimosSorteios, DefaultQtd, latestResp, fetch, today)
    ensures old(store.ultimosSorteios) != [] ==> store.ultimosSorteios == old(store.ultimosSorteios)
    ensures store.jogos == old(store.jogos) && store.resultados == old(store.resultados)
  {
    if store.ultimosSorteios == [] {
      ghost var found, latest, walked := LoadDraws(store, "", "", DefaultQtd, latestResp, fetch, today);
    }
  }
}
