/**
 * Draw retrieval.  The network is an oracle: `fetch(id)` is the answer
 * to the request for contest `id` and `latestResp` the answer to the
 * request for the latest contest.  `today` is the clock's calendar day.
 */
module LotofacilApi {
  import opened Wrappers
  import opened Seqs
  import opened Text
  import opened Dates
  import opened GameLogic

  /**
   * An entry of `dezenas`: a string whose first two characters (or only
   * character) are digits, such as "07".
   */
  type Dezena = s: string | |s| > 0 && IsDigit(s[0]) && (|s| == 1 || IsDigit(s[1])) witness "0"

  /** parseInt reads a number from every such string. */
  lemma DezenaParses(d: Dezena)
    ensures ParseInt(d).Some?
  {
    assert !IsSpace(d[0]);
    assert TrimStart(d) == d;
    assert d[0] != '-' && d[0] != '+';
    assert |d| >= 2 ==> d[1] != 'x' && d[1] != 'X';
    assert DigitPrefix(d) != [];
  }

  /** One contest's JSON record; `dezenas` and `premiacoes` are None when absent. */
  datatype ApiRecord = ApiRecord(
    concurso: int,
    data: string,
    dezenas: Option<seq<Dezena>>,
    premiacoes: Option<seq<Premiacao>>)

  /** The parsed JSON body: one record or an array of records. */
  datatype Payload = Single(record: ApiRecord) | Many(records: seq<ApiRecord>)

  /** Failed covers a network error, a status other than ok and a body that is not JSON. */
  datatype Response = Failed | Body(payload: Payload)

  /**
   * A draw as the application handles it.  `premiacoes` is None for a
   * mock, which has no prize table at all.
   */
  datatype Draw = Draw(
    numero: int,
    data: string,
    numeros: seq<int>,
    premiacoes: Option<seq<Premiacao>>,
    isMock: bool)

  /** `d => parseInt(d)` over the drawn numbers. */
  function ParseDezenas(ds: seq<Dezena>): (r: seq<int>)
    ensures |r| == |ds|
    ensures forall i :: 0 <= i < |ds| ==> ParseInt(ds[i]) == Some(r[i])
  {
    if ds == [] then []
    else
      DezenaParses(ds[0]);
      [ParseInt(ds[0]).value] + ParseDezenas(ds[1..])
  }

  /** Zero-padded two-digit entries, as the API sends them, read as their numbers. */
  lemma ParseDezenasPadded(ds: seq<Dezena>, ns: seq<nat>)
    requires |ds| == |ns| && forall i :: 0 <= i < |ns| ==> ds[i] == Pad2(ns[i])
    ensures ParseDezenas(ds) == ns
  {
    var r := ParseDezenas(ds);
    forall i | 0 <= i < |ns| ensures r[i] == ns[i] {
      ParsePad2(ns[i]);
    }
  }

  /**
   * `formatApiData(data)`; None when reading `dezenas.map` throws because
   * the record has no `dezenas`.
   */
  function FormatApiData(rec: ApiRecord): (r: Option<Draw>)
    ensures r.Some? <==> rec.dezenas.Some?
    ensures r.Some? ==>
      r.value.numero == rec.concurso && r.value.data == rec.data &&
      r.value.numeros == ParseDezenas(rec.dezenas.value) &&
      r.value.premiacoes == Some(if rec.premiacoes.Some? then rec.premiacoes.value else []) &&
      !r.value.isMock
  {
    match rec.dezenas
    case None => None
    case Some(ds) => Some(Draw(rec.concurso, rec.data, ParseDezenas(ds), Some(rec.premiacoes.GetOr([])), false))
  }

  /** `number || 3000`: 0 stands for a missing or zero argument. */
  function MockNumero(number: int): (n: int)
    ensures n != 0
    ensures number != 0 ==> n == number
  {
    if number == 0 then 3000 else number
  }

  /** What `generateMockDraw(number)` promises about the draw it makes. */
  predicate IsMock(d: Draw, number: int, today: Day) {
    d.numero == MockNumero(number) && d.isMock && d.premiacoes.None? &&
    d.data == FormatDate(today) &&
    |d.numeros| == 15 && StrictlyAsc(d.numeros) && AllIn(d.numeros, 1, 25)
  }

  /**
   * `generateMockDraw(number)`: random numbers are drawn until 15
   * distinct ones are collected, then sorted.  A random pick that is
   * already taken changes nothing, so the loop chooses among the unused
   * numbers directly.
   */
  method GenerateMockDraw(number: int, today: Day) returns (d: Draw)
    ensures IsMock(d, number, today)
    ensures Distinct(d.numeros)
  {
    var numeros: seq<int> := [];
    while |numeros| < 15
      invariant |numeros| <= 15 && Distinct(numeros) && AllIn(numeros, 1, 25)
      decreases 15 - |numeros|
    {
      var unused := Remove(Range(1, 25), Elems(numeros));
      UnusedExists(numeros);
      assert unused[0] in unused;
      var n :| n in unused;
      RangeMembers(1, 25);
      assert forall x :: x in numeros ==> x != n;
      DistinctConcat(numeros, [n]);
      numeros := numeros + [n];
    }
    SortAscDistinct(numeros);
    var sorted := SortAsc(numeros);
    assert forall i :: 0 <= i < |sorted| ==> sorted[i] in numeros;
    d := Draw(MockNumero(number), FormatDate(today), sorted, None, true);
  }

  /** Fewer than 15 distinct numbers leave some of 1..25 unused. */
  lemma UnusedExists(numeros: seq<int>)
    requires |numeros| < 15 && Distinct(numeros)
    ensures |Remove(Range(1, 25), Elems(numeros))| > 0
  {
    RangeMembers(1, 25);
    RemoveCard(Range(1, 25), Elems(numeros));
    DistinctCard(numeros);
    SubsetCard(Elems(Range(1, 25)) * Elems(numeros), Elems(numeros));
  }

  /** The record `fetchLatestDraw` hands to `formatApiData`: the first of an array. */
  function LatestRecord(resp: Response): Option<ApiRecord> {
    match resp
    case Failed => None
    case Body(Single(rec)) => Some(rec)
    case Body(Many(recs)) => if recs == [] then None else Some(recs[0])
  }

  /** The latest draw is the formatted record, or a mock numbered 3000 when that throws. */
  predicate AnswersLatest(d: Draw, resp: Response, today: Day) {
    LatestAnswers(resp, today)(d)
  }

  /** The draws that answer the request for the latest draw. */
  function LatestAnswers(resp: Response, today: Day): Draw -> bool {
    (d: Draw) =>
      var rec := LatestRecord(resp);
      if rec.Some? && FormatApiData(rec.value).Some? then d == FormatApiData(rec.value).value
      else IsMock(d, 0, today)
  }

  /**
   * A specific draw is the formatted record, or a mock numbered after the
   * request when that throws; an array body has no `dezenas` and throws.
   */
  predicate Answers(d: Draw, id: int, resp: Response, today: Day) {
    if resp.Body? && resp.payload.Single? && FormatApiData(resp.payload.record).Some? then
      d == FormatApiData(resp.payload.record).value
    else IsMock(d, id, today)
  }

  /** `fetchLatestDraw()`: never fails, falling back to a mock. */
  method FetchLatestDraw(resp: Response, today: Day) returns (d: Draw)
    ensures AnswersLatest(d, resp, today)
  {
    var rec := LatestRecord(resp);
    if rec.Some? && FormatApiData(rec.value).Some? {
      d := FormatApiData(rec.value).value;
    } else {
      d := GenerateMockDraw(0, today);
    }
  }

  /** `fetchSpecificDraw(n)`: never fails, falling back to a mock numbered n. */
  method FetchSpecificDraw(n: int, resp: Response, today: Day) returns (d: Draw)
    ensures Answers(d, n, resp, today)
  {
    if resp.Body? && resp.payload.Single? && FormatApiData(resp.payload.record).Some? {
      d := FormatApiData(resp.payload.record).value;
    } else {
      d := GenerateMockDraw(n, today);
    }
  }

  /** A draw's date as `parseDate` reads it. */
  function DrawDate(d: Draw, today: Day): JsDate {
    ParseDate(d.data, today)
  }

  /** Kept by the backward walk: not before start, not after end. */
  function KeptBy(start: JsDate, end: JsDate, today: Day): Draw -> bool {
    d => !Lt(DrawDate(d, today), start) && Le(DrawDate(d, today), end)
  }

  /** The k-th draw of the walk answers the request for contest first - k. */
  predicate WalkAnswers(ws: seq<Draw>, first: int, fetch: int -> Response, today: Day) {
    Every(ws, AnswersFrom(first, fetch, today))
  }

  /** The k-th draw of a walk from `first` answers the request for contest first - k. */
  function AnswersFrom(first: int, fetch: int -> Response, today: Day): (int, Draw) -> bool {
    (k: int, d: Draw) => Answers(d, first - k, fetch(first - k), today)
  }

  lemma WalkAnswersSnoc(ws: seq<Draw>, d: Draw, id: int, first: int, fetch: int -> Response, today: Day)
    requires WalkAnswers(ws, first, fetch, today)
    requires id == first - |ws| && Answers(d, id, fetch(id), today)
    ensures WalkAnswers(ws + [d], first, fetch, today)
  {
    EverySnoc(ws, d, AnswersFrom(first, fetch, today));
  }

  predicate NoneOlder(ws: seq<Draw>, start: JsDate, today: Day) {
    Every(ws, NotOlder(start, today))
  }

  function NotOlder(start: JsDate, today: Day): (int, Draw) -> bool {
    (k: int, d: Draw) => !Lt(DrawDate(d, today), start)
  }

  lemma NoneOlderSnoc(ws: seq<Draw>, d: Draw, start: JsDate, today: Day)
    requires NoneOlder(ws, start, today) && !Lt(DrawDate(d, today), start)
    ensures NoneOlder(ws + [d], start, today)
  {
    EverySnoc(ws, d, NotOlder(start, today));
  }

  /** The walk made MaxDraws fetches or its last draw is dated before start. */
  predicate Stopped(walked: seq<Draw>, start: JsDate, today: Day) {
    |walked| == MaxDraws || (|walked| > 0 && Lt(DrawDate(walked[|walked| - 1], today), start))
  }

  /** The cap on backward fetches. */
  const MaxDraws := 500

  /**
   * The backward walk of `fetchDrawsByDateRange`: contests first,
   * first - 1, ... are fetched until one is dated before start or
   * MaxDraws fetches have been made; the draws not after end are kept.
   * The ghost result lists every draw fetched.
   */
  method WalkBack(start: JsDate, end: JsDate, first: int, fetch: int -> Response, today: Day)
    returns (kept: seq<Draw>, ghost walked: seq<Draw>)
    ensures |walked| <= MaxDraws
    ensures WalkAnswers(walked, first, fetch, today)
    ensures kept == Filter(walked, KeptBy(start, end, today))
    ensures |walked| > 0 ==> NoneOlder(walked[..|walked| - 1], start, today)
    ensures Stopped(walked, start, today)
  {
    kept := [];
    walked := [];
    var currentId := first;
    var count := 0;
    while count < MaxDraws
      invariant 0 <= count <= MaxDraws && |walked| == count
      invariant currentId == first - count
      invariant WalkAnswers(walked, first, fetch, today)
      invariant NoneOlder(walked, start, today)
      invariant kept == Filter(walked, KeptBy(start, end, today))
    {
      var draw := FetchSpecificDraw(currentId, fetch(currentId), today);
      WalkAnswersSnoc(walked, draw, currentId, first, fetch, today);
      var drawDate := DrawDate(draw, today);
      FilterSnoc(walked, draw, KeptBy(start, end, today));
      assert KeptBy(start, end, today)(draw) == (!Lt(drawDate, start) && Le(drawDate, end));
      if Lt(drawDate, start) {
        assert (walked + [draw])[..|walked|] == walked;
        walked := walked + [draw];
        return;
      }
      NoneOlderSnoc(walked, draw, start, today);
      walked := walked + [draw];
      if Le(drawDate, end) {
        kept := kept + [draw];
      }
      currentId := currentId - 1;
      count := count + 1;
    }
  }

  /**
   * `fetchDrawsByDateRange(startDateStr, endDateStr)`: both texts are
   * read with `new Date`, the end covering its whole day (`setHours(23,
   * 59, 59)` on an Invalid Date leaves it invalid).  The ghost results
   * are the latest draw and the draws fetched by the walk.
   */
  method FetchDrawsByDateRange(startDateStr: string, endDateStr: string, latestResp: Response, fetch: int -> Response, today: Day)
    returns (results: seq<Draw>, ghost latest: Draw, ghost walked: seq<Draw>)
    ensures AnswersLatest(latest, latestResp, today)
    ensures RangeFrom(results, latest, walked, DateInput(startDateStr), DateInput(endDateStr), fetch, today)
  {
    var latestDraw := FetchLatestDraw(latestResp, today);
    latest := latestDraw;
    var start := DateInput(startDateStr);
    var end := DateInput(endDateStr);
    results, walked := DrawsFrom(latestDraw, start, end, fetch, today);
  }

  /**
   * What the range fetch returns once the latest draw is known: nothing
   * when that draw is older than start; otherwise the latest draw when it
   * lies in the range, then the kept draws of a walk from the contest
   * before it, which stopped at the first draw older than start or after
   * MaxDraws fetches.
   */
  predicate RangeFrom(results: seq<Draw>, latest: Draw, walked: seq<Draw>, start: JsDate, end: JsDate, fetch: int -> Response, today: Day) {
    (Lt(DrawDate(latest, today), start) ==> results == [] && walked == []) &&
    |walked| <= MaxDraws &&
    WalkAnswers(walked, latest.numero - 1, fetch, today) &&
    (!Lt(DrawDate(latest, today), start) ==>
      var head := if Le(start, DrawDate(latest, today)) && Le(DrawDate(latest, today), end) then [latest] else [];
      results == head + Filter(walked, KeptBy(start, end, today))) &&
    (|walked| > 0 ==> NoneOlder(walked[..|walked| - 1], start, today)) &&
    (!Lt(DrawDate(latest, today), start) ==> Stopped(walked, start, today))
  }

  /** The body of `fetchDrawsByDateRange` after the latest draw is fetched. */
  method DrawsFrom(latest: Draw, start: JsDate, end: JsDate, fetch: int -> Response, today: Day)
    returns (results: seq<Draw>, ghost walked: seq<Draw>)
    ensures RangeFrom(results, latest, walked, start, end, fetch, today)
  {
    var latestDate := DrawDate(latest, today);
    if Lt(latestDate, start) {
      return [], [];
    }
    var head := if Le(start, latestDate) && Le(latestDate, end) then [latest] else [];
    var kept;
    kept, walked := WalkBack(start, end, latest.numero - 1, fetch, today);
    results := head + kept;
  }


  /** Every draw returned for a valid start date lies between start and end. */
  lemma RangeResultsInside(start: JsDate, end: JsDate, latest: Draw, walked: seq<Draw>, results: seq<Draw>, today: Day)
    requires start.Some?
    requires results == (if Le(start, DrawDate(latest, today)) && Le(DrawDate(latest, today), end) then [latest] else [])
      + Filter(walked, KeptBy(start, end, today))
    ensures forall d :: d in results ==> Le(start, DrawDate(d, today)) && Le(DrawDate(d, today), end)
  {
    forall d | d in results ensures Le(start, DrawDate(d, today)) && Le(DrawDate(d, today), end) {
      if d in Filter(walked, KeptBy(start, end, today)) {
        assert KeptBy(start, end, today)(d);
      }
    }
  }

  /** At most the latest draw and one per backward fetch. */
  lemma RangeResultsCount(start: JsDate, end: JsDate, latest: Draw, walked: seq<Draw>, results: seq<Draw>, today: Day)
    requires |walked| <= MaxDraws
    requires results == (if Le(start, DrawDate(latest, today)) && Le(DrawDate(latest, today), end) then [latest] else [])
      + Filter(walked, KeptBy(start, end, today))
    ensures |results| <= MaxDraws + 1
  {
  }

  /**
   * With the start field left empty, start is an Invalid Date, no draw
   * is older than it, and the walk always makes all 500 fetches.
   */
  lemma EmptyStartWalksAll(results: seq<Draw>, latest: Draw, walked: seq<Draw>, endDateStr: string,
                           fetch: int -> Response, today: Day)
    requires RangeFrom(results, latest, walked, DateInput(""), DateInput(endDateStr), fetch, today)
    ensures |walked| == MaxDraws
  {
    EmptyDateInput();
  }

  /** Every request fails: the latest draw and every contest fall back to mocks. */
  ghost predicate Offline(latestResp: Response, fetch: int -> Response) {
    latestResp.Failed? && forall id :: fetch(id).Failed?
  }

  /** Offline, the k-th draw of a walk is the mock numbered first - k. */
  lemma OfflineWalk(walked: seq<Draw>, first: int, fetch: int -> Response, today: Day, k: int)
    requires WalkAnswers(walked, first, fetch, today) && forall id :: fetch(id).Failed?
    requires 0 <= k < |walked|
    ensures IsMock(walked[k], first - k, today)
  {
    assert AnswersFrom(first, fetch, today)(k, walked[k]);
    var resp := fetch(first - k);
    assert resp.Failed?;
    assert Answers(walked[k], first - k, resp, today);
  }

  /**
   * Offline, a range that contains today is answered by the latest mock
   * and 500 walked mocks, all dated today and numbered 3000, 2999, ...:
   * every fetch falls back to a mock instead of throwing, so the
   * `generateMockRange` fallback of the outer `catch` is never reached.
   */
  lemma {:induction false} OfflineRange(results: seq<Draw>, latest: Draw, walked: seq<Draw>, start: JsDate, end: JsDate,
                                        latestResp: Response, fetch: int -> Response, today: Day)
    requires Offline(latestResp, fetch) && AnswersLatest(latest, latestResp, today)
    requires RangeFrom(results, latest, walked, start, end, fetch, today)
    requires 1000 <= today.year <= 9999
    requires Le(start, Some(today)) && Le(Some(today), end)
    ensures |results| == MaxDraws + 1
    ensures forall k :: 0 <= k < |results| ==> IsMock(results[k], 3000 - k, today)
  {
    assert LatestAnswers(latestResp, today)(latest);
    assert IsMock(latest, 0, today);
    MockKept(latest, 0, start, end, today);
    var first := latest.numero - 1;
    forall k | 0 <= k < |walked|
      ensures IsMock(walked[k], first - k, today) && KeptBy(start, end, today)(walked[k])
    {
      OfflineWalk(walked, first, fetch, today, k);
      MockKept(walked[k], first - k, start, end, today);
    }
    if |walked| > 0 {
      assert KeptBy(start, end, today)(walked[|walked| - 1]);
    }
    assert |walked| == MaxDraws;
    FilterAll(walked, KeptBy(start, end, today));
    assert results == [latest] + walked;
    forall k | 0 <= k < |results| ensures IsMock(results[k], 3000 - k, today) {
      if k > 0 {
        assert results[k] == walked[k - 1];
      }
    }
  }

  /** A mock is dated today, so a range holding today keeps it. */
  lemma MockKept(d: Draw, n: int, start: JsDate, end: JsDate, today: Day)
    requires IsMock(d, n, today) && 1000 <= today.year <= 9999
    requires Le(start, Some(today)) && Le(Some(today), end)
    ensures DrawDate(d, today) == Some(today)
    ensures !Lt(DrawDate(d, today), start) && Le(start, DrawDate(d, today)) && Le(DrawDate(d, today), end)
    ensures KeptBy(start, end, today)(d)
  {
    ParseFormat(today, today);
    assert DrawDate(d, today) == ParseDate(FormatDate(today), today);
  }

  /** A mock as `generateMockDraw(numero)` makes it, whatever its date. */
  predicate MockShape(m: Draw, numero: int) {
    m.numero == MockNumero(numero) && m.isMock && m.premiacoes.None? &&
    |m.numeros| == 15 && StrictlyAsc(m.numeros) && AllIn(m.numeros, 1, 25)
  }

  /**
   * The k-th mock of a range is numbered 3000 - k and dated with the k-th
   * kept day, which lies between start and end.
   */
  predicate RangeMocks(list: seq<Draw>, days: seq<Day>, start: JsDate, end: JsDate) {
    |list| == |days| &&
    forall k :: 0 <= k < |list| ==>
      Le(start, Some(days[k])) && Le(Some(days[k]), end) &&
      list[k].data == FormatDate(days[k]) && MockShape(list[k], 3000 - k)
  }

  /** Strictly decreasing days. */
  predicate Descending(days: seq<Day>) {
    forall k :: 0 <= k < |days| - 1 ==> Before(days[k + 1], days[k])
  }

  /** Every day of the list comes after c. */
  predicate AllAfter(days: seq<Day>, c: Date) {
    forall k :: 0 <= k < |days| ==> Before(c, days[k])
  }

  lemma RangeMocksSnoc(list: seq<Draw>, days: seq<Day>, m: Draw, day: Day, start: JsDate, end: JsDate)
    requires RangeMocks(list, days, start, end)
    requires Le(start, Some(day)) && Le(Some(day), end)
    requires m.data == FormatDate(day) && MockShape(m, 3000 - |list|)
    ensures RangeMocks(list + [m], days + [day], start, end)
  {
    forall k | 0 <= k < |list| + 1
      ensures Le(start, Some((days + [day])[k])) && Le(Some((days + [day])[k]), end) &&
        (list + [m])[k].data == FormatDate((days + [day])[k]) && MockShape((list + [m])[k], 3000 - k)
    {
      if k < |list| {
        assert (list + [m])[k] == list[k] && (days + [day])[k] == days[k];
      }
    }
  }

  lemma DescendingSnoc(days: seq<Day>, day: Day)
    requires Descending(days) && AllAfter(days, day)
    ensures Descending(days + [day]) && AllAfter(days + [day], PrevDay(day))
  {
    var ds := days + [day];
    forall k | 0 <= k < |ds| - 1 ensures Before(ds[k + 1], ds[k]) {
      assert ds[k] == days[k];
      if k + 1 < |days| {
        assert ds[k + 1] == days[k + 1];
      }
    }
    forall k | 0 <= k < |ds| ensures Before(PrevDay(day), ds[k]) {
      if k < |days| {
        assert ds[k] == days[k];
        IndexOrder(day, days[k]);
        IndexOrder(PrevDay(day), day);
        IndexOrder(PrevDay(day), days[k]);
      }
    }
  }

  /**
   * `generateMockRange(startStr, endStr)`: each day from end back to start
   * is kept when the coin comes up (`Math.random() > 0.2`); kept days get
   * mocks numbered 3000, 2999, ... dated with their own day.  The ghost
   * result lists the kept days.
   */
  method GenerateMockRange(start: JsDate, end: JsDate, today: Day) returns (list: seq<Draw>, ghost days: seq<Day>)
    ensures RangeMocks(list, days, start, end) && Descending(days)
    ensures start.Some? && end.Some? ==> |list| <= DayCount(start.value, end.value)
    ensures start.None? || end.None? ==> list == []
  {
    list := [];
    days := [];
    var current := end;
    var id := 3000;
    while Le(start, current)
      invariant end.None? ==> current.None?
      invariant start.None? || end.None? ==> list == []
      invariant start.Some? && end.Some? ==>
        current.Some? && |list| + DayCount(start.value, current.value) <= DayCount(start.value, end.value)
      invariant id == 3000 - |list|
      invariant RangeMocks(list, days, start, end) && Descending(days)
      invariant current.Some? ==> AllAfter(days, current.value)
      invariant current.Some? && end.Some? ==> Index(current.value) <= Index(end.value)
      decreases if start.Some? && current.Some? then Index(current.value) - Index(start.value) + 1 else 0
    {
      var day := current.value;
      var coin: bool :| true;
      if coin {
        var mock := GenerateMockDraw(id, today);
        id := id - 1;
        mock := mock.(data := FormatDate(day));
        RangeMocksSnoc(list, days, mock, day, start, end);
        DescendingSnoc(days, day);
        list := list + [mock];
        days := days + [day];
      }
      current := Some(PrevDay(day));
    }
  }
}
