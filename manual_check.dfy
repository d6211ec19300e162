/**
 * Manual checking (`ManualCheck`): the user types the 15 drawn numbers
 * into 15 boxes, optionally limits the games to a period of creation
 * dates, and every game in the period is checked against the typed
 * numbers, without a prize table.
 */
module ManualCheck {
  import opened Wrappers
  import opened Seqs
  import opened Text
  import opened Dates
  import opened GameLogic
  import opened LotofacilData

  // ---------------------------------------------------------------------
  // The typed numbers
  // ---------------------------------------------------------------------

  /** What a box may hold after `handleInputChange`: at most two digits. */
  predicate Slot(s: string) {
    |s| <= 2 && AllDigits(s)
  }

  /** `manualDraw.map(n => parseInt(n)).filter(n => !isNaN(n))`. */
  function Parsed(slots: seq<string>): (r: seq<int>)
    ensures |r| <= |slots|
  {
    if slots == [] then []
    else
      match ParseInt(slots[0])
      case Some(v) => [v] + Parsed(slots[1..])
      case None => Parsed(slots[1..])
  }

  /** A box parses to a number exactly when it is filled, and to a number below 100. */
  lemma SlotParses(s: string)
    requires Slot(s)
    ensures ParseInt(s).Some? <==> s != ""
    ensures ParseInt(s).Some? ==> 0 <= ParseInt(s).value < 100
  {
    if s != "" {
      ParseDigits(s);
      if |s| == 2 {
        assert DigitsValue(s) == DigitsValue(s[..1]) * 10 + DigitOf(s[1]);
      }
    } else {
      assert TrimStart(s) == "";
    }
  }

  /** The number of filled boxes. */
  function Filled(slots: seq<string>): nat {
    |Filter(slots, (s: string) => s != "")|
  }

  /** Every filled box contributes its number, every empty box nothing. */
  lemma {:induction false} ParsedFilled(slots: seq<string>)
    requires forall k :: 0 <= k < |slots| ==> Slot(slots[k])
    ensures |Parsed(slots)| == Filled(slots)
    ensures AllIn(Parsed(slots), 0, 99)
  {
    if slots != [] {
      SlotParses(slots[0]);
      ParsedFilled(slots[1..]);
    }
  }

  /** With 15 boxes, the check goes ahead exactly when every box is filled. */
  lemma FifteenIffAllFilled(slots: seq<string>)
    requires |slots| == 15 && forall k :: 0 <= k < 15 ==> Slot(slots[k])
    ensures |Parsed(slots)| == 15 <==> forall k :: 0 <= k < 15 ==> slots[k] != ""
  {
    ParsedFilled(slots);
    var p := (s: string) => s != "";
    if forall k :: 0 <= k < 15 ==> slots[k] != "" {
      FilterAll(slots, p);
    } else {
      var k :| 0 <= k < 15 && slots[k] == "";
      assert slots[k] !in Filter(slots, p);
      assert |Filter(slots, p)| != 15 by {
        if |Filter(slots, p)| == 15 {
          FilterFull(slots, p);
        }
      }
    }
  }

  /** Neither range nor repeats are checked: fifteen boxes of 99 go through. */
  lemma RangeNotChecked()
    ensures Parsed(seq(15, k => "99")) == seq(15, k => 99)
  {
    var slots := seq(15, k => "99");
    ParseDigits("99");
    assert DigitsValue("99") == 99 by {
      assert "99"[..1] == "9";
    }
    ParsedAll(slots, 99);
  }

  lemma {:induction false} ParsedAll(slots: seq<string>, v: int)
    requires forall k :: 0 <= k < |slots| ==> ParseInt(slots[k]) == Some(v)
    ensures Parsed(slots) == seq(|slots|, k => v)
  {
    if slots != [] {
      ParsedAll(slots[1..], v);
    }
  }

  // ---------------------------------------------------------------------
  // The period filter
  // ---------------------------------------------------------------------

  /** A day's milliseconds. */
  const MsPerDay := 86400000

  /** A `getTime()` result: a millisecond count, Infinity, or NaN. */
  datatype Instant = At(ms: int) | Infinity | NaN

  /**
   * `getStartOfDay(dateStr)`: 0 for an empty field, else the day's first
   * millisecond.  The field is read as a YYYY-MM-DD date; a date input only
   * ever holds such a text or nothing, and the roll-over of out-of-range
   * parts by `new Date(y, m - 1, d)` is not modelled.
   */
  function StartOfDay(dateStr: string): Instant {
    if dateStr == "" then At(0)
    else
      match DateInput(dateStr)
      case Some(d) => At(EpochDay(d) * MsPerDay)
      case None => NaN
  }

  /** `getEndOfDay(dateStr)`: Infinity for an empty field, else the day's last millisecond. */
  function EndOfDay(dateStr: string): Instant {
    if dateStr == "" then Infinity
    else
      match DateInput(dateStr)
      case Some(d) => At(EpochDay(d) * MsPerDay + MsPerDay - 1)
      case None => NaN
  }

  /** `t >= b` for a whole number t. */
  predicate AtLeast(t: int, b: Instant) {
    match b
    case At(x) => t >= x
    case Infinity => false
    case NaN => false
  }

  /** `t <= b` for a whole number t. */
  predicate AtMost(t: int, b: Instant) {
    match b
    case At(x) => t <= x
    case Infinity => true
    case NaN => false
  }

  /**
   * `parseInt(jogo.id)`: the decimal text of the timestamp cut at its
   * point, so the id truncated toward zero.
   */
  function GameTime(id: real): int {
    if id >= 0.0 then id.Floor else -((-id).Floor)
  }

  function InPeriod(start: Instant, end: Instant): Jogo -> bool {
    (jogo: Jogo) => AtLeast(GameTime(jogo.id), start) && AtMost(GameTime(jogo.id), end)
  }

  /** `gamescheck`: every game when both fields are empty, else the games created in the period. */
  function GamesInPeriod(jogos: seq<Jogo>, startDate: string, endDate: string): (r: seq<Jogo>)
    ensures |r| <= |jogos|
    ensures startDate == "" && endDate == "" ==> r == jogos
    ensures startDate != "" || endDate != "" ==> forall j: Jogo :: j in r <==>
      j in jogos && AtLeast(GameTime(j.id), StartOfDay(startDate)) && AtMost(GameTime(j.id), EndOfDay(endDate))
  {
    if startDate != "" || endDate != "" then Filter(jogos, InPeriod(StartOfDay(startDate), EndOfDay(endDate)))
    else jogos
  }

  /** The filter keeps the games in their order. */
  lemma GamesInPeriodOrder(a: seq<Jogo>, b: seq<Jogo>, startDate: string, endDate: string)
    ensures GamesInPeriod(a + b, startDate, endDate) == GamesInPeriod(a, startDate, endDate) + GamesInPeriod(b, startDate, endDate)
  {
    FilterConcat(a, b, InPeriod(StartOfDay(startDate), EndOfDay(endDate)));
  }

  /** A whole millisecond count lies in the day numbered n exactly when it divides down to n. */
  lemma DayOfTime(t: int, a: int, b: int)
    ensures t >= a * MsPerDay <==> t / MsPerDay >= a
    ensures t <= b * MsPerDay + MsPerDay - 1 <==> t / MsPerDay <= b
  {
    var q, r := t / MsPerDay, t % MsPerDay;
    assert t == q * MsPerDay + r && 0 <= r < MsPerDay;
    if q >= a {
      assert q * MsPerDay >= a * MsPerDay;
    } else {
      assert (q + 1) * MsPerDay <= a * MsPerDay;
    }
    if q <= b {
      assert q * MsPerDay <= b * MsPerDay;
    } else {
      assert q * MsPerDay >= (b + 1) * MsPerDay;
    }
  }

  /**
   * With both fields holding dates, a game is kept exactly when the
   * calendar day of its timestamp lies between them, both included.
   */
  lemma PeriodDays(jogo: Jogo, startDate: string, endDate: string, s: Day, e: Day, d: Day)
    requires DateInput(startDate) == Some(s) && DateInput(endDate) == Some(e)
    requires EpochDay(d) == GameTime(jogo.id) / MsPerDay
    ensures startDate != "" && endDate != ""
    ensures jogo in GamesInPeriod([jogo], startDate, endDate) <==> Index(s) <= Index(d) <= Index(e)
  {
    EmptyDateInput();
    DayOfTime(GameTime(jogo.id), EpochDay(s), EpochDay(e));
    EpochDayOrder(s, d);
    EpochDayOrder(d, e);
  }

  /** An empty start field keeps every game not dated before 1970; an empty end field has no limit. */
  lemma OpenEnds(t: int)
    ensures AtLeast(t, StartOfDay("")) <==> t >= 0
    ensures AtMost(t, EndOfDay(""))
  {
  }

  /**
   * A field whose text the model does not read as a YYYY-MM-DD date keeps
   * no game, as comparisons with NaN are false.  A date input never holds
   * such a text, so in the application this case does not arise.
   */
  lemma UnreadableField(jogos: seq<Jogo>, startDate: string, endDate: string)
    requires (startDate != "" && DateInput(startDate).None?) || (endDate != "" && DateInput(endDate).None?)
    ensures GamesInPeriod(jogos, startDate, endDate) == []
  {
    FilterNone(jogos, InPeriod(StartOfDay(startDate), EndOfDay(endDate)));
  }

  // ---------------------------------------------------------------------
  // Scoring and sorting
  // ---------------------------------------------------------------------

  /** `{...game, acertos, premio}` with no prize table. */
  function Conferir(numbers: seq<int>, jogo: Jogo): Conferencia {
    var acertos := CalcularAcertos(jogo.numeros, numbers);
    Conferencia(jogo, acertos, CalcularPremio(acertos, |jogo.numeros|, None))
  }

  /** `gamescheck.map(...)`. */
  function ConferirTodos(numbers: seq<int>, jogos: seq<Jogo>): (cs: seq<Conferencia>)
    ensures |cs| == |jogos|
    ensures forall k :: 0 <= k < |jogos| ==> cs[k] == Conferir(numbers, jogos[k])
  {
    if jogos == [] then [] else [Conferir(numbers, jogos[0])] + ConferirTodos(numbers, jogos[1..])
  }

  /** The comparator: more hits first, then the larger prize. */
  function HitsThenPrize(c: Conferencia): (int, int) {
    (c.acertos, c.premio)
  }

  /** The checks of `handleCheck`, sorted. */
  function Resultados(numbers: seq<int>, jogos: seq<Jogo>): (r: seq<Conferencia>)
    ensures |r| == |jogos|
    ensures multiset(r) == multiset(ConferirTodos(numbers, jogos))
    ensures SortedBy(r, HitsThenPrize)
  {
    SortBy(ConferirTodos(numbers, jogos), HitsThenPrize)
  }

  /** Every check is some game's, with that game's hits. */
  lemma ResultadoOfGame(numbers: seq<int>, jogos: seq<Jogo>, c: Conferencia)
    requires c in Resultados(numbers, jogos)
    ensures exists k :: 0 <= k < |jogos| && c == Conferir(numbers, jogos[k])
  {
    var cs := ConferirTodos(numbers, jogos);
    assert c in multiset(cs);
    var k :| 0 <= k < |cs| && cs[k] == c;
  }

  /**
   * Without a prize table only 11 to 13 hits pay: 14 and 15 hits score 0,
   * and the prize depends on the hits alone.
   */
  lemma ManualPrizes(numbers: seq<int>, jogos: seq<Jogo>)
    ensures forall c :: c in Resultados(numbers, jogos) ==> (c.premio > 0 <==> 11 <= c.acertos <= 13)
    ensures forall c :: c in Resultados(numbers, jogos) && c.acertos >= 14 ==> c.premio == 0
  {
    forall c | c in Resultados(numbers, jogos)
      ensures (c.premio > 0 <==> 11 <= c.acertos <= 13) && (c.acertos >= 14 ==> c.premio == 0)
    {
      ResultadoOfGame(numbers, jogos, c);
      var k :| 0 <= k < |jogos| && c == Conferir(numbers, jogos[k]);
      PremioWithoutTable(c.acertos, |jogos[k].numeros|);
    }
  }

  /** The prize never breaks a tie in the hits: equal hits mean equal prizes. */
  lemma SecondKeyIdle(numbers: seq<int>, jogos: seq<Jogo>, i: int, j: int)
    requires 0 <= i < |jogos| && 0 <= j < |jogos|
    requires Resultados(numbers, jogos)[i].acertos == Resultados(numbers, jogos)[j].acertos
    ensures Resultados(numbers, jogos)[i].premio == Resultados(numbers, jogos)[j].premio
  {
    var r := Resultados(numbers, jogos);
    assert r[i] in r && r[j] in r;
    ResultadoOfGame(numbers, jogos, r[i]);
    ResultadoOfGame(numbers, jogos, r[j]);
  }

  /** The sort is stable: checks equal in both keys keep the games' order. */
  lemma ResultadosStable(numbers: seq<int>, jogos: seq<Jogo>, key: (int, int))
    ensures WithKey(Resultados(numbers, jogos), HitsThenPrize, key) ==
      WithKey(ConferirTodos(numbers, jogos), HitsThenPrize, key)
  {
    SortStable(ConferirTodos(numbers, jogos), HitsThenPrize, key);
  }

  // ---------------------------------------------------------------------
  // The component's state
  // ---------------------------------------------------------------------

  class ManualCheckView {
    var manualDraw: seq<string>
    var checkResult: Option<seq<Conferencia>>
    var startDate: string
    var endDate: string

    /** Fifteen boxes, each empty or up to two digits. */
    predicate Valid()
      reads this
    {
      |manualDraw| == 15 && forall k :: 0 <= k < 15 ==> Slot(manualDraw[k])
    }

    /** `Array(15).fill('')`, no result and both date fields empty. */
    constructor()
      ensures manualDraw == seq(15, k => "") && checkResult == None
      ensures startDate == "" && endDate == ""
      ensures Valid()
    {
      manualDraw := seq(15, k => "");
      checkResult := None;
      startDate := "";
      endDate := "";
    }

    /**
     * `handleInputChange(index, value)`: the digits of the value replace
     * the box's contents, unless there are more than two of them.
     */
    method HandleInputChange(index: int, value: string)
      requires 0 <= index < |manualDraw|
      modifies this
      ensures |OnlyDigits(value)| > 2 ==> manualDraw == old(manualDraw)
      ensures |OnlyDigits(value)| <= 2 ==> manualDraw == old(manualDraw)[index := OnlyDigits(value)]
      ensures old(Valid()) ==> Valid()
      ensures checkResult == old(checkResult) && startDate == old(startDate) && endDate == old(endDate)
    {
      var newValue := OnlyDigits(value);
      if |newValue| > 2 {
        return;
      }
      manualDraw := manualDraw[index := newValue];
    }

    /**
     * `handleCheck(jogos)`: with 15 typed numbers and at least one game
     * in the period, the sorted checks are shown; otherwise nothing changes.
     */
    method HandleCheck(jogos: seq<Jogo>)
      modifies this
      ensures manualDraw == old(manualDraw) && startDate == old(startDate) && endDate == old(endDate)
      ensures var numbers := Parsed(manualDraw);
        var games := GamesInPeriod(jogos, startDate, endDate);
        if |numbers| != 15 || games == [] then checkResult == old(checkResult)
        else checkResult == Some(Resultados(numbers, games))
    {
      var numbers := Parsed(manualDraw);
      if |numbers| != 15 {
        return;
      }
      var gamescheck := GamesInPeriod(jogos, startDate, endDate);
      if gamescheck == [] {
        return;
      }
      checkResult := Some(Resultados(numbers, gamescheck));
    }

    /** `clearInputs`: empty boxes and no result. */
    method ClearInputs()
      modifies this
      ensures manualDraw == seq(15, k => "") && checkResult == None
      ensures Valid()
      ensures startDate == old(startDate) && endDate == old(endDate)
    {
      manualDraw := seq(15, k => "");
      checkResult := None;
    }
  }
}
