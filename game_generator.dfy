/**
 * The generator form (`GameGenerator`): the fixed numbers typed as a
 * comma-separated list are read, a list longer than the game is refused,
 * and otherwise the requested number of games is generated and stored.
 */
module GameGenerator {
  import opened Wrappers
  import opened Seqs
  import opened Text
  import opened NumberList
  import opened GameLogic
  import opened LotofacilData
  import opened Backup

  /** The game sizes the form offers. */
  const SizeOptions: seq<int> := [15, 16, 17, 18]

  /** Every size offered is one the backup import accepts. */
  lemma SizeOptionsImportable()
    ensures forall n :: n in SizeOptions ==> 15 <= n <= 20
  {
  }

  /**
   * `fixos`: nothing for a blank field, otherwise the numbers in 1..25 of
   * the comma-separated list, repeats and order as typed.
   */
  function Fixos(fixedNumbers: string): (r: seq<int>)
    ensures AllIn(r, 1, 25)
  {
    if Trim(fixedNumbers) == "" then [] else ParseNumbers(fixedNumbers)
  }

  /** A field whose trimmed text is empty is all white space. */
  lemma {:induction false} TrimStartEmpty(s: string)
    requires TrimStart(s) == ""
    ensures forall i :: 0 <= i < |s| ==> IsSpace(s[i])
  {
    if s != [] {
      assert IsSpace(s[0]);
      assert TrimStart(s[1..]) == "";
      TrimStartEmpty(s[1..]);
      forall i | 0 < i < |s| ensures IsSpace(s[i]) {
        assert s[i] == s[1..][i - 1];
      }
    }
  }

  /** Trimming the end of a text that starts with a visible character leaves that character. */
  lemma {:induction false} TrimEndKeepsFirst(t: string)
    requires t != [] && !IsSpace(t[0])
    ensures TrimEnd(t) != []
    decreases |t|
  {
    if IsSpace(t[|t| - 1]) {
      TrimEndKeepsFirst(t[..|t| - 1]);
    }
  }

  /**
   * Reading a blank field as a list gives no number either, so the
   * blank-field test changes nothing: the fixed numbers are always the
   * numbers of the list.
   */
  lemma FixosAreListed(fixedNumbers: string)
    ensures Fixos(fixedNumbers) == ParseNumbers(fixedNumbers)
  {
    if Trim(fixedNumbers) == "" {
      var t := TrimStart(fixedNumbers);
      if t != [] {
        TrimEndKeepsFirst(t);
      }
      TrimStartEmpty(fixedNumbers);
      assert ',' !in fixedNumbers by {
        forall i | 0 <= i < |fixedNumbers| ensures fixedNumbers[i] != ',' {
          assert IsSpace(fixedNumbers[i]);
        }
      }
      SplitNoSep(fixedNumbers, ',');
      assert TrimStart(fixedNumbers) == "";
      assert ParseEach([fixedNumbers]) == [ParseInt(Trim(fixedNumbers))];
      assert ParseInt("") == None;
    }
  }

  /** Repeated fixed numbers are kept: a number typed twice ("5,5") is fixed twice. */
  lemma FixosKeepRepeats(p: string)
    requires |p| > 0 && AllDigits(p) && 1 <= DigitsValue(p) <= 25
    ensures Fixos(p + [','] + p) == [DigitsValue(p), DigitsValue(p)]
  {
    FixosAreListed(p + [','] + p);
    RepeatedListed(p);
  }

  /** A number typed twice reads as that number twice. */
  lemma RepeatedListed(p: string)
    requires |p| > 0 && AllDigits(p) && 1 <= DigitsValue(p) <= 25
    ensures ParseNumbers(p + [','] + p) == [DigitsValue(p), DigitsValue(p)]
  {
    var v := DigitsValue(p);
    var vs := [Some(v), Some(v)];
    RepeatedValues(p);
    TwiceKept(v);
    NumbersOf(p + [','] + p, vs);
  }

  lemma TwiceKept(v: int)
    requires 1 <= v <= 25
    ensures KeepInRange([Some(v), Some(v)]) == [v, v]
  {
    KeepAllInRange([Some(v), Some(v)], [v, v]);
  }

  /** The numbers of a list are those kept from its values. */
  lemma NumbersOf(s: string, vs: seq<Option<int>>)
    requires ParseEach(Split(s, ',')) == vs
    ensures ParseNumbers(s) == KeepInRange(vs)
  {
  }

  lemma RepeatedValues(p: string)
    requires |p| > 0 && AllDigits(p)
    ensures ParseEach(Split(p + [','] + p, ',')) == [Some(DigitsValue(p)), Some(DigitsValue(p))]
  {
    var ts := Split(p + [','] + p, ',');
    RepeatedSplit(p);
    ValueParses(p);
    PairValues(ts, Some(DigitsValue(p)));
  }

  lemma PairValues(ts: seq<string>, v: Option<int>)
    requires |ts| == 2 && ParseInt(Trim(ts[0])) == v && ParseInt(Trim(ts[1])) == v
    ensures ParseEach(ts) == [v, v]
  {
    var vs := ParseEach(ts);
    assert |vs| == 2 && vs[0] == v && vs[1] == v;
  }

  lemma RepeatedSplit(p: string)
    requires AllDigits(p)
    ensures Split(p + [','] + p, ',') == [p, p]
  {
    assert ',' !in p by {
      forall i | 0 <= i < |p| ensures p[i] != ',' {
        assert IsDigit(p[i]);
      }
    }
    SplitAt(p, ',', p);
    SplitNoSep(p, ',');
  }

  lemma ValueParses(p: string)
    requires |p| > 0 && AllDigits(p)
    ensures ParseInt(Trim(p)) == Some(DigitsValue(p))
  {
    TrimDigits(p, "");
    assert "" + p == p;
    ParseDigits(p);
  }

  /** The form refuses to generate: the list is not blank and longer than a game. */
  predicate Refused(fixedNumbers: string, numPerGame: int) {
    Trim(fixedNumbers) != "" && |Fixos(fixedNumbers)| > numPerGame
  }

  /** The k-th stored game is a game generated with the form's settings, as the form tags it. */
  function GeneratedWith(numPerGame: int, fixos: seq<int>, estrategia: string): (int, Jogo) -> bool {
    (k: int, j: Jogo) =>
      IsGenerated(numPerGame, fixos, estrategia, j.numeros) &&
      j.tipo.None? && j.config == Some(GameConfig(numPerGame, fixos, estrategia))
  }

  /**
   * `handleGenerate`: a refused list adds nothing; otherwise `numGames`
   * games (none when it is not positive) are generated one after the
   * other and appended to the stored games.  Ids and creation times come
   * from the clock and are chosen freely.  The ghost result lists the
   * games added.
   */
  method HandleGenerate(store: Store, numGames: int, numPerGame: int, fixedNumbers: string, estrategia: string)
    returns (ghost added: seq<Jogo>)
    modifies store
    ensures Refused(fixedNumbers, numPerGame) ==> store.jogos == old(store.jogos) && added == []
    ensures !Refused(fixedNumbers, numPerGame) ==>
      store.jogos == old(store.jogos) + added &&
      |added| == (if numGames > 0 then numGames else 0) &&
      Every(added, GeneratedWith(numPerGame, Fixos(fixedNumbers), estrategia))
    ensures store.resultados == old(store.resultados) && store.ultimosSorteios == old(store.ultimosSorteios)
  {
    added := [];
    var fixos: seq<int> := [];
    if Trim(fixedNumbers) != "" {
      fixos := ParseNumbers(fixedNumbers);
      if |fixos| > numPerGame {
        return;
      }
    }
    assert fixos == Fixos(fixedNumbers);
    added := GenerateInto(store, numGames, numPerGame, fixos, estrategia);
  }

  /** The loop of `handleGenerate`: numGames games generated and appended one by one. */
  method GenerateInto(store: Store, numGames: int, numPerGame: int, fixos: seq<int>, estrategia: string)
    returns (ghost added: seq<Jogo>)
    modifies store
    ensures store.jogos == old(store.jogos) + added
    ensures |added| == (if numGames > 0 then numGames else 0)
    ensures Every(added, GeneratedWith(numPerGame, fixos, estrategia))
    ensures store.resultados == old(store.resultados) && store.ultimosSorteios == old(store.ultimosSorteios)
  {
    added := [];
    var i := 0;
    while i < numGames
      invariant 0 <= i <= (if numGames > 0 then numGames else 0)
      invariant |added| == i
      invariant store.jogos == old(store.jogos) + added
      invariant Every(added, GeneratedWith(numPerGame, fixos, estrategia))
      invariant store.resultados == old(store.resultados) && store.ultimosSorteios == old(store.ultimosSorteios)
    {
      var nums := GenerateGame(numPerGame, fixos, estrategia);
      var id: real :| true;
      var jogo := Jogo(id, nums, None, Some(GameConfig(numPerGame, fixos, estrategia)));
      store.AddJogo(jogo);
      EverySnoc(added, jogo, GeneratedWith(numPerGame, fixos, estrategia));
      ConcatAssoc(old(store.jogos), added, [jogo]);
      added := added + [jogo];
      i := i + 1;
    }
  }

  /**
   * A game generated by any strategy but 'poles-impares' from fixed
   * numbers in 1..25 without repeats, no more than the size asked for,
   * has exactly that many distinct numbers of 1..25, in increasing order.
   */
  lemma GeneratedFull(numPerGame: int, fixos: seq<int>, estrategia: string, game: seq<int>)
    requires IsGenerated(numPerGame, fixos, estrategia, game)
    requires StrategyOf(estrategia) != PolesImpares
    requires Distinct(fixos) && AllIn(fixos, 1, 25) && |fixos| <= numPerGame <= 25
    ensures |game| == numPerGame && Distinct(game) && AllIn(game, 1, 25) && StrictlyAsc(game)
  {
  }

  /** Unless refused, the list is no longer than a game of a size the form offers. */
  lemma AcceptedFits(fixedNumbers: string, numPerGame: int)
    requires !Refused(fixedNumbers, numPerGame) && numPerGame >= 0
    ensures |Fixos(fixedNumbers)| <= numPerGame
  {
  }

  /**
   * A game the form generates from a list without repeats, at a size the
   * form offers and by any strategy but 'poles-impares', has that many
   * distinct numbers in 1..25 and survives the backup export and import.
   */
  lemma GeneratedExportable(numPerGame: int, fixedNumbers: string, estrategia: string, j: Jogo)
    requires numPerGame in SizeOptions && !Refused(fixedNumbers, numPerGame)
    requires Distinct(Fixos(fixedNumbers)) && StrategyOf(estrategia) != PolesImpares
    requires GeneratedWith(numPerGame, Fixos(fixedNumbers), estrategia)(0, j)
    ensures |j.numeros| == numPerGame && Distinct(j.numeros) && AllIn(j.numeros, 1, 25)
    ensures Exportable(j)
    ensures ImportLine(GameLine(0, j)) == Some(j.numeros)
  {
    var fixos := Fixos(fixedNumbers);
    SizeOptionsImportable();
    assert 15 <= numPerGame <= 20;
    AcceptedFits(fixedNumbers, numPerGame);
    GeneratedWithUnpack(numPerGame, fixos, estrategia, j);
    GeneratedExportableWith(numPerGame, fixos, estrategia, j);
  }

  lemma GeneratedWithUnpack(numPerGame: int, fixos: seq<int>, estrategia: string, j: Jogo)
    requires GeneratedWith(numPerGame, fixos, estrategia)(0, j)
    ensures IsGenerated(numPerGame, fixos, estrategia, j.numeros) && j.tipo.None?
  {
  }

  lemma GeneratedExportableWith(numPerGame: int, fixos: seq<int>, estrategia: string, j: Jogo)
    requires 15 <= numPerGame <= 20 && |fixos| <= numPerGame && AllIn(fixos, 1, 25)
    requires Distinct(fixos) && StrategyOf(estrategia) != PolesImpares
    requires IsGenerated(numPerGame, fixos, estrategia, j.numeros) && j.tipo.None?
    ensures |j.numeros| == numPerGame && Distinct(j.numeros) && AllIn(j.numeros, 1, 25)
    ensures Exportable(j)
    ensures ImportLine(GameLine(0, j)) == Some(j.numeros)
  {
    GeneratedFull(numPerGame, fixos, estrategia, j.numeros);
    UntaggedExportable(j);
    AscendingLineImports(j);
  }

  /** A game without a type is exported as 'Gerado', on one line. */
  lemma UntaggedExportable(j: Jogo)
    requires AllIn(j.numeros, 1, 25) && 15 <= |j.numeros| <= 20 && j.tipo.None?
    ensures Exportable(j)
  {
    assert TipoLabel(j.tipo) == "Gerado";
  }

  /** The line of a game already strictly increasing reads back as its numbers. */
  lemma AscendingLineImports(j: Jogo)
    requires StrictlyAsc(j.numeros) && AllIn(j.numeros, 1, 25) && 15 <= |j.numeros| <= 20
    ensures ImportLine(GameLine(0, j)) == Some(j.numeros)
  {
    GameLineImports(0, j);
    SortAscOfSorted(j.numeros);
  }
}
