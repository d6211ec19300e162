/**
 * The text backup (`handleExport` and `handleFileImport` in App.jsx).
 * The export writes a header, one line per stored game and a block per
 * stored result; the import reads every line that holds a bracketed
 * list of 15 to 20 numbers in 1..25 back as a game.  The clock's
 * `toLocaleString` text is the parameter `stamp`; the file and browser
 * plumbing around both is not modelled.
 */
module Backup {
  import opened Wrappers
  import opened Seqs
  import opened Text
  import opened NumberList
  import opened LotofacilData

  // ---------------------------------------------------------------------
  // Text made of lines
  // ---------------------------------------------------------------------

  /** Every line followed by '\n'. */
  function Lines(ls: seq<string>): string {
    if ls == [] then "" else ls[0] + "\n" + Lines(ls[1..])
  }

  lemma {:induction false} LinesConcat(a: seq<string>, b: seq<string>)
    ensures Lines(a + b) == Lines(a) + Lines(b)
  {
    if a != [] {
      assert (a + b)[0] == a[0] && (a + b)[1..] == a[1..] + b;
      LinesConcat(a[1..], b);
    } else {
      assert a + b == b;
    }
  }

  lemma LinesOne(l: string)
    ensures Lines([l]) == l + "\n"
  {
    assert [l][1..] == [];
  }

  /** `text.split('\n')` on text made of whole lines gives the lines and a last empty piece. */
  lemma {:induction false} SplitLines(ls: seq<string>)
    requires forall k :: 0 <= k < |ls| ==> '\n' !in ls[k]
    ensures Split(Lines(ls), '\n') == ls + [""]
  {
    if ls == [] {
      assert Split("", '\n') == [""];
    } else {
      SplitLines(ls[1..]);
      SplitFirstLine(ls[0], ls[1..]);
      assert ls == [ls[0]] + ls[1..];
      ConcatAssoc([ls[0]], ls[1..], [""]);
    }
  }

  lemma SplitFirstLine(h: string, t: seq<string>)
    requires '\n' !in h
    ensures Split(Lines([h] + t), '\n') == [h] + Split(Lines(t), '\n')
  {
    assert ([h] + t)[0] == h && ([h] + t)[1..] == t;
    assert Lines([h] + t) == h + ['\n'] + Lines(t);
    SplitAt(h, '\n', Lines(t));
  }

  // ---------------------------------------------------------------------
  // Export
  // ---------------------------------------------------------------------

  /** `jogo.tipo || 'Gerado'`: a missing or empty type reads 'Gerado'. */
  function TipoLabel(tipo: Option<string>): (s: string)
    ensures s != ""
  {
    if tipo.Some? && tipo.value != "" then tipo.value else "Gerado"
  }

  /** A line with a list of numbers in brackets, between two texts. */
  function BracketLine(pre: string, ns: seq<int>, post: string): string {
    pre + "[" + FormatNumeros(ns) + "]" + post
  }

  /** `Jogo ${index + 1}: [${nums}] (${jogo.tipo || 'Gerado'})`. */
  function GameLine(index: nat, jogo: Jogo): string {
    BracketLine("Jogo " + IntToString(index + 1) + ": ", jogo.numeros, " (" + TipoLabel(jogo.tipo) + ")")
  }

  /** The game lines, numbered from 1. */
  function GameLines(jogos: seq<Jogo>): (r: seq<string>)
    ensures |r| == |jogos|
  {
    if jogos == [] then []
    else GameLines(jogos[..|jogos| - 1]) + [GameLine(|jogos| - 1, jogos[|jogos| - 1])]
  }

  lemma {:induction false} GameLinesAt(jogos: seq<Jogo>, k: nat)
    requires k < |jogos|
    ensures GameLines(jogos)[k] == GameLine(k, jogos[k])
  {
    var n := |jogos| - 1;
    if k < n {
      GameLinesAt(jogos[..n], k);
    }
  }

  /** `value.toFixed(2)` of an amount in centavos. */
  function MoneyText(centavos: int): (s: string)
    decreases if centavos < 0 then 1 else 0
  {
    if centavos < 0 then "-" + MoneyText(-centavos)
    else IntToString(centavos / 100) + "." + Pad2(centavos % 100)
  }

  /** `String(n)` over a list. */
  function IntStrings(ns: seq<int>): (r: seq<string>)
    ensures |r| == |ns|
    ensures forall k :: 0 <= k < |ns| ==> r[k] == IntToString(ns[k])
  {
    if ns == [] then [] else [IntToString(ns[0])] + IntStrings(ns[1..])
  }

  function ConcursoLine(r: Resultado): string {
    "Concurso: " + IntToString(r.concurso) + " | Data: " + r.data
  }

  function SorteadosLine(r: Resultado): string {
    "Sorteados: " + Join(IntStrings(r.numerosSorteados), ", ")
  }

  function PremiadosLine(r: Resultado): string {
    ">> Jogos Premiados: " + IntToString(r.jogosPremiados) + " | Total Ganho: R$ " + MoneyText(r.totalPremio)
  }

  /** The four lines written for one stored result (the first is blank). */
  function ResultBlock(r: Resultado): seq<string> {
    ["", ConcursoLine(r), SorteadosLine(r), PremiadosLine(r)]
  }

  function ResultLines(rs: seq<Resultado>): seq<string> {
    if rs == [] then [] else ResultLines(rs[..|rs| - 1]) + ResultBlock(rs[|rs| - 1])
  }

  function GamesHeading(n: int): string {
    "--- MEUS JOGOS GERADOS (" + IntToString(n) + ") ---"
  }

  function ResultsHeading(n: int): string {
    "--- HIST\U{00D3}RICO DE CONFER\U{00CA}NCIAS (" + IntToString(n) + ") ---"
  }

  const Title := "=== BACKUP LOTOF\U{00C1}CIL ==="

  function HeaderLines(stamp: string, numJogos: int): seq<string> {
    [Title, "Data: " + stamp, "", GamesHeading(numJogos)]
  }

  /** The backup's lines: header, games, results heading, result blocks. */
  function BackupLines(jogos: seq<Jogo>, rs: seq<Resultado>, stamp: string): seq<string> {
    HeaderLines(stamp, |jogos|) + GameLines(jogos) + ["", ResultsHeading(|rs|)] + ResultLines(rs)
  }

  lemma SnocLine(ls: seq<string>, l: string)
    ensures Lines(ls + [l]) == Lines(ls) + l + "\n"
  {
    LinesConcat(ls, [l]);
    LinesOne(l);
  }

  /** Adding a line to text that already starts with `before`. */
  lemma AppendLine(before: string, ls: seq<string>, l: string)
    ensures before + Lines(ls + [l]) == before + Lines(ls) + l + "\n"
  {
    SnocLine(ls, l);
  }

  lemma HeaderText(stamp: string, n: int)
    ensures Lines(HeaderLines(stamp, n)) == Title + "\n" + "Data: " + stamp + "\n\n" + GamesHeading(n) + "\n"
  {
    var h := HeaderLines(stamp, n);
    assert h == [h[0], h[1], h[2]] + [h[3]];
    assert [h[0], h[1], h[2]] == [h[0], h[1]] + [h[2]];
    assert [h[0], h[1]] == [h[0]] + [h[1]];
    LinesOne(h[0]);
    SnocLine([h[0]], h[1]);
    SnocLine([h[0], h[1]], h[2]);
    SnocLine([h[0], h[1], h[2]], h[3]);
    assert "\n\n" == "\n" + "" + "\n";
  }

  /** Adding a result block to text that already starts with `before`. */
  lemma AppendBlock(before: string, ls: seq<string>, a: string, b: string, c: string)
    ensures before + Lines(ls + ["", a, b, c]) == before + Lines(ls) + "\n" + a + "\n" + b + "\n" + c + "\n"
  {
    assert ls + ["", a, b, c] == ls + [""] + [a] + [b] + [c];
    SnocLine(ls, "");
    SnocLine(ls + [""], a);
    SnocLine(ls + [""] + [a], b);
    SnocLine(ls + [""] + [a] + [b], c);
  }

  lemma MiddleText(heading: string)
    ensures Lines(["", heading]) == "\n" + heading + "\n"
  {
    assert ["", heading][1..] == [heading];
    LinesOne(heading);
  }

  /** Appending a three-piece string in three steps. */
  lemma AppendThree(a: string, b: string, c: string, d: string)
    ensures a + b + c + d == a + (b + c + d)
  {
  }

  /** The backup text is the text of its four parts. */
  lemma BackupText(jogos: seq<Jogo>, rs: seq<Resultado>, stamp: string)
    ensures Lines(BackupLines(jogos, rs, stamp)) ==
      Lines(HeaderLines(stamp, |jogos|)) + Lines(GameLines(jogos)) +
      Lines(["", ResultsHeading(|rs|)]) + Lines(ResultLines(rs))
  {
    var h, g, m, r := HeaderLines(stamp, |jogos|), GameLines(jogos), ["", ResultsHeading(|rs|)], ResultLines(rs);
    LinesConcat(h + g + m, r);
    LinesConcat(h + g, m);
    LinesConcat(h, g);
  }

  /**
   * `handleExport`: the content string, accumulated piece by piece as the
   * source does, is the backup's lines each ended by '\n'.
   */
  method HandleExport(store: Store, stamp: string) returns (content: string)
    ensures content == Lines(BackupLines(store.jogos, store.resultados, stamp))
  {
    var jogos := store.jogos;
    var rs := store.resultados;
    content := Title + "\n";
    content := content + "Data: " + stamp + "\n\n";
    content := content + GamesHeading(|jogos|) + "\n";
    HeaderText(stamp, |jogos|);
    content := AppendGames(content, jogos);
    var heading := ResultsHeading(|rs|);
    ghost var front := content;
    content := content + "\n" + heading + "\n";
    MiddleText(heading);
    AppendThree(front, "\n", heading, "\n");
    content := AppendResults(content, rs);
    BackupText(jogos, rs, stamp);
  }

  /** The `jogos.forEach` of the export: one line per game. */
  method AppendGames(before: string, jogos: seq<Jogo>) returns (content: string)
    ensures content == before + Lines(GameLines(jogos))
  {
    content := before;
    var i := 0;
    while i < |jogos|
      invariant 0 <= i <= |jogos|
      invariant content == before + Lines(GameLines(jogos[..i]))
    {
      var line := GameLine(i, jogos[i]);
      assert jogos[..i + 1][..i] == jogos[..i];
      AppendLine(before, GameLines(jogos[..i]), line);
      content := content + line + "\n";
      i := i + 1;
    }
    assert jogos[..i] == jogos;
  }

  /** The `resultados.forEach` of the export: one block per stored result. */
  method AppendResults(before: string, rs: seq<Resultado>) returns (content: string)
    ensures content == before + Lines(ResultLines(rs))
  {
    content := before;
    var j := 0;
    while j < |rs|
      invariant 0 <= j <= |rs|
      invariant content == before + Lines(ResultLines(rs[..j]))
    {
      var r := rs[j];
      ghost var done := ResultLines(rs[..j]);
      var concurso, sorteados, premiados := ConcursoLine(r), SorteadosLine(r), PremiadosLine(r);
      assert ResultLines(rs[..j + 1]) == done + ["", concurso, sorteados, premiados] by {
        assert rs[..j + 1][..j] == rs[..j];
      }
      AppendBlock(before, done, concurso, sorteados, premiados);
      content := content + "\n" + concurso + "\n";
      content := content + sorteados + "\n";
      content := content + premiados + "\n";
      j := j + 1;
    }
    assert rs[..j] == rs;
  }

  // ---------------------------------------------------------------------
  // Import
  // ---------------------------------------------------------------------

  /** The characters the regular-expression dot does not match. */
  predicate IsLineTerminator(c: char) {
    c == '\n' || c == '\r' || c == '\U{2028}' || c == '\U{2029}'
  }

  predicate NoTerminator(s: string) {
    forall i :: 0 <= i < |s| ==> !IsLineTerminator(s[i])
  }

  /**
   * The lazy group `(.*?)\]` tried right after a '[': the text up to the
   * first ']', unless a line terminator comes before it.
   */
  function CloseBracket(s: string): (r: Option<string>)
    ensures r.Some? ==> |r.value| < |s| && s[..|r.value|] == r.value && s[|r.value|] == ']'
    ensures r.Some? ==> ']' !in r.value && NoTerminator(r.value)
  {
    if s == [] then None
    else if s[0] == ']' then Some("")
    else if IsLineTerminator(s[0]) then None
    else
      match CloseBracket(s[1..])
      case None => None
      case Some(t) =>
        assert s[..|t| + 1] == [s[0]] + s[1..][..|t|];
        Some([s[0]] + t)
  }

  /** `line.match(/\[(.*?)\]/)` and its group: the leftmost '[' whose group closes. */
  function FirstBracket(s: string): (r: Option<string>)
    ensures '[' !in s ==> r.None?
    ensures r.Some? ==> ']' !in r.value && NoTerminator(r.value)
  {
    if s == [] then None
    else if s[0] == '[' && CloseBracket(s[1..]).Some? then CloseBracket(s[1..])
    else FirstBracket(s[1..])
  }

  lemma {:induction false} CloseBracketOf(body: string, post: string)
    requires ']' !in body && NoTerminator(body)
    ensures CloseBracket(body + "]" + post) == Some(body)
  {
    if body == [] {
      assert body + "]" + post == [']'] + post;
    } else {
      assert (body + "]" + post)[1..] == body[1..] + "]" + post;
      assert (body + "]" + post)[0] == body[0];
      CloseBracketOf(body[1..], post);
      assert [body[0]] + body[1..] == body;
    }
  }

  /** The first bracketed group of a line whose text before it has no '['. */
  lemma {:induction false} FirstBracketOf(pre: string, body: string, post: string)
    requires '[' !in pre && ']' !in body && NoTerminator(body)
    ensures FirstBracket(pre + "[" + body + "]" + post) == Some(body)
  {
    if pre == [] {
      var s := "[" + body + "]" + post;
      assert s == pre + "[" + body + "]" + post;
      assert s[1..] == body + "]" + post;
      CloseBracketOf(body, post);
    } else {
      var s := pre + "[" + body + "]" + post;
      assert s[0] == pre[0] && s[0] != '[';
      assert s[1..] == pre[1..] + "[" + body + "]" + post;
      FirstBracketOf(pre[1..], body, post);
    }
  }

  /**
   * One imported line: the group must be non-empty, and the numbers read
   * from it are kept when there are 15 to 20 of them, sorted ascending.
   */
  function ImportLine(line: string): (r: Option<seq<int>>)
    ensures r.Some? ==> 15 <= |r.value| <= 20 && SortedAsc(r.value) && AllIn(r.value, 1, 25)
    ensures '[' !in line ==> r.None?
  {
    var m := FirstBracket(line);
    if m.Some? && m.value != "" then AcceptNumbers(m.value) else None
  }

  /** The numbers of a group, sorted ascending, when there are 15 to 20 of them. */
  function AcceptNumbers(group: string): (r: Option<seq<int>>)
    ensures r.Some? ==> 15 <= |r.value| <= 20 && SortedAsc(r.value) && AllIn(r.value, 1, 25)
    ensures r.Some? <==> 15 <= |ParseNumbers(group)| <= 20
  {
    var numeros := ParseNumbers(group);
    if 15 <= |numeros| <= 20 then
      SortAscIn(numeros, 1, 25);
      Some(SortAsc(numeros))
    else None
  }

  /** The values a partial reading accepts, one per line it accepts, in line order. */
  function Collect<T>(lines: seq<string>, f: string -> Option<T>): (r: seq<T>)
    ensures |r| <= |lines|
  {
    if lines == [] then []
    else (if f(lines[0]).Some? then [f(lines[0]).value] else []) + Collect(lines[1..], f)
  }

  lemma {:induction false} CollectConcat<T>(a: seq<string>, b: seq<string>, f: string -> Option<T>)
    ensures Collect(a + b, f) == Collect(a, f) + Collect(b, f)
  {
    if a != [] {
      assert (a + b)[0] == a[0] && (a + b)[1..] == a[1..] + b;
      CollectConcat(a[1..], b, f);
    } else {
      assert a + b == b;
    }
  }

  lemma {:induction false} CollectNone<T>(lines: seq<string>, f: string -> Option<T>)
    requires forall k :: 0 <= k < |lines| ==> f(lines[k]).None?
    ensures Collect(lines, f) == []
  {
    if lines != [] {
      CollectNone(lines[1..], f);
    }
  }

  lemma {:induction false} CollectEach<T>(lines: seq<string>, vs: seq<T>, f: string -> Option<T>)
    requires |lines| == |vs|
    requires forall k :: 0 <= k < |lines| ==> f(lines[k]) == Some(vs[k])
    ensures Collect(lines, f) == vs
  {
    if lines != [] {
      CollectEach(lines[1..], vs[1..], f);
    }
  }

  lemma CollectOne<T>(line: string, f: string -> Option<T>)
    ensures Collect([line], f) == if f(line).Some? then [f(line).value] else []
  {
    assert [line][1..] == [];
  }

  /** The games an import reads, one per accepted line, in line order. */
  function ImportedGames(lines: seq<string>): (r: seq<seq<int>>)
    ensures |r| <= |lines|
  {
    Collect(lines, ImportLine)
  }

  lemma ImportedGamesConcat(a: seq<string>, b: seq<string>)
    ensures ImportedGames(a + b) == ImportedGames(a) + ImportedGames(b)
  {
    CollectConcat(a, b, ImportLine);
  }

  /** Lines without '[' import nothing. */
  lemma ImportedNone(lines: seq<string>)
    requires forall k :: 0 <= k < |lines| ==> '[' !in lines[k]
    ensures ImportedGames(lines) == []
  {
    CollectNone(lines, ImportLine);
  }

  /** Lines each importing a game import those games in order. */
  lemma ImportedEach(lines: seq<string>, games: seq<seq<int>>)
    requires |lines| == |games|
    requires forall k :: 0 <= k < |lines| ==> ImportLine(lines[k]) == Some(games[k])
    ensures ImportedGames(lines) == games
  {
    CollectEach(lines, games, ImportLine);
  }

  /** The games an import added: one per number list it read, typed 'Importado'. */
  predicate AddedAs(added: seq<Jogo>, games: seq<seq<int>>) {
    |added| == |games| && Every(added, ImportedFrom(games))
  }

  /** The k-th added game holds the k-th list read and is typed 'Importado'. */
  function ImportedFrom(games: seq<seq<int>>): (int, Jogo) -> bool {
    (k: int, j: Jogo) =>
      0 <= k < |games| && j.numeros == games[k] && j.tipo == Some("Importado") && j.config.None?
  }

  /**
   * `handleFileImport`: every accepted line adds a game typed 'Importado'
   * with its sorted numbers; the count is the number of accepted lines.
   * Ids (`Date.now() + Math.random()`) are chosen freely.
   */
  method HandleFileImport(store: Store, text: string) returns (importedCount: nat, ghost added: seq<Jogo>)
    modifies store
    ensures store.jogos == old(store.jogos) + added
    ensures importedCount == |added| == |ImportedGames(Split(text, '\n'))|
    ensures forall k :: 0 <= k < |added| ==>
      added[k].numeros == ImportedGames(Split(text, '\n'))[k] &&
      added[k].tipo == Some("Importado") && added[k].config.None?
    ensures store.resultados == old(store.resultados) && store.ultimosSorteios == old(store.ultimosSorteios)
  {
    var lines := Split(text, '\n');
    ghost var start := store.jogos;
    ghost var rest := (store.resultados, store.ultimosSorteios);
    importedCount := 0;
    added := [];
    var i := 0;
    while i < |lines|
      invariant 0 <= i <= |lines|
      invariant store.jogos == start + added
      invariant importedCount == |added|
      invariant AddedAs(added, ImportedGames(lines[..i]))
      invariant (store.resultados, store.ultimosSorteios) == rest
    {
      TakeSnoc(lines, i);
      ImportedGamesConcat(lines[..i], [lines[i]]);
      CollectOne(lines[i], ImportLine);
      var more := ImportInto(store, lines[i]);
      ConcatAssoc(start, added, more);
      AddedAsConcat(added, ImportedGames(lines[..i]), more, ImportedGames([lines[i]]));
      added := added + more;
      importedCount := importedCount + |more|;
      i := i + 1;
    }
    assert lines[..i] == lines;
    forall k | 0 <= k < |added|
      ensures added[k].numeros == ImportedGames(lines)[k] &&
        added[k].tipo == Some("Importado") && added[k].config.None?
    {
      AddedAsAt(added, ImportedGames(lines), k);
    }
  }

  /** One line of `handleFileImport`: an accepted line adds its game, any other line nothing. */
  method ImportInto(store: Store, line: string) returns (more: seq<Jogo>)
    modifies store
    ensures store.jogos == old(store.jogos) + more
    ensures AddedAs(more, if ImportLine(line).Some? then [ImportLine(line).value] else [])
    ensures store.resultados == old(store.resultados) && store.ultimosSorteios == old(store.ultimosSorteios)
  {
    var numeros := ImportLine(line);
    if numeros.Some? {
      var id: real :| true;
      var jogo := Jogo(id, numeros.value, Some("Importado"), None);
      store.AddJogo(jogo);
      more := [jogo];
      AddedOne(jogo);
    } else {
      more := [];
    }
  }

  lemma AddedOne(jogo: Jogo)
    requires jogo.tipo == Some("Importado") && jogo.config.None?
    ensures AddedAs([jogo], [jogo.numeros])
  {
  }

  lemma AddedAsConcat(added: seq<Jogo>, games: seq<seq<int>>, more: seq<Jogo>, g: seq<seq<int>>)
    requires AddedAs(added, games) && AddedAs(more, g)
    ensures AddedAs(added + more, games + g)
  {
    var p, q, r := ImportedFrom(games), ImportedFrom(g), ImportedFrom(games + g);
    forall k | 0 <= k < |added| + |more| ensures r(k, (added + more)[k]) {
      if k < |added| {
        assert p(k, added[k]);
        assert (added + more)[k] == added[k] && (games + g)[k] == games[k];
      } else {
        assert q(k - |added|, more[k - |added|]);
        assert (added + more)[k] == more[k - |added|] && (games + g)[k] == g[k - |added|];
      }
    }
  }

  /** What `AddedAs` says of each game. */
  lemma AddedAsAt(added: seq<Jogo>, games: seq<seq<int>>, k: int)
    requires AddedAs(added, games) && 0 <= k < |added|
    ensures added[k].numeros == games[k] && added[k].tipo == Some("Importado") && added[k].config.None?
  {
    assert ImportedFrom(games)(k, added[k]);
  }

  // ---------------------------------------------------------------------
  // Round trip
  // ---------------------------------------------------------------------

  /** A game the import accepts back: 15 to 20 numbers in 1..25, a one-line type. */
  predicate Exportable(j: Jogo) {
    AllIn(j.numeros, 1, 25) && 15 <= |j.numeros| <= 20 && '\n' !in TipoLabel(j.tipo)
  }

  /** Every game's numbers, sorted ascending. */
  function SortedNumeros(jogos: seq<Jogo>): (r: seq<seq<int>>)
    ensures |r| == |jogos|
    ensures forall k :: 0 <= k < |jogos| ==> r[k] == SortAsc(jogos[k].numeros)
  {
    if jogos == [] then [] else [SortAsc(jogos[0].numeros)] + SortedNumeros(jogos[1..])
  }

  /** A formatted list of numbers has no line terminator. */
  lemma FormatNoTerminator(ns: seq<int>)
    ensures NoTerminator(FormatNumeros(ns))
  {
    var body := FormatNumeros(ns);
    forall i | 0 <= i < |body| ensures !IsLineTerminator(body[i]) {
      assert body[i] in body;
    }
  }

  /** A line whose group is an accepted list of numbers imports them sorted. */
  lemma ImportOf(line: string, ns: seq<int>)
    requires AllIn(ns, 1, 25) && 15 <= |ns| <= 20
    requires FirstBracket(line) == Some(FormatNumeros(ns))
    ensures ImportLine(line) == Some(SortAsc(ns))
  {
    FormatNumerosNonEmpty(ns);
    ParseFormatNumeros(ns);
  }

  /** Any line with an accepted list in its first brackets imports that list, sorted. */
  lemma BracketLineImports(pre: string, ns: seq<int>, post: string)
    requires '[' !in pre && AllIn(ns, 1, 25) && 15 <= |ns| <= 20
    ensures ImportLine(BracketLine(pre, ns, post)) == Some(SortAsc(ns))
  {
    FormatNoTerminator(ns);
    FirstBracketOf(pre, FormatNumeros(ns), post);
    ImportOf(BracketLine(pre, ns, post), ns);
  }

  /** A game line imports as the game's numbers, sorted. */
  lemma GameLineImports(index: nat, j: Jogo)
    requires AllIn(j.numeros, 1, 25) && 15 <= |j.numeros| <= 20
    ensures ImportLine(GameLine(index, j)) == Some(SortAsc(j.numeros))
  {
    var pre := "Jogo " + IntToString(index + 1) + ": ";
    NumeralPlain(IntToString(index + 1));
    PlainConcat("Jogo ", IntToString(index + 1));
    PlainConcat("Jogo " + IntToString(index + 1), ": ");
    BracketLineImports(pre, j.numeros, " (" + TipoLabel(j.tipo) + ")");
  }

  /** A line that imports nothing and stays one line. */
  predicate Plain(s: string) {
    '[' !in s && '\n' !in s
  }

  predicate AllPlain(ls: seq<string>) {
    forall k :: 0 <= k < |ls| ==> Plain(ls[k])
  }

  lemma PlainConcat(a: string, b: string)
    requires Plain(a) && Plain(b)
    ensures Plain(a + b)
  {
  }

  lemma AllPlainConcat(a: seq<string>, b: seq<string>)
    requires AllPlain(a) && AllPlain(b)
    ensures AllPlain(a + b)
  {
    forall k | 0 <= k < |a + b| ensures Plain((a + b)[k]) {
      if k < |a| {
        assert (a + b)[k] == a[k];
      } else {
        assert (a + b)[k] == b[k - |a|];
      }
    }
  }

  lemma NumeralPlain(s: string)
    requires Numeral(s)
    ensures Plain(s)
  {
  }

  lemma MoneyPlain(c: int)
    ensures Plain(MoneyText(c))
    decreases if c < 0 then 1 else 0
  {
    if c < 0 {
      MoneyPlain(-c);
    } else {
      NumeralPlain(IntToString(c / 100));
      NumeralPlain(Pad2(c % 100));
    }
  }

  lemma BlockPlain(r: Resultado)
    requires Plain(r.data)
    ensures AllPlain(ResultBlock(r))
  {
    ConcursoPlain(r);
    SorteadosPlain(r);
    PremiadosPlain(r);
  }

  lemma ConcursoPlain(r: Resultado)
    requires Plain(r.data)
    ensures Plain(ConcursoLine(r))
  {
    var n := IntToString(r.concurso);
    NumeralPlain(n);
    PlainConcat("Concurso: ", n);
    PlainConcat("Concurso: " + n, " | Data: ");
    PlainConcat("Concurso: " + n + " | Data: ", r.data);
  }

  lemma SorteadosPlain(r: Resultado)
    ensures Plain(SorteadosLine(r))
  {
    var parts := IntStrings(r.numerosSorteados);
    forall k | 0 <= k < |parts| ensures '[' !in parts[k] && '\n' !in parts[k] {
      NumeralPlain(parts[k]);
    }
    JoinChars(parts, ", ", '[');
    JoinChars(parts, ", ", '\n');
    PlainConcat("Sorteados: ", Join(parts, ", "));
  }

  lemma PremiadosPlain(r: Resultado)
    ensures Plain(PremiadosLine(r))
  {
    var n := IntToString(r.jogosPremiados);
    var m := MoneyText(r.totalPremio);
    NumeralPlain(n);
    MoneyPlain(r.totalPremio);
    PremiadosLabelPlain();
    GanhoLabelPlain();
    PlainFour(">> Jogos Premiados: ", n, " | Total Ganho: R$ ", m);
  }

  lemma PremiadosLabelPlain()
    ensures Plain(">> Jogos Premiados: ")
  {
  }

  lemma GanhoLabelPlain()
    ensures Plain(" | Total Ganho: R$ ")
  {
  }

  lemma PlainFour(a: string, b: string, c: string, d: string)
    requires Plain(a) && Plain(b) && Plain(c) && Plain(d)
    ensures Plain(a + b + c + d)
  {
    PlainConcat(a, b);
    PlainConcat(a + b, c);
    PlainConcat(a + b + c, d);
  }

  lemma {:induction false} ResultLinesPlain(rs: seq<Resultado>)
    requires forall r :: r in rs ==> Plain(r.data)
    ensures AllPlain(ResultLines(rs))
  {
    if rs != [] {
      var init, r := rs[..|rs| - 1], rs[|rs| - 1];
      assert forall x :: x in init ==> x in rs;
      ResultLinesPlain(init);
      BlockPlain(r);
      AllPlainConcat(ResultLines(init), ResultBlock(r));
    }
  }

  /** Header and headings hold no '[' and no line break. */
  lemma HeadingsPlain(stamp: string, numJogos: int, numResultados: int)
    requires Plain(stamp)
    ensures AllPlain(HeaderLines(stamp, numJogos)) && AllPlain(["", ResultsHeading(numResultados)])
  {
    GamesHeadingPlain(numJogos);
    ResultsHeadingPlain(numResultados);
  }

  lemma GamesHeadingPlain(n: int)
    ensures Plain(GamesHeading(n))
  {
    NumeralPlain(IntToString(n));
    PlainConcat("--- MEUS JOGOS GERADOS (", IntToString(n));
    PlainConcat("--- MEUS JOGOS GERADOS (" + IntToString(n), ") ---");
  }

  lemma ResultsHeadingPlain(n: int)
    ensures Plain(ResultsHeading(n))
  {
    NumeralPlain(IntToString(n));
    PlainConcat("--- HIST\U{00D3}RICO DE CONFER\U{00CA}NCIAS (", IntToString(n));
    PlainConcat("--- HIST\U{00D3}RICO DE CONFER\U{00CA}NCIAS (" + IntToString(n), ") ---");
  }

  lemma GameLineOneLine(index: nat, j: Jogo)
    requires '\n' !in TipoLabel(j.tipo)
    ensures '\n' !in GameLine(index, j)
  {
    var n := IntToString(index + 1);
    var body := FormatNumeros(j.numeros);
    var tipo := TipoLabel(j.tipo);
    NumeralPlain(n);
    NoNewlineConcat("Jogo ", n);
    NoNewlineConcat("Jogo " + n, ": ");
    NoNewlineConcat("Jogo " + n + ": ", "[");
    NoNewlineConcat("Jogo " + n + ": " + "[", body);
    NoNewlineConcat("Jogo " + n + ": " + "[" + body, "]");
    NoNewlineConcat(" (", tipo);
    NoNewlineConcat(" (" + tipo, ")");
    NoNewlineConcat("Jogo " + n + ": " + "[" + body + "]", " (" + tipo + ")");
  }

  lemma NoNewlineConcat(a: string, b: string)
    requires '\n' !in a && '\n' !in b
    ensures '\n' !in a + b
  {
  }

  /** Game lines stay one line each. */
  lemma GameLinesOneLine(jogos: seq<Jogo>)
    requires forall j :: j in jogos ==> Exportable(j)
    ensures forall k :: 0 <= k < |jogos| ==> '\n' !in GameLines(jogos)[k]
  {
    forall k | 0 <= k < |jogos| ensures '\n' !in GameLines(jogos)[k] {
      assert jogos[k] in jogos;
      GameLinesAt(jogos, k);
      GameLineOneLine(k, jogos[k]);
    }
  }

  /** Game lines import as their games, in order. */
  lemma GameLinesImport(jogos: seq<Jogo>)
    requires forall j :: j in jogos ==> Exportable(j)
    ensures ImportedGames(GameLines(jogos)) == SortedNumeros(jogos)
  {
    var games := GameLines(jogos);
    var sorted := SortedNumeros(jogos);
    forall k | 0 <= k < |games| ensures ImportLine(games[k]) == Some(sorted[k]) {
      assert jogos[k] in jogos;
      GameLinesAt(jogos, k);
      GameLineImports(k, jogos[k]);
    }
    ImportedEach(games, sorted);
  }

  /**
   * Round trip: importing an exported backup gives back every stored
   * game's numbers, sorted ascending, in the stored order, and nothing
   * else — header and result lines hold no '['.
   */
  lemma ExportImport(jogos: seq<Jogo>, rs: seq<Resultado>, stamp: string)
    requires forall j :: j in jogos ==> Exportable(j)
    requires Plain(stamp)
    requires forall r :: r in rs ==> Plain(r.data)
    ensures ImportedGames(Split(Lines(BackupLines(jogos, rs, stamp)), '\n')) == SortedNumeros(jogos)
  {
    var header := HeaderLines(stamp, |jogos|);
    var games := GameLines(jogos);
    var middle := ["", ResultsHeading(|rs|)];
    var results := ResultLines(rs);
    HeadingsPlain(stamp, |jogos|, |rs|);
    ResultLinesPlain(rs);
    GameLinesOneLine(jogos);
    GameLinesImport(jogos);
    PlainOneLine(header);
    PlainOneLine(middle);
    PlainOneLine(results);
    OneLineConcat(header, games);
    OneLineConcat(header + games, middle);
    OneLineConcat(header + games + middle, results);
    SplitLines(header + games + middle + results);
    ImportedAround(header, games, middle, results);
  }

  /** No piece holds a line break. */
  predicate OneLine(ls: seq<string>) {
    forall k :: 0 <= k < |ls| ==> '\n' !in ls[k]
  }

  lemma PlainOneLine(ls: seq<string>)
    requires AllPlain(ls)
    ensures OneLine(ls)
  {
  }

  lemma OneLineConcat(a: seq<string>, b: seq<string>)
    requires OneLine(a) && OneLine(b)
    ensures OneLine(a + b)
  {
    forall k | 0 <= k < |a + b| ensures '\n' !in (a + b)[k] {
      if k < |a| {
        assert (a + b)[k] == a[k];
      } else {
        assert (a + b)[k] == b[k - |a|];
      }
    }
  }

  /** Only the middle piece of a split text contributes games. */
  lemma ImportedAround(a: seq<string>, b: seq<string>, c: seq<string>, d: seq<string>)
    requires AllPlain(a) && AllPlain(c) && AllPlain(d)
    ensures ImportedGames(a + b + c + d + [""]) == ImportedGames(b)
  {
    ImportedGamesConcat(a + b + c + d, [""]);
    ImportedGamesConcat(a + b + c, d);
    ImportedGamesConcat(a + b, c);
    ImportedGamesConcat(a, b);
    NoBracketNone(a);
    NoBracketNone(c);
    NoBracketNone(d);
    ImportedNone([""]);
  }

  lemma NoBracketNone(ls: seq<string>)
    requires AllPlain(ls)
    ensures ImportedGames(ls) == []
  {
    ImportedNone(ls);
  }

  /** The export/import pair also agrees on the count the import reports. */
  lemma ExportImportCount(jogos: seq<Jogo>, rs: seq<Resultado>, stamp: string)
    requires forall j :: j in jogos ==> Exportable(j)
    requires Plain(stamp)
    requires forall r :: r in rs ==> Plain(r.data)
    ensures |ImportedGames(Split(Lines(BackupLines(jogos, rs, stamp)), '\n'))| == |jogos|
  {
    ExportImport(jogos, rs, stamp);
  }

  /** A line of 18 distinct ascending numbers, as the fix check writes, is accepted whole. */
  lemma EighteenNumbers(ns: seq<int>)
    requires StrictlyAsc(ns) && |ns| == 18 && AllIn(ns, 1, 25)
    ensures ImportLine(BracketLine("Jogo 18 numbers: ", ns, "")) == Some(ns)
  {
    BracketLineImports("Jogo 18 numbers: ", ns, "");
    SortAscOfSorted(ns);
  }

  /** The numbers 1 to 18 are such a list. */
  lemma EighteenRange()
    ensures StrictlyAsc(Range(1, 18)) && |Range(1, 18)| == 18 && AllIn(Range(1, 18), 1, 25)
  {
  }

  /**
   * A file of the fix-check's form, one line of 18 distinct ascending
   * numbers between two line breaks, imports exactly that game.
   */
  lemma EighteenFile(ns: seq<int>)
    requires StrictlyAsc(ns) && |ns| == 18 && AllIn(ns, 1, 25)
    ensures ImportedGames(Split("\n" + BracketLine("Jogo 18 numbers: ", ns, "") + "\n", '\n')) == [ns]
  {
    var line := BracketLine("Jogo 18 numbers: ", ns, "");
    EighteenNumbers(ns);
    NoNewlineLabel();
    BracketOneLine("Jogo 18 numbers: ", ns, "");
    OneLineFile(line, ns);
  }

  /** The fix-check file itself imports the numbers 1 to 18. */
  lemma FixCheckFile()
    ensures ImportedGames(Split("\n" + BracketLine("Jogo 18 numbers: ", Range(1, 18), "") + "\n", '\n')) == [Range(1, 18)]
  {
    EighteenRange();
    EighteenFile(Range(1, 18));
  }

  lemma NoNewlineLabel()
    ensures '\n' !in "Jogo 18 numbers: " && '\n' !in ""
  {
  }

  /** A bracketed line around one-line texts is one line. */
  lemma BracketOneLine(pre: string, ns: seq<int>, post: string)
    requires '\n' !in pre && '\n' !in post
    ensures '\n' !in BracketLine(pre, ns, post)
  {
    var body := FormatNumeros(ns);
    FormatNoTerminator(ns);
    assert '\n' !in body by {
      forall i | 0 <= i < |body| ensures body[i] != '\n' {
        assert !IsLineTerminator(body[i]);
      }
    }
    NoNewlineConcat(pre, "[");
    NoNewlineConcat(pre + "[", body);
    NoNewlineConcat(pre + "[" + body, "]");
    NoNewlineConcat(pre + "[" + body + "]", post);
  }

  /** A file holding one accepted line between two line breaks imports exactly that game. */
  lemma OneLineFile(line: string, ns: seq<int>)
    requires ImportLine(line) == Some(ns) && '\n' !in line
    ensures ImportedGames(Split("\n" + line + "\n", '\n')) == [ns]
  {
    FramedSplit(line);
    FramedImport(line, ns);
  }

  lemma FramedImport(line: string, ns: seq<int>)
    requires ImportLine(line) == Some(ns)
    ensures ImportedGames(["", line, ""]) == [ns]
  {
    ThreeParts("", line, "");
    CollectConcat([""], [line] + [""], ImportLine);
    CollectConcat([line], [""], ImportLine);
    CollectOne(line, ImportLine);
    CollectOne("", ImportLine);
  }

  lemma FramedSplit(line: string)
    requires '\n' !in line
    ensures Split("\n" + line + "\n", '\n') == ["", line, ""]
  {
    assert "\n" + line + "\n" == Lines(["", line]) by {
      assert ["", line][1..] == [line];
      LinesOne(line);
    }
    SplitLines(["", line]);
  }
}
