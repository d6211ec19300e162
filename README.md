# Lotofácil helper — a Dafny model

This project models the core of a browser application for Lotofácil, the
Brazilian lottery in which 15 of the numbers 1 to 25 are drawn. The
application does four things. It generates games of 15 to 18 numbers by one
of four strategies. It scores games against a draw and maps the number of
hits to a prize. It fetches draws from a public archive, or makes mock draws
when the archive cannot be reached. It keeps the games, the checked results
and the latest draws in one store, which it can export as a text backup and
import again.

The modules follow the program's files:

- `GameLogic` (`src/utils/gameLogic.js`): the four generation strategies, the
  in-place Fisher–Yates shuffle, hit counting and the prize table.
- `LotofacilApi` (`src/services/lotofacilApi.js`): normalisation of archive
  records and the mock draws. It also holds the latest/specific fetches with
  their fallback, and the backward walk of the date-range search.
- `LotofacilData` (`src/hooks/useLotofacilData.js`): the store, a class whose
  methods replace its lists.
- `Backup` (`src/App.jsx`): the export text and the line parser of the import.
- `GameGenerator`, `AutoCheck`, `ManualCheck`, `History`, `LatestDraws` (the
  components of the same names): the event handlers and the statistics.
- `Seqs`, `Text`, `NumberList`, `Dates`, `Wrappers`: shared pieces. They
  provide sequences, JavaScript's `parseInt`/`trim`/`split`/`join`, the
  comma-separated number lists, calendar dates as JavaScript reads and
  writes them, and `Option`.

Modelling choices:

- `Math.random` becomes a nondeterministic choice. The shuffle returns, as a
  ghost value, the swaps it made.
- The network becomes an oracle. `Response` is either `Failed` or a body with
  one record or an array of records. `fetch: int -> Response` answers the
  request for each contest number.
- Money is integer centavos.
- Dates are `(year, month, day)` triples. `None` stands for JavaScript's
  "Invalid Date", and every comparison with it is false, as with `NaN`.
- Clock values are parameters: `today`, the export time stamp, and the ids
  of games.

The model follows the code as written. The following properties are proved
about that behaviour, and the lemma named after each one proves it:

- The strategy list offers the value 'pares-impares', but the code tests for
  'poles-impares'. So the parity branch is never chosen and that option
  generates random games (`GameLogic.FormStrategies`). The parity branch has
  no backfill, so it can return a short game. It is modelled as written
  (`GameLogic.PickPolesImpares`). Every other branch always fills the game.
- Repeated fixed numbers are kept: "5,5" fixes 5 twice
  (`GameGenerator.FixosKeepRepeats`). A game with repeats can score more hits
  than the draw holds (`GameLogic.RepeatsOvercount`). Such a game then puts a
  `NaN` entry into the hit distribution of the history
  (`History.SixteenHits`, `History.MaxValOfTally`).
- `fetchSpecificDraw` never throws. So the walk of `fetchDrawsByDateRange`
  never breaks on an error, and its fallback to `generateMockRange` cannot
  be reached. Offline, a range that contains today is answered by 501 mocks
  dated today (`LotofacilApi.OfflineRange`). The per-day mock range is
  modelled on its own (`LotofacilApi.GenerateMockRange`).
- An empty start date reads as an Invalid Date, before which no draw lies.
  The walk then always makes all 500 fetches
  (`LotofacilApi.EmptyStartWalksAll`).
- The recent-draws loop of the latest-draws panel never takes its `break`.
  So the list always has `qtd` entries (`LatestDraws.RecentDraws`).

## Model

| member | source | states |
|---|---|---|
| GameLogic.StrategyOf | src/utils/gameLogic.js:7-61 | The branch is chosen by exact name: 'poles-impares', 'distribuida' and 'mais-sorteados' each select their branch, and every other name, as an if-and-only-if, selects the random branch. |
| GameLogic.FormStrategies | src/components/GameGenerator.jsx:60-63 | Of the four values the form offers, 'aleatorio' and 'pares-impares' both generate randomly; 'distribuida' and 'mais-sorteados' reach their branches. |
| GameLogic.ApplySwapsPermutes | src/utils/gameLogic.js:66-72 | Performing any in-bounds swaps keeps the multiset of values. |
| GameLogic.Shuffle | src/utils/gameLogic.js:66-72 | The array after `shuffleArray` is the old contents with Fisher–Yates swaps applied (step i, from the last index down to 1, swaps i with some j <= i), so it is a permutation of the old contents. |
| GameLogic.ShuffledCopy | src/utils/gameLogic.js:66-72 | Shuffling a copy gives a sequence of the same length with the same values, as often. |
| GameLogic.Permuted | src/utils/gameLogic.js:66-72 | A permutation of a sequence with no repeats has no repeats and the same elements. |
| GameLogic.Available | src/utils/gameLogic.js:2-3 | The pool is distinct, within 1..25, and holds exactly the numbers of 1..25 that are not fixed. |
| GameLogic.AvailableCount | src/utils/gameLogic.js:2-3 | With distinct fixed numbers in 1..25 the pool has 25 minus their count. |
| GameLogic.ExtendsFacts | src/utils/gameLogic.js:5 | A game that starts as the fixed numbers and appends only distinct, not yet drawn pool numbers holds every fixed number as often as given. It has no other numbers than fixed and pool ones. It has no repeat when the fixed numbers have none, and stays in 1..25 when they do. |
| GameLogic.PickAleatorio | src/utils/gameLogic.js:57-60 | The random branch appends pool numbers only. It is never longer than asked, and it is exactly as long as asked for distinct fixed numbers in 1..25 with count <= size <= 25. |
| GameLogic.PickPolesImpares | src/utils/gameLogic.js:7-18 | It appends exactly min(need/2, evens available) even numbers and min(need - need/2, odds available) odd numbers. The game reaches the requested size if and only if neither parity runs out. |
| GameLogic.Band | src/utils/gameLogic.js:21-26 | Every number falls into one of the four quarters. |
| GameLogic.PickDistribuida | src/utils/gameLogic.js:20-40 | Each quarter contributes at least min(need/4, its pool size) numbers. The extras come from the unused pool, so the game is exactly as long as asked. |
| GameLogic.PickMaisSorteados | src/utils/gameLogic.js:42-55 | At least min(available listed numbers, floor(need*7/10)) drawn numbers come from the fixed 15-number list. The rest come from the unused pool, and the game is exactly as long as asked. |
| GameLogic.TakeListed | src/utils/gameLogic.js:42-50 | The listed share is min(listed numbers still in the pool, floor(need*7/10)). When the fixed numbers fit, exactly that many distinct listed pool numbers are drawn. |
| GameLogic.SortedGame | src/utils/gameLogic.js:63 | Sorting keeps the length, the fixed numbers, the range, the absence of repeats and the count of listed numbers. |
| GameLogic.GenerateGame | src/utils/gameLogic.js:1-64 | The result is sorted. It holds every fixed number, and otherwise only unfixed numbers of 1..25. It has no repeat for distinct fixed numbers and is never longer than asked. In the sorted game, counted beyond the fixed numbers, 'poles-impares' has exactly min(need/2, evens available) more even and min(need - need/2, odds available) more odd numbers. 'distribuida' has at least min(need/4, that quarter's pool) more numbers in each quarter. 'mais-sorteados' has at least min(listed numbers available, floor(need*7/10)) more numbers from the 15-number list. |
| GameLogic.DrawnShare | src/utils/gameLogic.js:63 | Sorting the fixed-plus-drawn game keeps, for any property, the fixed numbers' count plus the drawn numbers' count. |
| GameLogic.ListedCount | src/utils/gameLogic.js:42-55 | Distinct drawn numbers contain as many listed numbers as their set shares with the 15-number list. |
| GameLogic.PolesShares | src/utils/gameLogic.js:7-18 | The even and odd counts of the poles-impares pick carry over to the sorted game. |
| GameLogic.DistribuidaShares | src/utils/gameLogic.js:20-40 | Each quarter's share of the distribuida pick carries over to the sorted game. |
| GameLogic.MaisShares | src/utils/gameLogic.js:42-55 | The listed share of the mais-sorteados pick carries over to the sorted game. |
| GameLogic.RandomWithOneTwoThree | src/utils/gameLogic.js:57-63 | A random game of 15 with 1, 2, 3 fixed has 15 distinct numbers, contains 1, 2 and 3, and its other numbers lie in 4..25. |
| GameLogic.CalcularAcertos | src/utils/gameLogic.js:74-76 | The hit count is at most the game's length. |
| GameLogic.AcertosShared | src/utils/gameLogic.js:74-76 | For a game without repeats, the hit count is the number of values the game and the draw share. |
| GameLogic.AcertosBound | src/utils/gameLogic.js:74-76 | A game without repeats scores at most as many hits as the draw has numbers. |
| GameLogic.RepeatsOvercount | src/utils/gameLogic.js:74-76 | A game with a repeated number counts it twice: [1, 1] against [1] scores 2 hits. |
| GameLogic.FindPrize | src/utils/gameLogic.js:100-103 | `find` yields nothing if and only if no row matches; otherwise it yields the first matching row. |
| GameLogic.CalcularPremio | src/utils/gameLogic.js:78-114 | 11, 12 and 13 hits pay 700, 1400 and 3500 centavos whatever the table. Fewer than 11 pay 0. 14 or more pay 0 without a table, and with one they pay the first row matching tier 1 (15 hits) or tier 2 (otherwise), or a description containing the count. With no such row they pay 0. |
| GameLogic.PremioIgnoresSize | src/utils/gameLogic.js:78-114 | The prize never depends on the number of numbers in the game. |
| GameLogic.PremioWithoutTable | src/utils/gameLogic.js:83-113 | Without a prize table, a prize is positive if and only if the hits are 11 to 13. |
| LotofacilApi.ParseDezenas | src/services/lotofacilApi.js:112 | One number per string, each the value `parseInt` gives it. |
| LotofacilApi.ParseDezenasPadded | src/services/lotofacilApi.js:112 | Two-digit strings of numbers read back as those numbers. |
| LotofacilApi.FormatApiData | src/services/lotofacilApi.js:109-114 | A record with `dezenas` becomes a real (not mock) draw with its contest, date, parsed numbers, and its prize rows or an empty list. A record without `dezenas` makes the call throw. |
| LotofacilApi.MockNumero | src/services/lotofacilApi.js:125 | `number \|\| 3000`: a non-zero number is kept, and a missing number gives 3000. |
| LotofacilApi.UnusedExists | src/services/lotofacilApi.js:118-121 | While fewer than 15 distinct numbers are drawn some number of 1..25 is unused, so the drawing loop can always progress. |
| LotofacilApi.GenerateMockDraw | src/services/lotofacilApi.js:116-130 | A mock has the given number (or 3000), and is dated today. It has no prize table and 15 strictly increasing distinct numbers of 1..25. |
| LotofacilApi.FetchLatestDraw | src/services/lotofacilApi.js:1-12 | The latest draw is the formatted single record or first array element, or a mock numbered 3000 when the request fails or the record cannot be formatted. |
| LotofacilApi.FetchSpecificDraw | src/services/lotofacilApi.js:14-24 | The draw for contest n is the formatted record, or a mock numbered n (3000 for 0) when the request fails, the body is an array or the record cannot be formatted. |
| LotofacilApi.WalkBack | src/services/lotofacilApi.js:56-80 | The walk fetches contests first, first-1, ... in order, at most 500 of them. It stops exactly at the first draw older than start or at the cap. It keeps, in order, the fetched draws that are neither older than start nor after end. |
| LotofacilApi.DrawsFrom | src/services/lotofacilApi.js:47-82 | Given the latest draw: nothing is returned when it is older than start. Otherwise it comes first when it lies in the range, followed by the kept draws of the walk from the contest before it. |
| LotofacilApi.FetchDrawsByDateRange | src/services/lotofacilApi.js:33-89 | The results are those of the walk described above, with start and end read from the date fields and the latest draw answering the latest request. |
| LotofacilApi.RangeResultsInside | src/services/lotofacilApi.js:47-80 | With a valid start date, every returned draw lies between start and end. |
| LotofacilApi.RangeResultsCount | src/services/lotofacilApi.js:44-80 | At most 501 draws are returned. |
| LotofacilApi.EmptyStartWalksAll | src/services/lotofacilApi.js:38-79 | An empty start date is an Invalid Date, so the walk never stops early and makes all 500 fetches. |
| LotofacilApi.OfflineWalk | src/services/lotofacilApi.js:20-23 | With every request failing, the k-th walked draw is the mock for contest first-k. |
| LotofacilApi.MockKept | src/services/lotofacilApi.js:47-80 | A mock draw dated today is dated today, and the range filter keeps it whenever today is in the range. |
| LotofacilApi.OfflineRange | src/services/lotofacilApi.js:33-89 | With every request failing and today in the range, exactly 501 draws come back. All are mocks dated today, numbered 3000, 2999, ...; the fallback range is never generated. |
| LotofacilApi.GenerateMockRange | src/services/lotofacilApi.js:91-107 | Each kept mock is dated with a day in the range, in strictly decreasing day order, and numbered 3000, 2999, ... in order. There are at most as many mocks as days in the range, and none when a bound is invalid. |
| Dates.PrevDay | src/services/lotofacilApi.js:104 | `setDate(getDate() - 1)` gives the calendar day just before. |
| Dates.FormatDate | src/services/lotofacilApi.js:126 | The pt-BR date text has no bracket or line break. |
| Dates.ParseFormat | src/services/lotofacilApi.js:27-31 | `parseDate` of a date written DD/MM/YYYY (four-digit year) gives back that date. |
| Dates.EmptyDateInput | src/services/lotofacilApi.js:38 | An empty date field reads as an Invalid Date. |
| Dates.Rollover | src/services/lotofacilApi.js:30 | A day of the month up to 31 rolls into the next month; a day that exists is kept. |
| Dates.DateInputIso | src/components/AutoCheck.jsx:11-17 | The YYYY-MM-DD text of a day with a four-digit year reads back as that day. |
| Dates.DaysBeforeCount | src/components/AutoCheck.jsx:12-14 | Going back n days spans exactly n+1 days. |
| Dates.EpochDayOrder | src/components/ManualCheck.jsx:38-55 | Day numbers since 1970 order days as the calendar does. |
| Text.OnlyDigits | src/components/ManualCheck.jsx:12 | `replace(/[^0-9]/g, '')` leaves only digits: a character is in the result if and only if it is a digit of the input, and nothing is added. |
| Text.OnlyDigitsOfDigits | src/components/ManualCheck.jsx:12 | Digits pass through unchanged, so sanitising twice is sanitising once. |
| Text.Split | src/App.jsx:51 | `split` gives at least one part, and no part holds the separator. |
| Text.IndexOf | src/App.jsx:51 | The first position of a character, or nothing if and only if it does not occur. |
| Text.TrimStart | src/App.jsx:61 | A suffix of the text that does not start with white space. White space is the full ECMAScript set, the Unicode space separators included. |
| Text.TrimEnd | src/App.jsx:61 | A prefix of the text that does not end with white space. White space is the full ECMAScript set, the Unicode space separators included. |
| Text.WideSpaceToken | src/App.jsx:61 | A digit token led by an ideographic space and a blank reads as its number. |
| Text.IntToString | src/App.jsx:21 | `String(n)` is a non-empty numeral. |
| Text.Pad2 | src/App.jsx:21 | `padStart(2, '0')` gives a numeral of at least two characters. |
| ManualCheck.SlotParses | src/components/ManualCheck.jsx:12-27 | A sanitised box parses if and only if it is filled, and then to a number in 0..99. |
| Dates.DaysBefore | src/components/AutoCheck.jsx:12-13 | Going n days back never passes today and moves back at most n years. |
| Seqs.SortAsc | src/utils/gameLogic.js:63 | `sort((a, b) => a - b)` gives a sorted permutation with the same elements. |
| Text.ParseDigits | src/App.jsx:61 | A non-empty decimal numeral parses to its value. |
| Text.ParsePad2 | src/App.jsx:21 | A number padded to two digits parses back to itself. |
| Text.TrimDigits | src/App.jsx:61 | Trimming a numeral preceded by blanks gives the numeral. |
| Text.SplitJoin | src/App.jsx:21 | Splitting a ", "-joined list at commas gives back its parts, each after the first with one leading space. |
| NumberList.ParseEach | src/App.jsx:60-61 | One value per token: `parseInt` of the token trimmed of the full ECMAScript white space. |
| NumberList.KeepInRange | src/App.jsx:62 | Exactly the defined values in 1..25 are kept, in order. |
| NumberList.ParseNumbers | src/App.jsx:60-62 | All numbers read from a list lie in 1..25, at most one per comma-separated token. |
| NumberList.FormatNumeros | src/App.jsx:21 | The formatted list has no bracket and no line terminator. |
| NumberList.FormattedTokens | src/App.jsx:21 | Splitting a formatted list at commas gives one token per number, each parsing back to it. |
| NumberList.ParseFormatNumeros | src/App.jsx:21-62 | Numbers in 1..25 formatted by the export and read by the import come back unchanged, with their order and repeats. |
| LotofacilData.WithoutId | src/hooks/useLotofacilData.js:38-40 | The games kept are exactly those whose id differs. |
| LotofacilData.WithoutAbsentId | src/hooks/useLotofacilData.js:38-40 | Removing an id no game has changes nothing. |
| LotofacilData.WithoutIdIdempotent | src/hooks/useLotofacilData.js:38-40 | Removing an id twice is removing it once. |
| LotofacilData.WithoutIdOrder | src/hooks/useLotofacilData.js:38-40 | Removal keeps the order of the other games. |
| LotofacilData.AddedResultado | src/hooks/useLotofacilData.js:44-50 | A result whose contest is already stored changes nothing. Otherwise the list grows by that result and is sorted by descending contest. The contest is stored afterwards. |
| LotofacilData.AddedResultadoDistinct | src/hooks/useLotofacilData.js:44-50 | Stored contests stay pairwise distinct. |
| LotofacilData.AddedResultadoDescending | src/hooks/useLotofacilData.js:48 | After adding a new contest, the results are in strictly descending contest order. |
| LotofacilData.AddedResultadoKeeps | src/hooks/useLotofacilData.js:44-50 | No stored result is lost. |
| LotofacilData.Store.constructor | src/hooks/useLotofacilData.js:11-14 | The store starts with empty lists. |
| LotofacilData.Store.AddJogo | src/hooks/useLotofacilData.js:34-36 | The game is appended, and nothing else changes. |
| LotofacilData.Store.RemoveJogo | src/hooks/useLotofacilData.js:38-40 | The games become the games without that id, and nothing else changes. |
| LotofacilData.Store.ClearJogos | src/hooks/useLotofacilData.js:42 | The games become empty, and nothing else changes. |
| LotofacilData.Store.AddResultado | src/hooks/useLotofacilData.js:44-50 | The results become `AddedResultado` of the old ones, and distinct contests stay distinct. |
| LotofacilData.Store.SetUltimosSorteios | src/hooks/useLotofacilData.js:14 | The latest draws are replaced, and nothing else changes. |
| Backup.TipoLabel | src/App.jsx:22 | A missing or empty type is labelled 'Gerado'; a label is never empty. |
| Backup.GameLines | src/App.jsx:20-23 | One line per game. |
| Backup.GameLinesAt | src/App.jsx:20-23 | Line k is "Jogo k+1: [numbers] (label)" for game k. |
| Backup.BackupText | src/App.jsx:16-30 | The backup is the header, the game lines, the results heading and one block per result. |
| Backup.HandleExport | src/App.jsx:15-31 | The text built step by step is exactly the backup's lines, each ended by a line break. |
| Backup.AppendGames | src/App.jsx:19-23 | Appending the games loop adds exactly their lines. |
| Backup.AppendResults | src/App.jsx:25-30 | Appending the results loop adds exactly their blocks. |
| Backup.CloseBracket | src/App.jsx:57 | The lazy group stops at the first ']' on the line. |
| Backup.FirstBracket | src/App.jsx:57 | A line without '[' has no match; a match holds no ']' and no line break. |
| Backup.FirstBracketOf | src/App.jsx:57 | The match of "pre[body]post", where pre has no bracket, is body. |
| Backup.AcceptNumbers | src/App.jsx:58-67 | A group is accepted if and only if it yields 15 to 20 numbers; the numbers are then sorted and lie in 1..25. |
| Backup.ImportLine | src/App.jsx:57-67 | An accepted line gives 15 to 20 sorted numbers in 1..25; a line without '[' gives nothing. |
| Backup.ImportedGames | src/App.jsx:51-73 | At most one game per line. |
| Backup.ImportedGamesConcat | src/App.jsx:54-73 | Lines are read independently, in order. |
| Backup.ImportedNone | src/App.jsx:54-73 | Lines without '[' import nothing. |
| Backup.ImportedEach | src/App.jsx:54-73 | When each line imports one game, the file imports those games in order. |
| Backup.ImportInto | src/App.jsx:54-72 | One line appends its game, if accepted, tagged 'Importado'. |
| Backup.HandleFileImport | src/App.jsx:44-86 | The stored games grow by exactly the games the lines yield, in order, each tagged 'Importado'. The count is their number. |
| Backup.SortedNumeros | src/App.jsx:67 | Each game's numbers, sorted ascending. |
| Backup.GameLineImports | src/App.jsx:21-67 | The exported line of a game of 15 to 20 numbers in 1..25 imports as its numbers sorted ascending. |
| Backup.ExportImport | src/App.jsx:15-73 | Importing a backup gives back exactly the exported games' numbers, sorted, in order. This holds when every game has 15 to 20 numbers in 1..25 and a one-line label, and the stamp and draw dates hold no bracket or line break. The header and result lines import nothing. |
| Backup.ExportImportCount | src/App.jsx:15-73 | Under the same conditions, the import count is the number of exported games. |
| Backup.EighteenNumbers | verify_fix.js:5-26 | A line of 18 distinct ascending numbers in the fix-check's form is accepted whole. |
| Backup.OneLineFile | src/App.jsx:51-73 | A file of one accepted line between two line breaks imports exactly that game. |
| Backup.EighteenFile | verify_fix.js:4-31 | A file of the fix-check's form imports exactly its 18-number game. |
| Backup.FixCheckFile | verify_fix.js:4-31 | The fix-check file itself imports the numbers 1 to 18 as one game. |
| AutoCheck.ConferirTodos | src/components/AutoCheck.jsx:41-48 | One check per game, in order: the hits against the draw and their prize with the draw's table. |
| AutoCheck.Resumo | src/components/AutoCheck.jsx:40-64 | A summary carries the draw's contest (and its text as id), date and numbers. Its checks are a permutation of the games' checks, sorted by descending hits. The total is the sum of prizes and the winners are the positive prizes. The best is the first check's hits and bounds them all. |
| AutoCheck.Summarize | src/components/AutoCheck.jsx:55-64 | The summary fields of sorted checks, stated one by one. |
| AutoCheck.SortedTotals | src/components/AutoCheck.jsx:53-62 | Sorting changes neither the total prize nor the number of winners. |
| AutoCheck.BestIsFirst | src/components/AutoCheck.jsx:53-63 | In checks sorted by descending hits, the maximum is the first. |
| AutoCheck.ResumoStable | src/components/AutoCheck.jsx:53 | The sort is stable: checks with equal hits keep their game order. |
| AutoCheck.MelhorAcertoAttained | src/components/AutoCheck.jsx:63 | The best hit count is the hit count of some game. |
| AutoCheck.MelhorAcertoBound | src/components/AutoCheck.jsx:63 | For games without repeats the best hit count is at most the draw's size. |
| AutoCheck.MockPrizes | src/components/AutoCheck.jsx:46 | Against a mock draw (no prize table), a check pays if and only if it has 11 to 13 hits. |
| AutoCheck.PremiadaHits | src/components/AutoCheck.jsx:42-62 | Every paying check has at least 11 hits. |
| AutoCheck.ResumoAll | src/components/AutoCheck.jsx:40-65 | One summary per draw, in draw order. |
| AutoCheck.LastMonth | src/components/AutoCheck.jsx:12-14 | Thirty days back is not after today. |
| AutoCheck.DefaultPeriod | src/components/AutoCheck.jsx:10-17 | The default fields read back as thirty days ago and today, a span of 31 days. |
| AutoCheck.AutoCheckView.constructor | src/components/AutoCheck.jsx:10-18 | The fields start at thirty days ago and today, with no results. |
| AutoCheck.AutoCheckView.HandleAutoCheck | src/components/AutoCheck.jsx:21-65 | Without games nothing changes. Otherwise the range search runs over the fields, and the results become one summary per returned draw (none when it returns nothing). |
| ManualCheck.Parsed | src/components/ManualCheck.jsx:27 | At most one number per box. |
| ManualCheck.ParsedFilled | src/components/ManualCheck.jsx:27 | With sanitised boxes, exactly the filled boxes give a number, each in 0..99. |
| ManualCheck.FifteenIffAllFilled | src/components/ManualCheck.jsx:27-31 | The check proceeds, as an if-and-only-if, exactly when all 15 boxes are filled. |
| ManualCheck.RangeNotChecked | src/components/ManualCheck.jsx:27-31 | Out-of-range numbers pass: fifteen boxes of "99" give fifteen 99s. |
| ManualCheck.GamesInPeriod | src/components/ManualCheck.jsx:33-56 | Both fields empty keeps every game. Otherwise the kept games are exactly those whose truncated id lies between the start of the first day and the end of the last. |
| ManualCheck.GamesInPeriodOrder | src/components/ManualCheck.jsx:52-55 | The filter keeps the games' order. |
| ManualCheck.PeriodDays | src/components/ManualCheck.jsx:38-55 | With both dates readable, a game is kept if and only if its creation day lies between them. |
| ManualCheck.OpenEnds | src/components/ManualCheck.jsx:39-44 | An empty start is 0 and an empty end is Infinity. |
| ManualCheck.UnreadableField | src/components/ManualCheck.jsx:40-54 | A non-empty field the model does not read as a YYYY-MM-DD date gives NaN, and no game is kept. A date input never holds such text. |
| ManualCheck.ConferirTodos | src/components/ManualCheck.jsx:64-71 | One check per game against the typed numbers, priced without a table. |
| ManualCheck.Resultados | src/components/ManualCheck.jsx:64-76 | The results are a permutation of the checks, sorted by descending hits, then by descending prize. |
| ManualCheck.ResultadoOfGame | src/components/ManualCheck.jsx:64-76 | Every result is the check of some game. |
| ManualCheck.ManualPrizes | src/components/ManualCheck.jsx:66 | A result pays if and only if it has 11 to 13 hits; 14 and 15 hits pay nothing. |
| ManualCheck.SecondKeyIdle | src/components/ManualCheck.jsx:72-76 | Equal hits mean equal prizes, so the prize key never decides the order. |
| ManualCheck.ResultadosStable | src/components/ManualCheck.jsx:72-76 | The sort is stable: results with equal keys keep their game order. |
| ManualCheck.ManualCheckView.constructor | src/components/ManualCheck.jsx:6-9 | Fifteen empty boxes, no result, empty dates. |
| ManualCheck.ManualCheckView.HandleInputChange | src/components/ManualCheck.jsx:11-24 | The box gets the digits of the input when there are at most two; otherwise nothing changes. |
| ManualCheck.ManualCheckView.HandleCheck | src/components/ManualCheck.jsx:26-79 | The result becomes the sorted checks of the games in the period. If fewer or more than 15 numbers are typed, or no game is in the period, nothing changes. |
| ManualCheck.ManualCheckView.ClearInputs | src/components/ManualCheck.jsx:81-84 | Fifteen empty boxes and no result; the dates stay. |
| History.TotalJogados | src/components/History.jsx:8 | The number of checks is never negative. |
| History.PremiadosBound | src/components/History.jsx:8-9 | With consistent results, the winning checks are between 0 and the total checks. |
| History.AddedTotals | src/components/History.jsx:8-10 | Adding a new contest's result adds its checks, winners and prize to the totals. Adding a known contest changes nothing. |
| History.HitsOf | src/components/History.jsx:15-17 | One hit count per check, in order. |
| History.HitsLength | src/components/History.jsx:14-18 | There are as many hit counts as checks. |
| History.Distribution | src/components/History.jsx:13-18 | The loop's map is the tally of every check's hits, in order. |
| History.TallyCounts | src/components/History.jsx:13-18 | Keys 11 to 15 count exactly the checks with that many hits. Any other key is a hit count above 15 that occurred, and its entry is NaN. |
| History.CountsBound | src/components/History.jsx:13-18 | The counts of 11 to 15 hits add up to at most the number of checks. |
| History.DistributionBound | src/components/History.jsx:13-18 | The chart's five bars are numbers adding up to at most the total checks. |
| History.SixteenHits | src/components/History.jsx:16 | A check of 16 hits adds a NaN entry. |
| History.MaxVal | src/components/History.jsx:20 | The maximum is NaN if and only if some entry is NaN. Otherwise it is at least 1, bounds every entry, and is 1 or some entry. |
| History.MaxValOfTally | src/components/History.jsx:13-20 | The chart's scale is NaN if and only if some check has more than 15 hits. Otherwise it is at least 1 and bounds every bar. |
| GameGenerator.SizeOptionsImportable | src/components/GameGenerator.jsx:49 | Every size the form offers (15 to 18) is one the import accepts. |
| GameGenerator.Fixos | src/components/GameGenerator.jsx:13-18 | The fixed numbers lie in 1..25. |
| GameGenerator.FixosAreListed | src/components/GameGenerator.jsx:13-18 | The blank-field test changes nothing: the fixed numbers are always the list's numbers. |
| GameGenerator.FixosKeepRepeats | src/components/GameGenerator.jsx:15-17 | A number typed twice is fixed twice: repeats are not removed. |
| GameGenerator.AcceptedFits | src/components/GameGenerator.jsx:19-22 | Unless refused, the list is no longer than the game. |
| GameGenerator.HandleGenerate | src/components/GameGenerator.jsx:12-34 | A refused list adds nothing. Otherwise exactly numGames games (none for a non-positive count) are appended. Each is generated with the form's settings, untagged, configured with them. |
| GameGenerator.GenerateInto | src/components/GameGenerator.jsx:24-33 | The loop appends exactly numGames games (none for a non-positive count), each generated with the given settings, untagged and configured with them; the other lists stay. |
| GameGenerator.GeneratedFull | src/components/GameGenerator.jsx:25-26 | Except by 'poles-impares', a game from distinct fixed numbers has exactly the chosen size of distinct, strictly increasing numbers in 1..25. |
| GameGenerator.GeneratedExportable | src/components/GameGenerator.jsx:25-32 | Such a game, at an offered size, survives the backup: its exported line imports as its numbers. |
| GameGenerator.GeneratedExportableWith | src/components/GameGenerator.jsx:25-32 | The same for any untagged generated game of 15 to 20 numbers. |
| GameGenerator.UntaggedExportable | src/App.jsx:22 | An untagged game is exported under its one-line 'Gerado' label. |
| GameGenerator.AscendingLineImports | src/App.jsx:21-67 | The line of a strictly increasing game reads back as its numbers. |
| LatestDraws.RecentDraws | src/components/LatestDraws.jsx:24-40 | The list has qtd entries (one when qtd < 1). It starts with the latest draw, followed by the answers for contests latest-1, latest-2, ... in order. |
| LatestDraws.WalkRecent | src/components/LatestDraws.jsx:29-40 | The loop makes exactly the requested number of requests, and entry k answers the request for contest first-k. |
| LatestDraws.RecentOffline | src/components/LatestDraws.jsx:25-33 | Offline, the k-th entry is the mock numbered 3000-k (3000 for the latest), dated today. |
| LatestDraws.DefaultOffline | src/components/LatestDraws.jsx:8-40 | Offline, the default list has ten mocks numbered 3000 down to 2991. |
| LatestDraws.RecentOnline | src/components/LatestDraws.jsx:25-33 | When every contest comes back as a record, entry k is the formatted record of contest latest-k. |
| LatestDraws.WalkAt | src/components/LatestDraws.jsx:29-33 | Entry k of the list answers the request for contest latest-k. |
| LatestDraws.LoadDraws | src/components/LatestDraws.jsx:12-48 | With both dates set, the range results replace the stored draws unless empty, in which case they stay. Otherwise the recent list replaces them. Games and results never change. |
| LatestDraws.Mount | src/components/LatestDraws.jsx:50-53 | An empty list of draws is filled with the ten most recent draws; a non-empty list stays. |

## Left out

- Rendering, styling, icons, `alert`s, loading flags, the active tab, the
  expanded-draw view state and focus handling. These are user interface
  only.
- Browser storage (`localStorage` and JSON). The store starts empty. The
  `estatisticas` state, which is never updated, is not modelled.
- Network I/O, `async`/`await` and the 200 ms pause between fetches. The
  network is the `Response` oracle. A failed `response.json()` counts as a
  failed request.
- Browser file APIs: `FileReader`, `Blob`, the download link and the input
  reset. The import starts from the file's text and the export ends with it.
- Time zones and the clock. `new Date()` is the `today` parameter. The export
  stamp and game ids are parameters, chosen freely. `toLocaleDateString`
  and `toISOString` are modelled as DD/MM/YYYY and YYYY-MM-DD of that day.
- The `date` field that `handleGenerate` stores with each game. It is a clock
  value that nothing reads.
- GameLogic.Shuffle: uniformity of the shuffle is not claimed. Only the
  Fisher–Yates shape of its swaps is stated.
- LotofacilApi.GenerateMockDraw: the rejection loop is modelled as a choice
  among the unused numbers. A rejected pick changes nothing, and the
  unbounded loop would otherwise have no termination proof. Uniformity is
  not claimed.
- LotofacilApi.GenerateMockRange: each day's coin flip
  (`Math.random() > 0.2`) is a free choice, so no frequency is claimed.
- LotofacilApi.FormatApiData: `dezenas` entries are limited to strings whose
  first one or two characters are digits, such as "07". Other texts that
  `parseInt` reads (" 7", "+7") and entries that give `NaN` are not
  modelled.
- GameLogic.CalcularPremio: payouts are integer centavos. `parseFloat` of an
  arbitrary `valorPremio` text and `toFixed(2)` formatting are not modelled.
  The fixed prizes of 7, 14 and 35 reais are exact.
- Dates.Rollover: `new Date("YYYY-MM-DD")` follows the V8 engine. It takes a
  day up to 31 and rolls over into the next month. Other engines' stricter
  parsing is not modelled.
- ManualCheck.GamesInPeriod: the period uses day boundaries in
  milliseconds since 1970. The local time-zone offset of
  `new Date(y, m - 1, d, ...)` is ignored.
- ManualCheck.StartOfDay, ManualCheck.EndOfDay: a field is read as a
  YYYY-MM-DD date of a real day, the only text a date input holds. The
  code's `split('-').map(Number)` and `new Date(y, m - 1, d, ...)` roll
  out-of-range parts over ("2024-13-01" is January 2025); that roll-over is
  not modelled.
- LatestDraws.RecentDraws: the loop's `catch`/`break`
  (src/components/LatestDraws.jsx:35-38) is unreachable, because
  `fetchSpecificDraw` never throws, so it is not modelled.
- LotofacilApi.FetchDrawsByDateRange: the inner `catch`
  (src/services/lotofacilApi.js:64-66) and the outer `catch`
  (src/services/lotofacilApi.js:84-88) are unreachable for the same reason.
  `generateMockRange` is modelled on its own.
- AutoCheck.AutoCheckView.HandleAutoCheck: the line that saves results to
  the history is commented out in the code, so the model does not save them
  either.
- The ManualCheck tab is disabled in `src/App.jsx:91`. Its handlers are
  modelled as written.
