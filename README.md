# PlataformaDeJogos_Online — a verified model of the game engine and its handlers

This project models, in Dafny, the client-side logic of an educational games
platform. Users author term/definition content and generate games from it. They
then play one of four game variants and store the result. The model covers:

- **The four game variants** (`Memory`, `Association`, `Quiz`, `GuessTerm`). Each is a
  class whose fields are the component's state. Its constructor is the mount-time
  `initializeGame`. Its methods are the click, submit and advance handlers, and a
  `Valid()` invariant ties score, mistakes and progress together.
- **The session shell** (`Player`, `Clock`). It dispatches on the game type, counts
  mistakes live and records the result on completion. It computes elapsed seconds and
  formats `m:ss`.
- **Authoring** (`Authoring`, `Generator`, `Content`). This covers adding, editing,
  deleting and searching content, and generating a game from the first ten items.
- **The local user registry** (`Accounts`): register and login over the `users` store.
- **The results page** (`Results`): it keeps the user's results, sorts them newest
  first in place and labels game types.
- **Two backend validators** (`Requests`, `ResultsRoute`, `SharesRoute`). These are
  the checks that run before an insert in the game-results and shared-games routes.

Modelling conventions:

- **Stores as fields.** The browser's `localStorage` stores (`content`, `games`,
  `users`, `gameResults`) are fields holding sequences.
- **Clock readings as parameters.** `Date.now()` ids and ISO timestamps are passed in.
- **Shuffles as permutations.** Every `sort(() => Math.random() - 0.5)` becomes a
  permutation of positions supplied by the caller (`Shuffle.IsPermutation`,
  `Shuffle.Permute`).
- **Callbacks as return values.** `onMistake` and `onComplete` are what the handler
  methods return.
- **JavaScript falsiness is explicit.** `None` stands for `undefined`/`null`, and the
  empty string and `0` count as false wherever the code relies on truthiness.
- **Card ids are real strings.** Memory card ids are `"term-" + id` and `"def-" + id`,
  with the decimal rendering proved injective.

## Behaviour of the code worth noting

The model follows the code as written, including these points:

- **Memory completion.** The game completes when the content is non-empty and
  `matchedPairs.length == 2 * content.length`. Score is 100 per pair, that is 50 per
  matched card id.
- **Association completion.** The game completes when `matches.length ==
  content.length`. Empty content completes at once.
- **Result validation.** The game-results route rejects null or undefined
  `score`/`mistakes`/`timeElapsed` with a 400. It does not default them to 0, and it
  checks only `ObjectId.isValid` on `gameId`, not that the game exists.
- **Dispatch.** `guess-term` is not dispatched by the player shell; it shows
  "unsupported".
- **Guess-the-term end of game.** Finishing sets a `finished` flag and leaves the
  index on the last question rather than moving past it. The submit button stays
  enabled while the correct answer is shown, so repeated wrong submits keep adding
  mistakes.

## Model

| member | source | states |
|---|---|---|
| Shuffle.Permute | src/components/games/MemoryGame.jsx:37 | a shuffle puts `s[order[i]]` at position i and keeps every element with its multiplicity |
| Shuffle.PermuteIdentity | src/components/games/MemoryGame.jsx:37 | the shuffle may leave the order unchanged: permuting by the identity returns the input |
| Shuffle.PickPermutationMultiset | src/components/games/AssociationGame.jsx:27-28 | rearranging by a permutation of positions preserves the multiset (proof by removing the last position) |
| Text.DecimalRoundTrip | src/components/games/MemoryGame.jsx:28 | parsing the decimal rendering of an id gives the id back |
| Text.TrimEmptyIffBlank | src/components/ContentManager.jsx:35 | `s.trim()` is empty exactly when every character of `s` is whitespace |
| Text.TrimIsSlice | src/components/games/GuessTermGame.jsx:40-41 | `trim()` yields a contiguous slice of the input with only whitespace cut off both ends |
| Text.TrimLower | src/components/games/GuessTermGame.jsx:40-41 | trimming and lower-casing commute |
| Text.ContainsIff | src/components/ContentManager.jsx:101-104 | `includes` holds exactly when the substring occurs at some position |
| Text.PadStart | src/components/GamePlayer.jsx:72 | `padStart` reaches the requested length, keeps the string as a suffix and fills the front |
| Memory.CardIdsDistinguish | src/components/games/MemoryGame.jsx:28-33 | `term-<id>` and `def-<id>` never collide and each determines the item id |
| Memory.DeckAt | src/components/games/MemoryGame.jsx:24-35 | the unshuffled deck holds item i's term card at 2i and its definition card at 2i+1 |
| Memory.DeckMembers | src/components/games/MemoryGame.jsx:24-35 | a card is in the deck iff it is the term or definition card of some item |
| Memory.DeckIdsDistinct | src/components/games/MemoryGame.jsx:24-35 | with distinct item ids, the 2N card ids are pairwise distinct |
| Memory.BuildCards | src/components/games/MemoryGame.jsx:23-35 | the `forEach` push loop builds exactly the two-cards-per-item deck |
| Memory.PairMatchKeepsIds | src/components/games/MemoryGame.jsx:46-58 | recording a found pair keeps the matched ids distinct card ids of the deck |
| Memory.MemoryGame.constructor | src/components/games/MemoryGame.jsx:22-43 | the board is a permutation of the 2N cards; flipped and matched empty, score and mistakes 0 |
| Memory.MemoryGame.HandleCardClick | src/components/games/MemoryGame.jsx:45-65 | ignored with two cards up, the card up, or its id matched; a pair adds both ids and exactly 100; a mismatch adds exactly one mistake and fires `onMistake`; score = 50 × matched is kept |
| Memory.MemoryGame.ClearFlipped | src/components/games/MemoryGame.jsx:62 | the delayed clear empties flipped and touches nothing else |
| Memory.MemoryGame.IsCardFlipped | src/components/games/MemoryGame.jsx:67-69 | a card shows its face iff it is turned or its id is matched |
| Memory.MemoryGame.ScoreBounded | src/components/games/MemoryGame.jsx:45-58 | at most 2N ids are matched, so 0 ≤ score ≤ 100N |
| Memory.MemoryGame.Completion | src/components/games/MemoryGame.jsx:16-20 | completion fires iff content is non-empty and all 2N ids are matched, reporting score = 100N and the mistakes |
| Association.AddMatchKeepsValid | src/components/games/AssociationGame.jsx:37-62 | appending the match of an unmatched item keeps every match self-paired and no item matched twice |
| Association.AssociationGame.constructor | src/components/games/AssociationGame.jsx:26-35 | terms and definitions are independent permutations of the content; no matches, zero counters |
| Association.AssociationGame.CheckMatch | src/components/games/AssociationGame.jsx:37-50 | equal ids add one match and exactly 100; different ids add exactly one mistake; both selections cleared either way |
| Association.AssociationGame.HandleTermClick | src/components/games/AssociationGame.jsx:52-56 | a matched term changes nothing; with no pending definition only the selection is recorded; otherwise the pair is checked |
| Association.AssociationGame.HandleDefinitionClick | src/components/games/AssociationGame.jsx:58-62 | the mirror image for definitions |
| Association.AssociationGame.ScoreBounded | src/components/games/AssociationGame.jsx:37-62 | no item is matched twice, so at most N matches and 0 ≤ score ≤ 100N |
| Association.AssociationGame.Completion | src/components/games/AssociationGame.jsx:20-24 | completion fires iff there are as many matches as items, reporting score = 100N |
| Quiz.BuildQuestion | src/components/games/QuizGame.jsx:20-33 | the prompt names the term; the correct answer is the item's definition and is among the options; the options are it plus up to three definitions of items with other ids |
| Quiz.OthersCount | src/components/games/QuizGame.jsx:21-22 | with distinct ids each item has exactly N−1 distractor candidates |
| Quiz.OptionsCount | src/components/games/QuizGame.jsx:21-27 | with distinct ids every question has 1 + min(3, N−1) options |
| Quiz.Questions | src/components/games/QuizGame.jsx:20-34 | one question per content item, in content order |
| Quiz.BuildQuestions | src/components/games/QuizGame.jsx:20-36 | the stored list is a permutation of one question per item, each with its answer among its options |
| Quiz.QuizGame.constructor | src/components/games/QuizGame.jsx:19-42 | index 0, no selection, score and mistakes 0, questions as built |
| Quiz.QuizGame.HandleAnswerSelect | src/components/games/QuizGame.jsx:44-57 | the first answer counts (+100 if correct, else one mistake and `onMistake`); later answers change nothing |
| Quiz.QuizGame.HandleNextQuestion | src/components/games/QuizGame.jsx:59-67 | on the last question reports `onComplete(score, mistakes)` and stays; otherwise advances with the answer cleared; on completion score/100 + mistakes = number of questions |
| Quiz.QuizGame.ScoreBounded | src/components/games/QuizGame.jsx:51-56 | 0 ≤ score ≤ 100 × number of questions |
| GuessTerm.Normalize | src/components/games/GuessTermGame.jsx:23-27 | over items holding any JSON values: each field is the first truthy value of term→termo→title→placeholder, definition→definição→description→placeholder, id→_id→position string (a numeric id is kept as a number); no field is falsy |
| GuessTerm.ZeroIdFallsThrough | src/components/games/GuessTermGame.jsx:26 | an id of 0 is falsy, so with no `_id` the position string is used |
| GuessTerm.Normalized | src/components/games/GuessTermGame.jsx:23-27 | one normalised entry per item, at its index |
| GuessTerm.SameAnswerIgnoresCase | src/components/games/GuessTermGame.jsx:40-43 | the comparison ignores letter case and surrounding whitespace of the answer, and accepts the term itself |
| GuessTerm.GuessTermGame.constructor | src/components/games/GuessTermGame.jsx:14-36 | with data, the questions are a permutation of the normalised items; missing or empty data gives none; all counters and flags reset |
| GuessTerm.GuessTermGame.SetAnswer | src/components/games/GuessTermGame.jsx:93-96 | typing sets the answer while it is not disabled |
| GuessTerm.GuessTermGame.Next | src/components/games/GuessTermGame.jsx:52-61 | clears answer and reveal; advances the index, or on the last question finishes |
| GuessTerm.GuessTermGame.Submit | src/components/games/GuessTermGame.jsx:38-50 | throws, changing nothing, iff there is no question or its term is not a string; otherwise a trimmed case-insensitive match scores 1 and advances as `next`, and anything else is one mistake, reveal, index unchanged |
| GuessTerm.GuessTermGame.Skip | src/components/games/GuessTermGame.jsx:63-67 | exactly one more mistake, then `next` |
| GuessTerm.GuessTermGame.ScoreBounded | src/components/games/GuessTermGame.jsx:44 | at most one point per question |
| Clock.JsRem | src/components/GamePlayer.jsx:71 | JavaScript `%`: the remainder lies strictly inside ±divisor with the dividend's sign |
| Clock.ElapsedSeconds | src/components/GamePlayer.jsx:31-32 | the whole seconds between start and end, rounded down; 0 when no start was recorded |
| Clock.FormatTime | src/components/GamePlayer.jsx:69-73 | the display has at least four characters, and for a non-negative count it ends with a colon and the two digits of `seconds % 60` |
| Clock.FormatTimeParts | src/components/GamePlayer.jsx:69-73 | for s ≥ 0 the display is the minutes, a colon and the two-digit seconds part |
| Clock.FormatTimeRoundTrip | src/components/GamePlayer.jsx:69-73 | reading the display back gives minutes × 60 + seconds = s, with seconds below 60 in two digits (the results page formats the same way) |
| Player.Dispatch | src/components/GamePlayer.jsx:82-91 | memory, association and quiz select their variant; every other type is unsupported |
| Player.GuessTermUnsupported | src/components/GamePlayer.jsx:82-91 | the guess-the-term type is not dispatched |
| Player.GamePlayer.constructor | src/components/GamePlayer.jsx:12-20 | a playing session with zeroed counters, started now |
| Player.GamePlayer.OnMistake | src/components/GamePlayer.jsx:79 | each `onMistake` adds exactly one to the live counter |
| Player.GamePlayer.HandleGameComplete | src/components/GamePlayer.jsx:30-53 | shows exactly the reported score and mistakes, finishes, and appends exactly one record carrying them, the elapsed time and the game's id/title/type; earlier records unchanged |
| Player.GamePlayer.HandleRestart | src/components/GamePlayer.jsx:61-67 | playing again with score, time and mistakes 0 and the start at now |
| Content.UserContent | src/components/GameGenerator.jsx:29-33 | exactly the stored items owned by the user are kept |
| Content.UserContentAppend | src/components/ContentManager.jsx:58-79 | an item the user adds shows up at the end of their list |
| Lists.FilterMultiset | src/components/ResultsManager.jsx:17 | every `.filter` keeps each kept value with its full multiplicity and drops every other value |
| Generator.Snapshot | src/components/GameGenerator.jsx:56 | the first min(N, 10) items, in order |
| Generator.SnapshotSize | src/components/GameGenerator.jsx:44-56 | a generated game holds between 3 and 10 items |
| Generator.UserGames | src/components/GameGenerator.jsx:35-39 | exactly the stored games owned by the user are kept |
| Generator.NewGameListed | src/components/GameGenerator.jsx:69-80 | a newly generated game appears at the end of the user's games |
| Generator.GameGenerator.constructor | src/components/GameGenerator.jsx:12-27 | mounting loads the user's content and games with an empty form (difficulty medium) |
| Generator.GameGenerator.LoadContent | src/components/GameGenerator.jsx:29-33 | the shown content is the user's part of the store |
| Generator.GameGenerator.LoadGames | src/components/GameGenerator.jsx:35-39 | the shown games are the user's part of the store |
| Generator.GameGenerator.SetTitle | src/components/GameGenerator.jsx:121 | typing changes only the title; the form stays well-formed |
| Generator.GameGenerator.SetDescription | src/components/GameGenerator.jsx:131 | typing changes only the description; the form stays well-formed |
| Generator.GameGenerator.SetType | src/components/GameGenerator.jsx:137-145 | choosing memory, association or quiz changes only the type; the difficulty stays medium |
| Generator.GameGenerator.GenerateGame | src/components/GameGenerator.jsx:41-82 | refused (nothing stored) iff title or type is empty or fewer than 3 items; otherwise one game with the form's fields, the user's id and the snapshot is appended, the list grows by it, and the form resets; a created game always has an offered type and difficulty medium |
| Authoring.TrimsToEmpty | src/components/ContentManager.jsx:35 | the `!s.trim()` test holds exactly for all-whitespace fields |
| Authoring.EditItems | src/components/ContentManager.jsx:47-51 | items with the edited id get the new term, definition and `updatedAt`; all others and the length are unchanged |
| Authoring.EditKeepsIds | src/components/ContentManager.jsx:47-51 | editing keeps the ids and their order |
| Authoring.EditAbsent | src/components/ContentManager.jsx:47-51 | editing an id no item has changes nothing |
| Authoring.DeleteItems | src/components/ContentManager.jsx:90 | no item with the id remains and every item with another id does |
| Authoring.DeleteConcat | src/components/ContentManager.jsx:90 | deletion splits over concatenation, so the survivors keep their order |
| Authoring.DeleteAbsent | src/components/ContentManager.jsx:90 | deleting an id no item has changes nothing |
| Authoring.DeleteIdempotent | src/components/ContentManager.jsx:88-91 | deleting twice is deleting once |
| Authoring.Search | src/components/ContentManager.jsx:101-104 | an item is shown iff its lower-cased term or definition includes the lower-cased query |
| Authoring.MatchesIff | src/components/ContentManager.jsx:101-104 | the search test holds iff the query occurs at some position of the term or the definition |
| Authoring.SearchEmptyQuery | src/components/ContentManager.jsx:101-104 | an empty query shows every item |
| Authoring.ContentManager.constructor | src/components/ContentManager.jsx:11-30 | mounting loads the user's items with an empty form and no edit mode |
| Authoring.ContentManager.LoadContent | src/components/ContentManager.jsx:26-30 | the list is the user's part of the store |
| Authoring.ContentManager.HandleSubmit | src/components/ContentManager.jsx:32-80 | refused with nothing changed iff term or definition is blank; edit mode rewrites the edited id; otherwise one item of this user with the untrimmed text is appended and listed; form cleared, edit mode off |
| Authoring.ContentManager.HandleEdit | src/components/ContentManager.jsx:82-86 | the form takes the item's text and edit mode targets its id |
| Authoring.ContentManager.CancelEdit | src/components/ContentManager.jsx:166-170 | leaves edit mode with an empty form |
| Authoring.ContentManager.SetForm | src/components/ContentManager.jsx:139-149 | typing into the term or definition field replaces the form with the typed text |
| Authoring.ContentManager.SetSearch | src/components/ContentManager.jsx:193 | typing into the search box sets the query that the shown list is filtered by |
| Authoring.ContentManager.HandleDelete | src/components/ContentManager.jsx:88-99 | the store loses exactly the items with that id and the list is reloaded |
| Authoring.ContentManager.FilteredContent | src/components/ContentManager.jsx:101-104 | the shown list is the loaded items that match the search box |
| Accounts.FindUser | src/components/LoginPage.jsx:23 | a found user is stored and has the e-mail and the password |
| Accounts.FindByEmail | src/components/LoginPage.jsx:54 | a found user is stored and has the e-mail |
| Accounts.FindUserFirst | src/components/LoginPage.jsx:22-27 | login finds a user iff one has both e-mail and password, and it is the first such user |
| Accounts.FindByEmailNone | src/components/LoginPage.jsx:54-56 | the duplicate check fails iff no stored user has the e-mail |
| Accounts.RegisterKeepsUnique | src/components/LoginPage.jsx:54-72 | appending a user whose e-mail was not found keeps e-mails unique |
| Accounts.RegisterThenLogin | src/components/LoginPage.jsx:23-72 | after a successful register with (e, p), login with (e, p) returns the new user |
| Accounts.LoginPage.constructor | src/components/LoginPage.jsx:11-14 | empty login and register forms, not loading, over a store whose e-mails are unique (an assumption on the initial store) |
| Accounts.LoginPage.SetLoginForm | src/components/LoginPage.jsx:112-124 | typing e-mail or password replaces the login form |
| Accounts.LoginPage.SetRegisterForm | src/components/LoginPage.jsx:148-184 | typing any of the four register fields replaces the register form |
| Accounts.LoginPage.HandleLogin | src/components/LoginPage.jsx:17-36 | the user handed to `onLogin` is the first with the credentials, or none |
| Accounts.LoginPage.HandleRegister | src/components/LoginPage.jsx:38-83 | password mismatch or a stored e-mail leaves the store alone; otherwise exactly one user is appended, the form is cleared, e-mails stay unique and the new user can log in |
| Results.UserResults | src/components/ResultsManager.jsx:17 | exactly the results of the current user are kept |
| Results.SortNewestFirst | src/components/ResultsManager.jsx:20-22 | the in-place sort leaves the array newest first and a permutation of its input |
| Results.InsertNewest | src/components/ResultsManager.jsx:20-22 | one insertion step extends the sorted prefix and keeps the multiset |
| Results.SwapDown | src/components/ResultsManager.jsx:20-22 | one exchange of neighbours of the in-place sort: exactly those two entries trade places and the multiset is kept |
| Results.GameTypeLabel | src/components/ResultsManager.jsx:41-49 | the four known types map to Memória, Associação, Quiz and Quem é? |
| Results.LabelKeepsUnknown | src/components/ResultsManager.jsx:41-49 | a type is shown unchanged iff it is none of the four |
| Results.ResultsManager.constructor | src/components/ResultsManager.jsx:7-8 | the page starts with no results and loading |
| Results.ResultsManager.Load | src/components/ResultsManager.jsx:10-33 | loading ends whether the fetch succeeds or fails; on success the list holds only the user's results, newest first, as a permutation of them |
| Requests.NullishIsFalsy | backend/routes/game-results.js:21 | `== null` holds only for undefined and null; false, 0 and '' are falsy but not nullish |
| ResultsRoute.Handle | backend/routes/game-results.js:20-39 | 400 "missing" iff a falsy id or a nullish counter; 400 "invalid" iff otherwise the game id is invalid; an accepted record copies the fields, with completedAt from the body if truthy, else now |
| ResultsRoute.ZeroCountersAccepted | backend/routes/game-results.js:21 | zero score, mistakes and time pass the check |
| ResultsRoute.FalsyIdsRefused | backend/routes/game-results.js:21-23 | a falsy user or game id is always refused before any insert |
| SharesRoute.OrEmpty | backend/routes/sharedGamesRoutes.js:8-15 | the `= ''` defaults apply to undefined only |
| SharesRoute.Post | backend/routes/sharedGamesRoutes.js:6-30 | 400 iff a truthy game id is invalid; otherwise the record takes the defaulted fields, a null id for a falsy one, and accessCount 0 |
| SharesRoute.AbsentGameIdAccepted | backend/routes/sharedGamesRoutes.js:18-24 | an absent game id is accepted and stored as null |
| SharesRoute.List | backend/routes/sharedGamesRoutes.js:43-52 | 400 iff the userId query is missing or empty; otherwise exactly the shares with that userId |
| SharesRoute.PostedShareListed | backend/routes/sharedGamesRoutes.js:22-52 | a share posted with a user id appears in that user's listing |

## Left out

- Rendering, icons, toasts and the feedback banners are presentation only. The
  Association feedback clear and the simulated one-second latencies of generation,
  login and registration collapse into the step they delay.
- Memory's one-second clear of a mismatched pair is the separate `ClearFlipped` step.
- The player's ticking timer effect is left out. That effect also re-sets `startTime`
  whenever `startTime` changes, and the model keeps the start recorded at mount or
  restart.
- Randomness is modelled only as "some permutation". The distribution of
  `sort(() => Math.random() - 0.5)` is not.
- `trim` and `toLowerCase` are restricted to ASCII case and the common whitespace
  characters. There is no Unicode case folding.
- `SharesRoute.List`: the `userId` query is modelled as absent or a string. Express
  also delivers a repeated parameter as an array and bracket syntax (`userId[$ne]=x`) as
  an object. Mongo would use such a value as an operator or an array match, and it would
  also match a stored `userId` that is an array containing the value. Neither is modelled.
- `ObjectId.isValid` is a parameter. The inserts, the Mongo query, the 201/500 replies
  and `new Date(...)` parsing are storage or I/O.
- `NaN` and invalid dates are not modelled: completion times are integers and numeric
  ids are naturals. `Results.SortNewestFirst` does not state the stability of
  JavaScript's sort.
- The `userId === user.id` comparisons compare values, not JavaScript types.
- `GuessTerm.GuessTermGame.Next`: the `onFinish(score, mistakes)` payload is not
  stated. React reports the values from before the final update.
- `GuessTerm.GuessTermGame.Submit`: where the code throws a `TypeError` (no question,
  or a term that is not a string), the model returns `Throws` with nothing changed. It
  does not model the error reaching React.
- `GuessTerm.Normalize`: raw items are records whose fields hold any JSON value or are
  missing. An element of `game.data` that is itself `null` or not an object is not
  modelled, and nor is a `game.data` that is not an array.
- The guess-the-term variant is modelled standalone, since the player shell does not
  dispatch it.
- The click handlers take only cards, terms or definitions that are on the board. The
  quiz's next button needs an answer, as the interface only offers it then.
- `Accounts.LoginPage.constructor` assumes a store with unique e-mails. Registration
  keeps it so, but a store edited elsewhere is not checked.
- The share-code generation and clipboard of the share manager are left out (random
  floats, browser APIs). So are the authentication routes (bcrypt, JWT), the other
  backend routes, the server startup, the mongoose schemas, the page routing of the
  app shell, the dashboard view and the backend form `salvar.js`.
