# Mugloar bot decision core in Dafny

This project models the decision core of a bot that plays the Mugloar text-adventure game over
an HTTP API, and proves properties of that model. It covers:

- the likelihood table (`Probability`): eleven labels, each with odds;
- the offer decoder (`MessageDecoder`): Base64 or ROT13, keeping the result only if the decoded label is recognised;
- the shop policy (`ShopService`): potion or next affordable catalog item, with a history that only grows;
- the game loop (`GameService.playGame`): fetch, decode, rank, solve, rebuild the snapshot, shop, while lives are above zero;
- the URL assembly of the API client (`GameClient`).

Files and modules:

- `wrappers.dfy` (`Wrappers`): `Option` stands for Java's `null` and `Optional`; `Result` stands for a thrown exception.
- `java_text.dfy` (`JavaText`): `String.trim`, ASCII `toLowerCase`/`equalsIgnoreCase`, and Java `int` subtraction with wrap-around.
- `dto.dfy` (`Dto`): the wire records `Message`, `GameStartResponse`, `SolveResponse`, `ShopItem` and `GameResult`.
- `probabilities.dfy` (`Probabilities`): the table, the lower-cased lookup map, `fromLabel`, `validProbabilities` and `valueForLabel`. Odds are integer hundredths (0.95 is 95). The loop only compares them, so the order is the same.
- `message_decoder.dfy` (`MessageDecoder`): ROT13 is an imperative loop, proved equal to its specification `Rot13`. `decode` is a function.
- `shop_policy.dfy` (`ShopPolicy`): `MaybeBuy` is the decision as a function of the state before the call. The class `ShopService` holds the catalog, the reserve and the purchase history. Its method `MaybeBuyItem` changes the history in place and is proved against `MaybeBuy`.
- `game_loop.dfy` (`GameLoop`): ranking, candidate filtering, and one loop iteration (`Turn`). `Run` is the loop as a specification. `PlayGame` is the imperative `while` loop that drives a `ShopService` object, proved to return what `Run` reports.
- `api_client.dfy` (`ApiClient`): `stripTrailingSlash`, the two constructors, `buildUrl`, `encodePathSegment` and the endpoint path templates.
- `scenarios.dfy` (`Scenarios`): the repository's unit-test situations restated as lemmas.

The game API is a script of its answers (`GameLoop.Responses`), used in order:

- each `getMessages` takes the next offer batch;
- each `solve` takes the next solve response;
- each `buyItem` takes the next reply. `true` means it answered; `false` means it threw.

A `getMessages` or `solve` call with no scripted answer is a failing call. It aborts the play-through without a result, because `playGame` does not catch API errors. A `buyItem` with no scripted answer counts as a throw, which the shop catches. The loop ends because the script is finite. The model also records the calls made (`GameLoop.Call`), so the lemmas can say which offer was solved and which item was requested.

Behaviour fixed by the code, worth knowing:

- `Stream.max` is `reduce(BinaryOperator.maxBy(cmp))`. Among candidates with equal rank the FIRST one wins (`GameLoop.BestIndex`).
- The shop is still consulted after the solve that takes lives to zero. With gold of at least 50 it then asks for a healing potion. If the catalog lists one, that is one more API call after the game is lost (`Scenarios.OneSolveEndsGame`); if not, `buyItem` finds no match and makes no call.
- `buyItem` looks the name up in the catalog ignoring case and sends the catalog entry's own id. The history records the candidate's id. If two catalog ids differed only in case, the item requested could differ from the one recorded. `ShopPolicy.RequestIsCandidate` shows they agree when the catalog ids are distinct ignoring case.
- `currentGold - goldReserveForHealing` is Java `int` arithmetic and wraps (`JavaText.Sub32`). It cannot wrap for non-negative gold and reserve.

## Model

| member | source | states |
|---|---|---|
| JavaText.EqualsIgnoreCase | src/main/java/ee/bigbank/task/core/ShopService.java:79 | no contract of its own: `equalsIgnoreCase` as equality of the ASCII lower-cased strings; `FindIgnoreCase` and `MaybeBuy` state what follows from it |
| JavaText.Sub32 | src/main/java/ee/bigbank/task/core/ShopService.java:64 | the affordability difference is the mathematical difference wrapped into 32 bits, and equals it whenever it fits |
| JavaText.SubNonNegativeExact | src/main/java/ee/bigbank/task/core/ShopService.java:64 | with non-negative gold and reserve the affordability check uses the exact difference |
| JavaText.Trim | src/main/java/ee/bigbank/task/core/Probability.java:58 | `trim` returns a slice of the input with no character <= U+0020 at either end, and only such characters are cut off |
| JavaText.TrimOfTrimmed | src/main/java/ee/bigbank/task/core/Probability.java:58 | trim leaves a string unchanged when neither end is a character <= U+0020 |
| JavaText.LowerChar | src/main/java/ee/bigbank/task/core/Probability.java:58 | an ASCII upper-case letter becomes its lower-case letter; every other character is kept |
| JavaText.ToLower | src/main/java/ee/bigbank/task/core/Probability.java:58 | lower-casing keeps the length and maps each character on its own |
| JavaText.ToLowerIdempotent | src/main/java/ee/bigbank/task/core/Probability.java:58 | lower-casing twice is lower-casing once |
| JavaText.TrimToLower | src/main/java/ee/bigbank/task/core/Probability.java:58 | lower-casing a trimmed string leaves nothing more to trim |
| JavaText.IsBlank | src/main/java/ee/bigbank/task/api/GameClient.java:97 | no contract of its own: `trim().isEmpty()`, the blank test of `stripTrailingSlash`; `BlankIffAllTrimmed` states it |
| JavaText.BlankIffAllTrimmed | src/main/java/ee/bigbank/task/api/GameClient.java:97 | a URL is blank exactly when all its characters are <= U+0020 |
| Probabilities.Label | src/main/java/ee/bigbank/task/core/Probability.java:15-25 | no contract of its own: each constant's display label (`values()` is the constant `Levels`); `LabelTrimmed`, `KeysDistinct` and `FromLabelOfLabel` state its properties |
| Probabilities.Value | src/main/java/ee/bigbank/task/core/Probability.java:15-25 | every level's odds lie in [0, 1] (as hundredths, 0..100) |
| Probabilities.LevelsComplete | src/main/java/ee/bigbank/task/core/Probability.java:15-25 | `values()` lists every level exactly once, eleven in all |
| Probabilities.ValuesDecreasing | src/main/java/ee/bigbank/task/core/Probability.java:15-25 | odds strictly decrease in declaration order; `Impossible` is the minimum |
| Probabilities.Key | src/main/java/ee/bigbank/task/core/Probability.java:46-50 | no contract of its own: the lookup key `label.toLowerCase(Locale.ROOT)`; `KeysDistinct` and `LookupMap` state its properties |
| Probabilities.KeysDistinct | src/main/java/ee/bigbank/task/core/Probability.java:46-50 | two levels with the same lower-cased label are the same level |
| Probabilities.DuplicateKeyStep | src/main/java/ee/bigbank/task/core/Probability.java:46-50 | a duplicate key of a non-empty sequence lies in its tail or pairs the head with a tail element, and conversely |
| Probabilities.LookupMap | src/main/java/ee/bigbank/task/core/Probability.java:46-50 | `toMap` throws exactly when two levels share a lower-cased label; otherwise its keys are exactly the lower-cased labels, each mapped to its own level |
| Probabilities.LookupMapBuilds | src/main/java/ee/bigbank/task/core/Probability.java:46-50 | building the lookup map over distinct levels never throws |
| Probabilities.ByLabelLowerExact | src/main/java/ee/bigbank/task/core/Probability.java:46-50 | the lookup map's keys are exactly the lower-cased labels, each mapped to its own level |
| Probabilities.ByLabelLower | src/main/java/ee/bigbank/task/core/Probability.java:46-50 | no contract of its own: the `BY_LABEL_LOWER` map, built by `LookupMap` over the declared levels; `ByLabelLowerExact` states its keys and values |
| Probabilities.FromLabel | src/main/java/ee/bigbank/task/core/Probability.java:56-60 | a found level's key is the trimmed, lower-cased input; null finds nothing |
| Probabilities.FromLabelRecognises | src/main/java/ee/bigbank/task/core/Probability.java:56-60 | a string finds level p exactly when its trimmed, lower-cased form is p's lower-cased label |
| Probabilities.FromLabelUnknown | src/main/java/ee/bigbank/task/core/Probability.java:56-60 | null and unrecognised labels give empty |
| Probabilities.FromLabelOfLabel | src/main/java/ee/bigbank/task/core/Probability.java:46-60 | round trip: every level's own label finds that level |
| Probabilities.LabelTrimmed | src/main/java/ee/bigbank/task/core/Probability.java:15-25 | no label begins or ends with a character that trim removes |
| Probabilities.FromLabelNormalises | src/main/java/ee/bigbank/task/core/Probability.java:58 | lookup ignores surrounding whitespace and ASCII case: fromLabel(s) == fromLabel(lower(trim(s))) |
| Probabilities.ValidProbabilities | src/main/java/ee/bigbank/task/core/Probability.java:62-66 | the set holds every declared label and nothing else |
| Probabilities.ValueForLabel | src/main/java/ee/bigbank/task/core/Probability.java:69-71 | the matched level's odds, or 0 when nothing matches; always within [0, 1] |
| MessageDecoder.Rot13Char | src/main/java/ee/bigbank/task/core/MessageDecoder.java:75-77 | one ROT13 step keeps lower case lower and upper case upper, changes every letter and nothing else |
| MessageDecoder.Rot13 | src/main/java/ee/bigbank/task/core/MessageDecoder.java:71-80 | ROT13 keeps the length and transforms each character on its own |
| MessageDecoder.Rot13CharInvolution | src/main/java/ee/bigbank/task/core/MessageDecoder.java:75-77 | applying the character step twice gives the character back |
| MessageDecoder.Rot13Involution | src/main/java/ee/bigbank/task/core/MessageDecoder.java:71-80 | ROT13 is its own inverse |
| MessageDecoder.Rot13Shape | src/main/java/ee/bigbank/task/core/MessageDecoder.java:71-80 | ROT13 preserves length and letter case and leaves every non-letter unchanged |
| MessageDecoder.DecryptRot13String | src/main/java/ee/bigbank/task/core/MessageDecoder.java:71-80 | the loop maps null to null and otherwise builds exactly ROT13 of the input |
| MessageDecoder.Rot13Field | src/main/java/ee/bigbank/task/core/MessageDecoder.java:72 | a null field stays null; a decoded field ROT13s back to the original |
| MessageDecoder.DecryptBase64String | src/main/java/ee/bigbank/task/core/MessageDecoder.java:61-69 | null stays null; a decodable field becomes its decoding; a malformed field comes back unchanged |
| MessageDecoder.DecodeFields | src/main/java/ee/bigbank/task/core/MessageDecoder.java:39-53 | only markers "1" and "2" select a cipher; any other marker decodes nothing |
| MessageDecoder.Decode | src/main/java/ee/bigbank/task/core/MessageDecoder.java:29-59 | null gives empty and anything else a result; the result is the original offer or has no marker, reward and expiry copied, and a recognised label |
| MessageDecoder.DecodePlain | src/main/java/ee/bigbank/task/core/MessageDecoder.java:32-33 | an offer without a marker comes back unchanged |
| MessageDecoder.DecodeUnknownMarker | src/main/java/ee/bigbank/task/core/MessageDecoder.java:50-52 | an offer with a marker other than "1" or "2" comes back unchanged |
| MessageDecoder.DecodeRot13 | src/main/java/ee/bigbank/task/core/MessageDecoder.java:45-58 | a ROT13 offer with a recognised decoded label becomes the decoded offer with the canonical label and no marker; otherwise the original |
| MessageDecoder.DecodeBase64 | src/main/java/ee/bigbank/task/core/MessageDecoder.java:40-58 | the same rule for Base64 offers, fields that fail to decode kept as they are |
| MessageDecoder.DecodeAllOrNothing | src/main/java/ee/bigbank/task/core/MessageDecoder.java:55-58 | decoding never yields a half-decoded offer: either the original or all fields decoded, with a recognised label |
| MessageDecoder.DecodeMalformedBase64 | src/main/java/ee/bigbank/task/core/MessageDecoder.java:61-68 | with undecodable Base64 and an unrecognised raw label, the original offer comes back |
| ShopPolicy.IsHealthPot | src/main/java/ee/bigbank/task/core/ShopService.java:47 | no contract of its own: the `HEALTH_POT.equalsIgnoreCase(item.id())` filter; `PotionIsPotion` and `NextUnpurchased` state its use |
| ShopPolicy.AllNonPotionBought | src/main/java/ee/bigbank/task/core/ShopService.java:46-48 | no contract of its own: `allNonHPBought`; `NextUnpurchased` states that it holds exactly when no unbought non-potion item is left |
| ShopPolicy.NextUnpurchased | src/main/java/ee/bigbank/task/core/ShopService.java:57-61 | the first catalog entry, in catalog order, that is not the potion (ignoring case) and not in the history; none exactly when all such entries are bought |
| ShopPolicy.FindIgnoreCase | src/main/java/ee/bigbank/task/core/ShopService.java:78-80 | the first catalog entry whose id equals the name ignoring case; none exactly when no entry matches |
| ShopPolicy.BuyRequest | src/main/java/ee/bigbank/task/core/ShopService.java:77-90 | the client is called with a catalog id matching the name ignoring case, and not called at all for a name absent from the catalog |
| ShopPolicy.MaybeBuy | src/main/java/ee/bigbank/task/core/ShopService.java:44-75 | true exactly when a buy call was made and answered; the healing branch never changes the history; a successful purchase of the next item appends that item's id; nothing else changes it |
| ShopPolicy.PotionBranch | src/main/java/ee/bigbank/task/core/ShopService.java:51-54 | with lives <= 1 or every other item bought, and gold >= 50, only the potion is requested, with no reserve check, and the history is unchanged |
| ShopPolicy.ItemBranch | src/main/java/ee/bigbank/task/core/ShopService.java:57-66 | otherwise a request is made exactly when there is a next unpurchased item and gold minus reserve covers its cost, and only for that item |
| ShopPolicy.FailedBuyChangesNothing | src/main/java/ee/bigbank/task/core/ShopService.java:82-88 | a buy that throws makes the call return false and leaves the history unchanged |
| ShopPolicy.MaybeBuyKeepsHistory | src/main/java/ee/bigbank/task/core/ShopService.java:57-70 | the history only grows, by at most one id, and keeps no duplicates, no potion and only catalog ids |
| ShopPolicy.RequestIsCandidate | src/main/java/ee/bigbank/task/core/ShopService.java:77-83 | when catalog ids are distinct ignoring case, the id requested is the candidate's own |
| ShopPolicy.ShopService.constructor | src/main/java/ee/bigbank/task/core/ShopService.java:26-28 | the two-argument constructor uses a reserve of 300 and starts with an empty history |
| ShopPolicy.ShopService.WithReserve | src/main/java/ee/bigbank/task/core/ShopService.java:30-35 | the three-argument constructor keeps the given reserve and catalog with an empty history |
| ShopPolicy.ShopService.BuyItem | src/main/java/ee/bigbank/task/core/ShopService.java:77-91 | an unknown name returns false without a call; otherwise the catalog's id is requested and the result is whether the client answered |
| ShopPolicy.ShopService.MaybeBuyItem | src/main/java/ee/bigbank/task/core/ShopService.java:44-75 | the call returns and requests what MaybeBuy decides, updates the history to MaybeBuy's, keeps the history invariant and only appends |
| ShopPolicy.WantsPotion | src/main/java/ee/bigbank/task/core/ShopService.java:46-51 | no contract of its own: the potion condition (at most one life, or every non-potion item bought) with at least 50 gold; `MaybeBuy`, `PotionBranch` and `ItemBranch` state what follows from it |
| GameLoop.BestIndex | src/main/java/ee/bigbank/task/core/GameService.java:51-55 | the chosen position has a lexicographically maximal (odds, expiresIn, reward) rank, and every earlier position ranks strictly lower, so ties go to the first |
| GameLoop.RankOf | src/main/java/ee/bigbank/task/core/GameService.java:52-55 | no contract of its own: the comparator's keys, odds from `valueForLabel`, then `expiresIn`, then `reward`; `Ranks` and `Best` state how it is used |
| GameLoop.Below | src/main/java/ee/bigbank/task/core/GameService.java:52-55 | no contract of its own: the comparator says "strictly below", lexicographically on the three keys; `BelowStrictTotal` states its order properties |
| GameLoop.BelowStrictTotal | src/main/java/ee/bigbank/task/core/GameService.java:52-55 | the comparator is a strict total order: irreflexive, transitive, and any two different ranks are comparable |
| GameLoop.BestOfTwo | src/main/java/ee/bigbank/task/core/GameService.java:51-55 | of two ranks the second wins only when the first is strictly below it |
| GameLoop.Best | src/main/java/ee/bigbank/task/core/GameService.java:51-55 | no choice exactly when there are no candidates; otherwise a candidate no other candidate outranks, taken at a position before which every candidate ranks strictly lower, so a tie keeps the first |
| GameLoop.BestOfPair | src/main/java/ee/bigbank/task/core/GameService.java:51-55 | of two offers the second is chosen only when the first ranks strictly below it; on a tie the first is kept |
| GameLoop.Candidates | src/main/java/ee/bigbank/task/core/GameService.java:45-48 | no more candidates than offers, and each candidate is the decoding of some offer in the batch |
| GameLoop.CandidatesOfPresent | src/main/java/ee/bigbank/task/core/GameService.java:45-48 | a batch without nulls loses nothing: the candidates are exactly the decoded offers, in batch order |
| GameLoop.CandidatesSingle | src/main/java/ee/bigbank/task/core/GameService.java:45-48 | a single null offer gives no candidate; any other gives exactly its decoding |
| GameLoop.CandidatesAppend | src/main/java/ee/bigbank/task/core/GameService.java:45-48 | filtering goes offer by offer and keeps batch order: the candidates of a + b are those of a followed by those of b |
| GameLoop.CandidatesUnfold | src/main/java/ee/bigbank/task/core/GameService.java:45-48 | the candidates of a batch are those of its first offer followed by those of the rest |
| GameLoop.ConsultShop | src/main/java/ee/bigbank/task/core/GameService.java:80 | consulting the shop leaves the snapshot, offers and solves alone and adds at most one call |
| GameLoop.Turn | src/main/java/ee/bigbank/task/core/GameService.java:44-81 | each iteration consumes exactly one offer batch, starts with one getMessages call, and keeps the game id and level |
| GameLoop.AfterSolve | src/main/java/ee/bigbank/task/core/GameService.java:67-75 | no contract of its own: the snapshot rebuilt after a solve; `AfterSolveFields` states its fields |
| GameLoop.Run | src/main/java/ee/bigbank/task/core/GameService.java:43-84 | the `while (lives > 0)` loop as a reference definition: a finished run has lives <= 0, the same game id and level, and an only-extended call log; `PlayGame` is proved equal to it and `RunEndsWithoutLives` adds the history invariant |
| GameLoop.Report | src/main/java/ee/bigbank/task/core/GameService.java:84 | an aborted run reports nothing and a finished one always reports a result |
| GameLoop.Initial | src/main/java/ee/bigbank/task/core/GameService.java:39-41 | no contract of its own: the session after `startGame` and the catalog fetch, with an empty history and call log |
| GameLoop.RunEndsWithoutLives | src/main/java/ee/bigbank/task/core/GameService.java:43-84 | a finished run ends with lives <= 0, in the same game and level, with a valid, only-extended history |
| GameLoop.TurnKeepsHistory | src/main/java/ee/bigbank/task/core/GameService.java:59-80 | an iteration keeps the purchase history valid and only extends it |
| GameLoop.NoLivesNoCalls | src/main/java/ee/bigbank/task/core/GameService.java:43-84 | with lives <= 0 at the start no messages are fetched and the start snapshot's id, score and turn are returned |
| GameLoop.TurnWithoutCandidates | src/main/java/ee/bigbank/task/core/GameService.java:57-60 | with no candidates: one fetch, no solve, snapshot unchanged, and the shop consulted with the current gold and lives |
| GameLoop.TurnWithCandidates | src/main/java/ee/bigbank/task/core/GameService.java:61-81 | with candidates: one fetch, one solve of the top-ranked candidate, the snapshot rebuilt from the response, and the shop consulted with the post-solve gold and lives |
| GameLoop.AfterSolveFields | src/main/java/ee/bigbank/task/core/GameService.java:67-75 | the new snapshot takes lives, gold, score, highScore and turn from the response and keeps gameId and level |
| GameLoop.AskShop | src/main/java/ee/bigbank/task/core/GameService.java:59 | one shop consultation uses the next scripted buy reply only when a buy call is made |
| GameLoop.PlayGame | src/main/java/ee/bigbank/task/core/GameService.java:38-85 | the loop returns exactly what the specification Run reports, with the starting game id |
| ApiClient.StripTrailingSlash | src/main/java/ee/bigbank/task/api/GameClient.java:96-101 | null or blank URLs throw IllegalArgumentException; otherwise exactly one trailing slash is removed if present |
| ApiClient.NewClientWithHttp | src/main/java/ee/bigbank/task/api/GameClient.java:41-44 | null is rejected by `requireNonNull`; a blank URL throws IllegalArgumentException; otherwise the client stores the input with one trailing slash stripped |
| ApiClient.NewClient | src/main/java/ee/bigbank/task/api/GameClient.java:37-39 | a null or blank URL throws IllegalArgumentException; otherwise the result is the two-argument constructor applied to the stripped URL |
| ApiClient.BuildUrl | src/main/java/ee/bigbank/task/api/GameClient.java:77-88 | one slash dropped when both sides have one, one inserted when neither has, plain concatenation otherwise |
| ApiClient.BuildUrlOneSlash | src/main/java/ee/bigbank/task/api/GameClient.java:77-88 | the joint always holds exactly one slash: base without its trailing slash, "/", path without its leading slash |
| ApiClient.EncodePathSegment | src/main/java/ee/bigbank/task/api/GameClient.java:91-94 | null stays null; otherwise the encoder's output with every '+' replaced, so no '+' is left |
| ApiClient.ReplacePlus | src/main/java/ee/bigbank/task/api/GameClient.java:93 | no '+' survives, and a string without '+' is unchanged |
| ApiClient.ReplacePlusChar | src/main/java/ee/bigbank/task/api/GameClient.java:93 | a single '+' becomes "%20"; any other character is kept |
| ApiClient.ReplacePlusAppend | src/main/java/ee/bigbank/task/api/GameClient.java:93 | the replacement distributes over concatenation, so it works character by character |
| ApiClient.EncodedSpace | src/main/java/ee/bigbank/task/api/GameClient.java:90-94 | a '+' the encoder produced for a space reaches the path as "%20" |
| ApiClient.StripSlashed | src/main/java/ee/bigbank/task/api/GameClient.java:100 | stripping a non-blank string plus one slash gives the string back |
| ApiClient.StartUrlIgnoresTrailingSlash | src/test/java/ee/bigbank/task/api/GameClientTest.java:33-57 | a base with or without a trailing slash yields the same start URL, base + "/game/start" |
| ApiClient.ConstructorsRefuse | src/main/java/ee/bigbank/task/api/GameClient.java:37-44 | null and blank base URLs are refused, null by `requireNonNull` in the two-argument constructor |
| ApiClient.ConstructorsStripDifferently | src/main/java/ee/bigbank/task/api/GameClient.java:37-44 | the one-argument constructor strips two trailing slashes, the two-argument one strips one |
| ApiClient.JoinSlashPath | src/main/java/ee/bigbank/task/api/GameClient.java:77-88 | a path starting with a slash is joined to the base without its trailing slash |
| ApiClient.StartUrlForm | src/main/java/ee/bigbank/task/api/GameClient.java:46-49 | the start URL is the base without trailing slash plus "/game/start" |
| ApiClient.MessagesUrlForm | src/main/java/ee/bigbank/task/api/GameClient.java:52-55 | the messages URL is base + "/" + enc(gameId) + "/messages" |
| ApiClient.ShopUrlForm | src/main/java/ee/bigbank/task/api/GameClient.java:62-65 | the shop URL is base + "/" + enc(gameId) + "/shop" |
| ApiClient.InvestigateUrlForm | src/main/java/ee/bigbank/task/api/GameClient.java:72-75 | the investigate URL is base + "/" + enc(gameId) + "/investigate/reputation" |
| ApiClient.SolveUrlForm | src/main/java/ee/bigbank/task/api/GameClient.java:57-60 | the solve URL is base + "/" + enc(gameId) + "/solve/" + enc(adId) |
| ApiClient.BuyUrlForm | src/main/java/ee/bigbank/task/api/GameClient.java:67-70 | the buy URL is base + "/" + enc(gameId) + "/shop/buy/" + enc(itemId) |
| ApiClient.NullSegment | src/main/java/ee/bigbank/task/api/GameClient.java:92 | a null id is encoded as null and appears in the URL as the text "null" |
| ApiClient.FormatArg | src/main/java/ee/bigbank/task/api/GameClient.java:53 | no contract of its own: `String.format` prints a null argument as "null"; `NullSegment` states its effect on a URL |
| ApiClient.PathMessages | src/main/java/ee/bigbank/task/api/GameClient.java:28 | no contract of its own: the `PATH_MESSAGES` template with the game id filled in; `MessagesUrlForm` states the URL it yields |
| ApiClient.PathSolve | src/main/java/ee/bigbank/task/api/GameClient.java:29 | no contract of its own: the `PATH_SOLVE` template; `SolveUrlForm` states the URL it yields |
| ApiClient.PathShop | src/main/java/ee/bigbank/task/api/GameClient.java:30 | no contract of its own: the `PATH_SHOP` template; `ShopUrlForm` states the URL it yields |
| ApiClient.PathBuy | src/main/java/ee/bigbank/task/api/GameClient.java:31 | no contract of its own: the `PATH_BUY` template; `BuyUrlForm` states the URL it yields |
| ApiClient.PathInvestigate | src/main/java/ee/bigbank/task/api/GameClient.java:32 | no contract of its own: the `PATH_INVESTIGATE` template; `InvestigateUrlForm` states the URL it yields |
| ApiClient.StartUrl | src/main/java/ee/bigbank/task/api/GameClient.java:46-50 | no contract of its own: `startGame`'s URL, `buildUrl(PATH_START)` (the constant `PathStart`, line 27); `StartUrlForm` and `StartUrlIgnoresTrailingSlash` state it |
| ApiClient.MessagesUrl | src/main/java/ee/bigbank/task/api/GameClient.java:52-55 | no contract of its own: `getMessages`'s URL; `MessagesUrlForm` states it |
| ApiClient.SolveUrl | src/main/java/ee/bigbank/task/api/GameClient.java:57-60 | no contract of its own: `solve`'s URL; `SolveUrlForm` states it |
| ApiClient.ShopUrl | src/main/java/ee/bigbank/task/api/GameClient.java:62-65 | no contract of its own: `getShop`'s URL; `ShopUrlForm` states it |
| ApiClient.BuyUrl | src/main/java/ee/bigbank/task/api/GameClient.java:67-70 | no contract of its own: `buyItem`'s URL; `BuyUrlForm` states it |
| ApiClient.InvestigateUrl | src/main/java/ee/bigbank/task/api/GameClient.java:72-75 | no contract of its own: `investigate`'s URL; `InvestigateUrlForm` states it |
| Scenarios.PotionIsPotion | src/test/java/ee/bigbank/task/core/ShopServiceTest.java:33-49 | "hpot" is the healing potion and "cs" is not |
| Scenarios.LowLivesBuysPotion | src/test/java/ee/bigbank/task/core/ShopServiceTest.java:33-49 | one life and 100 gold: the potion is bought although the reserve is 400 |
| Scenarios.ReserveBlocksItem | src/test/java/ee/bigbank/task/core/ShopServiceTest.java:69-83 | 180 gold with reserve 300 does not cover cost 120: false, and no buy call |
| Scenarios.RejectedPotion | src/test/java/ee/bigbank/task/core/ShopServiceTest.java:117-130 | a potion buy that throws returns false |
| Scenarios.AffordableItemRecorded | src/test/java/ee/bigbank/task/core/ShopServiceTest.java:51-67 | 450 gold with reserve 300 buys the 120-gold item and records it |
| Scenarios.ExpiryBreaksOddsTie | src/test/java/ee/bigbank/task/core/GameServiceTest.java:34-81 | with equal odds the offer with more turns to expiry is chosen over the one with the higher reward |
| Scenarios.ExpiryTieLowHigh | src/test/java/ee/bigbank/task/core/GameServiceTest.java:120-153 | of the two "Piece of cake" offers, reward 150 expiring in 1 and reward 120 expiring in 6, the later-expiring one is chosen |
| Scenarios.OddsOfLabel | src/main/java/ee/bigbank/task/core/GameService.java:53 | an offer carrying a level's own label is ranked with that level's odds |
| Scenarios.HigherOddsChosen | src/main/java/ee/bigbank/task/core/GameService.java:51-55 | of two offers, the one with strictly higher odds is chosen, in either order |
| Scenarios.OddsDominate | src/main/java/ee/bigbank/task/core/GameService.java:51-55 | an offer whose label has higher odds is chosen over one with lower odds, whatever their expiries and rewards and in either order |
| Scenarios.PotionAfterLastSolve | src/main/java/ee/bigbank/task/core/ShopService.java:51-54 | with no lives left and 120 gold the shop asks for the potion and records nothing |
| Scenarios.ScenarioTurn | src/test/java/ee/bigbank/task/core/GameServiceTest.java:34-81 | the scenario's only turn fetches once, solves B2 and then requests "hpot" |
| Scenarios.OneSolveEndsGame | src/test/java/ee/bigbank/task/core/GameServiceTest.java:34-81 | two lives, one batch: the later-expiring offer is solved, zero lives end the loop, and the result takes the response's score and turn; the shop still asks for a potion afterwards |

## Left out

- HTTP transport, JSON parsing, status-code handling and `HttpHelper` are not part of this model, and neither is the `requireNonNull(http)` check in the two-argument `GameClient` constructor: a null HTTP helper is not modelled. The game API is the scripted `GameLoop.Responses`.
- `Base64.getDecoder()` followed by UTF-8 decoding is the parameter `base64` of the decoder: a partial function, undefined exactly where the JDK throws. No property of the JDK decoder (such as decode after encode) is assumed.
- `URLEncoder.encode` is the parameter `urlEncode`. Only the '+'-to-"%20" replacement after it is modelled.
- `toLowerCase(Locale.ROOT)` and `equalsIgnoreCase` are modelled on ASCII letters only. Non-ASCII case mapping is not modelled.
- Probability odds are integer hundredths, not `double`s. Only their order is used.
- `startGame` and `getShop` always answer; their failures are not modelled. Failures of `getMessages` and `solve` are (an empty script aborts the run).
- `GameService` takes its decoder by injection. The model always uses `MessageDecoder.Decode`.
- Null `gameId`, null catalog ids and a null catalog list are not modelled. Nor are the `requireNonNull` checks on the client and game id in `ShopService`.
- `ShopItem`, `BuyResponse`, `GameResult` and `ReputationResponse` are not part of this model as files. Their fields are taken from how the core uses them. The buy response's contents are ignored, as the core does.
- Object identity: "the very same message" is value equality here.
- An endless `playGame` is not modelled. The source loop has no bound; a finite script always ends it, by a result or an abort.
- Logging and the application bootstrap are not modelled.
