/**
 * One play-through: fetch offers, decode them, pick the best, solve it, rebuild the
 * snapshot, consult the shop; repeat while lives are above zero.
 *
 * The game API is a script of its answers, consumed in order: one offer batch per
 * `getMessages`, one solve response per `solve`, one reply per `buyItem` (true: it
 * answered, false: it threw). A `getMessages` or `solve` with no scripted answer is a
 * failing call, which aborts the play-through without a result; a `buyItem` with no
 * scripted answer throws, which the shop absorbs.
 */
module GameLoop {
  import opened Wrappers
  import opened JavaText
  import opened Dto
  import opened Probabilities
  import opened MessageDecoder
  import opened ShopPolicy

  // ---------------------------------------------------------------- selection

  /** The ranking of an offer: odds first, then turns to expiry, then reward. */
  datatype Rank = Rank(odds: int, expiresIn: int, reward: int)

  function RankOf(m: Message): Rank {
    Rank(ValueForLabel(m.probability), m.expiresIn, m.reward)
  }

  /** The comparator says `a` ranks strictly below `b` (lexicographic on the three keys). */
  predicate Below(a: Rank, b: Rank) {
    a.odds < b.odds ||
    (a.odds == b.odds && (a.expiresIn < b.expiresIn || (a.expiresIn == b.expiresIn && a.reward < b.reward)))
  }

  /** The comparator is a strict total order on ranks: never below itself, transitive, and of
      two different ranks one is below the other. */
  lemma BelowStrictTotal(a: Rank, b: Rank, c: Rank)
    ensures !Below(a, a)
    ensures Below(a, b) && Below(b, c) ==> Below(a, c)
    ensures a != b ==> Below(a, b) || Below(b, a)
  {
  }

  /** The ranks of the candidates, position by position. */
  function Ranks(candidates: seq<Message>): (r: seq<Rank>)
    ensures |r| == |candidates|
    ensures forall i :: 0 <= i < |candidates| ==> r[i] == RankOf(candidates[i])
  {
    seq(|candidates|, i requires 0 <= i < |candidates| => RankOf(candidates[i]))
  }

  /** `Stream.max` is `reduce(BinaryOperator.maxBy(cmp))`, which keeps the running winner unless
      the next offer ranks strictly above it. This is the position of that winner. */
  function BestIndex(ranks: seq<Rank>): (k: nat)
    requires |ranks| > 0
    ensures k < |ranks|
    ensures forall j :: 0 <= j < |ranks| ==> !Below(ranks[k], ranks[j])
    ensures forall j :: 0 <= j < k ==> Below(ranks[j], ranks[k])
  {
    if |ranks| == 1 then 0
    else
      var last := |ranks| - 1;
      var k := BestIndex(ranks[..last]);
      assert ranks[..last][k] == ranks[k];
      assert forall j :: 0 <= j < last ==> ranks[..last][j] == ranks[j];
      if Below(ranks[k], ranks[last]) then last else k
  }

  /** Of two ranks, the second wins only when the first ranks strictly below it. */
  lemma BestOfTwo(x: Rank, y: Rank)
    ensures BestIndex([x, y]) == if Below(x, y) then 1 else 0
  {
    assert [x, y][..1] == [x];
  }

  /** The chosen offer: none when there are no candidates. */
  function Best(candidates: seq<Message>): (r: Option<Message>)
    ensures r.None? <==> candidates == []
    ensures r.Some? ==> r.value in candidates
    ensures r.Some? ==> forall m :: m in candidates ==> !Below(RankOf(r.value), RankOf(m))
    ensures r.Some? ==>
      exists k :: 0 <= k < |candidates| && r.value == candidates[k] &&
                  (forall j :: 0 <= j < k ==> Below(RankOf(candidates[j]), RankOf(r.value)))
  {
    if candidates == [] then None
    else
      var ranks := Ranks(candidates);
      var k := BestIndex(ranks);
      assert forall m :: m in candidates ==> exists j :: 0 <= j < |candidates| && candidates[j] == m;
      assert forall j :: 0 <= j < k ==> Below(RankOf(candidates[j]), RankOf(candidates[k]));
      Some(candidates[k])
  }

  /** Of two offers the second is chosen only when the first ranks strictly below it, so a
      tie keeps the first. */
  lemma BestOfPair(x: Rank, y: Rank, a: Message, b: Message)
    requires x == RankOf(a) && y == RankOf(b)
    ensures Best([a, b]) == if Below(x, y) then Some(b) else Some(a)
  {
    assert Ranks([a, b]) == [x, y];
    BestOfTwo(x, y);
  }

  /** Decode every offer of a batch and drop the empty results, keeping the batch's order. */
  function Candidates(batch: seq<Option<Message>>, base64: string -> Option<string>): (r: seq<Message>)
    ensures |r| <= |batch|
    ensures forall m :: m in r ==> exists i :: 0 <= i < |batch| && Decode(batch[i], base64) == Some(m)
  {
    if batch == [] then []
    else
      var rest := Candidates(batch[1..], base64);
      assert forall i :: 0 <= i < |batch| - 1 ==> batch[1..][i] == batch[i + 1];
      match Decode(batch[0], base64)
      case None => rest
      case Some(m) => [m] + rest
  }

  /** A batch without null entries loses nothing: every offer decodes to a candidate, in order. */
  lemma {:induction false} CandidatesOfPresent(batch: seq<Option<Message>>, base64: string -> Option<string>)
    requires forall i :: 0 <= i < |batch| ==> batch[i].Some?
    ensures |Candidates(batch, base64)| == |batch|
    ensures forall i :: 0 <= i < |batch| ==> Some(Candidates(batch, base64)[i]) == Decode(batch[i], base64)
  {
    if batch != [] {
      CandidatesOfPresent(batch[1..], base64);
      var m := Decode(batch[0], base64).value;
      var rest := Candidates(batch[1..], base64);
      assert Candidates(batch, base64) == [m] + rest;
      forall i | 0 < i < |batch|
        ensures Some(Candidates(batch, base64)[i]) == Decode(batch[i], base64)
      {
        assert batch[1..][i - 1] == batch[i];
      }
    }
  }

  /** One offer on its own: a null entry gives no candidate, any other gives its decoding. */
  lemma CandidatesSingle(x: Option<Message>, base64: string -> Option<string>)
    ensures Candidates([x], base64) == if x.None? then [] else [Decode(x, base64).value]
  {
    assert [x][1..] == [];
  }

  /** Filtering works offer by offer and keeps the batch order: the candidates of two batches
      placed one after the other are the candidates of the first followed by those of the second. */
  lemma {:induction false} CandidatesAppend(a: seq<Option<Message>>, b: seq<Option<Message>>,
                                            base64: string -> Option<string>)
    ensures Candidates(a + b, base64) == Candidates(a, base64) + Candidates(b, base64)
  {
    if a == [] {
      assert a + b == b;
    } else {
      var head := Candidates([a[0]], base64);
      calc {
        Candidates(a + b, base64);
      == { CandidatesUnfold(a + b, base64); assert (a + b)[0] == a[0]; assert (a + b)[1..] == a[1..] + b; }
        head + Candidates(a[1..] + b, base64);
      == { CandidatesAppend(a[1..], b, base64); }
        head + (Candidates(a[1..], base64) + Candidates(b, base64));
      == { CandidatesUnfold(a, base64); }
        Candidates(a, base64) + Candidates(b, base64);
      }
    }
  }

  /** The candidates of a non-empty batch: those of its first offer, then those of the rest. */
  lemma CandidatesUnfold(batch: seq<Option<Message>>, base64: string -> Option<string>)
    requires batch != []
    ensures Candidates(batch, base64) == Candidates([batch[0]], base64) + Candidates(batch[1..], base64)
  {
    CandidatesSingle(batch[0], base64);
  }

  // ---------------------------------------------------------------- the scripted API

  /** The answers the game API gives, in the order it is asked. */
  datatype Responses = Responses(
    batches: seq<seq<Option<Message>>>,
    solves: seq<SolveResponse>,
    buys: seq<bool>)

  /** The calls the loop makes to the game API. */
  datatype Call = GetMessages | Solve(adId: Option<string>) | Buy(itemId: string)

  /** Everything a play-through carries from one turn to the next. */
  datatype Session = Session(
    game: GameStartResponse,
    purchased: seq<string>,
    api: Responses,
    calls: seq<Call>)

  /** The snapshot after a solve: lives, gold, score, high score and turn come from the
      response; the game id and the level are kept. */
  function AfterSolve(game: GameStartResponse, solved: SolveResponse): GameStartResponse {
    GameStartResponse(game.gameId, solved.lives, solved.gold, game.level,
                      solved.score, solved.highScore, solved.turn)
  }

  /** `maybeBuyItem(gold, lives)` against the script. */
  function ConsultShop(s: Session, catalog: seq<ShopItem>, reserve: int32, gold: int32, lives: int32): (t: Session)
    ensures t.game == s.game && t.api.batches == s.api.batches && t.api.solves == s.api.solves
    ensures s.calls <= t.calls && |t.calls| <= |s.calls| + 1
  {
    var reply := if s.api.buys != [] then s.api.buys[0] else false;
    var p := MaybeBuy(catalog, s.purchased, reserve, gold, lives, reply);
    match p.request
    case None => s.(purchased := p.purchased)
    case Some(id) =>
      var buys := if s.api.buys != [] then s.api.buys[1..] else [];
      Session(s.game, p.purchased, s.api.(buys := buys), s.calls + [Buy(id)])
  }

  /** One pass of the loop body; `None` when a `getMessages` or `solve` call fails. */
  function Turn(s: Session, catalog: seq<ShopItem>, reserve: int32, base64: string -> Option<string>)
    : (r: Option<Session>)
    ensures r.Some? ==> s.api.batches != [] && r.value.api.batches == s.api.batches[1..]
    ensures r.Some? ==> r.value.game.gameId == s.game.gameId && r.value.game.level == s.game.level
    ensures r.Some? ==> s.calls + [GetMessages] <= r.value.calls
  {
    if s.api.batches == [] then None
    else
      var candidates := Candidates(s.api.batches[0], base64);
      var fetched := s.(api := s.api.(batches := s.api.batches[1..]), calls := s.calls + [GetMessages]);
      match Best(candidates)
      case None =>
        Some(ConsultShop(fetched, catalog, reserve, s.game.gold, s.game.lives))
      case Some(chosen) =>
        if fetched.api.solves == [] then None
        else
          var game := AfterSolve(s.game, fetched.api.solves[0]);
          var solved := Session(game, fetched.purchased, fetched.api.(solves := fetched.api.solves[1..]),
                                fetched.calls + [Solve(chosen.adId)]);
          Some(ConsultShop(solved, catalog, reserve, game.gold, game.lives))
  }

  /** The loop: turns while lives are above zero. A run that finishes has no lives left, is
      still the same game at the same level, and has only added to the call log. */
  function Run(s: Session, catalog: seq<ShopItem>, reserve: int32, base64: string -> Option<string>)
    : (r: Option<Session>)
    ensures r.Some? ==> r.value.game.lives <= 0
    ensures r.Some? ==> r.value.game.gameId == s.game.gameId && r.value.game.level == s.game.level
    ensures r.Some? ==> s.calls <= r.value.calls
    decreases |s.api.batches|
  {
    if s.game.lives <= 0 then Some(s)
    else
      match Turn(s, catalog, reserve, base64)
      case None => None
      case Some(t) => Run(t, catalog, reserve, base64)
  }

  /** What `playGame` returns for a final session; nothing when the play-through aborted. */
  function Report(run: Option<Session>): (r: Option<GameResult>)
    ensures r.None? <==> run.None?
  {
    match run
    case None => None
    case Some(t) => Some(GameResult(t.game.gameId, t.game.score, t.game.turn))
  }

  /** The session right after `startGame` and the catalog fetch. */
  function Initial(start: GameStartResponse, responses: Responses): Session {
    Session(start, [], responses, [])
  }

  // ---------------------------------------------------------------- properties

  /** A finished run ends with no lives left, in the same game and level, with the history
      still valid and only extended, and the call log only extended. */
  lemma {:induction false} RunEndsWithoutLives(s: Session, catalog: seq<ShopItem>, reserve: int32,
                                               base64: string -> Option<string>)
    requires HistoryValid(catalog, s.purchased)
    ensures var r := Run(s, catalog, reserve, base64);
      r.Some? ==>
        (r.value.game.lives <= 0 && r.value.game.gameId == s.game.gameId &&
         r.value.game.level == s.game.level && s.purchased <= r.value.purchased &&
         HistoryValid(catalog, r.value.purchased) && s.calls <= r.value.calls)
    decreases |s.api.batches|
  {
    if s.game.lives > 0 {
      match Turn(s, catalog, reserve, base64)
      case None =>
      case Some(t) =>
        TurnKeepsHistory(s, catalog, reserve, base64);
        RunEndsWithoutLives(t, catalog, reserve, base64);
    }
  }

  lemma TurnKeepsHistory(s: Session, catalog: seq<ShopItem>, reserve: int32, base64: string -> Option<string>)
    requires HistoryValid(catalog, s.purchased)
    ensures var r := Turn(s, catalog, reserve, base64);
      r.Some? ==> HistoryValid(catalog, r.value.purchased) && s.purchased <= r.value.purchased
  {
    if s.api.batches != [] {
      var reply := if s.api.buys != [] then s.api.buys[0] else false;
      if Candidates(s.api.batches[0], base64) == [] {
        TurnWithoutCandidates(s, catalog, reserve, base64);
        MaybeBuyKeepsHistory(catalog, s.purchased, reserve, s.game.gold, s.game.lives, reply);
      } else if s.api.solves != [] {
        TurnWithCandidates(s, catalog, reserve, base64);
        var game := AfterSolve(s.game, s.api.solves[0]);
        MaybeBuyKeepsHistory(catalog, s.purchased, reserve, game.gold, game.lives, reply);
      }
    }
  }

  /** With no lives at the start no turn runs: no offers are fetched and the start snapshot is reported. */
  lemma NoLivesNoCalls(start: GameStartResponse, responses: Responses, catalog: seq<ShopItem>,
                       reserve: int32, base64: string -> Option<string>)
    requires start.lives <= 0
    ensures Run(Initial(start, responses), catalog, reserve, base64) == Some(Initial(start, responses))
    ensures Report(Run(Initial(start, responses), catalog, reserve, base64)) ==
      Some(GameResult(start.gameId, start.score, start.turn))
  {
  }

  /** A turn without candidates: one fetch, no solve, the snapshot kept, and the shop asked
      with the current gold and lives. */
  lemma TurnWithoutCandidates(s: Session, catalog: seq<ShopItem>, reserve: int32, base64: string -> Option<string>)
    requires s.api.batches != [] && Candidates(s.api.batches[0], base64) == []
    ensures var r := Turn(s, catalog, reserve, base64);
      var reply := if s.api.buys != [] then s.api.buys[0] else false;
      var p := MaybeBuy(catalog, s.purchased, reserve, s.game.gold, s.game.lives, reply);
      r.Some? && r.value.game == s.game &&
      r.value.api == Responses(s.api.batches[1..], s.api.solves,
                               if p.request.Some? && s.api.buys != [] then s.api.buys[1..] else s.api.buys) &&
      r.value.purchased == p.purchased &&
      r.value.calls == s.calls + [GetMessages] + (if p.request.Some? then [Buy(p.request.value)] else [])
  {
  }

  /** A turn with candidates: one fetch, one solve of the best-ranked candidate, the snapshot
      rebuilt from the response, and the shop asked with the post-solve gold and lives. */
  lemma TurnWithCandidates(s: Session, catalog: seq<ShopItem>, reserve: int32, base64: string -> Option<string>)
    requires s.api.batches != [] && s.api.solves != []
    requires Candidates(s.api.batches[0], base64) != []
    ensures var candidates := Candidates(s.api.batches[0], base64);
      var chosen := Best(candidates).value;
      var game := AfterSolve(s.game, s.api.solves[0]);
      var reply := if s.api.buys != [] then s.api.buys[0] else false;
      var p := MaybeBuy(catalog, s.purchased, reserve, game.gold, game.lives, reply);
      var r := Turn(s, catalog, reserve, base64);
      r.Some? && r.value.game == game &&
      r.value.api == Responses(s.api.batches[1..], s.api.solves[1..],
                               if p.request.Some? && s.api.buys != [] then s.api.buys[1..] else s.api.buys) &&
      r.value.purchased == p.purchased &&
      r.value.calls == s.calls + [GetMessages, Solve(chosen.adId)] +
        (if p.request.Some? then [Buy(p.request.value)] else []) &&
      chosen in candidates &&
      forall m :: m in candidates ==> !Below(RankOf(chosen), RankOf(m))
  {
    var chosen := Best(Candidates(s.api.batches[0], base64)).value;
    var game := AfterSolve(s.game, s.api.solves[0]);
    var solved := Session(game, s.purchased, Responses(s.api.batches[1..], s.api.solves[1..], s.api.buys),
                          s.calls + [GetMessages] + [Solve(chosen.adId)]);
    assert Turn(s, catalog, reserve, base64) == Some(ConsultShop(solved, catalog, reserve, game.gold, game.lives));
    assert s.calls + [GetMessages] + [Solve(chosen.adId)] == s.calls + [GetMessages, Solve(chosen.adId)];
  }

  /** The snapshot rebuilt after a solve takes its counters from the response and keeps the
      game id and level. */
  lemma AfterSolveFields(game: GameStartResponse, solved: SolveResponse)
    ensures var g := AfterSolve(game, solved);
      g.gameId == game.gameId && g.level == game.level &&
      g.lives == solved.lives && g.gold == solved.gold && g.score == solved.score &&
      g.highScore == solved.highScore && g.turn == solved.turn
  {
  }

  // ---------------------------------------------------------------- the loop itself

  /** `maybeBuyItem` on the service, answering from the scripted buy replies. */
  method AskShop(shop: ShopService, gold: int32, lives: int32, buys: seq<bool>)
    returns (request: Option<string>, rest: seq<bool>)
    requires shop.Valid()
    modifies shop
    ensures shop.Valid()
    ensures var p := MaybeBuy(shop.shopItems, old(shop.purchasedItems), shop.goldReserveForHealing, gold, lives,
                              if buys != [] then buys[0] else false);
      shop.purchasedItems == p.purchased && request == p.request &&
      rest == (if request.Some? && buys != [] then buys[1..] else buys)
  {
    var reply := if buys != [] then buys[0] else false;
    var bought;
    bought, request := shop.MaybeBuyItem(gold, lives, reply);
    rest := if request.Some? && buys != [] then buys[1..] else buys;
  }

  /**
   * `playGame`: starts from the `startGame` snapshot and the catalog, and plays while lives
   * are above zero. It returns exactly what the specification `Run` reports.
   */
  method PlayGame(start: GameStartResponse, catalog: seq<ShopItem>, responses: Responses,
                  base64: string -> Option<string>) returns (result: Option<GameResult>)
    ensures result == Report(Run(Initial(start, responses), catalog, DefaultReserve, base64))
    ensures result.Some? ==> result.value.gameId == start.gameId
  {
    var game := start;
    var gameId := start.gameId;
    var shop := new ShopService(gameId, catalog);
    var batches, solves, buys := responses.batches, responses.solves, responses.buys;
    ghost var calls: seq<Call> := [];
    ghost var init := Initial(start, responses);
    while game.lives > 0
      invariant shop.Valid() && shop.shopItems == catalog && shop.goldReserveForHealing == DefaultReserve
      invariant game.gameId == gameId == start.gameId
      invariant Run(Session(game, shop.purchasedItems, Responses(batches, solves, buys), calls),
                    catalog, DefaultReserve, base64) == Run(init, catalog, DefaultReserve, base64)
      decreases |batches|
    {
      ghost var before := Session(game, shop.purchasedItems, Responses(batches, solves, buys), calls);
      if batches == [] {
        // `getMessages` fails: the play-through aborts
        return None;
      }
      var decodedMessages := Candidates(batches[0], base64);
      batches := batches[1..];
      calls := calls + [GetMessages];
      var best := Best(decodedMessages);
      var request;
      if best.None? {
        request, buys := AskShop(shop, game.gold, game.lives, buys);
      } else {
        var chosen := best.value;
        if solves == [] {
          // `solve` fails: the play-through aborts
          return None;
        }
        var solveResult := solves[0];
        solves := solves[1..];
        calls := calls + [Solve(chosen.adId)];
        game := GameStartResponse(gameId, solveResult.lives, solveResult.gold, game.level,
                                  solveResult.score, solveResult.highScore, solveResult.turn);
        request, buys := AskShop(shop, game.gold, game.lives, buys);
      }
      if request.Some? {
        calls := calls + [Buy(request.value)];
      }
      assert Turn(before, catalog, DefaultReserve, base64) ==
        Some(Session(game, shop.purchasedItems, Responses(batches, solves, buys), calls));
    }
    return Some(GameResult(gameId, game.score, game.turn));
  }
}
