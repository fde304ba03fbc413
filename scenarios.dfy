/** The behaviours the repository's unit tests pin down, restated against the model. */
module Scenarios {
  import opened Wrappers
  import opened JavaText
  import opened Dto
  import opened Probabilities
  import opened MessageDecoder
  import opened ShopPolicy
  import opened GameLoop

  const Potion: ShopItem := ShopItem("hpot", "Healing potion", 50)
  /** The catalog entry "cs" at 120 gold, the price the reserve and purchase tests use; the
      low-lives test lists it at 100, which does not matter there since only the potion is bought. */
  const Claws: ShopItem := ShopItem("cs", "Claw Sharpening", 120)

  lemma PotionIsPotion()
    ensures IsHealthPot(Potion) && !IsHealthPot(Claws)
  {
    assert ToLower("cs")[0] == 'c';
  }

  /** Low on lives with enough gold: the potion is bought whatever the reserve. */
  lemma LowLivesBuysPotion()
    ensures MaybeBuy([Potion, Claws], [], 400, 100, 1, true) == Purchase(true, Some("hpot"), [])
  {
    PotionIsPotion();
  }

  /** 180 gold with a reserve of 300 does not cover an item of 120, so nothing is asked for. */
  lemma ReserveBlocksItem(buySucceeds: bool)
    ensures MaybeBuy([Potion, Claws], [], 300, 180, 3, buySucceeds) == Purchase(false, None, [])
  {
    PotionIsPotion();
    assert !AllNonPotionBought([Potion, Claws], []) by {
      assert [Potion, Claws][1] == Claws;
    }
  }

  /** A potion purchase the client rejects returns false. */
  lemma RejectedPotion()
    ensures MaybeBuy([Potion], [], 300, 200, 1, false) == Purchase(false, Some("hpot"), [])
  {
    PotionIsPotion();
  }

  /** 450 gold with a reserve of 300 covers the first non-potion item, which is then recorded. */
  lemma AffordableItemRecorded()
    ensures MaybeBuy([Potion, Claws], [], 300, 450, 2, true) == Purchase(true, Some("cs"), ["cs"])
  {
    PotionIsPotion();
    assert [Potion, Claws][1] == Claws;
    assert NextUnpurchased([Potion, Claws], []) == Some(Claws);
  }

  /** Equal odds (the same label, whichever it is): the offer with more turns to expiry wins,
      even with the lower reward. */
  lemma ExpiryBreaksOddsTie(tag: Option<string>)
    ensures Best([OfferA(tag), OfferB(tag)]) == Some(OfferB(tag))
  {
    BestOfPair(RankOf(OfferA(tag)), RankOf(OfferB(tag)), OfferA(tag), OfferB(tag));
  }

  /** The second tie test: "Piece of cake" on both, reward 150 expiring in 1 against reward 120
      expiring in 6; the later expiry is solved. */
  lemma ExpiryTieLowHigh()
    ensures Best([LowExpiry, HighExpiry]) == Some(HighExpiry)
  {
    BestOfPair(RankOf(LowExpiry), RankOf(HighExpiry), LowExpiry, HighExpiry);
  }

  const LowExpiry: Message := Message(Some("L"), Some("low"), 150, 1, Some("Piece of cake"), None)
  const HighExpiry: Message := Message(Some("H"), Some("high"), 120, 6, Some("Piece of cake"), None)

  /** An offer labelled with a level's own label is ranked with that level's odds. */
  lemma OddsOfLabel(p: Probability, m: Message)
    requires m.probability == Some(Label(p))
    ensures RankOf(m).odds == Value(p)
  {
    FromLabelOfLabel(p);
  }

  /** Of two offers, the one with strictly higher odds is chosen, in either order. */
  lemma HigherOddsChosen(a: Message, b: Message)
    requires RankOf(b).odds < RankOf(a).odds
    ensures Best([a, b]) == Some(a) && Best([b, a]) == Some(a)
  {
    BestOfPair(RankOf(a), RankOf(b), a, b);
    BestOfPair(RankOf(b), RankOf(a), b, a);
  }

  /** Higher odds win whatever the expiries and rewards, in either order. */
  lemma OddsDominate(p: Probability, q: Probability, a: Message, b: Message)
    requires a.probability == Some(Label(p)) && b.probability == Some(Label(q))
    requires Value(q) < Value(p)
    ensures Best([a, b]) == Some(a) && Best([b, a]) == Some(a)
  {
    OddsOfLabel(p, a);
    OddsOfLabel(q, b);
    HigherOddsChosen(a, b);
  }

  /** After the solve that leaves no lives and 120 gold, the shop still asks for a potion; with
      no other item in the catalog nothing is recorded. */
  lemma PotionAfterLastSolve()
    ensures MaybeBuy([Potion], [], DefaultReserve, 120, 0, true) == Purchase(true, Some("hpot"), [])
  {
    PotionIsPotion();
    assert WantsPotion([Potion], [], 120, 0);
    assert FindIgnoreCase([Potion], HealthPot) == Some(Potion);
  }

  /** The first offer of the two-offer scenario: higher reward, earlier expiry. */
  function OfferA(tag: Option<string>): Message {
    Message(Some("A1"), Some("msg1"), 100, 3, tag, None)
  }

  /** The second offer: lower reward, later expiry. */
  function OfferB(tag: Option<string>): Message {
    Message(Some("B2"), Some("msg2"), 90, 6, tag, None)
  }

  /** The snapshot `startGame` returns in the scenario: two lives, 100 gold. */
  const ScenarioStart: GameStartResponse := GameStartResponse("game-1", 2, 100, 1, 0, 0, 1)

  /** The one solve response: zero lives, 120 gold, score 1234, turn 2. */
  const ScenarioSolve: SolveResponse := SolveResponse(true, 0, 120, 1234, 0, 2, Some("ok"))

  /** The scripted answers: one batch with both offers, one solve, one buy reply. */
  function ScenarioResponses(tag: Option<string>): Responses {
    Responses([[Some(OfferA(tag)), Some(OfferB(tag))]], [ScenarioSolve], [true])
  }

  /** The session after the scenario's only turn. */
  const ScenarioEnd: Session :=
    Session(AfterSolve(ScenarioStart, ScenarioSolve), [], Responses([], [], []),
            [GetMessages, Solve(Some("B2")), Buy("hpot")])

  /** The scenario's only turn: fetch, solve B2, then ask for a potion. */
  lemma ScenarioTurn(base64: string -> Option<string>, tag: Option<string>)
    ensures Turn(Initial(ScenarioStart, ScenarioResponses(tag)), [Potion], DefaultReserve, base64) ==
      Some(ScenarioEnd)
  {
    var a, b := OfferA(tag), OfferB(tag);
    var s0 := Initial(ScenarioStart, ScenarioResponses(tag));
    assert s0.api.batches[0] == [Some(a), Some(b)];
    assert Candidates([Some(a), Some(b)], base64) == [a, b] by {
      CandidatesOfPresent([Some(a), Some(b)], base64);
      DecodePlain(a, base64);
      DecodePlain(b, base64);
    }
    assert Best([a, b]) == Some(b) by {
      ExpiryBreaksOddsTie(tag);
    }
    PotionAfterLastSolve();
    TurnWithCandidates(s0, [Potion], DefaultReserve, base64);
    var r := Turn(s0, [Potion], DefaultReserve, base64);
    assert r.value.game == ScenarioEnd.game;
    assert r.value.api == ScenarioEnd.api;
    assert r.value.purchased == ScenarioEnd.purchased;
    assert r.value.calls == ScenarioEnd.calls;
  }

  /**
   * A game starting with two lives whose first offer batch holds two offers with the same
   * label: the one with the later expiry is solved, the response's zero lives end the loop,
   * and the result carries the response's score and turn. The shop is still consulted after
   * that last solve, and with no lives left it asks for a potion.
   */
  lemma OneSolveEndsGame(base64: string -> Option<string>, tag: Option<string>)
    ensures var r := Run(Initial(ScenarioStart, ScenarioResponses(tag)), [Potion], DefaultReserve, base64);
      r.Some? && r.value.calls == [GetMessages, Solve(Some("B2")), Buy("hpot")] &&
      Report(r) == Some(GameResult("game-1", 1234, 2))
  {
    ScenarioTurn(base64, tag);
    assert ScenarioEnd.game.lives == 0;
    assert Run(ScenarioEnd, [Potion], DefaultReserve, base64) == Some(ScenarioEnd);
  }
}
