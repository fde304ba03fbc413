/** The wire records the core reads. They carry no behaviour. */
module Dto {
  import opened Wrappers
  import opened JavaText

  /** An offer from the messages endpoint; every string field may be null (`None`). */
  datatype Message = Message(
    adId: Option<string>,
    message: Option<string>,
    reward: int32,
    expiresIn: int32,
    probability: Option<string>,
    encrypted: Option<string>)

  /** The game snapshot; the loop rebuilds it after every solve. */
  datatype GameStartResponse = GameStartResponse(
    gameId: string,
    lives: int32,
    gold: int32,
    level: int32,
    score: int32,
    highScore: int32,
    turn: int32)

  datatype SolveResponse = SolveResponse(
    success: bool,
    lives: int32,
    gold: int32,
    score: int32,
    highScore: int32,
    turn: int32,
    message: Option<string>)

  /** A catalog entry of the shop. */
  datatype ShopItem = ShopItem(id: string, name: string, cost: int32)

  /** What a finished play-through reports. */
  datatype GameResult = GameResult(gameId: string, score: int32, turns: int32)
}
