/**
 * The shop policy of one play-through: a fixed catalog, a purchase history that only grows,
 * and a gold reserve kept for healing. `MaybeBuy` is the decision as a function of the state
 * before the call; `ShopService.MaybeBuyItem` carries it out on the object's history.
 *
 * The game API's `buyItem` either answers or throws; `buySucceeds` says which it will do if
 * it is called, and `request` reports the item id it was called with (`None`: not called).
 */
module ShopPolicy {
  import opened Wrappers
  import opened JavaText
  import opened Dto

  /** The catalog id of the healing potion. */
  const HealthPot: string := "hpot"
  /** The reserve the two-argument constructor uses. */
  const DefaultReserve: int32 := 300
  /** The gold a healing potion needs before the policy tries to buy one. */
  const PotionGold: int32 := 50

  predicate IsHealthPot(item: ShopItem) {
    EqualsIgnoreCase(HealthPot, item.id)
  }

  /** Every catalog entry other than the healing potion is already in the history (`allMatch`). */
  predicate AllNonPotionBought(items: seq<ShopItem>, purchased: seq<string>) {
    forall i :: 0 <= i < |items| && !IsHealthPot(items[i]) ==> items[i].id in purchased
  }

  /** The first catalog entry, in catalog order, that is neither the potion nor already bought. */
  function NextUnpurchased(items: seq<ShopItem>, purchased: seq<string>): (r: Option<ShopItem>)
    ensures r.None? <==> AllNonPotionBought(items, purchased)
    ensures r.Some? ==> !IsHealthPot(r.value) && r.value.id !in purchased
    ensures r.Some? ==> exists k :: (0 <= k < |items| && items[k] == r.value &&
      forall j :: 0 <= j < k ==> IsHealthPot(items[j]) || items[j].id in purchased)
  {
    if items == [] then None
    else if !IsHealthPot(items[0]) && items[0].id !in purchased then Some(items[0])
    else
      NextUnpurchased(items[1..], purchased)
  }

  /** The first catalog entry whose id equals `name` ignoring case. */
  function FindIgnoreCase(items: seq<ShopItem>, name: string): (r: Option<ShopItem>)
    ensures r.None? <==> forall i :: 0 <= i < |items| ==> !EqualsIgnoreCase(name, items[i].id)
    ensures r.Some? ==> exists k :: (0 <= k < |items| && items[k] == r.value &&
      EqualsIgnoreCase(name, r.value.id) &&
      forall j :: 0 <= j < k ==> !EqualsIgnoreCase(name, items[j].id))
  {
    if items == [] then None
    else if EqualsIgnoreCase(name, items[0].id) then Some(items[0])
    else
      FindIgnoreCase(items[1..], name)
  }

  /** The id the private `buyItem(name)` sends to the client: that of the first catalog entry
      matching `name` ignoring case; no call at all when the catalog has none. */
  function BuyRequest(items: seq<ShopItem>, name: string): (r: Option<string>)
    ensures r.None? <==> forall i :: 0 <= i < |items| ==> !EqualsIgnoreCase(name, items[i].id)
    ensures r.Some? ==> EqualsIgnoreCase(name, r.value) && exists i :: 0 <= i < |items| && items[i].id == r.value
  {
    match FindIgnoreCase(items, name)
    case None => None
    case Some(item) => Some(item.id)
  }

  /** The outcome of one `maybeBuyItem` call. */
  datatype Purchase = Purchase(bought: bool, request: Option<string>, purchased: seq<string>)

  /** Whether the healing branch fires: low on lives, or nothing else left to buy, and enough gold. */
  predicate WantsPotion(items: seq<ShopItem>, purchased: seq<string>, gold: int32, lives: int32) {
    (lives <= 1 || AllNonPotionBought(items, purchased)) && gold >= PotionGold
  }

  /** The decision `maybeBuyItem` takes, given the history before the call. */
  function MaybeBuy(items: seq<ShopItem>, purchased: seq<string>, reserve: int32,
                    gold: int32, lives: int32, buySucceeds: bool): (r: Purchase)
    ensures r.bought <==> r.request.Some? && buySucceeds
    ensures r.purchased == purchased || (r.bought && NextUnpurchased(items, purchased).Some? &&
      r.purchased == purchased + [NextUnpurchased(items, purchased).value.id])
    ensures WantsPotion(items, purchased, gold, lives) ==> r.purchased == purchased
    ensures !WantsPotion(items, purchased, gold, lives) && r.bought ==>
      NextUnpurchased(items, purchased).Some? &&
      r.purchased == purchased + [NextUnpurchased(items, purchased).value.id]
  {
    if WantsPotion(items, purchased, gold, lives) then
      var request := BuyRequest(items, HealthPot);
      Purchase(request.Some? && buySucceeds, request, purchased)
    else
      match NextUnpurchased(items, purchased)
      case None => Purchase(false, None, purchased)
      case Some(next) =>
        if Sub32(gold, reserve) >= next.cost then
          var request := BuyRequest(items, next.id);
          var bought := request.Some? && buySucceeds;
          Purchase(bought, request, if bought then purchased + [next.id] else purchased)
        else Purchase(false, None, purchased)
  }

  /** Healing branch: only the potion is asked for, without looking at the reserve, and the
      history is left alone (the potion can be bought again and again). */
  lemma PotionBranch(items: seq<ShopItem>, purchased: seq<string>, reserve: int32,
                     gold: int32, lives: int32, buySucceeds: bool)
    requires WantsPotion(items, purchased, gold, lives)
    ensures var r := MaybeBuy(items, purchased, reserve, gold, lives, buySucceeds);
      r.request == BuyRequest(items, HealthPot) && r.purchased == purchased &&
      (r.request.Some? ==> EqualsIgnoreCase(HealthPot, r.request.value))
  {
  }

  /** Otherwise the only item asked for is the next unpurchased one, and only when the gold
      left after the reserve covers its cost. */
  lemma ItemBranch(items: seq<ShopItem>, purchased: seq<string>, reserve: int32,
                   gold: int32, lives: int32, buySucceeds: bool)
    requires !WantsPotion(items, purchased, gold, lives)
    ensures var r := MaybeBuy(items, purchased, reserve, gold, lives, buySucceeds);
      r.request.Some? <==> (NextUnpurchased(items, purchased).Some? &&
        Sub32(gold, reserve) >= NextUnpurchased(items, purchased).value.cost)
    ensures var r := MaybeBuy(items, purchased, reserve, gold, lives, buySucceeds);
      r.request.Some? ==> r.request == Some(FindIgnoreCase(items, NextUnpurchased(items, purchased).value.id).value.id)
  {
    var next := NextUnpurchased(items, purchased);
    if next.Some? {
      var k :| 0 <= k < |items| && items[k] == next.value;
      assert EqualsIgnoreCase(next.value.id, items[k].id);
    }
  }

  /** A buy call that throws makes the call return false and leaves the history alone. */
  lemma FailedBuyChangesNothing(items: seq<ShopItem>, purchased: seq<string>, reserve: int32,
                                gold: int32, lives: int32)
    ensures var r := MaybeBuy(items, purchased, reserve, gold, lives, false);
      !r.bought && r.purchased == purchased
  {
  }

  /** The history invariant: no duplicates, never the potion, only ids from the catalog. */
  ghost predicate HistoryValid(items: seq<ShopItem>, purchased: seq<string>) {
    (forall i, j :: 0 <= i < j < |purchased| ==> purchased[i] != purchased[j]) &&
    (forall i :: 0 <= i < |purchased| ==> !EqualsIgnoreCase(HealthPot, purchased[i])) &&
    (forall i :: 0 <= i < |purchased| ==> exists k :: 0 <= k < |items| && items[k].id == purchased[i])
  }

  /** The history only grows, by at most the id of the item just bought, and stays valid. */
  lemma {:induction false} MaybeBuyKeepsHistory(items: seq<ShopItem>, purchased: seq<string>, reserve: int32,
                                                gold: int32, lives: int32, buySucceeds: bool)
    requires HistoryValid(items, purchased)
    ensures var r := MaybeBuy(items, purchased, reserve, gold, lives, buySucceeds);
      HistoryValid(items, r.purchased) && purchased <= r.purchased && |r.purchased| <= |purchased| + 1
  {
    var r := MaybeBuy(items, purchased, reserve, gold, lives, buySucceeds);
    if r.purchased != purchased {
      var next := NextUnpurchased(items, purchased).value;
      var k :| 0 <= k < |items| && items[k] == next;
      assert r.purchased == purchased + [next.id];
      forall i | 0 <= i < |r.purchased|
        ensures exists k :: 0 <= k < |items| && items[k].id == r.purchased[i]
      {
        if i == |purchased| {
          assert items[k].id == r.purchased[i];
        } else {
          assert r.purchased[i] == purchased[i];
        }
      }
    }
  }

  /** When no two catalog ids differ only in case, the client is asked for exactly the
      item the history then records. */
  lemma RequestIsCandidate(items: seq<ShopItem>, purchased: seq<string>, reserve: int32,
                           gold: int32, lives: int32, buySucceeds: bool)
    requires forall i, j :: 0 <= i < |items| && 0 <= j < |items| && EqualsIgnoreCase(items[i].id, items[j].id) ==> i == j
    requires !WantsPotion(items, purchased, gold, lives)
    ensures var r := MaybeBuy(items, purchased, reserve, gold, lives, buySucceeds);
      r.request.Some? ==> r.request == Some(NextUnpurchased(items, purchased).value.id)
  {
    var r := MaybeBuy(items, purchased, reserve, gold, lives, buySucceeds);
    if r.request.Some? {
      var next := NextUnpurchased(items, purchased).value;
      var k :| 0 <= k < |items| && items[k] == next;
      var found := FindIgnoreCase(items, next.id).value;
      var m :| 0 <= m < |items| && items[m] == found && EqualsIgnoreCase(next.id, found.id);
      assert m == k;
    }
  }

  class ShopService {
    const gameId: string
    /** The catalog, fetched once when the service is built. */
    const shopItems: seq<ShopItem>
    /** Gold kept unspent for emergency healing. */
    const goldReserveForHealing: int32
    var purchasedItems: seq<string>

    ghost predicate Valid()
      reads this
    {
      HistoryValid(shopItems, purchasedItems)
    }

    /** The two-argument constructor: a reserve of 300. `shopItems` is the catalog response. */
    constructor (gameId: string, shopItems: seq<ShopItem>)
      ensures Valid()
      ensures this.gameId == gameId && this.shopItems == shopItems
      ensures goldReserveForHealing == DefaultReserve && purchasedItems == []
    {
      this.gameId := gameId;
      this.shopItems := shopItems;
      this.goldReserveForHealing := DefaultReserve;
      this.purchasedItems := [];
    }

    constructor WithReserve(gameId: string, shopItems: seq<ShopItem>, goldReserveForHealing: int32)
      ensures Valid()
      ensures this.gameId == gameId && this.shopItems == shopItems
      ensures this.goldReserveForHealing == goldReserveForHealing && purchasedItems == []
    {
      this.gameId := gameId;
      this.shopItems := shopItems;
      this.goldReserveForHealing := goldReserveForHealing;
      this.purchasedItems := [];
    }

    /** The private `buyItem`: look the name up ignoring case, then call the client with the
        catalog's own id; a throwing client makes it false, an unknown name is false at once. */
    method BuyItem(itemName: string, buySucceeds: bool) returns (bought: bool, request: Option<string>)
      ensures request.None? <==> forall i :: 0 <= i < |shopItems| ==> !EqualsIgnoreCase(itemName, shopItems[i].id)
      ensures request.Some? ==> exists i :: 0 <= i < |shopItems| && shopItems[i].id == request.value
      ensures bought <==> request.Some? && buySucceeds
      ensures request == BuyRequest(shopItems, itemName)
    {
      var item := FindIgnoreCase(shopItems, itemName);
      if item.None? {
        return false, None;
      }
      request := Some(item.value.id);
      bought := buySucceeds;
    }

    /** `maybeBuyItem`: carries out `MaybeBuy` and records a bought non-potion item. */
    method MaybeBuyItem(currentGold: int32, currentLives: int32, buySucceeds: bool)
      returns (bought: bool, request: Option<string>)
      requires Valid()
      modifies this
      ensures Valid()
      ensures var r := MaybeBuy(shopItems, old(purchasedItems), goldReserveForHealing,
                                currentGold, currentLives, buySucceeds);
        bought == r.bought && request == r.request && purchasedItems == r.purchased
      ensures old(purchasedItems) <= purchasedItems
    {
      MaybeBuyKeepsHistory(shopItems, purchasedItems, goldReserveForHealing, currentGold, currentLives, buySucceeds);
      var allNonPotionBought := AllNonPotionBought(shopItems, purchasedItems);
      if (currentLives <= 1 || allNonPotionBought) && currentGold >= PotionGold {
        bought, request := BuyItem(HealthPot, buySucceeds);
        return;
      }
      var next := NextUnpurchased(shopItems, purchasedItems);
      if next.Some? {
        var affordableWithReserve := Sub32(currentGold, goldReserveForHealing) >= next.value.cost;
        if affordableWithReserve {
          bought, request := BuyItem(next.value.id, buySucceeds);
          if bought {
            purchasedItems := purchasedItems + [next.value.id];
          }
          return;
        }
      }
      return false, None;
    }
  }
}
