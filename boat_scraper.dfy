/** `BoatScraper.parseBoatData`: the JavaScript twin of the asset parser. It has no schema
 *  check, and it rebuilds its `boats` field from the page instead of returning a list. */
module BoatScraping {
  import opened Options
  import opened Markup
  import opened FilterMaps
  import opened Assets

  /** The JavaScript scraper validates nothing: every asset a card yields is kept. */
  function AcceptAll(a: Asset): bool {
    true
  }

  /** The boats a page's cards describe, as the scraper stores them. */
  function BoatsFrom(cards: seq<Card>): seq<Asset> {
    AssetsFrom(cards, AcceptAll)
  }

  class BoatScraper {
    var boats: seq<Asset>

    constructor()
      ensures boats == []
    {
      boats := [];
    }

    /** Empties `boats`, then pushes the boat of every card that yields one. What was there
     *  before is gone, so parsing the same page twice leaves the same list. */
    method ParseBoatData(cards: seq<Card>)
      modifies this
      ensures boats == BoatsFrom(cards)
    {
      boats := [];
      var i := 0;
      while i < |cards|
        invariant 0 <= i <= |cards|
        invariant boats == BoatsFrom(cards[..i])
      {
        BoatStep(cards, i);
        var boat := CardToAsset(cards[i]);
        if boat.Some? {
          boats := boats + [boat.value];
        }
        i := i + 1;
      }
      assert cards[..i] == cards;
    }
  }

  /** A card that yields no boat (an empty name, or no calendar id) leaves the list as it
   *  was; any other card adds exactly its boat at the end. */
  lemma SkippedCardLeavesBoats(cards: seq<Card>, card: Card)
    ensures CardToAsset(card).None? ==> BoatsFrom(cards + [card]) == BoatsFrom(cards)
    ensures CardToAsset(card).Some? ==> BoatsFrom(cards + [card]) == BoatsFrom(cards) + [CardToAsset(card).value]
  {
    FilterMapSnoc(cards, card, Accepting(AcceptAll));
  }

  /** One more card of the loop: its boat, if it has one, is appended. */
  lemma BoatStep(cards: seq<Card>, i: nat)
    requires i < |cards|
    ensures CardToAsset(cards[i]).None? ==> BoatsFrom(cards[..i + 1]) == BoatsFrom(cards[..i])
    ensures CardToAsset(cards[i]).Some? ==> BoatsFrom(cards[..i + 1]) == BoatsFrom(cards[..i]) + [CardToAsset(cards[i]).value]
  {
    assert cards[..i + 1] == cards[..i] + [cards[i]];
    SkippedCardLeavesBoats(cards[..i], cards[i]);
  }
}
