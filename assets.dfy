/** `AssetService.parseAssets`: the boat cards of the bookings page turned into assets,
 *  skipping a card without a name or without a numeric calendar id, and a card whose
 *  asset the schema rejects. */
module Assets {
  import opened Options
  import opened Text
  import opened Patterns
  import opened BoatNames
  import opened Markup
  import opened FilterMaps

  datatype Asset = Asset(
    id: string,
    fullName: string,
    displayName: string,
    nickname: string,
    boatType: BoatType,
    classification: Classification,
    weight: Option<string>,
    calendarUrl: string,
    bookingUrl: string)

  /** The digits captured by `/\/calendar\/(\d+)/` in a calendar URL. */
  function CalendarIdOf(url: string): (id: Option<string>)
    ensures id.Some? ==> |id.value| > 0 && AllDigits(id.value)
  {
    match Find(CalendarId, url)
    case Some(m) => Some(url[m.start + 10..m.end])
    case None => None
  }

  /** A "/calendar/" at `k` with a digit right after it. */
  predicate IdStart(url: string, k: nat) {
    LiteralAt(url, k, "/calendar/") && k + 10 < |url| && IsDigit(url[k + 10])
  }

  /** The calendar id is the digit run after the first "/calendar/" that a digit follows;
   *  there is none when no digit follows any "/calendar/". */
  lemma CalendarIdIsFirst(url: string)
    ensures CalendarIdOf(url).None? <==> forall k: nat :: !IdStart(url, k)
    ensures CalendarIdOf(url).Some? ==>
              exists k: nat ::
                && IdStart(url, k)
                && CalendarIdOf(url).value == url[k + 10..SkipDigits(url, k + 10)]
                && forall k': nat :: k' < k ==> !IdStart(url, k')
  {
    forall k: nat | IdStart(url, k)
      ensures Find(CalendarId, url).Some?
    {
      CalendarIdMatchAt(url, k);
    }
    match Find(CalendarId, url)
    case None =>
    case Some(m) =>
      CalendarIdMatchAt(url, m.start);
      assert CalendarIdOf(url).value == url[m.start + 10..SkipDigits(url, m.start + 10)];
      forall k': nat | k' < m.start
        ensures !IdStart(url, k')
      {
        CalendarIdMatchAt(url, k');
      }
  }

  /** Where the calendar-id pattern matches: at a "/calendar/" followed by a digit, up to
   *  the end of the digit run. */
  lemma CalendarIdMatchAt(url: string, k: nat)
    ensures MatchEnd(CalendarId, url, k)
            == if IdStart(url, k) then Some(SkipDigits(url, k + 10)) else None
  {
  }

  /** The asset a card describes, or `None` when the card is skipped. */
  function CardToAsset(card: Card): Option<Asset> {
    var fullName := Trim(card.nameText);
    var url := card.calendarHref.GetOr([]);
    if fullName == [] then None
    else
      match CalendarIdOf(url)
      case None => None
      case Some(id) =>
        var d := ParseBoatName(fullName);
        Some(Asset(id, fullName, d.displayName, d.nickname, d.boatType, d.classification,
                   d.weight, url, "/bookings/" + id))
  }

  /** A card is skipped exactly when its trimmed name is empty or its calendar link (`''`
   *  when there is none) holds no calendar id. Otherwise the asset's id is that id, its
   *  booking URL is built from it, and its details are those of its full name. */
  lemma CardToAssetFields(card: Card)
    ensures var r := CardToAsset(card);
            && (r.None? <==> Trim(card.nameText) == [] || CalendarIdOf(card.calendarHref.GetOr([])).None?)
            && (r.Some? ==>
                  var a := r.value;
                  && a.fullName == Trim(card.nameText) && a.fullName != []
                  && |a.id| > 0 && AllDigits(a.id)
                  && Some(a.id) == CalendarIdOf(a.calendarUrl)
                  && a.calendarUrl == card.calendarHref.GetOr([])
                  && a.bookingUrl == "/bookings/" + a.id
                  && BoatDetails(a.boatType, a.classification, a.weight, a.nickname, a.displayName)
                     == ParseBoatName(a.fullName))
  {
  }

  /** The card's asset if it is not skipped and the schema accepts it. `valid` stands for
   *  `AssetSchema.parse`, which either returns the asset as it is or throws; a throw skips
   *  the card. */
  function AcceptedAsset(card: Card, valid: Asset -> bool): Option<Asset> {
    Validated(CardToAsset(card), valid)
  }

  function Validated(asset: Option<Asset>, valid: Asset -> bool): Option<Asset> {
    if asset.Some? && valid(asset.value) then asset else None
  }

  /** The assets of a list of cards, in card order. */
  function AssetsFrom(cards: seq<Card>, valid: Asset -> bool): seq<Asset> {
    FilterMap(cards, Accepting(valid))
  }

  /** What each card yields. */
  function Accepting(valid: Asset -> bool): Card -> Option<Asset> {
    (c: Card) => AcceptedAsset(c, valid)
  }

  /** One more card pushes its accepted asset, if it has one. */
  lemma CardStep(cards: seq<Card>, i: nat, valid: Asset -> bool)
    requires i < |cards|
    ensures var asset := CardToAsset(cards[i]);
            AssetsFrom(cards[..i + 1], valid)
            == AssetsFrom(cards[..i], valid) + (if asset.Some? && valid(asset.value) then [asset.value] else [])
  {
    assert cards[..i + 1] == cards[..i] + [cards[i]];
    FilterMapSnoc(cards[..i], cards[i], Accepting(valid));
  }

  /** At most one asset per card, in card order: each asset comes from its own card, later
   *  assets from later cards, and every card that yields an accepted asset contributes it. */
  lemma AssetsInCardOrder(cards: seq<Card>, valid: Asset -> bool)
    ensures |AssetsFrom(cards, valid)| <= |cards|
    ensures exists o: seq<nat> ::
              && |o| == |AssetsFrom(cards, valid)|
              && (forall i :: 0 <= i < |o| ==> o[i] < |cards| && AcceptedAsset(cards[o[i]], valid) == Some(AssetsFrom(cards, valid)[i]))
              && (forall i, j :: 0 <= i < j < |o| ==> o[i] < o[j])
              && (forall c :: 0 <= c < |cards| && AcceptedAsset(cards[c], valid).Some? ==> c in o)
  {
    var f, r := Accepting(valid), AssetsFrom(cards, valid);
    YieldingInOrder(cards, f);
    var o := Yielding(cards, f);
    forall i | 0 <= i < |o|
      ensures o[i] < |cards| && AcceptedAsset(cards[o[i]], valid) == Some(r[i])
    {
      assert f(cards[o[i]]) == Some(r[i]);
    }
    forall c | 0 <= c < |cards| && AcceptedAsset(cards[c], valid).Some?
      ensures c in o
    {
      assert f(cards[c]).Some?;
      YieldingComplete(cards, f, c);
    }
  }

  /** The card loop: each card's asset, when there is one, is pushed onto the list. */
  method ParseAssets(cards: seq<Card>, valid: Asset -> bool) returns (assets: seq<Asset>)
    ensures assets == AssetsFrom(cards, valid)
  {
    assets := [];
    var i := 0;
    while i < |cards|
      invariant 0 <= i <= |cards|
      invariant assets == AssetsFrom(cards[..i], valid)
    {
      CardStep(cards, i, valid);
      var asset := CardToAsset(cards[i]);
      if asset.Some? && valid(asset.value) {
        assets := assets + [asset.value];
      }
      i := i + 1;
    }
    assert cards[..i] == cards;
  }
}
