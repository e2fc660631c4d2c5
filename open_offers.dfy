/**
 * The open-offer listing: every open offer with a non-null `_id` is rendered
 * with the name of its trade pair, which is `OFFER_WANT` when the exchange
 * lists that pair and `WANT_OFFER` otherwise. An offer whose pair is listed in
 * neither orientation ends the request with an error message and no listing.
 */
module OpenOffers {
  import opened Wrappers

  /** A document of the `offer_hash` collection, reduced to the fields the endpoint reads. */
  datatype Offer = Offer(
    id: Option<string>,
    status: string,
    makerAddress: string,
    amountFilled: int,
    offerAssetName: string,
    wantAssetName: string,
    offerAmountFixed8: int,
    wantAmountFixed8: int)

  /** One element of the listing. */
  datatype OpenOffer = OpenOffer(
    address: string,
    amountFilled: int,
    tradePair: string,
    offerAmount: int,
    offerAssetName: string,
    wantAmount: int,
    wantAssetName: string)

  const OPEN_STATUS: string := "open"
  const BAD_PAIR_PREFIX: string := "Incorrect trade pair - "

  /** A pair name: the two asset names joined by an underscore. */
  function PairName(first: string, second: string): string {
    first + "_" + second
  }

  /** Selected by the `{'status': 'open'}` query and not skipped for a null `_id`. */
  predicate Listed(o: Offer) {
    o.status == OPEN_STATUS && o.id.Some?
  }

  /**
   * The trade pair of an offer: `OFFER_WANT` if listed, else `WANT_OFFER` if
   * listed, else none.
   */
  function ResolvePair(o: Offer, pairs: seq<string>): (r: Option<string>)
    ensures r.Some? <==> PairName(o.offerAssetName, o.wantAssetName) in pairs
                         || PairName(o.wantAssetName, o.offerAssetName) in pairs
    ensures r.Some? ==> r.value in pairs
    ensures r.Some? ==> r.value == PairName(o.offerAssetName, o.wantAssetName)
                        || r.value == PairName(o.wantAssetName, o.offerAssetName)
    ensures PairName(o.offerAssetName, o.wantAssetName) in pairs
            ==> r == Some(PairName(o.offerAssetName, o.wantAssetName))
  {
    var offerWant := PairName(o.offerAssetName, o.wantAssetName);
    if offerWant in pairs then Some(offerWant)
    else
      var wantOffer := PairName(o.wantAssetName, o.offerAssetName);
      if wantOffer in pairs then Some(wantOffer) else None
  }

  /** The message the request ends with when `o`'s pair is unknown: it names the `WANT_OFFER` orientation. */
  function BadPairMessage(o: Offer): string {
    BAD_PAIR_PREFIX + PairName(o.wantAssetName, o.offerAssetName)
  }

  function Render(o: Offer, tradePair: string): OpenOffer {
    OpenOffer(o.makerAddress, o.amountFilled, tradePair, o.offerAmountFixed8,
              o.offerAssetName, o.wantAmountFixed8, o.wantAssetName)
  }

  /** The listed offers, in query order. */
  function ListedOffers(offers: seq<Offer>): (l: seq<Offer>)
    ensures |l| <= |offers|
    ensures forall k :: 0 <= k < |l| ==> Listed(l[k]) && l[k] in offers
    decreases |offers|
  {
    if offers == [] then []
    else
      var last := offers[|offers| - 1];
      ListedOffers(offers[..|offers| - 1]) + (if Listed(last) then [last] else [])
  }

  predicate AllResolve(l: seq<Offer>, pairs: seq<string>) {
    forall k :: 0 <= k < |l| ==> ResolvePair(l[k], pairs).Some?
  }

  /**
   * The listing of offers whose pairs all resolve: one element per offer, in
   * order, carrying the offer's fields and a pair name the exchange lists.
   */
  function Rendered(l: seq<Offer>, pairs: seq<string>): (v: seq<OpenOffer>)
    requires AllResolve(l, pairs)
    ensures |v| == |l|
    ensures forall k :: 0 <= k < |l| ==>
      && v[k].tradePair in pairs
      && v[k].address == l[k].makerAddress && v[k].amountFilled == l[k].amountFilled
      && v[k].offerAssetName == l[k].offerAssetName && v[k].wantAssetName == l[k].wantAssetName
      && v[k].offerAmount == l[k].offerAmountFixed8 && v[k].wantAmount == l[k].wantAmountFixed8
      && (v[k].tradePair == PairName(l[k].offerAssetName, l[k].wantAssetName)
          || v[k].tradePair == PairName(l[k].wantAssetName, l[k].offerAssetName))
  {
    seq(|l|, k requires 0 <= k < |l| => Render(l[k], ResolvePair(l[k], pairs).value))
  }

  /**
   * `get_switcheo_offers_open`. Succeeds exactly when every listed offer's pair
   * resolves, with the rendered listed offers in query order; otherwise fails
   * with the message of the first listed offer whose pair does not resolve.
   */
  method OpenOfferList(offers: seq<Offer>, pairs: seq<string>) returns (result: Result<seq<OpenOffer>, string>)
    ensures result.Success? <==> forall i :: 0 <= i < |offers| && Listed(offers[i]) ==> ResolvePair(offers[i], pairs).Some?
    ensures result.Success? ==> AllResolve(ListedOffers(offers), pairs)
                                && result.value == Rendered(ListedOffers(offers), pairs)
    ensures result.Failure? ==>
      exists i :: (0 <= i < |offers| && Listed(offers[i])
                   && ResolvePair(offers[i], pairs).None?
                   && result.error == BadPairMessage(offers[i])
                   && forall j :: 0 <= j < i && Listed(offers[j]) ==> ResolvePair(offers[j], pairs).Some?)
  {
    var offerList: seq<OpenOffer> := [];
    for i := 0 to |offers|
      invariant forall j :: 0 <= j < i && Listed(offers[j]) ==> ResolvePair(offers[j], pairs).Some?
      invariant AllResolve(ListedOffers(offers[..i]), pairs)
      invariant offerList == Rendered(ListedOffers(offers[..i]), pairs)
    {
      var offer := offers[i];
      assert offers[..i + 1][..i] == offers[..i];
      if offer.status == OPEN_STATUS && offer.id.Some? {
        var tradePair := ResolvePair(offer, pairs);
        if tradePair.None? {
          return Failure(BadPairMessage(offer));
        }
        offerList := offerList + [Render(offer, tradePair.value)];
      }
    }
    assert offers[..|offers|] == offers;
    return Success(offerList);
  }

  // ---------------------------------------------------------------------------
  // Properties
  // ---------------------------------------------------------------------------

  /** An offer is in the listed sequence exactly when it occurs in the input and is open with an `_id`. */
  lemma {:induction false} ListedOffersMembership(offers: seq<Offer>, o: Offer)
    ensures o in ListedOffers(offers) <==> o in offers && Listed(o)
  {
    if offers != [] {
      var init := offers[..|offers| - 1];
      ListedOffersMembership(init, o);
      assert offers == init + [offers[|offers| - 1]];
    }
  }

  /**
   * Swapping an offer's two assets does not change whether its pair resolves,
   * and when only one orientation is listed it resolves to the same name.
   */
  lemma ResolveSwapped(o: Offer, pairs: seq<string>)
    ensures var s := o.(offerAssetName := o.wantAssetName, wantAssetName := o.offerAssetName);
      && ResolvePair(s, pairs).Some? == ResolvePair(o, pairs).Some?
      && ((PairName(o.offerAssetName, o.wantAssetName) in pairs)
          != (PairName(o.wantAssetName, o.offerAssetName) in pairs)
          ==> ResolvePair(s, pairs) == ResolvePair(o, pairs))
  {
  }
}
