/**
 * The older `WalletAssetsTmp` component. It differs from the current one in
 * four ways: a lookup also fails when the document has no `onchain_metadata`
 * or a falsy `image`; every kept string image goes through the ipfs.io gateway,
 * with its first `ipfs://` removed wherever it is; the description falls back
 * to a fixed sentence; and no failure clears the list. A failed wallet lookup,
 * or an image that is not a string, only leaves the list as it was.
 */
module WalletAssetsTmp {
  import opened Wrappers
  import opened JsString
  import opened JsParseInt
  import opened JsArray
  import opened Blockfrost

  const GATEWAY: string := "https://ipfs.io/ipfs/"
  const PLACEHOLDER: string := "https://via.placeholder.com/50"
  const NO_DESCRIPTION: string := "Not an NFT or no description available"
  const IPFS_SCHEME: string := "ipfs://"

  /** The error a callback throws when it calls `replace` on an image that is not a string. */
  datatype TypeError = ReplaceIsNotAFunction

  /**
   * `fetchAssetDetails`: the asset document when the response is ok and the
   * document has `onchain_metadata` with a truthy `image`; `null` otherwise.
   */
  function FetchAssetDetails(response: Fetch<AssetInfo>): (details: Option<AssetInfo>)
    ensures details.Some? <==>
              response.Ok? && response.json.onchainMetadata.Some? && ImageTruthy(response.json.onchainMetadata.value.image)
    ensures details.Some? ==> details.value == response.json
  {
    match response
    case Ok(info) =>
      if info.onchainMetadata.None? || !ImageTruthy(info.onchainMetadata.value.image) then None
      else Some(info)
    case _ => None
  }

  /** The display URL of a string image: the gateway for a non-empty string, the placeholder for "". */
  function ImageUrl(text: string): string {
    if text != "" then GATEWAY + RemoveFirst(text, IPFS_SCHEME) else PLACEHOLDER
  }

  /** The `Asset` built for one entry whose document was found and whose image is the string `text`. */
  function AssembleAsset(item: Amount, details: AssetInfo, text: string): Asset {
    Asset(
      item.unit,
      OrElse(Name(details), item.unit),
      ImageUrl(text),
      ParseInt(item.quantity),
      OrElse(Description(details), NO_DESCRIPTION))
  }

  /**
   * The callback mapped over `data.amount`: `null` for a failed lookup, and a
   * thrown `TypeError` when the image is not a string, since `ipfsCid.replace` is
   * called before the image is tested.
   */
  function ResolveItem(item: Amount, details: Option<AssetInfo>): Result<Option<Asset>, TypeError> {
    match details
    case None => Success(None)
    case Some(info) =>
      match Image(info)
      case Text(text) => Success(Some(AssembleAsset(item, info, text)))
      case _ => Failure(ReplaceIsNotAFunction)
  }

  /** The promise of each entry, at that entry's index. */
  function FetchAllDetails(amount: seq<Amount>, service: AssetService): (results: seq<Result<Option<Asset>, TypeError>>)
    ensures |results| == |amount|
  {
    seq(|amount|, i requires 0 <= i < |amount| =>
      ResolveItem(amount[i], FetchAssetDetails(service(amount[i].unit))))
  }

  /** `Promise.all` of the entries, then the `null` entries dropped; a rejection is a `Failure`. */
  function ResolveAmounts(amount: seq<Amount>, service: AssetService): Result<seq<Asset>, TypeError> {
    match All(FetchAllDetails(amount, service))
    case Failure(e) => Failure(e)
    case Success(fetchedAssets) => Success(FilterNonNull(fetchedAssets))
  }

  /** The lookup outcome survives `fetchAssetDetails`: an ok document with metadata and a truthy image. */
  predicate Kept(details: Fetch<AssetInfo>) {
    FetchAssetDetails(details).Some?
  }

  // ---------------------------------------------------------------- images

  /**
   * Every non-empty string goes through the gateway with its first `ipfs://`
   * removed: the prefix when it starts with one, nothing when it has none.
   */
  lemma TextImageUrl(text: string)
    ensures text != "" ==> StartsWith(ImageUrl(text), GATEWAY)
    ensures StartsWith(text, IPFS_SCHEME) ==> ImageUrl(text) == GATEWAY + text[|IPFS_SCHEME|..]
    ensures text != "" && !Contains(text, IPFS_SCHEME) ==> ImageUrl(text) == GATEWAY + text
    ensures ImageUrl(text) == PLACEHOLDER <==> text == ""
  {
    if StartsWith(text, IPFS_SCHEME) {
      RemoveFirstOfPrefix(text, IPFS_SCHEME);
    }
    if !Contains(text, IPFS_SCHEME) {
      RemoveFirstAbsent(text, IPFS_SCHEME);
    }
    var url := ImageUrl(text);
    if text != "" {
      assert url[..|GATEWAY|] == GATEWAY;
      assert url[8] == 'i' && PLACEHOLDER[8] == 'v';
    }
  }

  /** When the first `ipfs://` is at `i`, even in the middle of the string, exactly that occurrence is cut. */
  lemma TextImageUrlAt(text: string, i: nat)
    requires OccursAt(text, IPFS_SCHEME, i)
    requires forall j: nat :: j < i ==> !OccursAt(text, IPFS_SCHEME, j)
    ensures ImageUrl(text) == GATEWAY + text[..i] + text[i + |IPFS_SCHEME|..]
  {
    RemoveFirstAt(text, IPFS_SCHEME, i);
  }

  // ---------------------------------------------------------------- assets

  /**
   * An assembled asset carries the entry's unit, the metadata name or else the
   * unit, the metadata description or else the fixed sentence, and the base-10
   * value of a digits-only quantity.
   */
  lemma AssembleAssetFields(item: Amount, details: AssetInfo, text: string)
    ensures AssembleAsset(item, details, text).asset == item.unit
    ensures Truthy(Name(details)) ==> AssembleAsset(item, details, text).name == Name(details).value
    ensures !Truthy(Name(details)) ==> AssembleAsset(item, details, text).name == item.unit
    ensures Truthy(Description(details)) ==> AssembleAsset(item, details, text).description == Description(details).value
    ensures !Truthy(Description(details)) ==> AssembleAsset(item, details, text).description == NO_DESCRIPTION
    ensures item.quantity != [] && AllDigits(item.quantity) ==>
              AssembleAsset(item, details, text).quantity == Int(DigitsValue(item.quantity))
  {
    if item.quantity != [] && AllDigits(item.quantity) {
      ParseIntOfDigits(item.quantity);
    }
  }

  // ---------------------------------------------------------------- the list

  /** The entries' promises all fulfil unless a kept document's image is an array. */
  lemma ResolveAmountsFailure(amount: seq<Amount>, service: AssetService)
    ensures ResolveAmounts(amount, service).Failure? <==>
              exists i :: 0 <= i < |amount| && Kept(service(amount[i].unit)) && Image(service(amount[i].unit).json).Parts?
  {
    var xs := FetchAllDetails(amount, service);
    forall i | 0 <= i < |amount|
      ensures xs[i].Failure? <==> Kept(service(amount[i].unit)) && Image(service(amount[i].unit).json).Parts?
    {
    }
  }

  /**
   * On success the stored list holds one asset per kept entry and none for the
   * others, in the order of `data.amount`, each built from its entry's document
   * and string image.
   */
  lemma ResolveAmountsOrder(amount: seq<Amount>, service: AssetService)
    requires ResolveAmounts(amount, service).Success?
    ensures var assets := ResolveAmounts(amount, service).value;
            var kept := NonNullIndices(All(FetchAllDetails(amount, service)).value);
            && |assets| == |kept|
            && (forall j, k :: 0 <= j < k < |kept| ==> kept[j] < kept[k])
            && (forall i :: 0 <= i < |amount| ==> (i in kept <==> Kept(service(amount[i].unit))))
            && (forall j :: 0 <= j < |kept| ==>
                  (kept[j] < |amount| && Image(service(amount[kept[j]].unit).json).Text? &&
                   assets[j] == AssembleAsset(amount[kept[j]], service(amount[kept[j]].unit).json,
                                              Image(service(amount[kept[j]].unit).json).text)))
  {
    var xs := FetchAllDetails(amount, service);
    var fetched := All(xs).value;
    forall i | 0 <= i < |amount|
      ensures fetched[i].Some? <==> Kept(service(amount[i].unit))
    {
    }
    FilterNonNullAt(fetched);
  }

  /** No asset of a successful resolution shows the placeholder: each image goes through the gateway. */
  lemma KeptAssetsUseGateway(amount: seq<Amount>, service: AssetService)
    requires ResolveAmounts(amount, service).Success?
    ensures forall a :: a in ResolveAmounts(amount, service).value ==>
              a.image != PLACEHOLDER && StartsWith(a.image, GATEWAY)
  {
    var assets := ResolveAmounts(amount, service).value;
    var kept := NonNullIndices(All(FetchAllDetails(amount, service)).value);
    ResolveAmountsOrder(amount, service);
    forall a | a in assets
      ensures a.image != PLACEHOLDER && StartsWith(a.image, GATEWAY)
    {
      var j :| 0 <= j < |assets| && assets[j] == a;
      var info := service(amount[kept[j]].unit).json;
      assert Kept(service(amount[kept[j]].unit));
      TextImageUrl(Image(info).text);
    }
  }

  // ---------------------------------------------------------------- state

  /** The component's state: the wallet input and the `assets` shown in the table. */
  class WalletAssetsView {
    var wallet: string
    var assets: seq<Asset>

    constructor ()
      ensures wallet == "" && assets == []
    {
      wallet := "";
      assets := [];
    }

    /** `setWallet`, called on every edit of the input. */
    method SetWallet(w: string)
      modifies this`wallet
      ensures wallet == w
    {
      wallet := w;
    }

    /**
     * `handleFetchAssets`, given the outcome of the address lookup and the asset
     * endpoint: only a successful resolution changes the list; an empty wallet,
     * a failed address lookup, a body without `amount` or a rejected callback
     * leave it as it was.
     */
    method HandleFetchAssets(response: Fetch<AddressInfo>, service: AssetService)
      modifies this`assets
      ensures wallet == "" ==> assets == old(assets)
      ensures !(response.Ok? && response.json.amount.Some?) ==> assets == old(assets)
      ensures wallet != "" && response.Ok? && response.json.amount.Some? ==>
                assets == match ResolveAmounts(response.json.amount.value, service)
                          case Success(resolved) => resolved
                          case Failure(_) => old(assets)
    {
      if wallet == "" {
        return;
      }
      match response {
        case Ok(data) =>
          match data.amount {
            case Some(amount) =>
              var settled := All(FetchAllDetails(amount, service));
              match settled {
                case Success(fetchedAssets) =>
                  assets := FilterNonNull(fetchedAssets);
                case Failure(_) =>
                  // the rejection reaches the catch, which only logs it
              }
            case None =>
              // `data.amount.map` throws; the catch only logs it
          }
        case _ =>
          // a rejected fetch, or a non-ok response that throws, reaches the catch, which only logs it
      }
    }
  }
}
