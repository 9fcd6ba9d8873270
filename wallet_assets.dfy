/**
 * The current `WalletAssets` component: resolving a wallet address to the
 * list of assets it holds, with their names, descriptions, quantities and
 * display images behind the Pinata IPFS gateway. Every failure of the wallet
 * lookup clears the list; a failed asset lookup drops only that asset.
 */
module WalletAssets {
  import opened Wrappers
  import opened JsString
  import opened JsParseInt
  import opened JsArray
  import opened Blockfrost

  const DEFAULT_WALLET: string := "addr1x88ttk0fk6ssan4g2uf2xtx3anppy3djftmkg959tufsc6qkqt76lg22kjjmnns37fmyue765qz347sxfnyks27ysqaqd3ph23"
  const DEFAULT_PLACEHOLDER: string := "https://placehold.co/50x50?text=No+Image"
  const GATEWAY: string := "https://gateway.pinata.cloud/ipfs/"
  const IPFS_SCHEME: string := "ipfs://"

  /** `fetchAssetDetails`: the asset document of an ok response, `null` for every failure. */
  function FetchAssetDetails(response: Fetch<AssetInfo>): (details: Option<AssetInfo>)
    ensures details.Some? <==> response.Ok?
    ensures details.Some? ==> details.value == response.json
  {
    match response
    case Ok(info) => Some(info)
    case _ => None
  }

  /**
   * The display URL of an image reference: a two-fragment array and an
   * `ipfs://` string go through the gateway, everything else is the placeholder.
   */
  function ImageUrl(image: ImageRef): string {
    match image
    case Parts(parts) =>
      if |parts| == 2 then GATEWAY + RemoveFirst(parts[0], IPFS_SCHEME) + parts[1]
      else DEFAULT_PLACEHOLDER
    case Text(text) =>
      if StartsWith(text, IPFS_SCHEME) then GATEWAY + RemoveFirst(text, IPFS_SCHEME)
      else DEFAULT_PLACEHOLDER
    case NoImage => DEFAULT_PLACEHOLDER
  }

  /** The `Asset` built for one balance entry whose document was found. */
  function AssembleAsset(item: Amount, details: AssetInfo): Asset {
    Asset(
      item.unit,
      OrElse(Name(details), item.unit),
      ImageUrl(Image(details)),
      ParseInt(item.quantity),
      OrElse(Description(details), ""))
  }

  /** The callback mapped over `data.amount`: `null` when the lookup failed. */
  function ResolveItem(item: Amount, details: Option<AssetInfo>): Option<Asset> {
    match details
    case None => None
    case Some(info) => Some(AssembleAsset(item, info))
  }

  /** `Promise.all(data.amount.map(...))`: one result per entry, at that entry's index. */
  function FetchAllDetails(amount: seq<Amount>, service: AssetService): (results: seq<Option<Asset>>)
    ensures |results| == |amount|
  {
    seq(|amount|, i requires 0 <= i < |amount| =>
      ResolveItem(amount[i], FetchAssetDetails(service(amount[i].unit))))
  }

  /** The list stored on success: the fetched assets without the `null` entries. */
  function ResolveAmounts(amount: seq<Amount>, service: AssetService): seq<Asset> {
    FilterNonNull(FetchAllDetails(amount, service))
  }

  // ---------------------------------------------------------------- images

  /**
   * A split reference goes through the gateway as its first fragment, with the
   * `ipfs://` prefix cut (or unchanged when it has none), followed by the second
   * fragment verbatim.
   */
  lemma SplitImageUrl(first: string, second: string)
    ensures StartsWith(first, IPFS_SCHEME) ==>
              ImageUrl(Parts([first, second])) == GATEWAY + first[|IPFS_SCHEME|..] + second
    ensures !Contains(first, IPFS_SCHEME) ==>
              ImageUrl(Parts([first, second])) == GATEWAY + first + second
  {
    assert ImageUrl(Parts([first, second])) == GATEWAY + RemoveFirst(first, IPFS_SCHEME) + second;
    if StartsWith(first, IPFS_SCHEME) {
      RemoveFirstOfPrefix(first, IPFS_SCHEME);
    } else if !Contains(first, IPFS_SCHEME) {
      RemoveFirstAbsent(first, IPFS_SCHEME);
    }
  }

  /** When the first `ipfs://` of the first fragment is at `i`, only that occurrence is cut. */
  lemma SplitImageUrlAt(first: string, second: string, i: nat)
    requires OccursAt(first, IPFS_SCHEME, i)
    requires forall j: nat :: j < i ==> !OccursAt(first, IPFS_SCHEME, j)
    ensures ImageUrl(Parts([first, second])) == GATEWAY + first[..i] + first[i + |IPFS_SCHEME|..] + second
  {
    assert ImageUrl(Parts([first, second])) == GATEWAY + RemoveFirst(first, IPFS_SCHEME) + second;
    RemoveFirstAt(first, IPFS_SCHEME, i);
  }

  /** A string reference goes through the gateway only when it starts with `ipfs://`. */
  lemma TextImageUrl(text: string)
    ensures StartsWith(text, IPFS_SCHEME) ==> ImageUrl(Text(text)) == GATEWAY + text[|IPFS_SCHEME|..]
    ensures !StartsWith(text, IPFS_SCHEME) ==> ImageUrl(Text(text)) == DEFAULT_PLACEHOLDER
  {
    if StartsWith(text, IPFS_SCHEME) {
      RemoveFirstOfPrefix(text, IPFS_SCHEME);
    }
  }

  /**
   * The URL is never empty: it is the placeholder exactly when the reference is
   * neither a two-fragment array nor an `ipfs://` string, and the gateway otherwise.
   */
  lemma ImageUrlFallback(image: ImageRef)
    ensures ImageUrl(image) == DEFAULT_PLACEHOLDER <==>
              !((image.Parts? && |image.parts| == 2) || (image.Text? && StartsWith(image.text, IPFS_SCHEME)))
    ensures ImageUrl(image) != DEFAULT_PLACEHOLDER ==> StartsWith(ImageUrl(image), GATEWAY)
    ensures ImageUrl(image) != ""
  {
    var url := ImageUrl(image);
    if (image.Parts? && |image.parts| == 2) || (image.Text? && StartsWith(image.text, IPFS_SCHEME)) {
      assert url[..|GATEWAY|] == GATEWAY;
      assert url[8] == 'g' && DEFAULT_PLACEHOLDER[8] == 'p';
    }
  }

  // ---------------------------------------------------------------- assets

  /**
   * An assembled asset carries the entry's unit, the metadata name (the unit when
   * the name is missing or empty), the metadata description (empty when missing),
   * a non-empty image URL and the base-10 value of a digits-only quantity.
   */
  lemma AssembleAssetFields(item: Amount, details: AssetInfo)
    ensures AssembleAsset(item, details).asset == item.unit
    ensures Truthy(Name(details)) ==> AssembleAsset(item, details).name == Name(details).value
    ensures !Truthy(Name(details)) ==> AssembleAsset(item, details).name == item.unit
    ensures Truthy(Description(details)) ==> AssembleAsset(item, details).description == Description(details).value
    ensures !Truthy(Description(details)) ==> AssembleAsset(item, details).description == ""
    ensures AssembleAsset(item, details).image != ""
    ensures item.quantity != [] && AllDigits(item.quantity) ==>
              AssembleAsset(item, details).quantity == Int(DigitsValue(item.quantity))
  {
    ImageUrlFallback(Image(details));
    if item.quantity != [] && AllDigits(item.quantity) {
      ParseIntOfDigits(item.quantity);
    }
  }

  // ---------------------------------------------------------------- the list

  /**
   * The stored list holds one asset per entry whose lookup succeeded and none
   * for the others, in the order of `data.amount`: its j-th asset is built from
   * the entry at the j-th index of a strictly increasing list of exactly the found indices.
   */
  lemma ResolveAmountsOrder(amount: seq<Amount>, service: AssetService)
    ensures var kept := NonNullIndices(FetchAllDetails(amount, service));
            && |ResolveAmounts(amount, service)| == |kept|
            && (forall j, k :: 0 <= j < k < |kept| ==> kept[j] < kept[k])
            && (forall i :: 0 <= i < |amount| ==> (i in kept <==> service(amount[i].unit).Ok?))
            && (forall j :: 0 <= j < |kept| ==>
                  (kept[j] < |amount| &&
                   ResolveAmounts(amount, service)[j] == AssembleAsset(amount[kept[j]], service(amount[kept[j]].unit).json)))
  {
    FilterNonNullAt(FetchAllDetails(amount, service));
  }

  /** When every lookup succeeds, every entry yields its asset at its own index. */
  lemma ResolveAmountsAllFound(amount: seq<Amount>, service: AssetService)
    requires forall i :: 0 <= i < |amount| ==> service(amount[i].unit).Ok?
    ensures |ResolveAmounts(amount, service)| == |amount|
    ensures forall i :: 0 <= i < |amount| ==>
              ResolveAmounts(amount, service)[i] == AssembleAsset(amount[i], service(amount[i].unit).json)
  {
    FilterNonNullAllPresent(FetchAllDetails(amount, service));
  }

  /** When exactly the lookup of entry `k` fails, the list is one shorter and skips only that entry. */
  lemma ResolveAmountsOneMissing(amount: seq<Amount>, service: AssetService, k: nat)
    requires k < |amount| && !service(amount[k].unit).Ok?
    requires forall i :: 0 <= i < |amount| && i != k ==> service(amount[i].unit).Ok?
    ensures |ResolveAmounts(amount, service)| == |amount| - 1
    ensures forall i :: 0 <= i < k ==>
              ResolveAmounts(amount, service)[i] == AssembleAsset(amount[i], service(amount[i].unit).json)
    ensures forall i :: k < i < |amount| ==>
              ResolveAmounts(amount, service)[i - 1] == AssembleAsset(amount[i], service(amount[i].unit).json)
  {
    var xs := FetchAllDetails(amount, service);
    forall i | 0 <= i < |amount| && i != k
      ensures xs[i] == Some(AssembleAsset(amount[i], service(amount[i].unit).json))
    {
    }
    FilterNonNullOneMissing(xs, k);
  }

  /** One entry `a1` with quantity "3" whose metadata names it "Coin" and points at `ipfs://xyz`. */
  lemma ResolveAmountsExample()
    ensures ResolveAmounts([Amount("a1", "3")],
              u => if u == "a1" then Ok(AssetInfo(Some(OnchainMetadata(Some("Coin"), None, Text("ipfs://xyz"))))) else NotOk)
            == [Asset("a1", "Coin", GATEWAY + "xyz", Int(3), "")]
  {
    var service: AssetService :=
      u => if u == "a1" then Ok(AssetInfo(Some(OnchainMetadata(Some("Coin"), None, Text("ipfs://xyz"))))) else NotOk;
    TextImageUrl("ipfs://xyz");
    ParseIntOfDigits("3");
    ResolveAmountsAllFound([Amount("a1", "3")], service);
  }

  // ---------------------------------------------------------------- state

  /** The component's state: the wallet input and the `assets` shown in the table. */
  class WalletAssetsView {
    var wallet: string
    var assets: seq<Asset>

    constructor ()
      ensures wallet == DEFAULT_WALLET && assets == []
    {
      wallet := DEFAULT_WALLET;
      assets := [];
    }

    /** `setWallet`, called on every edit of the input. */
    method SetWallet(w: string)
      modifies this`wallet
      ensures wallet == w
    {
      wallet := w;
    }

    /**
     * `handleFetchAssets`, given the outcome of the address lookup and the asset
     * endpoint: an empty wallet changes nothing; a rejected or non-ok address
     * lookup, or a body without `amount`, clears the list; otherwise the list
     * becomes the resolved assets.
     */
    method HandleFetchAssets(response: Fetch<AddressInfo>, service: AssetService)
      modifies this`assets
      ensures wallet == "" ==> assets == old(assets)
      ensures wallet != "" && !(response.Ok? && response.json.amount.Some?) ==> assets == []
      ensures wallet != "" && response.Ok? && response.json.amount.Some? ==>
                assets == ResolveAmounts(response.json.amount.value, service)
    {
      if wallet == "" {
        return;
      }
      match response {
        case Rejected =>
          assets := [];
        case NotOk =>
          assets := [];
        case Ok(data) =>
          match data.amount {
            case None =>
              // `data.amount.map` throws, and the catch clears the list
              assets := [];
            case Some(amount) =>
              var fetchedAssets := FetchAllDetails(amount, service);
              assets := FilterNonNull(fetchedAssets);
          }
      }
    }
  }
}
