/**
 * The shapes of the two indexing-service responses the components read
 * (`GET /addresses/{address}` and `GET /assets/{unit}`), the outcome of a
 * `fetch` of either, and the `Asset` record both components build.
 */
module Blockfrost {
  import opened Wrappers
  import opened JsParseInt

  /**
   * What awaiting `fetch(url)` and then `response.json()` yields: a rejection
   * (network failure or a body that is not JSON), a response whose `ok` is
   * false, or an ok response with its parsed body.
   */
  datatype Fetch<+T> = Rejected | NotOk | Ok(json: T)

  /** One entry of `data.amount`: an asset unit and its quantity as a decimal string. */
  datatype Amount = Amount(unit: string, quantity: string)

  /** The address document; `amount` is `None` when the body has no such list. */
  datatype AddressInfo = AddressInfo(amount: Option<seq<Amount>>)

  /** `onchain_metadata.image`: absent, one string, or an array of string fragments. */
  datatype ImageRef = NoImage | Text(text: string) | Parts(parts: seq<string>)

  datatype OnchainMetadata = OnchainMetadata(name: Option<string>, description: Option<string>, image: ImageRef)

  /** The asset document; `onchainMetadata` is `None` when `onchain_metadata` is missing or null. */
  datatype AssetInfo = AssetInfo(onchainMetadata: Option<OnchainMetadata>)

  /** The `Asset` interface the table displays. */
  datatype Asset = Asset(asset: string, name: string, image: string, quantity: JsNumber, description: string)

  /** The asset endpoint as seen by a component: the outcome of fetching one unit's document. */
  type AssetService = string -> Fetch<AssetInfo>

  /** JavaScript truthiness of an optional string: present and not empty. */
  predicate Truthy(v: Option<string>) {
    v.Some? && v.value != ""
  }

  /** `v || fallback` for an optional string `v`. */
  function OrElse(v: Option<string>, fallback: string): string {
    if Truthy(v) then v.value else fallback
  }

  /** JavaScript truthiness of an image value: an empty string is falsy, every array is truthy. */
  predicate ImageTruthy(image: ImageRef) {
    match image
    case NoImage => false
    case Text(text) => text != ""
    case Parts(_) => true
  }

  /** `info?.onchain_metadata?.name` */
  function Name(info: AssetInfo): Option<string> {
    match info.onchainMetadata
    case None => None
    case Some(m) => m.name
  }

  /** `info?.onchain_metadata?.description` */
  function Description(info: AssetInfo): Option<string> {
    match info.onchainMetadata
    case None => None
    case Some(m) => m.description
  }

  /** `info?.onchain_metadata?.image` */
  function Image(info: AssetInfo): ImageRef {
    match info.onchainMetadata
    case None => NoImage
    case Some(m) => m.image
  }
}
