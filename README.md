# Wallet asset resolution, modelled in Dafny

This project models the asset resolution step of the `WalletAssets` React component and of its older variant, `WalletAssetsTmp`. The step takes a Cardano wallet address. It reads the address's balance list (`data.amount`: a `unit` and a `quantity` string per entry) from the Blockfrost indexing service and looks up each unit's on-chain metadata. From each metadata image reference it builds a display URL. It then applies the name and description fallbacks, parses the quantity with `parseInt`, drops the entries whose lookup failed, and stores the list in the component's `assets` state.

Files and modules:

- `wrappers.dfy` (`Wrappers`): `Option` stands for JavaScript's `null`/`undefined`. `Result` stands for a fulfilled or rejected promise.
- `js_string.dfy` (`JsString`): `startsWith`, `indexOf`, and `replace` with a string pattern, which removes only the **first** occurrence of the pattern, wherever it is.
- `js_parse_int.dfy` (`JsParseInt`): `parseInt(s, 10)` as ECMAScript section 19.2.5 defines it. It skips leading white space, reads an optional sign, then reads the longest run of digits. With no digit the result is NaN.
- `js_array.dfy` (`JsArray`): `filter(x => x !== null)`, and `Promise.all`. `Promise.all` is modelled as an index-preserving combination that rejects when any element rejects.
- `blockfrost.dfy` (`Blockfrost`): the response shapes, the outcome of a `fetch`, the `Asset` record, and JavaScript truthiness of the optional fields.
- `wallet_assets.dfy` (`WalletAssets`): the current component.
- `wallet_assets_tmp.dfy` (`WalletAssetsTmp`): the older component.

The HTTP calls are inputs to the model:

- The outcome of the address request is a value `Fetch<AddressInfo>`: `Rejected`, `NotOk`, or `Ok(json)`. `Rejected` covers both a failed `fetch` and a body that is not JSON.
- The asset endpoint is a function `AssetService` from a unit to its `Fetch<AssetInfo>`.
- `Promise.all(data.amount.map(...))` becomes a sequence comprehension. It places each callback's result at its entry's index, so completion order plays no part.

The React state lives in a class `WalletAssetsView` in each module. Its fields are `wallet` and `assets`. `HandleFetchAssets` updates `assets` on exactly the branches where the source calls `setAssets`.

How the two variants behave:

- **Images, current variant.**
  - A two-element array image becomes the Pinata gateway, then the first fragment without its first `ipfs://`, then the second fragment verbatim.
  - A string that starts with `ipfs://` becomes the gateway followed by the rest of the string.
  - Every other image becomes `DEFAULT_PLACEHOLDER`. This includes a non-`ipfs://` string, which is not passed through unchanged.
- **Images, older variant.**
  - A lookup whose document has no `onchain_metadata` or a falsy `image` counts as failed.
  - Every kept string image becomes `https://ipfs.io/ipfs/` followed by the string without its first `ipfs://`. This happens whether or not the string starts with `ipfs://`.
  - Because of that guard, no kept asset receives the placeholder.
  - An array image makes the callback throw. `ipfsCid.replace` is called at line 98 before the image is tested. The whole `Promise.all` then rejects and `assets` stays as it was.
- **Failures.** In the current variant, a failed, non-ok or malformed address lookup clears `assets`. In the older variant the same failures leave `assets` unchanged. In both variants an empty wallet string is a no-op.
- **Fixed values.** The gateway base URLs are fixed constants in the source, and the model keeps them fixed. An unparseable quantity becomes NaN, which is what `parseInt` returns; it does not fall back to 0.

## Model

| member | source | states |
|---|---|---|
| JsString.IndexOfFrom | src/WalletAssets.tsx:133 | the result is an occurrence at or after the start index with none before it in that range, and no result means no occurrence from there on |
| JsString.IndexOf | src/WalletAssets.tsx:133 | the result is the first occurrence of the pattern, and no result exactly when the pattern does not occur |
| JsString.RemoveFirstAt | src/WalletAssets.tsx:133 | `replace(pattern, "")` cuts out the first occurrence, wherever it is, so the string shrinks by the pattern's length |
| JsString.RemoveFirstOfPrefix | src/WalletAssets.tsx:135 | a string starting with the pattern loses exactly that prefix |
| JsString.RemoveFirstAbsent | src/WalletAssetsTmp.tsx:102 | a string without the pattern is left unchanged |
| JsString.RemoveFirstReinsert | src/WalletAssets.tsx:133 | inserting the pattern back at the removal index restores the original string |
| JsParseInt.TrimStart | src/WalletAssets.tsx:142 | the result is a suffix of the input, everything removed is white space, and the result does not start with white space |
| JsParseInt.DigitCount | src/WalletAssets.tsx:142 | the counted prefix is all digits and the next character, if any, is not a digit |
| JsParseInt.ParseIntOfDigits | src/WalletAssets.tsx:142 | a non-empty digits-only quantity parses to its base-10 value |
| JsParseInt.ParseIntIgnoresSuffix | src/WalletAssetsTmp.tsx:103 | characters after the leading digits do not change the parsed quantity |
| JsParseInt.DigitsValueOfDecimal | src/WalletAssets.tsx:142 | the base-10 value of the decimal numeral of n is n |
| JsParseInt.ParseIntOfDecimal | src/WalletAssets.tsx:142 | parsing the decimal numeral of any natural number gives that number back |
| JsArray.FilterNonNull | src/WalletAssets.tsx:149 | filtering never lengthens the list |
| JsArray.NonNullIndices | src/WalletAssets.tsx:149 | a strictly increasing list of in-range indices that holds exactly the non-null entries |
| JsArray.FilterNonNullAt | src/WalletAssets.tsx:149 | the filter keeps exactly the non-null values in their original order: its j-th value sits at the j-th non-null index |
| JsArray.FilterNonNullAppend | src/WalletAssetsTmp.tsx:109 | filtering distributes over concatenation, so relative order survives |
| JsArray.FilterNonNullAllPresent | src/WalletAssets.tsx:149 | with no null entry, every value is kept at its own index |
| JsArray.FilterNonNullOneMissing | src/WalletAssets.tsx:149 | with exactly one null entry, the filter is one shorter and skips only that index |
| JsArray.All | src/WalletAssetsTmp.tsx:92-107 | `Promise.all` fulfils exactly when every promise does, with each value at its promise's index |
| WalletAssets.FetchAssetDetails | src/WalletAssets.tsx:87-103 | the asset document exactly when the response is ok, `null` for a rejection or a non-ok status |
| WalletAssets.SplitImageUrl | src/WalletAssets.tsx:132-133 | a two-fragment image is the Pinata gateway plus the first fragment with its `ipfs://` prefix cut (unchanged when it has none) plus the second fragment verbatim |
| WalletAssets.SplitImageUrlAt | src/WalletAssets.tsx:133 | when the first fragment's first `ipfs://` is in the middle, exactly that occurrence is cut and the second fragment is appended verbatim |
| WalletAssets.TextImageUrl | src/WalletAssets.tsx:134-135 | an `ipfs://` string becomes the gateway plus what follows the prefix; any other string becomes the placeholder |
| WalletAssets.ImageUrlFallback | src/WalletAssets.tsx:129-136 | the URL is never empty; it is the placeholder exactly when the image is neither a two-element array nor an `ipfs://` string, and starts with the gateway otherwise |
| WalletAssets.AssembleAssetFields | src/WalletAssets.tsx:138-144 | the asset keeps its unit; the name is the truthy metadata name or else the unit; the description is the truthy metadata description or else ""; the image is non-empty; a digits-only quantity is its base-10 value |
| WalletAssets.ResolveAmountsOrder | src/WalletAssets.tsx:124-149 | the stored list has one asset per entry whose lookup succeeded and none for the others, in the order of `data.amount`, each built from its own entry and document |
| WalletAssets.ResolveAmountsAllFound | src/WalletAssets.tsx:124-149 | when every lookup succeeds, the list has one asset per entry, at the entry's index |
| WalletAssets.ResolveAmountsOneMissing | src/WalletAssets.tsx:124-149 | when exactly one lookup fails, the list is one shorter and the other entries keep their relative order |
| WalletAssets.ResolveAmountsExample | src/WalletAssets.tsx:124-149 | entry `a1`, quantity "3", name "Coin" and image `ipfs://xyz` give the asset `a1`, "Coin", gateway + "xyz", 3, "" |
| WalletAssets.WalletAssetsView.constructor | src/WalletAssets.tsx:80-83 | the wallet starts at the default address and the asset list starts empty |
| WalletAssets.WalletAssetsView.SetWallet | src/WalletAssets.tsx:80-82 | the wallet input takes the new value |
| WalletAssets.WalletAssetsView.HandleFetchAssets | src/WalletAssets.tsx:105-154 | an empty wallet leaves `assets` unchanged; a rejected or non-ok address lookup, or a body without `amount`, sets it to empty; otherwise it becomes the resolved list |
| WalletAssetsTmp.FetchAssetDetails | src/WalletAssetsTmp.tsx:60-77 | the document exactly when the response is ok and it has `onchain_metadata` with a truthy `image`; `null` otherwise |
| WalletAssetsTmp.TextImageUrl | src/WalletAssetsTmp.tsx:97-102 | every non-empty string gets the ipfs.io gateway, with the `ipfs://` prefix cut or the string unchanged when it has none; the placeholder exactly for "" |
| WalletAssetsTmp.TextImageUrlAt | src/WalletAssetsTmp.tsx:102 | an `ipfs://` in the middle of a string is cut where it is and the rest kept, so "https://x/ipfs://abc" becomes the gateway plus "https://x/abc" |
| WalletAssetsTmp.AssembleAssetFields | src/WalletAssetsTmp.tsx:99-105 | the asset keeps its unit; the name falls back to the unit; the description falls back to "Not an NFT or no description available"; a digits-only quantity is its base-10 value |
| WalletAssetsTmp.ResolveAmountsFailure | src/WalletAssetsTmp.tsx:92-107 | the combined promise rejects exactly when some kept entry's image is an array |
| WalletAssetsTmp.ResolveAmountsOrder | src/WalletAssetsTmp.tsx:92-109 | on success the list holds one asset per kept entry, in the order of `data.amount`, each built from its entry, document and string image |
| WalletAssetsTmp.KeptAssetsUseGateway | src/WalletAssetsTmp.tsx:68-102 | no stored asset has the placeholder image; every image starts with the ipfs.io gateway |
| WalletAssetsTmp.WalletAssetsView.constructor | src/WalletAssetsTmp.tsx:57-58 | the wallet and the asset list both start empty |
| WalletAssetsTmp.WalletAssetsView.SetWallet | src/WalletAssetsTmp.tsx:57 | the wallet input takes the new value |
| WalletAssetsTmp.WalletAssetsView.HandleFetchAssets | src/WalletAssetsTmp.tsx:79-113 | `assets` changes only on a successful resolution; an empty wallet, a failed address lookup, a body without `amount` or a rejected callback leave it as it was |

## Left out

- React presentation: `WalletInput`, `AssetsTable`, the JSX, key-press handling and the `useEffect` that runs the lookup on mount. This is rendering with no logic to state.
- Network and JSON: `fetch`, the URLs, the `project_id` credential header and `response.json()` are I/O. Their outcomes are inputs (`Fetch`, `AssetService`).
- Concurrency of `Promise.all`: the callbacks share no state, so the model evaluates them as one index-preserving map. Which of several rejections arrives first is not modelled. The rejection reason only reaches `console.error`.
- `console.log` / `console.error`: logging only. The older variant's `console.log` at line 98 is modelled for the one effect that matters, the `replace` call, which throws on a non-string image.
- WalletAssets.WalletAssetsView.HandleFetchAssets: the `async` handler pauses at each `fetch`, each `response.json()` and the `Promise.all`; the model takes one call as a single atomic change of `assets`. Overlapping calls are not modelled: the lookup the `useEffect` starts on mount for the default wallet (src/WalletAssets.tsx:156-158) racing a Submit, or two Submits in a row, both call `setAssets`, the last to finish wins, and an older wallet's list can overwrite a newer one's.
- WalletAssetsTmp.WalletAssetsView.HandleFetchAssets: the same holds for the older handler; one call is a single atomic change of `assets`, and two overlapping Submits, where the last to finish wins whatever the order they were started in, are not modelled.
- `AssetService`: a unit's lookup is a function of the unit, so two entries with the same unit see the same outcome.
- JSON values of unexpected types: names, descriptions and array fragments are strings, documents are objects, and an image is absent, a string or an array. A number-valued name, a non-string array element (on which the current variant's `replace` would throw), and a `null` document body are not modelled. Neither is an image that is a number, `true` or an object: in the older variant it passes the truthiness guard at src/WalletAssetsTmp.tsx:68, `replace` at line 98 throws and the whole `Promise.all` rejects, as for an array; in the current variant it falls through to the placeholder (src/WalletAssets.tsx:132-136).
- JsParseInt.ParseInt: the result is an exact unbounded integer. The rounding to a double for quantities above 2^53 is not modelled, and neither is the distinction between -0 and 0.
- Strings are sequences of Unicode code points, not UTF-16 code units. This makes no difference to the ASCII patterns and digits involved.
