# qrcode-actix: a verified model of the request-handling core

The service turns contact data (a URL, a phone number, an email address or a
postal address) into a QR code, served as a PNG by `GET /generate_qr` or as an
SVG by `POST /generate_qr_svg`. This project models the logic of
`src/api/mod.rs` as pure Dafny functions and proves what it promises:

- `wrappers.dfy`: module `Wrappers`, the `Option` type.
- `models.dfy`: module `Models`, the request `Info` (seven optional fields),
  `Info.Default()` (every field absent), and the `u32` and `byte` integer types.
- `api.dfy`: module `Api`:
  - the colour validator `IsValidColor`. It is written in the shape of the
    anchored pattern `^#[0-9a-fA-F]{6}$`: a `#`, then a counted run of six hex
    digits, then the end of input.
  - the payload selector `GetCodeData`. Its priority order is url, then
    `tel:`+phone, then `mailto:`+email, then `geo:`+lat+`,`+lng. A reference
    definition (`FirstPresent` over `Candidates`) is proved equal to it.
  - the fallbacks `ChooseSize`, `ForegroundColor` and `BackgroundColor`.
  - the endpoint outcomes `Index` and `GenerateSvg`, which return a `Response`.

Code outside the core enters as function parameters:
- `geocode`: address to `Option<(F, F)>`. A transport error or a missing
  coordinate is `None`, because the selector discards the `Err` with `if let Ok`.
  The geocoder is assumed to return; see "Left out" for the one path where it
  does not.
- `fmt`: the decimal text of one coordinate. `F` stands for `f64`, so no
  floating point enters the model.
- `encode`: payload to `Option<Q>`, the QR encoder.
- `writePng`: `Q` to `Option<seq<byte>>`, PNG serialisation.

Payloads are strings; the source's `as_bytes()` is their UTF-8 encoding.

Only presence is tested: `url == Some("")` is selected (src/api/mod.rs:71).
`src/models/mod.rs` declares five fields, while `src/api/mod.rs:26-38` and the
handlers use seven; the model uses the seven.

## Model

| member | source | states |
|---|---|---|
| `Api.MatchHexDigits` | src/api/mod.rs:41 | the counted run `[0-9a-fA-F]{n}` up to the end anchor matches exactly the strings of length n whose every character is a hex digit |
| `Api.IsValidColor` | src/api/mod.rs:40-43 | a colour is valid iff it has length 7, starts with `#`, and its other six characters are hex digits in either case |
| `Api.ValidColorExamples` | src/api/mod.rs:154-159 | `#FFFFFF` and `#000000` are accepted; `#GGGGGG` and `FFFFFF` are rejected |
| `Api.GetCodeData` | src/api/mod.rs:70-86 | there is no payload exactly when url, phone and email are all absent and the address is absent or fails to geocode |
| `Api.FirstPresent` | src/api/mod.rs:70-86 | "first match wins": the result is absent iff every candidate is absent; otherwise it is the candidate at some index with every earlier candidate absent |
| `Api.CodeDataIsFirstCandidate` | src/api/mod.rs:70-86 | the selector returns the first present candidate of the fixed order url, `tel:`, `mailto:`, `geo:` |
| `Api.UrlTakesPrecedence` | src/api/mod.rs:71-73 | a present url is the payload verbatim; no other field, geocoder or formatter changes the result |
| `Api.EmptyUrlIsChosen` | src/api/mod.rs:71-72 | presence alone decides: `url == Some("")` yields the payload `""` |
| `Api.PhoneIsSecond` | src/api/mod.rs:74-76 | without a url, a present phone yields `"tel:" + phone` |
| `Api.EmailIsThird` | src/api/mod.rs:77-79 | without url and phone, a present email yields `"mailto:" + email` |
| `Api.AddressIsGeocoded` | src/api/mod.rs:80-85 | with only an address, the payload is `geo:lat,lng` when geocoding succeeds and absent when it fails |
| `Api.GeocodeFailureIsAbsence` | src/api/mod.rs:80-85 | an address that fails to geocode gives the same result as no address at all |
| `Api.CodeDataExamples` | src/api/mod.rs:214-236 | the unit test's url, phone and email cases give the expected payloads; the default request gives none |
| `Api.ChooseSize` | src/api/mod.rs:133-136 | the size always lies in [100, 2000]; it is the requested dimension when that is in range, and 200 otherwise, including when absent |
| `Api.ValidColorOr` | src/api/mod.rs:113-121 | the result is always a valid colour: the given colour when it is valid, otherwise the fallback |
| `Api.ForegroundColor` | src/api/mod.rs:113-116 | the dark colour is valid: the given foreground when it is valid, otherwise `#000000` |
| `Api.BackgroundColor` | src/api/mod.rs:118-121 | the light colour is valid: the given background when it is valid, otherwise `#FFFFFF` |
| `Api.Index` | src/api/mod.rs:88-109 | the PNG endpoint never answers with an SVG; it answers 400 "missing data" iff no payload is selected; a 200 or 500 answer happens only after the payload was encoded |
| `Api.GenerateSvg` | src/api/mod.rs:111-146 | the SVG endpoint answers 400 or an SVG, never 500; it answers 400 "missing data" iff no payload is selected; an SVG always has a size in [100, 2000] and valid dark and light colours |
| `Api.MissingPayloadRejected` | src/api/mod.rs:90-93 | without a payload both endpoints answer 400 "missing data", and the SVG answer is the same for every encoder, so the encoder is never consulted |
| `Api.EncodeFailureRejected` | src/api/mod.rs:128-131 | a payload that the encoder refuses makes both endpoints answer 400 "cannot process" |
| `Api.SvgSucceeds` | src/api/mod.rs:128-145 | once the payload encodes, the SVG endpoint answers 200 `image/svg+xml` with the encoded symbol, the chosen size and the chosen colours |
| `Api.PngOutcome` | src/api/mod.rs:95-108 | once the payload encodes, the PNG endpoint answers 200 `image/png` with the written bytes, or 500 when writing fails |
| `Api.EndpointsAgreeOnRejection` | src/api/mod.rs:90-131 | both endpoints reject exactly the same requests, with the same message |
| `Api.SvgExample` | src/api/mod.rs:259-274 | a url-only request to the SVG endpoint answers 200 `image/svg+xml` when the encoder accepts the url |
| `Api.SvgFallbackExamples` | src/api/mod.rs:113-136 | for a url request: dimension 300 gives size 300, dimension 50 gives 200, an invalid foreground gives black, an absent background gives white |
| `Api.IndexExample` | src/api/mod.rs:247-257 | the test's GET with url, email and dimension 300 answers 200 `image/png` when encoding and writing succeed, and so does that request with any other dimension, foreground or background |
| `Api.IndexIgnoresRenderSettings` | src/api/mod.rs:89-109 | for every request, the PNG endpoint's answer does not depend on dimension, foreground or background |
| `Api.HexDigitClass` | src/api/mod.rs:41 | the class `[0-9a-fA-F]` holds exactly for the 22 characters `0`-`9`, `a`-`f`, `A`-`F` |
| `Api.GeoUri` | src/api/mod.rs:82 | the geo payload is `geo:`, the latitude text, a comma, then the longitude text, and nothing else |
| `Api.Candidates` | src/api/mod.rs:71-84 | four candidates in priority order: the url itself, `"tel:" + phone`, `"mailto:" + email`, and the `geo:` text of the geocoded address; each is present exactly when its field is present (the last also needing a successful geocode) |
| `Models.Info.Default` | src/api/mod.rs:26-38 | the default request has all seven fields absent |
| `Api.Response.Status` | src/api/mod.rs:92-145 | an image answer is 200, a rejection is 400 and a failed PNG write is 500 |
| `Api.Response.ContentType` | src/api/mod.rs:108-145 | a successful answer is `image/png` exactly for the PNG variant and `image/svg+xml` exactly for the SVG variant |

## Left out

- `get_coordinates` (`src/api/mod.rs:45-68`) is a parameter. It reads an environment credential, makes an outbound HTTP call and extracts fields from JSON. Its two error kinds are not told apart, because the selector discards them.
- The decimal formatting of `f64` coordinates is an opaque parameter, because it is floating-point formatting.
- QR symbol construction, Luma rendering, PNG writing and SVG markup come from third-party crates. Only their success or failure is modelled. An SVG answer records the symbol and the render settings (minimum size, dark and light colour), not the markup.
- The regex is not compiled. The model states the pattern directly, as a matcher with the same anchors and repetition count.
- The missing-credential panic of `get_coordinates` (src/api/mod.rs:48) is not modelled. When the key is unset, an address-only request panics instead of answering. The endpoint contracts assume the geocoder returns.
- `src/main.rs` (server bootstrap and binding) is not part of this model.
- The actix extractors are not modelled: query and JSON decoding, and the rejection of a body that does not deserialise, such as a `dimension` outside `u32`. Async evaluation is not modelled either: the geocoder is called only when url, phone and email are absent, and that order is invisible in a pure model.
- The content type of error bodies is not modelled.
