/**
 * The request-handling core of the QR-code service: the colour validator,
 * the payload selector, the lenient size and colour fallbacks, and the
 * outcome of the two endpoints `GET /generate_qr` and `POST /generate_qr_svg`.
 *
 * Everything the core hands to other code is a parameter here:
 *  - `geocode` resolves an address to a (latitude, longitude) pair, or fails;
 *  - `fmt` is the decimal text of one coordinate (`F` stands for `f64`);
 *  - `encode` builds a QR symbol from a payload, or fails;
 *  - `writePng` serialises a rendered symbol as PNG bytes, or fails.
 */
module Api {
  import opened Wrappers
  import opened Models

  const MIN_DIMENSION: u32 := 100
  const MAX_DIMENSION: u32 := 2000
  /** The size used when no dimension, or one out of range, is requested. */
  const DEFAULT_DIMENSION: u32 := 200

  const BLACK := "#000000"
  const WHITE := "#FFFFFF"

  /** Body of the 400 answer when no payload could be selected. */
  const MISSING_DATA := "缺少有效數據"
  /** Body of the 400 answer when the QR encoder refuses the payload. */
  const UNPROCESSABLE := "你輸入的字串無法處理"
  /** Body of the 500 answer when the PNG cannot be written. */
  const IMAGE_FAILED := "無法生成圖像"

  // ---------------------------------------------------------------------
  // Colour validator: the anchored pattern ^#[0-9a-fA-F]{6}$
  // ---------------------------------------------------------------------

  /** The character class `[0-9a-fA-F]`. */
  predicate IsHexDigit(c: char) {
    ('0' <= c <= '9') || ('a' <= c <= 'f') || ('A' <= c <= 'F')
  }

  /** The class holds for exactly the 22 listed digits. */
  lemma HexDigitClass(c: char)
    ensures IsHexDigit(c) <==> c in "0123456789abcdefABCDEF"
  {
  }

  /** The counted repetition `[0-9a-fA-F]{n}` followed by the end anchor. */
  function MatchHexDigits(t: string, n: nat): (r: bool)
    ensures r <==> |t| == n && forall i :: 0 <= i < |t| ==> IsHexDigit(t[i])
    decreases n
  {
    if n == 0 then t == []
    else t != [] && IsHexDigit(t[0]) && MatchHexDigits(t[1..], n - 1)
  }

  /** `is_valid_color`: a `#` followed by exactly six hexadecimal digits, either case. */
  function IsValidColor(color: string): (r: bool)
    ensures r <==> |color| == 7 && color[0] == '#'
                   && forall i :: 1 <= i < 7 ==> IsHexDigit(color[i])
  {
    var ok := |color| > 0 && color[0] == '#' && MatchHexDigits(color[1..], 6);
    assert |color| > 0 ==> forall i :: 1 <= i < |color| ==> color[i] == color[1..][i - 1];
    ok
  }

  /** The unit test of `is_valid_color`. */
  lemma ValidColorExamples()
    ensures IsValidColor(WHITE) && IsValidColor(BLACK)
    ensures !IsValidColor("#GGGGGG") && !IsValidColor("FFFFFF")
  {
  }

  // ---------------------------------------------------------------------
  // Payload selector
  // ---------------------------------------------------------------------

  /** The `geo:` URI of a resolved address. */
  function GeoUri<F>(lat: F, lng: F, fmt: F -> string): (uri: string)
    ensures var n := |fmt(lat)|;
            |uri| == 5 + n + |fmt(lng)| && uri[..4] == "geo:"
            && uri[4..4 + n] == fmt(lat) && uri[4 + n] == ',' && uri[5 + n..] == fmt(lng)
  {
    "geo:" + fmt(lat) + "," + fmt(lng)
  }

  /**
   * `get_code_data`: the first present field wins, in the order url, phone,
   * email, address. Only presence is tested; an empty string still wins.
   * A geocoding failure yields no payload, exactly as an absent address does.
   */
  function GetCodeData<F>(data: Info, geocode: string -> Option<(F, F)>, fmt: F -> string)
    : (payload: Option<string>)
    ensures payload.None? <==>
              data.url.None? && data.phone.None? && data.email.None?
              && (data.address.None? || geocode(data.address.value).None?)
  {
    match data.url
    case Some(url) => Some(url)
    case None =>
      match data.phone
      case Some(phone) => Some("tel:" + phone)
      case None =>
        match data.email
        case Some(email) => Some("mailto:" + email)
        case None =>
          match data.address
          case None => None
          case Some(address) =>
            match geocode(address)
            case Some((lat, lng)) => Some(GeoUri(lat, lng, fmt))
            case None => None
  }

  /** The payload each field would give on its own, in priority order. */
  function Candidates<F>(data: Info, geocode: string -> Option<(F, F)>, fmt: F -> string)
    : (s: seq<Option<string>>)
    ensures |s| == 4 && s[0] == data.url
    ensures s[1].Some? <==> data.phone.Some?
    ensures s[2].Some? <==> data.email.Some?
    ensures s[3].Some? <==> data.address.Some? && geocode(data.address.value).Some?
    ensures data.phone.Some? ==> s[1] == Some("tel:" + data.phone.value)
    ensures data.email.Some? ==> s[2] == Some("mailto:" + data.email.value)
    ensures s[3].Some? ==>
              s[3] == Some(GeoUri(geocode(data.address.value).value.0, geocode(data.address.value).value.1, fmt))
  {
    [ data.url,
      if data.phone.Some? then Some("tel:" + data.phone.value) else None,
      if data.email.Some? then Some("mailto:" + data.email.value) else None,
      if data.address.Some? && geocode(data.address.value).Some?
      then Some(GeoUri(geocode(data.address.value).value.0, geocode(data.address.value).value.1, fmt))
      else None ]
  }

  /** The first present entry of `s`: the meaning of "first match wins". */
  function FirstPresent(s: seq<Option<string>>): (r: Option<string>)
    ensures r.None? <==> forall i :: 0 <= i < |s| ==> s[i].None?
    ensures r.Some? ==> exists k :: 0 <= k < |s| && s[k] == r && forall j :: 0 <= j < k ==> s[j].None?
  {
    if s == [] then None
    else if s[0].Some? then s[0]
    else
      var r := FirstPresent(s[1..]);
      assert forall i :: 1 <= i < |s| ==> s[i] == s[1..][i - 1];
      assert r.Some? ==> exists k :: 0 <= k < |s| && s[k] == r && forall j :: 0 <= j < k ==> s[j].None? by {
        if r.Some? {
          var k :| 0 <= k < |s| - 1 && s[1..][k] == r && forall j :: 0 <= j < k ==> s[1..][j].None?;
          assert s[k + 1] == r && forall j :: 0 <= j < k + 1 ==> s[j].None?;
        }
      }
      r
  }

  /** The selector picks the first present candidate, in the fixed priority order. */
  lemma {:induction false} CodeDataIsFirstCandidate<F>(data: Info, geocode: string -> Option<(F, F)>, fmt: F -> string)
    ensures GetCodeData(data, geocode, fmt) == FirstPresent(Candidates(data, geocode, fmt))
  {
    var s := Candidates(data, geocode, fmt);
    var tail := s[3..];
    assert tail[1..] == [];
    assert FirstPresent(tail) == s[3];
    assert s[2..][1..] == tail;
    assert FirstPresent(s[2..]) == if s[2].Some? then s[2] else s[3];
    assert s[1..][1..] == s[2..];
    assert FirstPresent(s[1..]) == if s[1].Some? then s[1] else FirstPresent(s[2..]);
    if data.address.Some? && geocode(data.address.value).Some? {
      var (lat, lng) := geocode(data.address.value).value;
      assert s[3] == Some(GeoUri(lat, lng, fmt));
    }
  }

  /** A present url is the payload verbatim, whatever the other fields and the geocoder hold. */
  lemma UrlTakesPrecedence<F>(data: Info, other: Info, geocode: string -> Option<(F, F)>,
                              geocode': string -> Option<(F, F)>, fmt: F -> string, fmt': F -> string)
    requires data.url.Some? && other.url == data.url
    ensures GetCodeData(data, geocode, fmt) == Some(data.url.value)
    ensures GetCodeData(other, geocode', fmt') == GetCodeData(data, geocode, fmt)
  {
  }

  /** Presence alone decides: an empty url is still chosen. */
  lemma EmptyUrlIsChosen<F>(data: Info, geocode: string -> Option<(F, F)>, fmt: F -> string)
    requires data.url == Some("")
    ensures GetCodeData(data, geocode, fmt) == Some("")
  {
  }

  /** Without a url, a present phone gives a `tel:` payload. */
  lemma PhoneIsSecond<F>(data: Info, geocode: string -> Option<(F, F)>, fmt: F -> string)
    requires data.url.None? && data.phone.Some?
    ensures GetCodeData(data, geocode, fmt) == Some("tel:" + data.phone.value)
  {
  }

  /** Without url and phone, a present email gives a `mailto:` payload. */
  lemma EmailIsThird<F>(data: Info, geocode: string -> Option<(F, F)>, fmt: F -> string)
    requires data.url.None? && data.phone.None? && data.email.Some?
    ensures GetCodeData(data, geocode, fmt) == Some("mailto:" + data.email.value)
  {
  }

  /** Only an address: a `geo:` payload exactly when geocoding succeeds. */
  lemma AddressIsGeocoded<F>(data: Info, geocode: string -> Option<(F, F)>, fmt: F -> string)
    requires data.url.None? && data.phone.None? && data.email.None? && data.address.Some?
    ensures var coords := geocode(data.address.value);
            GetCodeData(data, geocode, fmt)
            == if coords.Some? then Some(GeoUri(coords.value.0, coords.value.1, fmt)) else None
  {
  }

  /** An address the geocoder cannot resolve cannot be told apart from no address. */
  lemma GeocodeFailureIsAbsence<F>(data: Info, geocode: string -> Option<(F, F)>, fmt: F -> string)
    requires data.address.Some? && geocode(data.address.value).None?
    ensures GetCodeData(data, geocode, fmt) == GetCodeData(data.(address := None), geocode, fmt)
  {
  }

  /** The unit test of `get_code_data`, on the default request. */
  lemma CodeDataExamples<F>(geocode: string -> Option<(F, F)>, fmt: F -> string)
    ensures var d := Info.Default();
            GetCodeData(d.(url := Some("https://example.com")), geocode, fmt) == Some("https://example.com")
            && GetCodeData(d.(phone := Some("1234567890")), geocode, fmt) == Some("tel:1234567890")
            && GetCodeData(d.(email := Some("test@example.com")), geocode, fmt) == Some("mailto:test@example.com")
            && GetCodeData(d, geocode, fmt) == None
  {
    assert "tel:" + "1234567890" == "tel:1234567890";
    assert "mailto:" + "test@example.com" == "mailto:test@example.com";
  }

  // ---------------------------------------------------------------------
  // Leniency rules
  // ---------------------------------------------------------------------

  /** The SVG size: the requested dimension when it lies in [100, 2000], otherwise 200. */
  function ChooseSize(dimension: Option<u32>): (size: u32)
    ensures MIN_DIMENSION <= size <= MAX_DIMENSION
    ensures dimension == Some(size) || size == DEFAULT_DIMENSION
    ensures dimension.Some? && MIN_DIMENSION <= dimension.value <= MAX_DIMENSION ==> size == dimension.value
  {
    match dimension
    case Some(d) => if MIN_DIMENSION <= d && d <= MAX_DIMENSION then d else DEFAULT_DIMENSION
    case None => DEFAULT_DIMENSION
  }

  /** The colour given when it is valid, otherwise the valid colour `fallback`. */
  function ValidColorOr(color: Option<string>, fallback: string): (r: string)
    requires IsValidColor(fallback)
    ensures IsValidColor(r)
    ensures r == fallback || color == Some(r)
    ensures color.Some? && IsValidColor(color.value) ==> r == color.value
  {
    match color
    case Some(c) => if IsValidColor(c) then c else fallback
    case None => fallback
  }

  /** The dark colour of the SVG: the given foreground when valid, otherwise black. */
  function ForegroundColor(foreground: Option<string>): (r: string)
    ensures IsValidColor(r)
    ensures r == BLACK || foreground == Some(r)
    ensures foreground.Some? && IsValidColor(foreground.value) ==> r == foreground.value
  {
    ValidColorExamples();
    ValidColorOr(foreground, BLACK)
  }

  /** The light colour of the SVG: the given background when valid, otherwise white. */
  function BackgroundColor(background: Option<string>): (r: string)
    ensures IsValidColor(r)
    ensures r == WHITE || background == Some(r)
    ensures background.Some? && IsValidColor(background.value) ==> r == background.value
  {
    ValidColorExamples();
    ValidColorOr(background, WHITE)
  }

  // ---------------------------------------------------------------------
  // Handler outcomes
  // ---------------------------------------------------------------------

  /** What an endpoint answers; a successful SVG records the symbol and render settings. */
  datatype Response<Q> =
    | BadRequest(message: string)
    | InternalServerError(message: string)
    | PngImage(png: seq<byte>)
    | SvgImage(symbol: Q, size: u32, dark: string, light: string)
  {
    /** The HTTP status: 200 for an image, 400 or 500 for an error. */
    function Status(): (code: int)
      ensures code == 200 <==> PngImage? || SvgImage?
      ensures code == 400 <==> BadRequest?
      ensures code == 500 <==> InternalServerError?
    {
      match this
      case BadRequest(_) => 400
      case InternalServerError(_) => 500
      case PngImage(_) => 200
      case SvgImage(_, _, _, _) => 200
    }

    /** The content type of a successful answer. */
    function ContentType(): (mime: string)
      requires Status() == 200
      ensures mime == "image/png" <==> PngImage?
      ensures mime == "image/svg+xml" <==> SvgImage?
    {
      if PngImage? then "image/png" else "image/svg+xml"
    }
  }

  /** `GET /generate_qr`: select a payload, encode it, write it as PNG. */
  function Index<F, Q>(data: Info, geocode: string -> Option<(F, F)>, fmt: F -> string,
                       encode: string -> Option<Q>, writePng: Q -> Option<seq<byte>>)
    : (r: Response<Q>)
    ensures !r.SvgImage?
    ensures r == BadRequest(MISSING_DATA) <==> GetCodeData(data, geocode, fmt).None?
    ensures r.Status() == 200 || r.InternalServerError? ==>
              var payload := GetCodeData(data, geocode, fmt);
              payload.Some? && encode(payload.value).Some?
  {
    match GetCodeData(data, geocode, fmt)
    case None => BadRequest(MISSING_DATA)
    case Some(payload) =>
      match encode(payload)
      case None => BadRequest(UNPROCESSABLE)
      case Some(code) =>
        match writePng(code)
        case None => InternalServerError(IMAGE_FAILED)
        case Some(png) => PngImage(png)
  }

  /** `POST /generate_qr_svg`: select a payload, encode it, render it with the lenient settings. */
  function GenerateSvg<F, Q>(data: Info, geocode: string -> Option<(F, F)>, fmt: F -> string,
                             encode: string -> Option<Q>)
    : (r: Response<Q>)
    ensures r.BadRequest? || r.SvgImage?
    ensures r == BadRequest(MISSING_DATA) <==> GetCodeData(data, geocode, fmt).None?
    ensures r.SvgImage? ==> MIN_DIMENSION <= r.size <= MAX_DIMENSION
                            && IsValidColor(r.dark) && IsValidColor(r.light)
  {
    var fg := ForegroundColor(data.foreground);
    var bg := BackgroundColor(data.background);
    match GetCodeData(data, geocode, fmt)
    case None => BadRequest(MISSING_DATA)
    case Some(payload) =>
      match encode(payload)
      case None => BadRequest(UNPROCESSABLE)
      case Some(code) => SvgImage(code, ChooseSize(data.dimension), fg, bg)
  }

  /** Without a payload both endpoints answer 400 "missing data" and never consult the encoder. */
  lemma MissingPayloadRejected<F, Q>(data: Info, geocode: string -> Option<(F, F)>, fmt: F -> string,
                                     encode: string -> Option<Q>, encode': string -> Option<Q>,
                                     writePng: Q -> Option<seq<byte>>)
    requires GetCodeData(data, geocode, fmt).None?
    ensures Index(data, geocode, fmt, encode, writePng) == BadRequest(MISSING_DATA)
    ensures GenerateSvg(data, geocode, fmt, encode) == GenerateSvg(data, geocode, fmt, encode')
    ensures GenerateSvg(data, geocode, fmt, encode).Status() == 400
  {
  }

  /** A payload the encoder refuses makes both endpoints answer 400 "cannot process". */
  lemma EncodeFailureRejected<F, Q>(data: Info, geocode: string -> Option<(F, F)>, fmt: F -> string,
                                    encode: string -> Option<Q>, writePng: Q -> Option<seq<byte>>)
    requires var payload := GetCodeData(data, geocode, fmt);
             payload.Some? && encode(payload.value).None?
    ensures Index(data, geocode, fmt, encode, writePng) == BadRequest(UNPROCESSABLE)
    ensures GenerateSvg(data, geocode, fmt, encode) == BadRequest(UNPROCESSABLE)
  {
  }

  /** Once the payload encodes, the SVG endpoint succeeds with the chosen size and colours. */
  lemma SvgSucceeds<F, Q>(data: Info, geocode: string -> Option<(F, F)>, fmt: F -> string,
                          encode: string -> Option<Q>)
    requires var payload := GetCodeData(data, geocode, fmt);
             payload.Some? && encode(payload.value).Some?
    ensures var r := GenerateSvg(data, geocode, fmt, encode);
            r == SvgImage(encode(GetCodeData(data, geocode, fmt).value).value,
                          ChooseSize(data.dimension),
                          ForegroundColor(data.foreground),
                          BackgroundColor(data.background))
            && r.Status() == 200 && r.ContentType() == "image/svg+xml"
  {
  }

  /** The PNG endpoint answers 200 exactly when encoding and writing succeed, 500 when only writing fails. */
  lemma PngOutcome<F, Q>(data: Info, geocode: string -> Option<(F, F)>, fmt: F -> string,
                         encode: string -> Option<Q>, writePng: Q -> Option<seq<byte>>)
    requires var payload := GetCodeData(data, geocode, fmt);
             payload.Some? && encode(payload.value).Some?
    ensures var r := Index(data, geocode, fmt, encode, writePng);
            var code := encode(GetCodeData(data, geocode, fmt).value).value;
            (writePng(code).Some? ==> r == PngImage(writePng(code).value) && r.ContentType() == "image/png")
            && (writePng(code).None? ==> r == InternalServerError(IMAGE_FAILED) && r.Status() == 500)
  {
  }

  /** The two endpoints reject exactly the same requests, with the same message. */
  lemma EndpointsAgreeOnRejection<F, Q>(data: Info, geocode: string -> Option<(F, F)>, fmt: F -> string,
                                        encode: string -> Option<Q>, writePng: Q -> Option<seq<byte>>)
    ensures var png := Index(data, geocode, fmt, encode, writePng);
            var svg := GenerateSvg(data, geocode, fmt, encode);
            (png.BadRequest? <==> svg.BadRequest?)
            && (png.BadRequest? ==> png == svg)
  {
  }

  /** The integration test of the SVG endpoint: a url request answers 200 with an SVG. */
  lemma SvgExample<F, Q>(geocode: string -> Option<(F, F)>, fmt: F -> string, encode: string -> Option<Q>)
    requires encode("https://example.com").Some?
    ensures var r := GenerateSvg(Info.Default().(url := Some("https://example.com")), geocode, fmt, encode);
            r.Status() == 200 && r.ContentType() == "image/svg+xml"
  {
  }

  /** Worked cases of the SVG fallbacks: sizes 300 and 50, and an invalid foreground. */
  lemma SvgFallbackExamples<F, Q>(geocode: string -> Option<(F, F)>, fmt: F -> string, encode: string -> Option<Q>)
    requires encode("https://example.com").Some?
    ensures var d := Info.Default().(url := Some("https://example.com"));
            GenerateSvg(d.(dimension := Some(300)), geocode, fmt, encode).size == 300
            && GenerateSvg(d.(dimension := Some(50)), geocode, fmt, encode).size == 200
            && GenerateSvg(d.(foreground := Some("red")), geocode, fmt, encode).dark == BLACK
            && GenerateSvg(d, geocode, fmt, encode).light == WHITE
  {
  }

  /** The PNG endpoint never reads the size or colour fields of any request. */
  lemma IndexIgnoresRenderSettings<F, Q>(data: Info, geocode: string -> Option<(F, F)>, fmt: F -> string,
                                         encode: string -> Option<Q>, writePng: Q -> Option<seq<byte>>,
                                         dimension: Option<u32>, foreground: Option<string>, background: Option<string>)
    ensures Index(data.(dimension := dimension, foreground := foreground, background := background),
                  geocode, fmt, encode, writePng)
            == Index(data, geocode, fmt, encode, writePng)
  {
  }

  /**
   * The integration test of the PNG endpoint: a request with url, email and
   * dimension answers 200 with a PNG, whatever its size and colour fields.
   */
  lemma IndexExample<F, Q>(geocode: string -> Option<(F, F)>, fmt: F -> string,
                           encode: string -> Option<Q>, writePng: Q -> Option<seq<byte>>,
                           dimension: Option<u32>, foreground: Option<string>, background: Option<string>)
    requires encode("https://example.com").Some?
    requires writePng(encode("https://example.com").value).Some?
    ensures var d := Info.Default().(url := Some("https://example.com"),
                                     email := Some("test@example.com"),
                                     dimension := Some(300));
            var r := Index(d, geocode, fmt, encode, writePng);
            r.Status() == 200 && r.ContentType() == "image/png"
            && Index(d.(dimension := dimension, foreground := foreground, background := background),
                     geocode, fmt, encode, writePng) == r
  {
  }
}
