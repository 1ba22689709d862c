/**
  `Configuration`: the repeater's identity and announced parameters. The
  setters truncate some fields and leave others as given; nothing is padded
  here, padding happens when the RPTC packet is built.
 */
module Config {
  import opened Errors
  import opened Bytes

  datatype Configuration = Configuration(
    radioId: Option<uint32>,
    callsign: Option<string>,
    options: Option<string>,
    freqRx: string,
    freqTx: string,
    txPower: string,
    colourCode: string,
    latitude: string,
    longitude: string,
    height: string,
    location: string,
    description: string,
    url: Option<string>)

  const CALLSIGN_BYTES := 8
  const LOCATION_CHARS := 20
  const DESCRIPTION_CHARS := 20
  const URL_CHARS := 124
  const URL_PREFIX := "www.qrz.com/db/"

  /** The constructor's defaults. */
  function Default(): Configuration
  {
    Configuration(None, None, None, "438800000", "438800000", "0", "1",
                  "+00.0000", "+000.0000", "0", "", "", None)
  }

  /** JavaScript truthiness of a nullable string: neither null nor empty. */
  predicate TruthyText(s: Option<string>)
  {
    s.Some? && s.value != ""
  }

  /** JavaScript truthiness of the nullable radio id: neither null nor 0. */
  predicate TruthyId(id: Option<uint32>)
  {
    id.Some? && id.value != 0
  }

  /** The radio id as `writeUInt32BE` sees it: `+null` is 0. */
  function WireId(c: Configuration): uint32
  {
    c.radioId.GetOr(0)
  }

  /** JavaScript `s.substring(0, n)` for n >= 0. */
  function Prefix(s: string, n: nat): (r: string)
    ensures |r| == if |s| < n then |s| else n
    ensures r == s[..|r|]
  {
    if |s| <= n then s else s[..n]
  }

  /** Invariants every reachable configuration keeps: a callsign brings a url, and the truncated fields stay within their widths. */
  predicate Valid(c: Configuration)
  {
    && (c.callsign.Some? ==> c.url.Some?)
    && (c.callsign.Some? ==> |c.callsign.value| <= CALLSIGN_BYTES)
    && (c.url.Some? ==> |c.url.value| <= URL_CHARS)
    && |c.location| <= LOCATION_CHARS
    && |c.description| <= DESCRIPTION_CHARS
  }

  /**
    `setId`'s argument after the unary `+` that `writeUInt32BE` applies: a
    whole number, or NaN (`undefined`, or text that is not a numeral).
   */
  datatype Numeric = Whole(n: int) | NaN

  /**
    `setId`: the id goes through `writeUInt32BE`, which throws outside
    [0, 2^32). NaN passes that range check and is stored as zero bytes.
   */
  function SetId(c: Configuration, radioId: Numeric): (r: Result<Configuration>)
    ensures radioId.NaN? ==> r == Ok(c.(radioId := Some(0)))
    ensures radioId.Whole? ==> (r.Ok? <==> 0 <= radioId.n < UINT32_LIMIT)
    ensures radioId.Whole? && r.Ok? ==> r.value == c.(radioId := Some(radioId.n))
  {
    var v := match radioId case NaN => 0 case Whole(n) => n;
    if 0 <= v < UINT32_LIMIT then
      var b := Encode32(v);
      Encode32OfBigEndian(b);
      Ok(c.(radioId := Some(BigEndian(b))))
    else Err(RangeError)
  }

  /** Cutting the bytes of ASCII text and decoding them is cutting the text. */
  lemma AsciiPrefixKept(s: string, n: nat)
    ensures IsAscii(s) ==> AsciiString(Subarray(AsciiBytes(s), 0, n)) == Prefix(s, n)
  {
    if IsAscii(s) {
      assert Subarray(AsciiBytes(s), 0, n) == AsciiBytes(Prefix(s, n));
      AsciiRoundTrip(Prefix(s, n));
    }
  }

  /**
    `setCallsign`: keeps the first eight bytes of the callsign; the first
    callsign ever set also fills in a lookup url when none was given.
   */
  function SetCallsign(c: Configuration, callsign: string): (r: Configuration)
    ensures r.callsign.Some?
    ensures IsAscii(callsign) ==> r.callsign == Some(Prefix(callsign, CALLSIGN_BYTES))
    ensures |r.callsign.value| == if |callsign| < 8 then |callsign| else 8
    ensures c.url.None? ==> r.url == Some(URL_PREFIX + r.callsign.value)
    ensures c.url.Some? ==> r.url == c.url
    ensures r == c.(callsign := r.callsign, url := r.url)
  {
    var kept := AsciiString(Subarray(AsciiBytes(callsign), 0, CALLSIGN_BYTES));
    AsciiPrefixKept(callsign, CALLSIGN_BYTES);
    var c' := c.(callsign := Some(kept));
    if c.url == None then c'.(url := Some(URL_PREFIX + kept)) else c'
  }

  function SetOptions(c: Configuration, options: Option<string>): (r: Configuration)
    ensures r.options == options
    ensures r == c.(options := options)
  {
    c.(options := options)
  }

  function SetFreq(c: Configuration, receive: string, transmit: string): (r: Configuration)
    ensures r.freqRx == receive && r.freqTx == transmit
    ensures r == c.(freqRx := receive, freqTx := transmit)
  {
    c.(freqRx := receive, freqTx := transmit)
  }

  function SetPower(c: Configuration, txPower: string): (r: Configuration)
    ensures r == c.(txPower := txPower)
  {
    c.(txPower := txPower)
  }

  function SetColourCode(c: Configuration, colourCode: string): (r: Configuration)
    ensures r == c.(colourCode := colourCode)
  {
    c.(colourCode := colourCode)
  }

  /** The text a truthy optional argument carries, or the old value when it is falsy. */
  function Override(arg: Option<string>, current: string): string
  {
    if TruthyText(arg) then arg.value else current
  }

  /**
    `setLocation`: the town is cut to 20 characters; latitude, longitude and
    height are replaced only by truthy arguments.
   */
  function SetLocation(c: Configuration, town: string, latitude: Option<string>,
                       longitude: Option<string>, height: Option<string>): (r: Configuration)
    ensures |r.location| == if |town| < 20 then |town| else 20
    ensures r.location == town[..|r.location|]
    ensures r.latitude == (if latitude.Some? && latitude.value != "" then latitude.value else c.latitude)
    ensures r.longitude == (if longitude.Some? && longitude.value != "" then longitude.value else c.longitude)
    ensures r.height == (if height.Some? && height.value != "" then height.value else c.height)
    ensures r == c.(location := r.location, latitude := r.latitude, longitude := r.longitude, height := r.height)
  {
    c.(location := Prefix(town, LOCATION_CHARS),
       latitude := Override(latitude, c.latitude),
       longitude := Override(longitude, c.longitude),
       height := Override(height, c.height))
  }

  function SetDescription(c: Configuration, description: string): (r: Configuration)
    ensures |r.description| == if |description| < 20 then |description| else 20
    ensures r.description == description[..|r.description|]
    ensures r == c.(description := r.description)
  {
    c.(description := Prefix(description, DESCRIPTION_CHARS))
  }

  function SetUrl(c: Configuration, url: string): (r: Configuration)
    ensures r.url.Some?
    ensures |r.url.value| == if |url| < 124 then |url| else 124
    ensures r.url.value == url[..|r.url.value|]
    ensures r == c.(url := r.url)
  {
    c.(url := Some(Prefix(url, URL_CHARS)))
  }

  /** The defaults are valid and every setter keeps a configuration valid. */
  lemma SettersKeepValid(c: Configuration, s: string, t: string, o: Option<string>,
                         a: Option<string>, b: Option<string>, h: Option<string>, id: Numeric)
    requires Valid(c)
    ensures Valid(Default())
    ensures SetId(c, id).Ok? ==> Valid(SetId(c, id).value)
    ensures Valid(SetCallsign(c, s))
    ensures Valid(SetOptions(c, o))
    ensures Valid(SetFreq(c, s, t)) && Valid(SetPower(c, s)) && Valid(SetColourCode(c, s))
    ensures Valid(SetLocation(c, s, a, b, h))
    ensures Valid(SetDescription(c, s))
    ensures Valid(SetUrl(c, s))
  {
  }
}
