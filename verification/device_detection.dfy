/**
 * Classification of a request's user-agent string into a device class, and
 * the split of a reverse-geocoded address into city and country.
 */
module DeviceDetection {
  import opened Options
  import opened Strings

  datatype Device = Mobile | Tablet | Desktop | Unknown

  const MobileTokens: seq<string> := ["android", "webos", "iphone", "ipod", "blackberry", "iemobile", "opera mini"]
  const TabletTokens: seq<string> := ["ipad", "tablet", "playbook", "silk"]
  const DesktopTokens: seq<string> := ["windows", "macintosh", "linux", "x11"]

  /** An alternation of literal tokens matches somewhere in `s`. */
  predicate ContainsAny(s: string, tokens: seq<string>) {
    exists i | 0 <= i < |tokens| :: Contains(s, tokens[i])
  }

  predicate IsLineTerminator(c: char) {
    c == '\n' || c == '\r' || c == '\U{2028}' || c == '\U{2029}'
  }

  /** The part of `s` that a regular-expression `.*` can cross: everything before the first line terminator. */
  function LineRest(s: string): (r: string)
    ensures r <= s
  {
    if |s| == 0 || IsLineTerminator(s[0]) then "" else [s[0]] + LineRest(s[1..])
  }

  /** `android(?!.*mobile)`: an "android" not followed by "mobile" on the same line. */
  predicate AndroidWithoutMobile(s: string) {
    exists i | 0 <= i <= |s| - 7 :: "android" <= s[i..] && !Contains(LineRest(s[i + 7..]), "mobile")
  }

  /** `detectDevice`: mobile tokens first, then tablet tokens, then desktop tokens. */
  function DetectDevice(userAgent: Option<string>): Device {
    if userAgent.None? || userAgent.value == "" then Unknown
    else
      var ua := Lower(userAgent.value);
      if ContainsAny(ua, MobileTokens) then Mobile
      else if ContainsAny(ua, TabletTokens) || AndroidWithoutMobile(ua) then Tablet
      else if ContainsAny(ua, DesktopTokens) then Desktop
      else Unknown
  }

  /** A missing or empty user agent is unknown. */
  lemma NoUserAgentIsUnknown()
    ensures DetectDevice(None) == Unknown
    ensures DetectDevice(Some("")) == Unknown
  {
  }

  /** Only the lower-cased text matters: user agents equal up to case get the same class. */
  lemma DetectIgnoresCase(a: string, b: string)
    requires Lower(a) == Lower(b)
    ensures DetectDevice(Some(a)) == DetectDevice(Some(b))
  {
    assert |a| == |Lower(a)| && |b| == |Lower(b)|;
  }

  /** Any mobile token makes the agent mobile, whatever else it contains. */
  lemma MobileTokenWins(ua: string)
    requires ua != "" && ContainsAny(Lower(ua), MobileTokens)
    ensures DetectDevice(Some(ua)) == Mobile
  {
  }

  lemma AndroidWithoutMobileHasAndroid(s: string)
    requires AndroidWithoutMobile(s)
    ensures ContainsAny(s, MobileTokens)
  {
    var i :| 0 <= i <= |s| - 7 && "android" <= s[i..] && !Contains(LineRest(s[i + 7..]), "mobile");
    assert Contains(s, MobileTokens[0]);
  }

  /**
   * The tablet class is reached exactly through a tablet token: the
   * `android(?!.*mobile)` alternative can never decide, because "android"
   * is already a mobile token.
   */
  lemma TabletIffTabletToken(ua: string)
    ensures DetectDevice(Some(ua)) == Tablet <==>
      ua != "" && !ContainsAny(Lower(ua), MobileTokens) && ContainsAny(Lower(ua), TabletTokens)
  {
    if ua != "" && AndroidWithoutMobile(Lower(ua)) {
      AndroidWithoutMobileHasAndroid(Lower(ua));
    }
  }

  /** An agent mentioning android is never a tablet. */
  lemma AndroidIsNeverTablet(ua: string)
    requires Contains(Lower(ua), "android")
    ensures DetectDevice(Some(ua)) == Mobile
  {
    assert Contains(Lower(ua), MobileTokens[0]);
  }

  /** Without mobile or tablet tokens, a desktop token gives desktop and anything else is unknown. */
  lemma DesktopOrUnknown(ua: string)
    requires ua != ""
    requires !ContainsAny(Lower(ua), MobileTokens) && !ContainsAny(Lower(ua), TabletTokens)
    ensures ContainsAny(Lower(ua), DesktopTokens) ==> DetectDevice(Some(ua)) == Desktop
    ensures !ContainsAny(Lower(ua), DesktopTokens) ==> DetectDevice(Some(ua)) == Unknown
  {
    TabletIffTabletToken(ua);
  }

  datatype Place = Place(city: string, country: string)

  /** `part || 'Unknown'`. */
  function OrUnknown(part: string): string {
    if part == "" then "Unknown" else part
  }

  /** `address.split(',').map(p => p.trim())`. */
  function TrimmedParts(address: string): (parts: seq<string>)
    ensures |parts| == |Split(address, ',')|
    ensures forall i :: 0 <= i < |parts| ==> parts[i] == Trim(Split(address, ',')[i])
  {
    var raw := Split(address, ',');
    seq(|raw|, i requires 0 <= i < |raw| => Trim(raw[i]))
  }

  /** `extractLocationInfo`: the last two comma-separated parts, trimmed. */
  function ExtractLocation(address: string): Place {
    var parts := TrimmedParts(address);
    if |parts| >= 2 then Place(OrUnknown(parts[|parts| - 2]), OrUnknown(parts[|parts| - 1]))
    else Place("Unknown", "Unknown")
  }

  /** Without a comma (the empty address included) neither city nor country is known. */
  lemma NoCommaIsUnknown(address: string)
    requires ',' !in address
    ensures ExtractLocation(address) == Place("Unknown", "Unknown")
  {
    SplitWithoutSeparator(address, ',');
  }

  /** `city, country`: each side trimmed, an empty side unknown. */
  lemma ExtractTwoParts(city: string, country: string)
    requires ',' !in city && ',' !in country
    ensures ExtractLocation(city + "," + country) == Place(OrUnknown(Trim(city)), OrUnknown(Trim(country)))
  {
    SplitTwo(city, country);
    var parts := TrimmedParts(city + "," + country);
    assert parts[0] == Trim(city) && parts[1] == Trim(country);
  }

  lemma SplitTwo(city: string, country: string)
    requires ',' !in city && ',' !in country
    ensures Split(city + "," + country, ',') == [city, country]
  {
    assert city + "," + country == city + [','] + country;
    SplitAppend(city, country, ',');
    SplitWithoutSeparator(city, ',');
    SplitWithoutSeparator(country, ',');
  }

  /** Everything before the second-to-last comma is ignored. */
  lemma ExtractIgnoresLeadingParts(head: string, city: string, country: string)
    requires ',' !in city && ',' !in country
    ensures ExtractLocation(head + "," + city + "," + country) == ExtractLocation(city + "," + country)
  {
    var tail := city + [','] + country;
    var whole := head + [','] + tail;
    assert whole == head + "," + city + "," + country;
    assert tail == city + "," + country;
    SplitAppend(city, country, ',');
    SplitWithoutSeparator(city, ',');
    SplitWithoutSeparator(country, ',');
    assert Split(tail, ',') == [city, country];
    SplitAppend(head, tail, ',');
    var sp := Split(whole, ',');
    assert sp == Split(head, ',') + [city, country];
    assert sp[|sp| - 2] == city && sp[|sp| - 1] == country;
    var parts := TrimmedParts(whole);
    assert parts[|parts| - 2] == Trim(city) && parts[|parts| - 1] == Trim(country);
    ExtractTwoParts(city, country);
  }
}
