/** Location helpers: Google search and map URLs, address splitting, and the Geonames
    REST URIs and first-result reading. */
module GeoLocationHelper {
  import opened Common
  import opened Json

  const GEONAMES_SEARCH_URI_REST_API := "http://api.geonames.org/searchJSON?"
  const GEONAMES_SEARCH_REVERSE_GEOCODING_URI_REST_API := "http://api.geonames.org/findNearbyPlaceNameJSON?"
  const GEONAMES_SEARCH_REVERSE_GEOCODING_EXTENDED_FIND_NEARBY_URI_REST_API := "http://api.geonames.org/extendedFindNearby?"
  const GEONAMES_SEARCH_REVERSE_GEOCODING_FIND_NEARBY_WIKIPEDIA := "http://api.geonames.org/findNearbyWikipediaJSON?"

  const GOOGLE_QUERY_BASE_URL := "https://www.google.at/search?q="
  const GOOGLE_MAPS_BASE_PATH := "https://maps.google.at/maps/"

  // ---------------------------------------------------------------------------
  // Google

  /** `createGoogleSearchQuery`: the base URL, then the text with every blank turned
      into '+'. */
  function CreateGoogleSearchQuery(queryText: string): (q: string)
    ensures |q| == |GOOGLE_QUERY_BASE_URL| + |queryText|
    ensures q[..|GOOGLE_QUERY_BASE_URL|] == GOOGLE_QUERY_BASE_URL
    ensures forall i :: 0 <= i < |queryText| ==>
      q[|GOOGLE_QUERY_BASE_URL| + i] == if queryText[i] == ' ' then '+' else queryText[i]
    ensures forall i :: |GOOGLE_QUERY_BASE_URL| <= i < |q| ==> q[i] != ' '
  {
    GOOGLE_QUERY_BASE_URL + ReplaceChar(queryText, ' ', '+')
  }

  /** A text without '+' comes back from its query by turning '+' into blanks again. */
  lemma SearchQueryRecovers(queryText: string)
    requires '+' !in queryText
    ensures ReplaceChar(CreateGoogleSearchQuery(queryText)[|GOOGLE_QUERY_BASE_URL|..], '+', ' ') == queryText
  {
    var q := CreateGoogleSearchQuery(queryText);
    var tail := q[|GOOGLE_QUERY_BASE_URL|..];
    assert forall i :: 0 <= i < |tail| ==> tail[i] == q[|GOOGLE_QUERY_BASE_URL| + i];
  }

  /** `parseGoogleMapsStr`: the maps base path, then the first match with every
      "&amp;" unescaped to "&". */
  function ParseGoogleMapsStr(docTuples: seq<string>): (url: string)
    requires |docTuples| >= 1
    ensures GOOGLE_MAPS_BASE_PATH <= url
    ensures |url| <= |GOOGLE_MAPS_BASE_PATH| + |docTuples[0]|
    ensures docTuples[0] != "" ==> |url| > |GOOGLE_MAPS_BASE_PATH|
  {
    ReplaceAllLength(docTuples[0], "&amp;", "&");
    GOOGLE_MAPS_BASE_PATH + ReplaceAll(docTuples[0], "&amp;", "&")
  }

  /** A match without an escaped ampersand is appended as it is. */
  lemma MapsStrUnescaped(docTuples: seq<string>)
    requires |docTuples| >= 1 && !Contains(docTuples[0], "&amp;")
    ensures ParseGoogleMapsStr(docTuples) == GOOGLE_MAPS_BASE_PATH + docTuples[0]
  {
    ReplaceAllAbsent(docTuples[0], "&amp;", "&");
  }

  /** Every escaped ampersand of the match is unescaped: a match that joins '&'-free
      pieces with "&amp;" becomes those pieces joined with "&". */
  lemma MapsStrUnescapesAll(pieces: seq<string>, rest: seq<string>)
    requires forall p :: p in pieces ==> '&' !in p
    ensures ParseGoogleMapsStr([Join(pieces, "&amp;")] + rest) == GOOGLE_MAPS_BASE_PATH + Join(pieces, "&")
  {
    ReplaceAllJoin(pieces, "&amp;", "&");
  }

  /** The five values `parseGoogleAddress` returns. */
  datatype GoogleAddress = GoogleAddress(query: string, placeLabel: string, street: string, city: string, country: string)

  const LABEL_POS := 0
  const STREET_POS := 1
  const CITY_POS := 2
  const COUNTRY_POS := 3

  /** `parseGoogleAddress`: the first match split on ','; its first four fields, and a
      search query for the first. Fewer than four fields raise. */
  function ParseGoogleAddress(docTuples: seq<string>): (a: GoogleAddress)
    requires |docTuples| >= 1 && |Split(docTuples[0], ',')| > COUNTRY_POS
    ensures var fields := Split(docTuples[0], ',');
      a.placeLabel == fields[0] && a.street == fields[1] && a.city == fields[2] && a.country == fields[3]
    ensures a.query == CreateGoogleSearchQuery(a.placeLabel)
    ensures ',' !in a.placeLabel && ',' !in a.street && ',' !in a.city && ',' !in a.country
  {
    var address := Split(docTuples[0], ',');
    SplitPiecesFree(docTuples[0], ',');
    GoogleAddress(CreateGoogleSearchQuery(address[LABEL_POS]), address[LABEL_POS], address[STREET_POS],
                  address[CITY_POS], address[COUNTRY_POS])
  }

  /** An address written as comma-separated fields is read back field by field. */
  lemma GoogleAddressOfFields(placeLabel: string, street: string, city: string, country: string, rest: seq<string>)
    requires forall p :: p in [placeLabel, street, city, country] + rest ==> ',' !in p
    ensures var address := Join([placeLabel, street, city, country] + rest, ",");
      |Split(address, ',')| > COUNTRY_POS && ParseGoogleAddress([address]) == GoogleAddress(CreateGoogleSearchQuery(placeLabel), placeLabel, street, city, country)
  {
    var parts := [placeLabel, street, city, country] + rest;
    SplitJoin(parts, ',');
    assert parts[0] == placeLabel && parts[1] == street && parts[2] == city && parts[3] == country;
  }

  // ---------------------------------------------------------------------------
  // Geonames URIs

  type Byte = b: int | 0 <= b < 256

  /** The bytes `urllib.quote` leaves as they are: ASCII letters, digits, '_', '.', '-'
      and the default safe character '/'. */
  predicate SafeByte(b: Byte)
  {
    ('a' as int <= b <= 'z' as int) || ('A' as int <= b <= 'Z' as int) || ('0' as int <= b <= '9' as int)
    || b == '_' as int || b == '.' as int || b == '-' as int || b == '/' as int
  }

  function HexDigit(n: int): (c: char)
    requires 0 <= n < 16
  {
    if n < 10 then ('0' as int + n) as char else ('A' as int + n - 10) as char
  }

  predicate IsHexDigit(c: char)
  {
    ('0' <= c <= '9') || ('A' <= c <= 'F')
  }

  function HexValue(c: char): (n: int)
    requires IsHexDigit(c)
    ensures 0 <= n < 16
  {
    if c <= '9' then c as int - '0' as int else c as int - 'A' as int + 10
  }

  /** One byte, quoted: itself when safe, else '%' and two upper-case hex digits. */
  function QuoteByte(b: Byte): (s: string)
    ensures SafeByte(b) ==> s == [b as char]
    ensures !SafeByte(b) ==>
      |s| == 3 && s[0] == '%' && IsHexDigit(s[1]) && IsHexDigit(s[2]) && HexValue(s[1]) * 16 + HexValue(s[2]) == b
  {
    if SafeByte(b) then [b as char] else ['%', HexDigit(b / 16), HexDigit(b % 16)]
  }

  /** `urllib.quote` of a byte string. */
  function Quote(bs: seq<Byte>): string
  {
    if bs == [] then "" else QuoteByte(bs[0]) + Quote(bs[1..])
  }

  /** A character `Quote` may produce: a safe byte, '%' or a hex digit. */
  predicate QuotedChar(c: char)
  {
    c as int < 256 && (SafeByte(c as int) || c == '%' || IsHexDigit(c))
  }

  /** `Quote` yields only quoted characters, so no '&', '=' or blank can break the
      query string it is put into. */
  lemma {:induction false} QuoteChars(bs: seq<Byte>)
    ensures forall c :: c in Quote(bs) ==> QuotedChar(c)
    ensures '&' !in Quote(bs) && '=' !in Quote(bs) && ' ' !in Quote(bs)
  {
    if bs != [] {
      QuoteChars(bs[1..]);
      var b := bs[0];
      if SafeByte(b) {
        assert (b as char) as int == b;
      }
    }
  }

  /** Percent-decoding of a quoted text. */
  function Unquote(s: string): seq<Byte>
    requires forall c :: c in s ==> QuotedChar(c)
  {
    if s == [] then []
    else if s[0] == '%' && |s| >= 3 && IsHexDigit(s[1]) && IsHexDigit(s[2]) then
      [HexValue(s[1]) * 16 + HexValue(s[2])] + Unquote(s[3..])
    else if s[0] == '%' then Unquote(s[1..])
    else
      assert s[0] in s && QuotedChar(s[0]);
      var b: Byte := s[0] as int;
      [b] + Unquote(s[1..])
  }

  /** Quoting loses nothing: the bytes come back from their quoted form. */
  lemma {:induction false} QuoteRoundTrip(bs: seq<Byte>)
    ensures forall c :: c in Quote(bs) ==> QuotedChar(c)
    ensures Unquote(Quote(bs)) == bs
  {
    QuoteChars(bs);
    if bs != [] {
      var b := bs[0];
      var head, tail := QuoteByte(b), Quote(bs[1..]);
      QuoteRoundTrip(bs[1..]);
      var s := head + tail;
      assert s == Quote(bs);
      if SafeByte(b) {
        assert s[0] == b as char && s[1..] == tail;
        assert (b as char) as int == b;
      } else {
        assert s[0] == '%' && s[1] == head[1] && s[2] == head[2] && s[3..] == tail;
      }
    }
  }

  /** `geopy_get_coordinates_by_place_name`: the search URI for a place name, given as
      its UTF-8 bytes, and the Geonames user. */
  function PlaceNameUri(placeNameUtf8: seq<Byte>, userName: string): (uri: string)
    ensures StripFrame(uri, GEONAMES_SEARCH_URI_REST_API + "q=", "&username=" + userName) == Some(Quote(placeNameUtf8))
  {
    FramedRecovers(GEONAMES_SEARCH_URI_REST_API + "q=", Quote(placeNameUtf8), "&username=" + userName);
    assert GEONAMES_SEARCH_URI_REST_API + "q=" + Quote(placeNameUtf8) + "&username=" + userName
      == (GEONAMES_SEARCH_URI_REST_API + "q=") + Quote(placeNameUtf8) + ("&username=" + userName);
    GEONAMES_SEARCH_URI_REST_API + "q=" + Quote(placeNameUtf8) + "&username=" + userName
  }

  /** The place-name URI ends in the user parameter, the quoted name adds no parameter
      of its own, and the name is recovered from it by unquoting. */
  lemma PlaceNameUriParameters(placeNameUtf8: seq<Byte>, userName: string)
    requires '&' !in userName
    ensures var q := Quote(placeNameUtf8);
      && Split(PlaceNameUri(placeNameUtf8, userName), '&') == Split(GEONAMES_SEARCH_URI_REST_API + "q=" + q, '&') + ["username=" + userName]
      && '&' !in q
    ensures forall c :: c in Quote(placeNameUtf8) ==> QuotedChar(c)
    ensures Unquote(Quote(placeNameUtf8)) == placeNameUtf8
  {
    var q := Quote(placeNameUtf8);
    QuoteChars(placeNameUtf8);
    QuoteRoundTrip(placeNameUtf8);
    var first, last := GEONAMES_SEARCH_URI_REST_API + "q=" + q, "username=" + userName;
    PlaceNameUriShape(placeNameUtf8, userName);
    assert '&' !in last by {
      assert '&' !in "username=";
    }
    SplitLastOn(first, last, '&');
  }

  /** The place-name URI is its search part, `&` and the user parameter. */
  lemma PlaceNameUriShape(placeNameUtf8: seq<Byte>, userName: string)
    ensures PlaceNameUri(placeNameUtf8, userName)
      == (GEONAMES_SEARCH_URI_REST_API + "q=" + Quote(placeNameUtf8)) + ['&'] + ("username=" + userName)
  {
    var first := GEONAMES_SEARCH_URI_REST_API + "q=" + Quote(placeNameUtf8);
    assert "&username=" == ['&'] + "username=";
    AppendAssoc(first, ['&'], "username=");
    AppendAssoc(first + ['&'], "username=", userName);
  }

  /** The three reverse-geocoding requests: an endpoint, then latitude, longitude and
      user, in that order. */
  function ReverseGeocodingUri(endpoint: string, lat: string, lng: string, userName: string): (uri: string)
    ensures StripFrame(uri, endpoint + "lat=", "&username=" + userName) == Some(lat + "&lng=" + lng)
  {
    FramedRecovers(endpoint + "lat=", lat + "&lng=" + lng, "&username=" + userName);
    assert endpoint + "lat=" + lat + "&lng=" + lng + "&username=" + userName
      == (endpoint + "lat=") + (lat + "&lng=" + lng) + ("&username=" + userName);
    endpoint + "lat=" + lat + "&lng=" + lng + "&username=" + userName
  }

  /** Longitude and user are the last two parameters, in that order, after the
      endpoint's own text and the latitude. */
  lemma ReverseGeocodingParameters(endpoint: string, lat: string, lng: string, userName: string)
    requires '&' !in lat && '&' !in lng && '&' !in userName
    ensures Split(ReverseGeocodingUri(endpoint, lat, lng, userName), '&')
      == Split(endpoint + "lat=" + lat, '&') + ["lng=" + lng, "username=" + userName]
  {
    var a, b, c := endpoint + "lat=" + lat, "lng=" + lng, "username=" + userName;
    var x := a + "&lng=" + lng;
    assert "&lng=" == ['&'] + "lng=";
    assert x == a + ['&'] + b;
    assert "&username=" == ['&'] + "username=";
    assert ReverseGeocodingUri(endpoint, lat, lng, userName) == x + ['&'] + c;
    SplitNoSeparator(b, '&');
    SplitNoSeparator(c, '&');
    SplitAppend(a, b, '&');
    SplitAppend(x, c, '&');
  }

  /** `geopy_get_place_by_coordinates`. */
  function PlaceByCoordinatesUri(lat: string, lng: string, userName: string): (uri: string)
    ensures StripFrame(uri, GEONAMES_SEARCH_REVERSE_GEOCODING_URI_REST_API + "lat=", "&username=" + userName) == Some(lat + "&lng=" + lng)
  {
    ReverseGeocodingUri(GEONAMES_SEARCH_REVERSE_GEOCODING_URI_REST_API, lat, lng, userName)
  }

  /** `geopy_get_place_by_coordinates_extended_find_nearby`. */
  function ExtendedFindNearbyUri(lat: string, lng: string, userName: string): (uri: string)
    ensures StripFrame(uri, GEONAMES_SEARCH_REVERSE_GEOCODING_EXTENDED_FIND_NEARBY_URI_REST_API + "lat=", "&username=" + userName) == Some(lat + "&lng=" + lng)
  {
    ReverseGeocodingUri(GEONAMES_SEARCH_REVERSE_GEOCODING_EXTENDED_FIND_NEARBY_URI_REST_API, lat, lng, userName)
  }

  /** `geopy_get_place_by_coordinates_extended_find_nearby_wikipedia_articles`. */
  function FindNearbyWikipediaUri(lat: string, lng: string, userName: string): (uri: string)
    ensures StripFrame(uri, GEONAMES_SEARCH_REVERSE_GEOCODING_FIND_NEARBY_WIKIPEDIA + "lat=", "&username=" + userName) == Some(lat + "&lng=" + lng)
  {
    ReverseGeocodingUri(GEONAMES_SEARCH_REVERSE_GEOCODING_FIND_NEARBY_WIKIPEDIA, lat, lng, userName)
  }

  // ---------------------------------------------------------------------------
  // parse_geonames_response

  /** The eight values `parse_geonames_response` returns, in its order. */
  datatype Geoname = Geoname(
    geonameId: Json, toponymName: Json, countryId: Json, countryCode: Json,
    countryName: Json, name: Json, longitude: Json, latitude: Json)

  const GEONAME_KEYS: seq<string> :=
    ["geonameId", "toponymName", "countryId", "countryCode", "countryName", "name", "lng", "lat"]

  /** A result that names all eight keys. */
  predicate GeonameShaped(g: Json)
  {
    g.JObj? && forall k :: k in GEONAME_KEYS ==> k in g.fields
  }

  /** What the function reads without a guard: a `geonames` list whose first result is
      a dictionary with the eight keys. */
  predicate GeonamesReadable(response: Json)
  {
    && response.JObj? && "geonames" in response.fields
    && response.fields["geonames"].JList? && |response.fields["geonames"].items| >= 1
    && GeonameShaped(response.fields["geonames"].items[0])
  }

  /** `parse_geonames_response` on the decoded response: the fields of the first
      result, longitude before latitude. */
  function ParseGeonamesResponse(response: Json): (r: Geoname)
    requires GeonamesReadable(response)
    ensures var first := response.fields["geonames"].items[0].fields;
      && r.geonameId == first["geonameId"] && r.toponymName == first["toponymName"]
      && r.countryId == first["countryId"] && r.countryCode == first["countryCode"]
      && r.countryName == first["countryName"] && r.name == first["name"]
      && r.longitude == first["lng"] && r.latitude == first["lat"]
  {
    var m := response.fields["geonames"].items[0].fields;
    Geoname(m["geonameId"], m["toponymName"], m["countryId"], m["countryCode"], m["countryName"],
            m["name"], m["lng"], m["lat"])
  }

  /** Only the first result is read: the others may be anything, even absent. */
  lemma FirstResultOnly(fields: map<string, Json>, first: Json, rest: seq<Json>, rest': seq<Json>)
    requires GeonameShaped(first)
    ensures var r := JObj(fields["geonames" := JList([first] + rest)]);
      var r' := JObj(fields["geonames" := JList([first] + rest')]);
      GeonamesReadable(r) && GeonamesReadable(r') && ParseGeonamesResponse(r) == ParseGeonamesResponse(r')
  {
  }
}
