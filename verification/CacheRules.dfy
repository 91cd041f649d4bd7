/**
  The rules of the turbocache: until when a response may be served, and which other entries an
  unsafe request makes invalid. Dates, numbers and URLs are parsed elsewhere; their parsers are
  parameters.
 */
module CacheRules {
  import opened Basics
  import opened CacheKey

  // ----- expiry

  const MAX_AGE: Bytes := [109, 97, 120, 45, 97, 103, 101]
  const DEFAULT_HEURISTIC_FRESHNESS: real := 10.0
  const MIN_HEURISTIC_FRESHNESS: real := 1.0

  /** The value that stands for a date that could not be determined. */
  const UNKNOWN: int := -1

  datatype Headers = Headers(date: Option<Bytes>, expires: Option<Bytes>, cacheControl: Option<Bytes>,
                             lastModified: Option<Bytes>)

  /** The timestamp of an IMF-fixdate, and the number at the start of a string. */
  datatype Parsers = Parsers(date: Bytes -> Option<int>, number: Bytes -> nat)

  datatype Expiry = At(time: int) | OutOfRange

  /** A conversion to time_t drops the fraction. */
  function Truncate(x: real): (t: int)
    ensures x - 1.0 < t as real < x + 1.0
  {
    if x >= 0.0 then x.Floor else -((-x).Floor)
  }

  predicate OccursAt(s: Bytes, needle: Bytes, i: int) {
    0 <= i && i + |needle| <= |s| && s[i..i + |needle|] == needle
  }

  /** The first occurrence. */
  function Find(s: Bytes, needle: Bytes, from: nat := 0): (r: Option<nat>)
    requires from <= |s|
    ensures r.Some? ==> from <= r.value && OccursAt(s, needle, r.value)
    ensures r.Some? ==> forall i | from <= i < r.value :: !OccursAt(s, needle, i)
    ensures r.None? ==> forall i | from <= i :: !OccursAt(s, needle, i)
    decreases |s| - from
  {
    if from + |needle| > |s| then None
    else if OccursAt(s, needle, from) then Some(from)
    else if from == |s| then None
    else Find(s, needle, from + 1)
  }

  function ParsedDate(date: Bytes, p: Parsers): int {
    match p.date(date)
    case Some(t) => t
    case None => UNKNOWN
  }

  /** parseDate: a response without a date counts as made now. */
  function ParseDate(date: Option<Bytes>, now: real, p: Parsers): int {
    if date.None? || date.value == [] then Truncate(now) else ParsedDate(date.value, p)
  }

  /** The part of determineExpiryDate that looks at max-age: the text behind it begins one byte after
      its end, and asking for it is an error when the header ends before. */
  function FromMaxAge(cacheControl: Bytes, pos: nat, now: real, p: Parsers): Expiry
    requires OccursAt(cacheControl, MAX_AGE, pos)
  {
    var start := pos + |MAX_AGE| + 1;
    if start > |cacheControl| then OutOfRange
    else
      var maxAge := p.number(cacheControl[start..]);
      At(if maxAge == 0 then UNKNOWN else Truncate(now) + maxAge)
  }

  function Heuristic(lastModified: int, now: real): int {
    var tenth := (Truncate(now) - lastModified) as real * 0.1;
    Truncate(now + if tenth > MIN_HEURISTIC_FRESHNESS then tenth else MIN_HEURISTIC_FRESHNESS)
  }

  function FromLastModified(lastModified: Option<Bytes>, now: real, p: Parsers): int {
    if lastModified.None? then Truncate(now + DEFAULT_HEURISTIC_FRESHNESS)
    else
      match p.date(lastModified.value)
      case None => Truncate(now) + 1
      case Some(t) => if t as real < now then Heuristic(t, now) else Truncate(now + DEFAULT_HEURISTIC_FRESHNESS)
  }

  /** determineExpiryDate: Expires, then max-age, then a guess from Last-Modified. */
  function DetermineExpiry(h: Headers, now: real, p: Parsers): Expiry {
    if h.expires.Some? then At(ParsedDate(h.expires.value, p))
    else
      var pos := if h.cacheControl.Some? then Find(h.cacheControl.value, MAX_AGE) else None;
      if pos.Some? && |h.cacheControl.value| > pos.value + 1 then FromMaxAge(h.cacheControl.value, pos.value, now, p)
      else At(FromLastModified(h.lastModified, now, p))
  }

  /** Without an Expires header every response that gets an expiry date is fresh when it is stored;
      with one it is fresh exactly if the header's date lies ahead. */
  lemma FreshWhenStoredIff(h: Headers, now: real, p: Parsers)
    requires DetermineExpiry(h, now, p).At? && DetermineExpiry(h, now, p).time != UNKNOWN
    ensures DetermineExpiry(h, now, p).time as real > now <==>
      (h.expires.Some? ==> p.date(h.expires.value).Some? && p.date(h.expires.value).value as real > now)
  {
  }

  /** Finding the expiry date fails with an exception if and only if there is no Expires header and
      the Cache-Control header ends with its first max-age. */
  lemma OutOfRangeIff(h: Headers, now: real, p: Parsers)
    ensures DetermineExpiry(h, now, p).OutOfRange? <==>
      && h.expires.None? && h.cacheControl.Some?
      && Find(h.cacheControl.value, MAX_AGE) == Some(|h.cacheControl.value| - |MAX_AGE|)
  {
  }

  // ----- how long a response lives

  /** The expiry date is that of the Expires header, if there is one. */
  lemma ExpiresDecides(h: Headers, now: real, p: Parsers)
    requires h.expires.Some?
    ensures p.date(h.expires.value).Some? ==> DetermineExpiry(h, now, p) == At(p.date(h.expires.value).value)
    ensures p.date(h.expires.value).None? ==> DetermineExpiry(h, now, p) == At(-1)
  {
  }

  ghost predicate HasMaxAge(cacheControl: Bytes) {
    exists i :: OccursAt(cacheControl, MAX_AGE, i)
  }

  /** Without Expires, a header that says `max-age` at first, then any byte and then a number n > 0,
      gives a lifetime of n, within one second; with n = 0 the response is refused. */
  lemma MaxAgeDecides(h: Headers, before: Bytes, separator: Byte, behind: Bytes, now: real, p: Parsers)
    requires h.expires.None? && h.cacheControl == Some(before + MAX_AGE + [separator] + behind)
    requires forall i | 0 <= i < |before| :: !OccursAt(h.cacheControl.value, MAX_AGE, i)
    ensures p.number(behind) == 0 ==> DetermineExpiry(h, now, p) == At(-1)
    ensures p.number(behind) > 0 ==>
              && DetermineExpiry(h, now, p).At?
              && -1.0 < DetermineExpiry(h, now, p).time as real - now - p.number(behind) as real < 1.0
  {
    var cc := h.cacheControl.value;
    assert cc[|before|..|before| + |MAX_AGE|] == MAX_AGE;
    assert OccursAt(cc, MAX_AGE, |before|);
    assert Find(cc, MAX_AGE) == Some(|before|);
    assert cc[|before| + |MAX_AGE| + 1..] == behind;
  }

  ghost predicate NoMaxAge(h: Headers) {
    h.cacheControl.None? || !HasMaxAge(h.cacheControl.value)
  }

  lemma NoMaxAgeFound(h: Headers, now: real, p: Parsers)
    requires h.expires.None? && NoMaxAge(h)
    ensures DetermineExpiry(h, now, p) == At(FromLastModified(h.lastModified, now, p))
  {
  }

  /** With neither, and a Last-Modified date that lies behind, the lifetime is the larger of a tenth of
      the response's age and one second, within 1.1 seconds. */
  lemma AgeDecides(h: Headers, now: real, p: Parsers, modified: int)
    requires h.expires.None? && NoMaxAge(h) && h.lastModified.Some?
    requires p.date(h.lastModified.value) == Some(modified) && modified as real < now
    ensures
      var tenth := (now - modified as real) / 10.0;
      var lifetime := if tenth > 1.0 then tenth else 1.0;
      && DetermineExpiry(h, now, p).At?
      && -1.1 < DetermineExpiry(h, now, p).time as real - now - lifetime < 1.1
  {
    NoMaxAgeFound(h, now, p);
    hide DetermineExpiry, Truncate;
    var diff := Truncate(now) - modified;
    assert now - modified as real - 1.0 < diff as real < now - modified as real + 1.0;
  }

  /** With a Last-Modified date that lies ahead, or none, it is ten seconds; with one that cannot be
      parsed it is one second; each within one second. */
  lemma DefaultDecides(h: Headers, now: real, p: Parsers)
    requires h.expires.None? && NoMaxAge(h)
    requires h.lastModified.Some? && p.date(h.lastModified.value).Some? ==>
      p.date(h.lastModified.value).value as real >= now
    ensures
      var unparsable := h.lastModified.Some? && p.date(h.lastModified.value).None?;
      && DetermineExpiry(h, now, p).At?
      && -1.0 < DetermineExpiry(h, now, p).time as real - now - (if unparsable then 1.0 else 10.0) < 1.0
  {
    NoMaxAgeFound(h, now, p);
    hide DetermineExpiry;
  }

  /** The date that is recorded for a response is that of its Date header; without one it is the time
      of storing, within one second; one that cannot be parsed is refused. */
  lemma RecordedDate(date: Option<Bytes>, now: real, p: Parsers)
    ensures date.None? || date.value == [] ==> -1.0 < ParseDate(date, now, p) as real - now < 1.0
    ensures date.Some? && date.value != [] && p.date(date.value).Some? ==>
      ParseDate(date, now, p) == p.date(date.value).value
    ensures date.Some? && date.value != [] && p.date(date.value).None? ==> ParseDate(date, now, p) == -1
  {
  }

  /** The header `max-age` alone. */
  lemma BareMaxAgeRaises(now: real, p: Parsers)
    ensures DetermineExpiry(Headers(None, None, Some(MAX_AGE), None), now, p) == OutOfRange
  {
    assert OccursAt(MAX_AGE, MAX_AGE, 0);
  }

  // ----- max-age against Expires

  function MaxAgeAt(h: Headers): Option<nat> {
    if h.cacheControl.Some? then Find(h.cacheControl.value, MAX_AGE) else None
  }

  /** What section 5.3 of RFC 7234 asks for: with max-age the Expires header is ignored. */
  function ByMaxAge(h: Headers): Headers {
    if MaxAgeAt(h).Some? then h.(expires := None) else h
  }

  /** The code looks at Expires first. It agrees with the standard if and only if one of the two is
      missing or both say the same. */
  lemma MaxAgeHonouredIff(h: Headers, now: real, p: Parsers)
    ensures DetermineExpiry(h, now, p) == DetermineExpiry(ByMaxAge(h), now, p) <==>
      || h.expires.None? || MaxAgeAt(h).None?
      || At(ParsedDate(h.expires.value, p)) == FromMaxAge(h.cacheControl.value, MaxAgeAt(h).value, now, p)
  {
  }

  /** A response with a past Expires and a positive max-age: by the standard it is fresh, by the code
      it is stale as soon as it is stored. */
  lemma PastExpiresDefeatsMaxAge(h: Headers, now: real, p: Parsers)
    requires h.expires.Some? && p.date(h.expires.value).Some? && p.date(h.expires.value).value as real <= now
    requires MaxAgeAt(h).Some? && MaxAgeAt(h).value + |MAX_AGE| + 1 <= |h.cacheControl.value|
    requires p.number(h.cacheControl.value[MaxAgeAt(h).value + |MAX_AGE| + 1..]) > 0
    ensures DetermineExpiry(h, now, p).At? && DetermineExpiry(h, now, p).time as real <= now
    ensures DetermineExpiry(ByMaxAge(h), now, p).At? && DetermineExpiry(ByMaxAge(h), now, p).time as real > now
  {
  }

  /** Such a response, with `max-age=9` and an Expires date of 0, at time 100. */
  lemma PastExpiresExample()
    ensures
      var p := Parsers(_ => Some(0), _ => 9);
      var h := Headers(None, Some([48]), Some(MAX_AGE + [61, 57]), None);
      DetermineExpiry(h, 100.0, p) == At(0) && DetermineExpiry(ByMaxAge(h), 100.0, p) == At(109)
  {
    var c := MAX_AGE + [61, 57];
    assert OccursAt(c, MAX_AGE, 0);
    assert Find(c, MAX_AGE) == Some(0);
    assert Truncate(100.0) == 100;
  }

  // ----- invalidation by location

  /** What the URL parser finds: host with port, path and schema. */
  datatype Url = Url(host: Bytes, path: Option<Bytes>, schema: Option<Bytes>)

  /** None for an invalid URL and for one without a host. */
  type UrlParser = Bytes -> Option<Url>

  const SLASH: Byte := 47
  const HTTPS: Bytes := [104, 116, 116, 112, 115]

  function LowerByte(b: Byte): Byte {
    if 65 <= b <= 90 then b + 32 else b
  }

  function Lower(s: Bytes): (l: Bytes)
    ensures |l| == |s| && forall i | 0 <= i < |s| :: l[i] == LowerByte(s[i])
  {
    seq(|s|, i requires 0 <= i < |s| => LowerByte(s[i]))
  }

  /** The resource that a Location header names, as a request for it by the same client would be
      keyed; none if the header is missing, invalid or names another host. */
  function Located(value: Option<Bytes>, s: Subject, parse: UrlParser): Option<Subject> {
    if value.None? || value.value == [] then None
    else if value.value[0] == SLASH then Some(s.(path := value.value))
    else
      match parse(value.value)
      case None => None
      case Some(url) =>
        if |url.host| != |s.host| || Lower(url.host) != Lower(s.host) then None
        else
          Some(s.(path := if url.path.Some? then url.path.value else [SLASH],
                  https := if url.schema.Some? then url.schema.value == HTTPS else s.https))
  }

  /** The key that is removed, unless it would be too long to be in the cache. */
  function LocatedKeys(value: Option<Bytes>, s: Subject, parse: UrlParser): set<Bytes> {
    var t := Located(value, s, parse);
    if t.Some? && |Key(t.value)| <= MAX_KEY_LENGTH then {Key(t.value)} else {}
  }

  /** Two strings are the same in lower case if and only if they differ at most in the case of ASCII
      letters. */
  lemma SameLowerIff(a: Bytes, b: Bytes)
    ensures Lower(a) == Lower(b) <==>
      |a| == |b| && forall i | 0 <= i < |a| ::
        || a[i] == b[i]
        || (65 <= a[i] <= 90 && b[i] as int == a[i] as int + 32)
        || (65 <= b[i] <= 90 && a[i] as int == b[i] as int + 32)
  {
    if Lower(a) == Lower(b) {
      assert |a| == |b|;
      forall i | 0 <= i < |a| ensures LowerByte(a[i]) == LowerByte(b[i]) {
        assert Lower(a)[i] == Lower(b)[i];
      }
    }
  }

  /** A path names the resource at that path on the request's own host and scheme. */
  lemma PathIsLocated(path: Bytes, s: Subject, parse: UrlParser)
    requires path != [] && path[0] == SLASH
    ensures LocatedKeys(Some(path), s, parse) ==
      if |Key(s.(path := path))| <= MAX_KEY_LENGTH then {Key(s.(path := path))} else {}
  {
  }

  /** A URL on the request's host, in any letter case, names the resource at its path, or at `/`, with
      its own scheme or else that of the request. */
  lemma UrlIsLocated(value: Bytes, url: Url, s: Subject, parse: UrlParser)
    requires value != [] && value[0] != SLASH && parse(value) == Some(url)
    requires Lower(url.host) == Lower(s.host)
    ensures
      var path := if url.path.Some? then url.path.value else [47];
      var https := if url.schema.Some? then url.schema.value == [104, 116, 116, 112, 115] else s.https;
      var t := Subject(https, s.host, path, s.varyCookie);
      LocatedKeys(Some(value), s, parse) == if |Key(t)| <= MAX_KEY_LENGTH then {Key(t)} else {}
  {
    assert |Lower(url.host)| == |Lower(s.host)|;
  }

  /** Any other header names nothing: none, an empty one, an invalid URL, and one on another host. */
  lemma ElsewhereIsNotLocated(value: Option<Bytes>, s: Subject, parse: UrlParser)
    requires
      || value.None? || value.value == []
      || (value.value[0] != SLASH && parse(value.value).None?)
      || (value.value[0] != SLASH && Lower(parse(value.value).value.host) != Lower(s.host))
    ensures LocatedKeys(value, s, parse) == {}
  {
  }

  /** The resource `other` is what the header names. */
  predicate Names(value: Bytes, s: Subject, parse: UrlParser, other: Subject) {
    if value != [] && value[0] == SLASH then other.path == value && other.https == s.https
    else
      && value != [] && parse(value).Some?
      && var url := parse(value).value;
      && Lower(url.host) == Lower(s.host)
      && other.path == (if url.path.Some? then url.path.value else [SLASH])
      && other.https == (if url.schema.Some? then url.schema.value == HTTPS else s.https)
  }

  /** A header removes the entry of a request if and only if it names its resource, on the same host
      and for the same vary cookie, and the key fits the cache. */
  lemma LocatedIff(value: Bytes, s: Subject, parse: UrlParser, other: Subject)
    requires OneLine(s.host) && OneLine(other.host) && OneLine(other.path)
    requires Located(Some(value), s, parse).Some? ==> OneLine(Located(Some(value), s, parse).value.path)
    ensures Key(other) in LocatedKeys(Some(value), s, parse) <==>
      && Names(value, s, parse, other)
      && other.host == s.host && other.varyCookie == s.varyCookie && |Key(other)| <= MAX_KEY_LENGTH
  {
    var t := Located(Some(value), s, parse);
    if t.Some? {
      KeysIdentify(t.value, other);
    }
  }

  /** A location header removes no entry of another host (section 4.4 of RFC 7234), and none of
      another vary cookie. */
  lemma LocationStaysOnHost(value: Option<Bytes>, s: Subject, parse: UrlParser, other: Subject)
    requires Key(other) in LocatedKeys(value, s, parse)
    requires OneLine(s.host) && OneLine(Located(value, s, parse).value.path)
    requires OneLine(other.host) && OneLine(other.path)
    ensures other.host == s.host && other.varyCookie == s.varyCookie
    ensures value.value[0] != SLASH ==>
      parse(value.value).Some? && Lower(parse(value.value).value.host) == Lower(s.host)
  {
    KeysIdentify(Located(value, s, parse).value, other);
  }
}
