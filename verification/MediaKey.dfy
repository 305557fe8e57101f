/** Object keys and the URLs that carry them.  A text is the sequence of its
    UTF-8 bytes, each byte written as the character with that code. */
module MediaKey {
  import opened Wrappers
  import opened Text

  const MEDIA_PREFIX := "/media/loan-workspace/"
  const STATIC_PREFIX := "/static/loan-images/"
  const CANONICAL_PHOTO_PREFIX := "loan-workspace/"
  const MAX_KEY_BYTES := 1024

  datatype MediaError = InvalidInput | InvalidKey | ObjectMissing | ObjectMismatch | StorageUnavailable

  datatype PhotoLocation = Stored(key: string) | ExternalOnly

  /** How an S3 or R2 host names its bucket, if it is one. */
  datatype HostKind = BucketHost | PathHost | OtherHost

  /** What the URL parser reports of an absolute URL; neither it nor the
      recognition of hosts is part of this model. */
  datatype ParsedUrl = ParsedUrl(
    scheme: string, hasCredentials: bool, host: Option<HostKind>, hasQuery: bool, hasFragment: bool)

  // ---- bytes ----

  predicate IsByte(c: char) { c as int < 256 }

  predicate AllBytes(s: string) { forall i :: 0 <= i < |s| ==> IsByte(s[i]) }

  predicate IsControl(c: char) { c as int < 32 || c as int == 127 }

  predicate Between(c: char, lo: int, hi: int) { lo <= c as int <= hi }

  predicate Continues(s: string, from: nat, to: nat) {
    to <= |s| && forall i :: from <= i < to ==> Between(s[i], 0x80, 0xBF)
  }

  /** Well-formed UTF-8 (section 4 of RFC 3629). */
  predicate IsUtf8(s: string) {
    s == "" ||
    if Between(s[0], 0, 0x7F) then IsUtf8(s[1..])
    else if Between(s[0], 0xC2, 0xDF) then Continues(s, 1, 2) && IsUtf8(s[2..])
    else if Between(s[0], 0xE0, 0xEF) then
      && Continues(s, 1, 3)
      && (s[0] as int == 0xE0 ==> s[1] as int >= 0xA0) && (s[0] as int == 0xED ==> s[1] as int <= 0x9F)
      && IsUtf8(s[3..])
    else
      && Between(s[0], 0xF0, 0xF4) && Continues(s, 1, 4)
      && (s[0] as int == 0xF0 ==> s[1] as int >= 0x90) && (s[0] as int == 0xF4 ==> s[1] as int <= 0x8F)
      && IsUtf8(s[4..])
  }

  lemma {:induction false} Utf8IsBytes(s: string)
    requires IsUtf8(s)
    ensures AllBytes(s)
  {
    if s != "" {
      var n := if Between(s[0], 0, 0x7F) then 1 else if Between(s[0], 0xC2, 0xDF) then 2
               else if Between(s[0], 0xE0, 0xEF) then 3 else 4;
      Utf8IsBytes(s[n..]);
      forall i | 0 <= i < |s| ensures IsByte(s[i]) {
        if i >= n { assert s[i] == s[n..][i - n]; }
      }
    }
  }

  predicate IsAscii(s: string) { forall i :: 0 <= i < |s| ==> Between(s[i], 0, 0x7F) }

  lemma {:induction false} AsciiPrefixUtf8(p: string, s: string)
    requires IsAscii(p)
    ensures IsUtf8(p + s) <==> IsUtf8(s)
  {
    if p == "" {
      assert p + s == s;
    } else {
      assert (p + s)[1..] == p[1..] + s;
      AsciiPrefixUtf8(p[1..], s);
    }
  }

  // ---- canonical keys ----

  function Split(s: string, sep: char): (parts: seq<string>)
    ensures |parts| >= 1
  {
    if s == "" then [""]
    else
      var rest := Split(s[1..], sep);
      if s[0] == sep then [""] + rest else [[s[0]] + rest[0]] + rest[1..]
  }

  predicate HasDoubleSlash(s: string) {
    exists i :: 0 <= i < |s| - 1 && s[i] == '/' && s[i + 1] == '/'
  }

  predicate IsCanonical(raw: string) {
    && raw != "" && |raw| <= MAX_KEY_BYTES
    && raw == Trim(raw) && raw[0] != '/' && raw[|raw| - 1] != '/' && '%' !in raw
    && '\\' !in raw && !HasDoubleSlash(raw) && '?' !in raw && '#' !in raw
    && (forall i :: 0 <= i < |raw| ==> !IsControl(raw[i]))
    && (forall i :: 0 <= i < |Split(raw, '/')| ==>
          Split(raw, '/')[i] != "" && Split(raw, '/')[i] != "." && Split(raw, '/')[i] != "..")
  }

  function CanonicalKey(raw: string): Result<string, MediaError> {
    if IsCanonical(raw) then Success(raw) else Failure(InvalidKey)
  }

  // ---- percent encoding (sections 2.1 and 2.3 of RFC 3986) ----

  predicate Unreserved(c: char) {
    'a' <= c <= 'z' || 'A' <= c <= 'Z' || '0' <= c <= '9' || c == '-' || c == '_' || c == '.' || c == '~'
  }

  function HexChar(n: int): (c: char)
    requires 0 <= n < 16
    ensures DecodeHex(c) == Some(n) && Unreserved(c) && c != '.'
  {
    if n < 10 then n as char + '0' else (n - 10) as char + 'A'
  }

  function DecodeHex(c: char): (r: Option<int>)
    ensures r.Some? ==> 0 <= r.value < 16
  {
    if '0' <= c <= '9' then Some((c - '0') as int)
    else if 'a' <= c <= 'f' then Some((c - 'a') as int + 10)
    else if 'A' <= c <= 'F' then Some((c - 'A') as int + 10)
    else None
  }

  function EncodeByte(c: char, preserveSlashes: bool): (s: string)
    requires IsByte(c)
    ensures s != ""
  {
    if Unreserved(c) || (preserveSlashes && c == '/') then [c]
    else ['%', HexChar(c as int / 16), HexChar(c as int % 16)]
  }

  function Encode(s: string, preserveSlashes: bool): string
    requires AllBytes(s)
  {
    if s == "" then "" else Encode(s[..|s| - 1], preserveSlashes) + EncodeByte(s[|s| - 1], preserveSlashes)
  }

  method AwsEncode(bytes: string, preserveSlashes: bool) returns (encoded: string)
    requires AllBytes(bytes)
    ensures encoded == Encode(bytes, preserveSlashes)
  {
    encoded := "";
    for i := 0 to |bytes|
      invariant encoded == Encode(bytes[..i], preserveSlashes)
    {
      var byte := bytes[i];
      assert bytes[..i + 1][..i] == bytes[..i];
      assert Encode(bytes[..i + 1], preserveSlashes)
          == Encode(bytes[..i], preserveSlashes) + EncodeByte(byte, preserveSlashes);
      if Unreserved(byte) || (preserveSlashes && byte == '/') {
        encoded := encoded + [byte];
      } else {
        encoded := encoded + ['%'];
        encoded := encoded + [HexChar(byte as int / 16)];
        encoded := encoded + [HexChar(byte as int % 16)];
      }
    }
    assert bytes[..|bytes|] == bytes;
  }

  /** Bytes that may not hide behind an escape. */
  predicate Forbidden(value: int) {
    value == '/' as int || value == '\\' as int || value == '.' as int || value == '%' as int
    || value < 32 || value == 127
  }

  /** Undo the escapes of `raw`. */
  function Unescape(raw: string): Option<string> {
    if raw == "" then Some("")
    else if raw[0] != '%' then
      match Unescape(raw[1..]) case None => None case Some(rest) => Some([raw[0]] + rest)
    else if |raw| < 3 then None
    else
      match (DecodeHex(raw[1]), DecodeHex(raw[2]))
      case (Some(high), Some(low)) =>
        if Forbidden(high * 16 + low) then None
        else (match Unescape(raw[3..]) case None => None case Some(rest) => Some([(high * 16 + low) as char] + rest))
      case _ => None
  }

  function Decode(raw: string): Result<string, MediaError> {
    match Unescape(raw)
    case None => Failure(InvalidKey)
    case Some(decoded) => if IsUtf8(decoded) then Success(decoded) else Failure(InvalidKey)
  }

  function Prepend(decoded: string, rest: Option<string>): Option<string> {
    match rest case None => None case Some(s) => Some(decoded + s)
  }

  lemma PrependOne(decoded: string, c: char, rest: Option<string>)
    ensures Prepend(decoded + [c], rest) == Prepend(decoded, Prepend([c], rest))
  {
    if rest.Some? { assert decoded + [c] + rest.value == decoded + ([c] + rest.value); }
  }

  lemma PrependNothing(rest: Option<string>)
    ensures Prepend("", rest) == rest
  {
    if rest.Some? { assert "" + rest.value == rest.value; }
  }

  method DecodeUrlKey(raw: string) returns (r: Result<string, MediaError>)
    ensures r == Decode(raw)
  {
    var decoded, cursor := "", 0;
    assert raw[0..] == raw;
    PrependNothing(Unescape(raw));
    while cursor < |raw|
      invariant cursor <= |raw|
      invariant Unescape(raw) == Prepend(decoded, Unescape(raw[cursor..]))
    {
      if raw[cursor] != '%' {
        assert raw[cursor..][1..] == raw[cursor + 1..];
        PrependOne(decoded, raw[cursor], Unescape(raw[cursor + 1..]));
        decoded := decoded + [raw[cursor]];
        cursor := cursor + 1;
        continue;
      }
      if cursor + 2 >= |raw| { return Failure(InvalidKey); }
      var high := DecodeHex(raw[cursor + 1]);
      if high.None? { return Failure(InvalidKey); }
      var low := DecodeHex(raw[cursor + 2]);
      if low.None? { return Failure(InvalidKey); }
      var value := high.value * 16 + low.value;
      if Forbidden(value) { return Failure(InvalidKey); }
      assert raw[cursor..][3..] == raw[cursor + 3..];
      PrependOne(decoded, value as char, Unescape(raw[cursor + 3..]));
      decoded := decoded + [value as char];
      cursor := cursor + 3;
    }
    assert raw[cursor..] == "" && decoded + "" == decoded;
    r := if IsUtf8(decoded) then Success(decoded) else Failure(InvalidKey);
  }

  /** A byte that survives encoding and decoding. */
  predicate Survives(c: char, preserveSlashes: bool) {
    Unreserved(c) || (preserveSlashes && c == '/') || !Forbidden(c as int)
  }

  lemma EncodedByteDecodes(c: char, preserveSlashes: bool, rest: string)
    requires IsByte(c)
    ensures Unescape(EncodeByte(c, preserveSlashes) + rest) ==
            if !Survives(c, preserveSlashes) then None
            else match Unescape(rest) case None => None case Some(s) => Some([c] + s)
  {
    var e := EncodeByte(c, preserveSlashes);
    if |e| == 1 {
      assert (e + rest)[1..] == rest;
      assert (e + rest)[0] == c && c != '%';
    } else {
      assert (e + rest)[3..] == rest;
      assert (e + rest)[0] == '%' && (e + rest)[1] == HexChar(c as int / 16) && (e + rest)[2] == HexChar(c as int % 16);
      assert c as int / 16 * 16 + c as int % 16 == c as int;
    }
  }

  lemma EncodeLast(s: string, preserveSlashes: bool)
    requires s != "" && AllBytes(s)
    ensures IsByte(s[|s| - 1]) && AllBytes(s[..|s| - 1])
    ensures Encode(s, preserveSlashes)
            == Encode(s[..|s| - 1], preserveSlashes) + EncodeByte(s[|s| - 1], preserveSlashes)
  {
    hide EncodeByte;
  }

  lemma {:induction false} EncodeFromFront(s: string, preserveSlashes: bool)
    requires s != "" && AllBytes(s)
    ensures IsByte(s[0]) && AllBytes(s[1..])
    ensures Encode(s, preserveSlashes) == EncodeByte(s[0], preserveSlashes) + Encode(s[1..], preserveSlashes)
  {
    hide EncodeByte;
    if |s| == 1 {
      assert s[..0] == "" && s[1..] == "";
    } else {
      var front, back := s[..|s| - 1], s[1..];
      EncodeLast(s, preserveSlashes);
      EncodeLast(back, preserveSlashes);
      EncodeFromFront(front, preserveSlashes);
      assert back[..|back| - 1] == front[1..];
      hide Encode, AllBytes, IsByte;
    }
  }

  lemma {:induction false} EncodedUnescapes(s: string, preserveSlashes: bool)
    requires AllBytes(s)
    ensures Unescape(Encode(s, preserveSlashes)) ==
            if forall i :: 0 <= i < |s| ==> Survives(s[i], preserveSlashes) then Some(s) else None
  {
    hide EncodeByte, Survives;
    if s != "" {
      hide Unescape;
      EncodeFromFront(s, preserveSlashes);
      EncodedUnescapes(s[1..], preserveSlashes);
      EncodedByteDecodes(s[0], preserveSlashes, Encode(s[1..], preserveSlashes));
      assert s == [s[0]] + s[1..];
      assert (forall i :: 0 <= i < |s| ==> Survives(s[i], preserveSlashes)) <==>
             Survives(s[0], preserveSlashes) && forall i :: 0 <= i < |s[1..]| ==> Survives(s[1..][i], preserveSlashes);
    }
  }

  /** Decoding undoes encoding on exactly the UTF-8 texts whose bytes all
      survive: no backslash, percent sign or control byte, and no slash unless
      slashes are preserved. */
  lemma DecodeUndoesEncode(s: string, preserveSlashes: bool)
    requires AllBytes(s)
    ensures Decode(Encode(s, preserveSlashes)) == Success(s) <==>
              IsUtf8(s) && forall i :: 0 <= i < |s| ==>
                s[i] != '\\' && s[i] != '%' && !IsControl(s[i]) && (preserveSlashes || s[i] != '/')
  {
    EncodedUnescapes(s, preserveSlashes);
    forall i | 0 <= i < |s|
      ensures Survives(s[i], preserveSlashes) <==>
                s[i] != '\\' && s[i] != '%' && !IsControl(s[i]) && (preserveSlashes || s[i] != '/')
    {
    }
  }

  // ---- photo locations ----

  predicate StartsWith(s: string, prefix: string) {
    |prefix| <= |s| && s[..|prefix|] == prefix
  }

  function LegacyPhotoKey(rawSuffix: string): Result<string, MediaError> {
    if '?' in rawSuffix || '#' in rawSuffix then Failure(InvalidKey)
    else
      match Decode(rawSuffix)
      case Failure(e) => Failure(e)
      case Success(suffix) => CanonicalKey(CANONICAL_PHOTO_PREFIX + suffix)
  }

  function ToStored(key: Result<string, MediaError>): Result<PhotoLocation, MediaError> {
    match key case Success(k) => Success(Stored(k)) case Failure(e) => Failure(e)
  }

  /** The part of `s` before the first character of `stops`. */
  function Until(s: string, stops: string): string {
    if s == "" || s[0] in stops then "" else [s[0]] + Until(s[1..], stops)
  }

  /** What follows the first "://". */
  function AfterScheme(s: string): Option<string> {
    if StartsWith(s, "://") then Some(s[3..]) else if s == "" then None else AfterScheme(s[1..])
  }

  /** From the first slash on. */
  function FromSlash(s: string): (r: Option<string>)
    ensures r.Some? ==> r.value != "" && r.value[0] == '/'
  {
    if s == "" then None else if s[0] == '/' then Some(s) else FromSlash(s[1..])
  }

  function RawHttpPath(url: string): Option<string> {
    match AfterScheme(url)
    case None => None
    case Some(rest) => Some(match FromSlash(rest) case None => "/" case Some(path) => path)
  }

  predicate IsKey(key: string) { IsUtf8(key) && IsCanonical(key) }

  function DecodedKey(raw: string): (r: Result<string, MediaError>)
    ensures r.Success? ==> IsKey(r.value)
  {
    match Decode(raw) case Failure(e) => Failure(e) case Success(key) => CanonicalKey(key)
  }

  /** The key of an object behind a known host, None for another host. */
  function KnownS3Key(host: HostKind, rawPath: string): (r: Result<Option<string>, MediaError>)
    ensures r.Success? && r.value.Some? ==> IsKey(r.value.value)
  {
    var path := Until(rawPath, "?#");
    if !StartsWith(path, "/") then Failure(InvalidKey)
    else if host == OtherHost then Success(None)
    else
      var key := if host == BucketHost then path[1..]
                 else match FromSlash(path[1..]) case None => "" case Some(rest) => rest[1..];
      if key == "" then Failure(InvalidKey)
      else match DecodedKey(key) case Failure(e) => Failure(e) case Success(k) => Success(Some(k))
  }

  /** A path of this site, if it is one: its photo key. */
  function SiteKey(path: string): Option<Result<string, MediaError>> {
    if StartsWith(path, MEDIA_PREFIX) then Some(LegacyPhotoKey(path[|MEDIA_PREFIX|..]))
    else if StartsWith(path, STATIC_PREFIX) then Some(LegacyPhotoKey(path[|STATIC_PREFIX|..]))
    else None
  }

  lemma SiteKeyIsKey(path: string)
    ensures SiteKey(path).Some? && SiteKey(path).value.Success? ==>
              IsKey(SiteKey(path).value.value) && StartsWith(SiteKey(path).value.value, CANONICAL_PHOTO_PREFIX)
  {
    hide LegacyPhotoKey, IsKey;
    if StartsWith(path, MEDIA_PREFIX) { LegacyKeyIsKey(path[|MEDIA_PREFIX|..]); }
    if StartsWith(path, STATIC_PREFIX) { LegacyKeyIsKey(path[|STATIC_PREFIX|..]); }
  }

  lemma LegacyKeyIsKey(rawSuffix: string)
    ensures LegacyPhotoKey(rawSuffix).Success? ==>
              IsKey(LegacyPhotoKey(rawSuffix).value)
              && StartsWith(LegacyPhotoKey(rawSuffix).value, CANONICAL_PHOTO_PREFIX)
  {
    hide IsUtf8, Trim, Unescape, IsCanonical;
    if LegacyPhotoKey(rawSuffix).Success? { AsciiPrefixUtf8(CANONICAL_PHOTO_PREFIX, Decode(rawSuffix).value); }
  }

  function ClassifyHttp(url: string, parsed: ParsedUrl): Result<PhotoLocation, MediaError> {
    if parsed.hasCredentials then Failure(InvalidKey)
    else
      match RawHttpPath(url)
      case None => Failure(InvalidKey)
      case Some(rawPath) =>
        match SiteKey(rawPath)
        case Some(key) => if parsed.hasQuery || parsed.hasFragment then Failure(InvalidKey) else ToStored(key)
        case None =>
          match KnownS3Key(if parsed.host.Some? then parsed.host.value else OtherHost, rawPath)
          case Failure(e) => Failure(e)
          case Success(None) => Success(ExternalOnly)
          case Success(Some(key)) => Success(Stored(key))
  }

  function ClassifyS3(url: string, parsed: ParsedUrl): Result<PhotoLocation, MediaError> {
    if parsed.host.None? || parsed.hasQuery || parsed.hasFragment then Failure(InvalidKey)
    else
      match AfterScheme(url)
      case None => Failure(InvalidKey)
      case Some(rest) =>
        match FromSlash(rest)
        case None => Failure(InvalidKey)
        case Some(path) => ToStored(DecodedKey(path[1..]))
  }

  /** `parsed` is the URL parser's report, None if the text is no URL. */
  function ClassifyPhoto(url: string, parsed: Option<ParsedUrl>): Result<PhotoLocation, MediaError> {
    if url != Trim(url) || url == "" then Failure(InvalidKey)
    else
      match SiteKey(url)
      case Some(key) => ToStored(key)
      case None =>
        if parsed.None? then Failure(InvalidKey)
        else if parsed.value.scheme == "http" || parsed.value.scheme == "https" then ClassifyHttp(url, parsed.value)
        else if parsed.value.scheme == "s3" then ClassifyS3(url, parsed.value)
        else Failure(InvalidKey)
  }

  function PhotoRouteUrl(key: string): Result<string, MediaError>
    requires AllBytes(key)
  {
    if !IsCanonical(key) then Failure(InvalidKey)
    else if !StartsWith(key, CANONICAL_PHOTO_PREFIX) || |key| == |CANONICAL_PHOTO_PREFIX| then Failure(InvalidKey)
    else Success(MEDIA_PREFIX + Encode(key[|CANONICAL_PHOTO_PREFIX|..], true))
  }

  lemma {:induction false} EncodedCharacters(s: string, preserveSlashes: bool)
    requires AllBytes(s)
    ensures forall i :: 0 <= i < |Encode(s, preserveSlashes)| ==>
              var c := Encode(s, preserveSlashes)[i];
              Unreserved(c) || c == '%' || c == '/'
    ensures s != "" ==> Encode(s, preserveSlashes) != ""
  {
    if s != "" { EncodedCharacters(s[..|s| - 1], preserveSlashes); }
  }

  /** The route URL of every canonical photo key leads back to that key. */
  lemma RouteUrlRoundTrip(key: string, parsed: Option<ParsedUrl>)
    requires IsUtf8(key) && IsCanonical(key) && StartsWith(key, CANONICAL_PHOTO_PREFIX)
    ensures AllBytes(key) && PhotoRouteUrl(key).Success?
    ensures ClassifyPhoto(PhotoRouteUrl(key).value, parsed) == Success(Stored(key))
  {
    hide IsUtf8, Trim, Split, Unescape, Encode, HasDoubleSlash;
    Utf8IsBytes(key);
    var suffix := key[|CANONICAL_PHOTO_PREFIX|..];
    assert key == CANONICAL_PHOTO_PREFIX + suffix;
    AsciiPrefixUtf8(CANONICAL_PHOTO_PREFIX, suffix);
    assert key[|CANONICAL_PHOTO_PREFIX| - 1] == '/';
    assert forall i :: 0 <= i < |suffix| ==> suffix[i] == key[i + |CANONICAL_PHOTO_PREFIX|];
    DecodeUndoesEncode(suffix, true);
    RouteUrlIsPlain(suffix);
  }

  /** The URL needs no trimming, carries no query or fragment, and gives its
      encoded suffix back. */
  lemma RouteUrlIsPlain(suffix: string)
    requires suffix != "" && AllBytes(suffix)
    ensures var url := MEDIA_PREFIX + Encode(suffix, true);
            && Trim(url) == url && StartsWith(url, MEDIA_PREFIX)
            && url[|MEDIA_PREFIX|..] == Encode(suffix, true)
    ensures '?' !in Encode(suffix, true) && '#' !in Encode(suffix, true)
  {
    hide Trim, Encode;
    var encoded := Encode(suffix, true);
    var url := MEDIA_PREFIX + encoded;
    EncodedCharacters(suffix, true);
    assert url[|url| - 1] == encoded[|encoded| - 1];
    assert url[0] == '/';
    TrimmedIsFixed(url);
    forall c | c in encoded ensures c != '?' && c != '#' {
      var i :| 0 <= i < |encoded| && encoded[i] == c;
    }
  }

  /** So the URLs of two keys are equal only if the keys are. */
  lemma RouteUrlIsInjective(key: string, key': string)
    requires IsUtf8(key) && IsCanonical(key) && StartsWith(key, CANONICAL_PHOTO_PREFIX)
    requires IsUtf8(key') && IsCanonical(key') && StartsWith(key', CANONICAL_PHOTO_PREFIX)
    ensures AllBytes(key) && AllBytes(key')
    ensures PhotoRouteUrl(key) == PhotoRouteUrl(key') <==> key == key'
  {
    RouteUrlRoundTrip(key, None);
    RouteUrlRoundTrip(key', None);
  }

  /** A stored location, however its URL was given, has a canonical key. */
  lemma StoredKeysAreCanonical(url: string, parsed: Option<ParsedUrl>)
    requires ClassifyPhoto(url, parsed).Success? && ClassifyPhoto(url, parsed).value.Stored?
    ensures IsKey(ClassifyPhoto(url, parsed).value.key)
    ensures SiteKey(url).Some? ==> StartsWith(ClassifyPhoto(url, parsed).value.key, CANONICAL_PHOTO_PREFIX)
  {
    hide IsKey, Trim, SiteKey, AfterScheme, FromSlash, StartsWith, KnownS3Key, DecodedKey;
    SiteKeyIsKey(url);
    if RawHttpPath(url).Some? { SiteKeyIsKey(RawHttpPath(url).value); }
  }

  /** Normalising any stored photo location again, whatever form its URL had,
      gives the same key, for every key under the photo prefix; and those of the
      site's own paths all are. */
  lemma NormalisingIsIdempotent(url: string, parsed: Option<ParsedUrl>, again: Option<ParsedUrl>)
    requires ClassifyPhoto(url, parsed).Success? && ClassifyPhoto(url, parsed).value.Stored?
    requires SiteKey(url).Some? || StartsWith(ClassifyPhoto(url, parsed).value.key, CANONICAL_PHOTO_PREFIX)
    ensures var key := ClassifyPhoto(url, parsed).value.key;
            && AllBytes(key) && PhotoRouteUrl(key).Success?
            && ClassifyPhoto(PhotoRouteUrl(key).value, again) == Success(Stored(key))
  {
    StoredKeysAreCanonical(url, parsed);
    hide ClassifyPhoto, IsUtf8, IsCanonical, SiteKey;
    RouteUrlRoundTrip(ClassifyPhoto(url, parsed).value.key, again);
  }

  // ---- what encoding and keys look like ----

  /** A space, a slash and a percent sign, as S3 signs them: upper-case digits. */
  lemma EncodingTexts()
    ensures Encode(" ", true) == "%20" && Encode("/", true) == "/" && Encode("/", false) == "%2F"
    ensures Encode("%", true) == "%25" && Encode("~", true) == "~"
  {
    assert " "[..0] == "" && "/"[..0] == "" && "%"[..0] == "" && "~"[..0] == "";
  }

  lemma SplitStep(c: char, rest: string)
    ensures Split([c] + rest, '/')
            == if c == '/' then [""] + Split(rest, '/')
               else [[c] + Split(rest, '/')[0]] + Split(rest, '/')[1..]
  {
    assert ([c] + rest)[1..] == rest;
  }

  lemma {:induction false} SplitAt(a: string, b: string)
    ensures Split(a + "/" + b, '/') == Split(a, '/') + Split(b, '/')
  {
    if a == "" {
      assert a + "/" + b == ['/'] + b;
      SplitStep('/', b);
    } else {
      var rest, last := Split(a[1..], '/'), Split(b, '/');
      assert a + "/" + b == [a[0]] + (a[1..] + "/" + b) && a == [a[0]] + a[1..];
      SplitAt(a[1..], b);
      SplitStep(a[0], a[1..] + "/" + b);
      SplitStep(a[0], a[1..]);
      JoinHead(a[0], rest, last);
      hide Split;
      assert Split(a[1..] + "/" + b, '/') == rest + last;
    }
  }

  lemma JoinHead(c: char, rest: seq<string>, last: seq<string>)
    requires rest != []
    ensures (rest + last)[0] == rest[0] && (rest + last)[1..] == rest[1..] + last
    ensures [""] + (rest + last) == ([""] + rest) + last
    ensures [[c] + rest[0]] + (rest + last)[1..] == ([[c] + rest[0]] + rest[1..]) + last
  {
  }

  /** A key never climbs: no segment of it is empty, "." or "..". */
  lemma NoDotSegments(before: string, segment: string, after: string)
    requires segment in {"", ".", ".."}
    ensures !IsCanonical(before + "/" + (segment + "/" + after)) && !IsCanonical(segment + "/" + after)
    ensures !IsCanonical(before + "/" + segment) && !IsCanonical(segment)
  {
    OneSegment(segment);
    SplitAt(segment, after);
    SplitAt(before, segment + "/" + after);
    SplitAt(before, segment);
    hide Trim, HasDoubleSlash, Split;
    var n := |Split(before, '/')|;
    assert Split(before + "/" + (segment + "/" + after), '/')[n] == segment;
    assert Split(segment + "/" + after, '/')[0] == segment;
    assert Split(before + "/" + segment, '/')[n] == segment;
    assert Split(segment, '/')[0] == segment;
  }

  lemma OneSegment(segment: string)
    requires segment in {"", ".", ".."}
    ensures Split(segment, '/') == [segment]
  {
    assert ['.'] + "" == "." && ['.'] + "." == "..";
    SplitStep('.', "");
    SplitStep('.', ".");
  }

  /** What no key has, and how long it may be. */
  lemma KeyLimits(key: string)
    requires IsCanonical(key)
    ensures 1 <= |key| <= 1024 && Trim(key) == key && key[0] != '/' && key[|key| - 1] != '/'
    ensures forall i :: 0 <= i < |key| ==>
              key[i] !in {'%', '\\', '?', '#'} && 32 <= key[i] as int && key[i] as int != 127
    ensures forall i :: 0 <= i < |key| - 1 ==> !(key[i] == '/' && key[i + 1] == '/')
  {
    hide Trim, Split;
    forall i | 0 <= i < |key| ensures key[i] in key {}
  }

  function Byte(n: int): char
    requires 0 <= n < 256
  {
    n as char
  }

  /** Overlong forms, surrogates and values past the last are no UTF-8; the euro
      sign and the last value are. */
  lemma Utf8Texts()
    ensures !IsUtf8([Byte(0xC0), Byte(0x80)]) && !IsUtf8([Byte(0xE0), Byte(0x80), Byte(0x80)])
    ensures !IsUtf8([Byte(0xED), Byte(0xA0), Byte(0x80)]) && !IsUtf8([Byte(0xF4), Byte(0x90), Byte(0x80), Byte(0x80)])
    ensures !IsUtf8([Byte(0x80)]) && !IsUtf8([Byte(0xF5), Byte(0x80), Byte(0x80), Byte(0x80)])
    ensures IsUtf8([Byte(0xE2), Byte(0x82), Byte(0xAC)]) && IsUtf8([Byte(0xF4), Byte(0x8F), Byte(0xBF), Byte(0xBF)])
    ensures IsUtf8([Byte(0xC3), Byte(0xA4)])
  {
    assert [Byte(0xE2), Byte(0x82), Byte(0xAC)][3..] == "" && [Byte(0xC3), Byte(0xA4)][2..] == "";
    assert [Byte(0xF4), Byte(0x8F), Byte(0xBF), Byte(0xBF)][4..] == "";
  }
}
