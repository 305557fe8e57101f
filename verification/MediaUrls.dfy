/** URLs of stored photos in every form they may be given. */
module MediaUrls {
  import opened Wrappers
  import opened Text
  import opened MediaKey

  /** An absolute http or https URL. */
  function WebUrl(secure: bool, host: string, path: string): string {
    (if secure then "https" else "http") + ("://" + (host + path))
  }

  function S3Url(bucket: string, path: string): string { "s3" + ("://" + (bucket + path)) }

  function Web(secure: bool, host: HostKind): Option<ParsedUrl> {
    Some(ParsedUrl(if secure then "https" else "http", false, Some(host), false, false))
  }

  lemma {:induction false} SchemeEnds(scheme: string, rest: string)
    requires ':' !in scheme
    ensures AfterScheme(scheme + ("://" + rest)) == Some(rest)
  {
    var s := scheme + ("://" + rest);
    if scheme == "" {
      assert s == "://" + rest && s[3..] == rest;
    } else {
      assert s[0] == scheme[0] && s[0] in scheme && s[1..] == scheme[1..] + ("://" + rest);
      SchemeEnds(scheme[1..], rest);
    }
  }

  lemma {:induction false} SlashStarts(front: string, path: string)
    requires '/' !in front && path != "" && path[0] == '/'
    ensures FromSlash(front + path) == Some(path)
  {
    if front == "" {
      assert front + path == path;
    } else {
      assert (front + path)[0] in front && (front + path)[1..] == front[1..] + path;
      SlashStarts(front[1..], path);
    }
  }

  lemma {:induction false} NothingStops(s: string)
    requires '?' !in s && '#' !in s
    ensures Until(s, "?#") == s
  {
    if s != "" {
      assert s[0] in s && s == [s[0]] + s[1..];
      NothingStops(s[1..]);
    }
  }

  /** The encoded key: nothing in it ends a path, and it has no space around it. */
  lemma EncodedKeyIsPlain(key: string)
    requires AllBytes(key) && key != ""
    ensures var e := Encode(key, true);
            e != "" && '?' !in e && '#' !in e && forall i :: 0 <= i < |e| ==> !IsSpace(e[i])
  {
    EncodedCharacters(key, true);
    var e := Encode(key, true);
    forall i | 0 <= i < |e| ensures e[i] != '?' && e[i] != '#' && !IsSpace(e[i]) {
      assert Unreserved(e[i]) || e[i] == '%' || e[i] == '/';
    }
  }

  lemma EncodedKeyDecodes(key: string)
    requires IsUtf8(key) && IsCanonical(key)
    ensures AllBytes(key) && key != "" && DecodedKey(Encode(key, true)) == Success(key)
  {
    Utf8IsBytes(key);
    DecodeUndoesEncode(key, true);
    hide IsUtf8, Trim, Split, HasDoubleSlash, Encode, Decode;
    forall i | 0 <= i < |key|
      ensures key[i] != '\\' && key[i] != '%' && !IsControl(key[i])
    {
      assert key[i] in key;
    }
  }

  lemma NotOfThisSite(url: string)
    requires url != "" && url[0] != '/'
    ensures SiteKey(url) == None
  {
    hide LegacyPhotoKey;
  }

  /** The URL has no space around it. */
  lemma UrlIsTrimmed(front: string, back: string)
    requires front != "" && back != "" && !IsSpace(front[0]) && !IsSpace(back[|back| - 1])
    ensures Trim(front + back) == front + back
  {
    TrimmedIsFixed(front + back);
    hide Trim;
  }

  lemma WebUrlParts(secure: bool, host: string, path: string)
    requires '/' !in host && path != "" && path[0] == '/' && !IsSpace(path[|path| - 1])
    ensures var url := WebUrl(secure, host, path);
            url == Trim(url) && url != "" && SiteKey(url) == None && RawHttpPath(url) == Some(path)
  {
    var url := WebUrl(secure, host, path);
    var scheme := if secure then "https" else "http";
    UrlIsTrimmed(scheme + ("://" + host), path);
    assert url == scheme + ("://" + host) + path;
    assert url[0] == 'h';
    NotOfThisSite(url);
    SchemeEnds(scheme, host + path);
    SlashStarts(host, path);
    hide Trim, SiteKey, AfterScheme, FromSlash;
  }

  /** A photo in a bucket of its own host is stored under the path, one behind a
      path host under what follows the bucket's name, and one elsewhere is not
      stored; the key is the decoded one. */
  lemma WebPhotoIsStored(secure: bool, host: string, bucket: string, key: string)
    requires IsUtf8(key) && IsCanonical(key) && '/' !in host && '/' !in bucket && '?' !in bucket && '#' !in bucket
    requires AllBytes(key)
    requires !StartsWith("/" + Encode(key, true), "/media/loan-workspace/")
    requires !StartsWith("/" + Encode(key, true), "/static/loan-images/")
    requires !StartsWith("/" + bucket + "/" + Encode(key, true), "/media/loan-workspace/")
    requires !StartsWith("/" + bucket + "/" + Encode(key, true), "/static/loan-images/")
    ensures ClassifyPhoto(WebUrl(secure, host, "/" + Encode(key, true)), Web(secure, BucketHost))
            == Success(Stored(key))
    ensures ClassifyPhoto(WebUrl(secure, host, "/" + bucket + "/" + Encode(key, true)), Web(secure, PathHost))
            == Success(Stored(key))
    ensures ClassifyPhoto(WebUrl(secure, host, "/" + Encode(key, true)), Web(secure, OtherHost))
            == Success(ExternalOnly)
  {
    EncodedKeyDecodes(key);
    EncodedKeyIsPlain(key);
    var e := Encode(key, true);
    hide Encode, IsUtf8, IsCanonical, DecodedKey;
    BucketPathIs("/" + e, e, key);
    OwnPathIs("/" + e);
    WebIs(secure, host, "/" + e, BucketHost);
    WebIs(secure, host, "/" + e, OtherHost);
    PathHostPathIs(bucket, e, key);
    OwnPathIs("/" + bucket + "/" + e);
    WebIs(secure, host, "/" + bucket + "/" + e, PathHost);
  }

  lemma OwnPathIs(path: string)
    requires !StartsWith(path, "/media/loan-workspace/") && !StartsWith(path, "/static/loan-images/")
    ensures SiteKey(path) == None
  {
    hide LegacyPhotoKey, StartsWith;
  }

  lemma WebIs(secure: bool, host: string, path: string, kind: HostKind)
    requires '/' !in host && path != "" && path[0] == '/' && !IsSpace(path[|path| - 1]) && SiteKey(path) == None
    ensures ClassifyPhoto(WebUrl(secure, host, path), Web(secure, kind))
            == match KnownS3Key(kind, path)
               case Failure(error) => Failure(error)
               case Success(None) => Success(ExternalOnly)
               case Success(Some(key)) => Success(Stored(key))
  {
    WebUrlParts(secure, host, path);
    hide WebUrl, SiteKey, RawHttpPath, Trim, KnownS3Key;
  }

  lemma BucketPathIs(path: string, e: string, key: string)
    requires path == "/" + e && e != "" && '?' !in e && '#' !in e && DecodedKey(e) == Success(key)
    ensures KnownS3Key(BucketHost, path) == Success(Some(key)) && KnownS3Key(OtherHost, path) == Success(None)
  {
    NothingStops(path);
    assert path[1..] == e && path[..1] == "/";
    hide Until, DecodedKey, FromSlash;
  }

  lemma PathHostPathIs(bucket: string, e: string, key: string)
    requires '/' !in bucket && '?' !in bucket && '#' !in bucket
    requires e != "" && '?' !in e && '#' !in e && DecodedKey(e) == Success(key)
    ensures KnownS3Key(PathHost, "/" + bucket + "/" + e) == Success(Some(key))
  {
    var path := "/" + bucket + "/" + e;
    NothingStops(path);
    assert path[1..] == bucket + ("/" + e) && path[..1] == "/";
    SlashStarts(bucket, "/" + e);
    assert ("/" + e)[1..] == e;
    hide Until, DecodedKey, FromSlash;
  }

  /** A photo given as an S3 location is stored under what follows the bucket. */
  lemma S3PhotoIsStored(bucket: string, key: string)
    requires IsUtf8(key) && IsCanonical(key) && AllBytes(key) && '/' !in bucket
    ensures ClassifyPhoto(S3Url(bucket, "/" + Encode(key, true)),
                          Some(ParsedUrl("s3", false, Some(OtherHost), false, false))) == Success(Stored(key))
  {
    EncodedKeyDecodes(key);
    EncodedKeyIsPlain(key);
    var e := Encode(key, true);
    hide Encode, IsUtf8, IsCanonical, DecodedKey;
    S3UrlParts(bucket, "/" + e);
    S3Is(S3Url(bucket, "/" + e), bucket + ("/" + e), "/" + e);
    assert ("/" + e)[1..] == e;
    hide *;
  }

  lemma S3Is(url: string, rest: string, path: string)
    requires url == Trim(url) && url != "" && SiteKey(url) == None
    requires AfterScheme(url) == Some(rest) && FromSlash(rest) == Some(path)
    ensures ClassifyPhoto(url, Some(ParsedUrl("s3", false, Some(OtherHost), false, false)))
            == ToStored(DecodedKey(path[1..]))
  {
    assert |"s3"| == 2 && |"http"| == 4 && |"https"| == 5;
    hide SiteKey, AfterScheme, Trim, FromSlash, DecodedKey, ToStored, ClassifyHttp;
  }

  lemma S3UrlParts(bucket: string, path: string)
    requires '/' !in bucket && path != "" && path[0] == '/' && !IsSpace(path[|path| - 1])
    ensures var url := S3Url(bucket, path);
            && url == Trim(url) && url != "" && SiteKey(url) == None
            && AfterScheme(url) == Some(bucket + path) && FromSlash(bucket + path) == Some(path)
  {
    var url := S3Url(bucket, path);
    UrlIsTrimmed("s3" + ("://" + bucket), path);
    S3UrlShape(bucket, path);
    NotOfThisSite(url);
    NoColonInS3();
    SchemeEnds("s3", bucket + path);
    SlashStarts(bucket, path);
    hide *;
  }

  lemma NoColonInS3()
    ensures ':' !in "s3"
  {
  }

  lemma S3UrlShape(bucket: string, path: string)
    ensures S3Url(bucket, path) == "s3" + ("://" + bucket) + path && S3Url(bucket, path)[0] == 's'
    ensures S3Url(bucket, path) == "s3" + ("://" + (bucket + path)) && S3Url(bucket, path) != ""
  {
    assert "://" + (bucket + path) == ("://" + bucket) + path;
    assert "s3" + (("://" + bucket) + path) == "s3" + ("://" + bucket) + path;
  }

  /** Credentials in a URL, and other schemes, are refused whatever else it has. */
  lemma RefusedUrls(url: string, parsed: ParsedUrl)
    requires SiteKey(url) == None
    ensures parsed.hasCredentials && (parsed.scheme == "http" || parsed.scheme == "https") ==>
              ClassifyPhoto(url, Some(parsed)) == Failure(InvalidKey)
    ensures parsed.scheme != "http" && parsed.scheme != "https" && parsed.scheme != "s3" ==>
              ClassifyPhoto(url, Some(parsed)) == Failure(InvalidKey)
    ensures ClassifyPhoto(url, None) == Failure(InvalidKey)
  {
    hide SiteKey, Trim, ClassifyS3, RawHttpPath;
  }

  // ---- queries, routes and paths of this site ----

  lemma {:induction false} StopsAt(path: string, stop: char, rest: string)
    requires stop in {'?', '#'} && '?' !in path && '#' !in path
    ensures Until(path + [stop] + rest, "?#") == path
  {
    var s := path + [stop] + rest;
    if path == "" {
      assert s == [stop] + rest && "?#"[0] == '?' && "?#"[1] == '#';
    } else {
      assert s[0] == path[0] && s[0] in path && s[1..] == path[1..] + [stop] + rest && path == [path[0]] + path[1..];
      assert s[0] !in "?#";
      StopsAt(path[1..], stop, rest);
    }
  }

  /** A query or a fragment is no part of the key of a stored object. */
  lemma QueryIsDropped(host: HostKind, path: string, stop: char, rest: string)
    requires stop in {'?', '#'} && '?' !in path && '#' !in path
    ensures KnownS3Key(host, path + [stop] + rest) == KnownS3Key(host, path)
  {
    StopsAt(path, stop, rest);
    NothingStops(path);
    hide Until, StartsWith, FromSlash, DecodedKey;
  }

  /** The route of a photo, and both paths of this site under which it is known. */
  lemma SitePathsAre(suffix: string, parsed: Option<ParsedUrl>)
    requires IsUtf8("loan-workspace/" + suffix) && IsCanonical("loan-workspace/" + suffix)
    requires AllBytes("loan-workspace/" + suffix) && AllBytes(suffix) && suffix != ""
    ensures PhotoRouteUrl("loan-workspace/" + suffix) == Success("/media/loan-workspace/" + Encode(suffix, true))
    ensures ClassifyPhoto("/media/loan-workspace/" + Encode(suffix, true), parsed)
            == Success(Stored("loan-workspace/" + suffix))
    ensures ClassifyPhoto("/static/loan-images/" + Encode(suffix, true), parsed)
            == Success(Stored("loan-workspace/" + suffix))
  {
    var key := "loan-workspace/" + suffix;
    RouteUrlRoundTrip(key, parsed);
    RouteIs(suffix);
    EncodedKeyIsPlain(suffix);
    SuffixDecodes(suffix);
    StaticPathIs(Encode(suffix, true), key);
    hide *;
  }

  lemma RouteIs(suffix: string)
    requires AllBytes("loan-workspace/" + suffix) && IsCanonical("loan-workspace/" + suffix) && AllBytes(suffix)
    requires suffix != ""
    ensures PhotoRouteUrl("loan-workspace/" + suffix) == Success("/media/loan-workspace/" + Encode(suffix, true))
    ensures StartsWith("loan-workspace/" + suffix, CANONICAL_PHOTO_PREFIX)
  {
    var key := "loan-workspace/" + suffix;
    assert key[..|CANONICAL_PHOTO_PREFIX|] == CANONICAL_PHOTO_PREFIX && key[|CANONICAL_PHOTO_PREFIX|..] == suffix;
    hide IsCanonical, Encode;
  }

  lemma SuffixDecodes(suffix: string)
    requires IsUtf8("loan-workspace/" + suffix) && IsCanonical("loan-workspace/" + suffix) && AllBytes(suffix)
    ensures Decode(Encode(suffix, true)) == Success(suffix)
  {
    var key := "loan-workspace/" + suffix;
    AsciiPrefixUtf8("loan-workspace/", suffix);
    DecodeUndoesEncode(suffix, true);
    KeyLimits(key);
    hide IsUtf8, IsCanonical, Encode, Decode;
    forall i | 0 <= i < |suffix| ensures suffix[i] != '\\' && suffix[i] != '%' && !IsControl(suffix[i]) {
      assert key[i + 15] == suffix[i];
    }
  }

  lemma StaticPathIs(e: string, key: string)
    requires e != "" && '?' !in e && '#' !in e && forall i :: 0 <= i < |e| ==> !IsSpace(e[i])
    requires Decode(e).Success? && key == "loan-workspace/" + Decode(e).value && IsCanonical(key)
    ensures forall parsed :: ClassifyPhoto("/static/loan-images/" + e, parsed) == Success(Stored(key))
  {
    hide Decode, IsCanonical, Trim;
    var url := "/static/loan-images/" + e;
    UrlIsTrimmed("/static/loan-images/", e);
    assert url[..|STATIC_PREFIX|] == STATIC_PREFIX && url[|STATIC_PREFIX|..] == e;
    assert url[1] == 's' && MEDIA_PREFIX[1] == 'm';
    assert !StartsWith(url, MEDIA_PREFIX);
  }
}
