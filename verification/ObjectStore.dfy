/** The object bucket: an object, once bound to a key, is never replaced.
    Writers send `If-None-Match: *` (section 13.1.2 of RFC 9110), so a PUT
    binds its key only if the key is free. */
module ObjectStore {
  import opened Wrappers
  import opened Text
  import opened MediaKey

  const MAX_SERVER_PUT_BYTES := 26214400

  datatype Blob = Blob(bytes: string, contentType: string)

  type Objects = map<string, Blob>

  /** The server's side of one conditional PUT. */
  function Bind(objects: Objects, key: string, blob: Blob): (r: Objects)
    ensures key in r && forall k :: k in objects ==> k in r && r[k] == objects[k]
    ensures r.Keys == objects.Keys + {key}
  {
    if key in objects then objects else objects[key := blob]
  }

  function BeforeSemicolon(s: string): (r: string)
    ensures r <= s
  {
    if s == "" || s[0] == ';' then "" else [s[0]] + BeforeSemicolon(s[1..])
  }

  /** The check after the HEAD request: size, media type, and digest.  The
      digest identifies the bytes. */
  predicate Matches(existing: Blob, wanted: Blob) {
    && |existing.bytes| == |wanted.bytes|
    && Trim(BeforeSemicolon(existing.contentType)) == wanted.contentType
    && existing.bytes == wanted.bytes
  }

  /** What the network makes of a PUT: the server saw it and answered that it
      bound the key or that the key was taken; it answered that another write is
      under way (409), and did not bind the key; it refused; or no answer came
      back and the server may or may not have seen it. */
  datatype PutReply = Answered | Contended | Refused | Lost(arrived: bool)

  /** The bucket after the request, whatever the sender hears of it. */
  function Arrived(objects: Objects, key: string, blob: Blob, reply: PutReply): Objects {
    if reply.Answered? || reply == Lost(true) then Bind(objects, key, blob) else objects
  }

  /** Both requests are answered, and the object there afterwards matches. */
  predicate PutSucceeds(objects: Objects, key: string, blob: Blob, reply: PutReply, headAnswers: bool) {
    && (reply.Answered? || reply.Contended?) && headAnswers
    && key in Arrived(objects, key, blob, reply) && Matches(Arrived(objects, key, blob, reply)[key], blob)
  }

  class Bucket {
    var objects: Objects

    constructor ()
      ensures objects == map[]
    {
      objects := map[];
    }

    method PutIfAbsent(key: string, blob: Blob, reply: PutReply, headAnswers: bool)
      returns (r: Result<Blob, MediaError>)
      modifies this
      ensures objects == old(objects) || objects == Bind(old(objects), key, blob)
      ensures objects == Arrived(old(objects), key, blob, reply)
      ensures r.Success? <==> PutSucceeds(old(objects), key, blob, reply, headAnswers)
      ensures r.Success? ==> key in objects && objects[key] == r.value && Matches(r.value, blob)
      ensures r == Failure(ObjectMismatch) <==>
                (reply.Answered? || reply.Contended?) && headAnswers && key in objects && !Matches(objects[key], blob)
      ensures r == Failure(ObjectMissing) <==> reply.Contended? && headAnswers && key !in old(objects)
      ensures r.Failure? ==> r.error in {ObjectMismatch, ObjectMissing, StorageUnavailable}
    {
      if reply.Answered? || (reply.Lost? && reply.arrived) {
        if key !in objects {
          objects := objects[key := blob];
        }
      }
      if !reply.Answered? && !reply.Contended? { return Failure(StorageUnavailable); }
      if !headAnswers { return Failure(StorageUnavailable); }
      if key !in objects { return Failure(ObjectMissing); }
      var existing := objects[key];
      if |existing.bytes| != |blob.bytes| || Trim(BeforeSemicolon(existing.contentType)) != blob.contentType
         || existing.bytes != blob.bytes {
        return Failure(ObjectMismatch);
      }
      r := Success(existing);
    }

    method PutCanonicalIfAbsent(key: string, blob: Blob, reply: PutReply, headAnswers: bool)
      returns (r: Result<Blob, MediaError>)
      modifies this
      ensures objects == old(objects) || (Puttable(key, blob) && objects == Bind(old(objects), key, blob))
      ensures objects == if Puttable(key, blob) then Arrived(old(objects), key, blob, reply) else old(objects)
      ensures r.Success? <==> Puttable(key, blob) && PutSucceeds(old(objects), key, blob, reply, headAnswers)
      ensures r.Success? ==> key in objects && objects[key] == r.value && Matches(r.value, blob)
      ensures !Puttable(key, blob) ==> r == Failure(if IsCanonical(key) then InvalidInput else InvalidKey)
      ensures Puttable(key, blob) ==>
                && (r == Failure(ObjectMismatch) <==>
                      (reply.Answered? || reply.Contended?) && headAnswers && key in objects
                      && !Matches(objects[key], blob))
                && (r.Failure? ==> r.error in {ObjectMismatch, ObjectMissing, StorageUnavailable})
    {
      if !IsCanonical(key) { return Failure(InvalidKey); }
      if !Storable(blob) { return Failure(InvalidInput); }
      r := PutIfAbsent(key, blob, reply, headAnswers);
    }
  }

  predicate Storable(blob: Blob) {
    && |blob.bytes| <= MAX_SERVER_PUT_BYTES
    && Trim(blob.contentType) != "" && |blob.contentType| <= 255
    && forall i :: 0 <= i < |blob.contentType| ==> !IsControl(blob.contentType[i])
  }

  predicate Puttable(key: string, blob: Blob) {
    IsCanonical(key) && Storable(blob)
  }

  // ---- what matching means ----

  lemma {:induction false} TypeBefore(contentType: string, parameters: string)
    requires ';' !in contentType && (parameters == "" || parameters[0] == ';')
    ensures BeforeSemicolon(contentType + parameters) == contentType
  {
    if contentType == "" {
      assert contentType + parameters == parameters;
    } else {
      var s := contentType + parameters;
      assert s[0] == contentType[0] && s[0] in contentType && s[1..] == contentType[1..] + parameters;
      assert contentType == [contentType[0]] + contentType[1..];
      TypeBefore(contentType[1..], parameters);
    }
  }

  /** An object matches exactly if its bytes are those wanted and its media type,
      whatever its parameters, is the one wanted. */
  lemma MatchesIff(bytes: string, contentType: string, parameters: string, wanted: Blob)
    requires ';' !in contentType && (parameters == "" || parameters[0] == ';') && Trim(contentType) == contentType
    ensures Matches(Blob(bytes, contentType + parameters), wanted) <==>
              bytes == wanted.bytes && contentType == wanted.contentType
  {
    TypeBefore(contentType, parameters);
    hide Trim, BeforeSemicolon;
  }

  /** What may be stored: up to 25 MiB, of a type that is a printable text. */
  lemma StorableIff(bytes: string, contentType: string)
    ensures Storable(Blob(bytes, contentType)) <==>
              && |bytes| <= 25 * 1024 * 1024 && Trim(contentType) != "" && |contentType| <= 255
              && forall i :: 0 <= i < |contentType| ==> 32 <= contentType[i] as int && contentType[i] as int != 127
  {
    hide Trim;
  }
}
