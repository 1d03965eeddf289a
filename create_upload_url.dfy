/**
 * The CreateUploadUrl handler (`createUploadUrl`, `pushJobUploadToken`):
 * it looks the requested bucket up with a projection and either rejects
 * with `{success: false}` or builds an upload grant, has it signed, and
 * pushes `{success: true, uploadToken}`.
 *
 * The fresh upload id (`uuidv4()`), WHATWG URL parsing and the signer are
 * parameters of the handler.
 */
module CreateUploadUrl {
  import opened Wrappers
  import opened Text
  import opened Schema
  import opened BucketModel
  import opened Envelope
  import opened Signing
  import opened BucketStore

  /** The job field the response is pushed under. */
  const ResponseField: string := "createUploadUrlResponse"

  /** The paths the handler reads: `upload`, `maxSize`, `tags`, `acceptedMimeTypes`, `processor`. */
  const UploadUrlProjection: set<BucketPath> := {UploadPath, MaxSizePath, TagsPath, MimeTypesPath, ProcessorPath}

  /**
   * A parsed URL, split around its path: `head` is everything before the
   * pathname (scheme, credentials, host, port), `tail` the search and hash.
   * `opaquePath` marks a URL such as `mailto:x`, whose path is not a list
   * of segments.
   */
  datatype Url = Url(head: string, pathname: string, tail: string, opaquePath: bool)

  /** `url.toString()`: the head, then the path, then the search and hash. */
  function Href(u: Url): (r: string)
    ensures |r| == |u.head| + |u.pathname| + |u.tail|
    ensures u.head <= r && r[|u.head|..|u.head| + |u.pathname|] == u.pathname && r[|r| - |u.tail|..] == u.tail
  {
    u.head + u.pathname + u.tail
  }

  /**
   * The `pathname` setter: a URL with an opaque path ignores it; any other
   * URL stores the new path, which it serialises with a leading `/`.
   */
  function SetPathname(u: Url, p: string): (r: Url)
    ensures r.head == u.head && r.tail == u.tail && r.opaquePath == u.opaquePath
    ensures u.opaquePath ==> r == u
    ensures !u.opaquePath ==> r.pathname != [] && r.pathname[0] == '/'
    ensures !u.opaquePath ==> (r.pathname == p <==> p != [] && p[0] == '/')
    ensures !u.opaquePath && r.pathname != p ==> r.pathname == "/" + p
  {
    if u.opaquePath then u
    else if p != [] && p[0] == '/' then u.(pathname := p)
    else u.(pathname := "/" + p)
  }

  /**
   * JavaScript truthiness of an optional string: present and not empty,
   * which is the same test Mongoose's `required` applies to a string path.
   */
  predicate StringTruthy(v: Option<string>) {
    RequiredString(v)
  }

  /** JavaScript truthiness of an optional number: present and not 0. */
  predicate NumberTruthy(v: Option<int>) {
    v.Some? && v.value != 0
  }

  /**
   * `path.join(dir, segment)` for a non-empty segment: the segment becomes
   * a new last path segment, with exactly one `/` before it.
   */
  function JoinSegment(dir: string, segment: string): (r: string)
    ensures dir <= r
    ensures |r| >= |segment| && r[|r| - |segment|..] == segment
  {
    if dir == [] then segment
    else if dir[|dir| - 1] == '/' then dir + segment
    else dir + "/" + segment
  }

  /** Splits a path at its last `/`: the part before it and the last segment. */
  function SplitLast(s: string): (r: Option<(string, string)>)
    ensures r.None? <==> '/' !in s
    ensures r.Some? ==> s == r.value.0 + "/" + r.value.1 && '/' !in r.value.1
  {
    if s == [] then None
    else if s[|s| - 1] == '/' then
      assert s == s[..|s| - 1] + "/" + [];
      Some((s[..|s| - 1], []))
    else
      assert s == s[..|s| - 1] + [s[|s| - 1]];
      match SplitLast(s[..|s| - 1])
      case None => None
      case Some((parent, last)) =>
        assert s == parent + "/" + (last + [s[|s| - 1]]);
        Some((parent, last + [s[|s| - 1]]))
  }

  lemma {:induction false} SplitLastAppended(parent: string, segment: string)
    requires '/' !in segment
    ensures SplitLast(parent + "/" + segment) == Some((parent, segment))
  {
    var s := parent + "/" + segment;
    if segment == [] {
      assert s[..|s| - 1] == parent;
    } else {
      var init := segment[..|segment| - 1];
      assert s[..|s| - 1] == parent + "/" + init;
      assert init + [segment[|segment| - 1]] == segment;
      SplitLastAppended(parent, init);
    }
  }

  /**
   * Joining appends exactly one segment: splitting the joined path at its
   * last `/` gives back the segment, after the directory without its
   * trailing slash.
   */
  lemma JoinThenSplit(dir: string, segment: string)
    requires dir != [] && '/' !in segment
    ensures var parent := if dir[|dir| - 1] == '/' then dir[..|dir| - 1] else dir;
      SplitLast(JoinSegment(dir, segment)) == Some((parent, segment))
  {
    if dir[|dir| - 1] == '/' {
      assert dir == dir[..|dir| - 1] + "/";
      assert dir + segment == dir[..|dir| - 1] + "/" + segment;
      SplitLastAppended(dir[..|dir| - 1], segment);
    } else {
      SplitLastAppended(dir, segment);
    }
  }

  /** `tokenExpirationSeconds + 's'`: an absent value prints as `undefined`. */
  function ExpiresIn(seconds: Option<int>): (r: string)
    ensures |r| > 0 && r[|r| - 1] == 's'
  {
    (if seconds.Some? then IntToString(seconds.value) else "undefined") + "s"
  }

  /** The expiry text reads back as the configured number of seconds. */
  lemma ExpiresInReadsBack(seconds: int)
    ensures var e := ExpiresIn(Some(seconds)); ParseInt(e[..|e| - 1]) == seconds
  {
    var e := ExpiresIn(Some(seconds));
    assert e[..|e| - 1] == IntToString(seconds);
    ParseIntToString(seconds);
  }

  /**
   * The grant payload: `bucketId` from the request, `processor`, `tags`,
   * `field` and `maxCount` from the bucket, `maxSize` only when truthy and
   * `mimeTypes` whenever `acceptedMimeTypes` is present (an array, even an
   * empty one, is truthy).
   */
  function GrantPayload(bucketId: string, b: BucketDocument, u: Upload): (r: UploadTokenPayload)
    ensures r.bucketId == bucketId && r.field == u.fieldName && r.maxCount == u.maxCount
    ensures r.processor == b.processor && r.tags == b.tags
    ensures r.maxSize.Some? <==> NumberTruthy(b.maxSize)
    ensures r.maxSize.Some? ==> r.maxSize == b.maxSize
    ensures r.mimeTypes == b.acceptedMimeTypes
  {
    UploadTokenPayload(
      bucketId,
      b.processor,
      b.tags,
      u.fieldName,
      u.maxCount,
      if NumberTruthy(b.maxSize) then b.maxSize else None,
      if b.acceptedMimeTypes.Some? then b.acceptedMimeTypes else None)
  }

  /** `{...uploadUrlTokenOptions, subject, audience, jwtid, expiresIn}`: the four later keys win. */
  function GrantOptions(tokenOptions: map<string, string>, subject: string, audience: string, jwtid: string, expiresIn: string): (r: map<string, string>)
    ensures r.Keys == tokenOptions.Keys + {"subject", "audience", "jwtid", "expiresIn"}
    ensures r["subject"] == subject && r["audience"] == audience && r["jwtid"] == jwtid && r["expiresIn"] == expiresIn
    ensures forall k :: k in tokenOptions && k !in {"subject", "audience", "jwtid", "expiresIn"} ==> r[k] == tokenOptions[k]
  {
    tokenOptions + map["subject" := subject, "audience" := audience, "jwtid" := jwtid, "expiresIn" := expiresIn]
  }

  /** The outcome of the handler's decision over the fetched bucket. */
  datatype Decision =
    | Reject
    | Grant(request: SignRequest, audience: string)
    | Throw(error: HandlerError)

  /**
   * The rejection test and the grant construction: no bucket, a falsy
   * `upload.url` or a falsy `upload.maxCount` rejects; otherwise the URL
   * is parsed, the upload id appended to its path, and the sign request
   * built.
   */
  function Decide(
    bucketId: string, subject: string, found: Option<BucketDocument>,
    parseUrl: string -> Option<Url>, uploadId: string, tokenOptions: map<string, string>): (r: Decision)
    ensures found.None? ==> r == Reject
    ensures r.Throw? ==> r.error == MissingUpload || r.error == InvalidUrl
    ensures r.Grant? ==>
      && r.request.key == UploadUrlKey && r.request.payload.bucketId == bucketId
      && {"subject", "jwtid", "audience"} <= r.request.options.Keys
      && r.request.options["subject"] == subject && r.request.options["jwtid"] == uploadId
      && r.request.options["audience"] == r.audience
  {
    if found.None? then Reject
    else
      var b := found.value;
      if b.upload.None? then Throw(MissingUpload)
      else
        var u := b.upload.value;
        if !StringTruthy(u.url) || !NumberTruthy(u.maxCount) then Reject
        else match parseUrl(u.url.value)
          case None => Throw(InvalidUrl)
          case Some(url) =>
            var audience := Href(SetPathname(url, JoinSegment(url.pathname, uploadId)));
            var options := GrantOptions(tokenOptions, subject, audience, uploadId, ExpiresIn(u.tokenExpirationSeconds));
            Grant(SignRequest(GrantPayload(bucketId, b, u), UploadUrlKey, options), audience)
  }

  /** The whole decision from the job's request field and the stored buckets. */
  function Respond(
    request: Option<Message>, docs: map<string, BucketDocument>,
    parseUrl: string -> Option<Url>, uploadId: string, tokenOptions: map<string, string>): (r: Decision)
    ensures !(request.Some? && request.value.CreateUploadUrlRequest?) ==> r == Throw(MissingRequest)
    ensures request.Some? && request.value.CreateUploadUrlRequest? && request.value.bucketId !in docs ==> r == Reject
  {
    match request
    case Some(CreateUploadUrlRequest(bucketId, subject)) =>
      Decide(bucketId, subject, BucketModel.FindById(docs, bucketId, UploadUrlProjection), parseUrl, uploadId, tokenOptions)
    case _ => Throw(MissingRequest)
  }

  /**
   * The handler rejects exactly when the bucket is absent, or has an upload
   * sub-document whose `url` is empty or absent or whose `maxCount` is 0 or
   * absent.
   */
  lemma RejectIff(bucketId: string, subject: string, found: Option<BucketDocument>,
    parseUrl: string -> Option<Url>, uploadId: string, tokenOptions: map<string, string>)
    ensures Decide(bucketId, subject, found, parseUrl, uploadId, tokenOptions).Reject? <==>
      found.None?
      || (found.value.upload.Some?
          && (!StringTruthy(found.value.upload.value.url) || !NumberTruthy(found.value.upload.value.maxCount)))
  {
  }

  /** A grant is built exactly when the bucket exists with a truthy URL that parses and a truthy `maxCount`. */
  lemma GrantIff(bucketId: string, subject: string, found: Option<BucketDocument>,
    parseUrl: string -> Option<Url>, uploadId: string, tokenOptions: map<string, string>)
    ensures Decide(bucketId, subject, found, parseUrl, uploadId, tokenOptions).Grant? <==>
      && found.Some? && found.value.upload.Some?
      && StringTruthy(found.value.upload.value.url) && NumberTruthy(found.value.upload.value.maxCount)
      && parseUrl(found.value.upload.value.url.value).Some?
  {
  }

  /**
   * The audience is the bucket's upload URL with the upload id joined onto
   * its path as one new last segment, and the token id is that same upload
   * id. A URL with an opaque path keeps its path, so its audience is the
   * URL unchanged; a URL with an empty path gets `/` and the upload id.
   */
  lemma GrantAudience(bucketId: string, subject: string, b: BucketDocument,
    parseUrl: string -> Option<Url>, uploadId: string, tokenOptions: map<string, string>)
    requires Decide(bucketId, subject, Some(b), parseUrl, uploadId, tokenOptions).Grant?
    ensures var d := Decide(bucketId, subject, Some(b), parseUrl, uploadId, tokenOptions);
      var url := parseUrl(b.upload.value.url.value).value;
      var path := JoinSegment(url.pathname, uploadId);
      && (url.opaquePath ==> d.audience == Href(url))
      && (!url.opaquePath && url.pathname != [] && url.pathname[0] == '/' ==> d.audience == url.head + path + url.tail)
      && (!url.opaquePath && url.pathname == [] && '/' !in uploadId ==> d.audience == url.head + "/" + uploadId + url.tail)
      && d.request.options["audience"] == d.audience
      && d.request.options["jwtid"] == uploadId
      && (url.pathname != [] && '/' !in uploadId ==>
            SplitLast(path) == Some((if url.pathname[|url.pathname| - 1] == '/' then url.pathname[..|url.pathname| - 1] else url.pathname, uploadId)))
  {
    var url := parseUrl(b.upload.value.url.value).value;
    AudienceCases(url, uploadId);
    if url.pathname != [] && '/' !in uploadId {
      JoinThenSplit(url.pathname, uploadId);
    }
  }

  /** The three path cases of setting the joined path on a parsed URL and serialising it. */
  lemma AudienceCases(url: Url, uploadId: string)
    ensures var path := JoinSegment(url.pathname, uploadId);
      var audience := Href(SetPathname(url, path));
      && (url.opaquePath ==> audience == Href(url))
      && (!url.opaquePath && url.pathname != [] && url.pathname[0] == '/' ==> audience == url.head + path + url.tail)
      && (!url.opaquePath && url.pathname == [] && '/' !in uploadId ==> audience == url.head + "/" + uploadId + url.tail)
  {
    if !url.opaquePath && url.pathname == [] && '/' !in uploadId && uploadId != [] {
      assert uploadId[0] in uploadId;
    }
  }

  /**
   * The grant payload carries the request's `bucketId` and the bucket's
   * `processor`, `tags`, `fieldName` and `maxCount`; `maxSize` exactly when
   * the bucket's is non-zero; `mimeTypes` exactly when `acceptedMimeTypes`
   * is present, empty or not.
   */
  lemma GrantPayloadFields(bucketId: string, subject: string, b: BucketDocument,
    parseUrl: string -> Option<Url>, uploadId: string, tokenOptions: map<string, string>)
    requires Decide(bucketId, subject, Some(b), parseUrl, uploadId, tokenOptions).Grant?
    ensures var p := Decide(bucketId, subject, Some(b), parseUrl, uploadId, tokenOptions).request.payload;
      && p.bucketId == bucketId
      && p.processor == b.processor && p.tags == b.tags
      && p.field == b.upload.value.fieldName && p.maxCount == b.upload.value.maxCount
      && p.maxCount.Some? && p.maxCount.value != 0
      && (p.maxSize.Some? <==> b.maxSize.Some? && b.maxSize.value != 0)
      && (p.maxSize.Some? ==> p.maxSize == b.maxSize)
      && p.mimeTypes == b.acceptedMimeTypes
  {
  }

  /**
   * The sign call uses the `UPLOAD_URL` key; its options are the fixed
   * token options overridden by `subject` from the request, the audience,
   * the token id and `expiresIn` = the bucket's expiry seconds + "s".
   */
  lemma GrantOptionsFields(bucketId: string, subject: string, b: BucketDocument,
    parseUrl: string -> Option<Url>, uploadId: string, tokenOptions: map<string, string>)
    requires Decide(bucketId, subject, Some(b), parseUrl, uploadId, tokenOptions).Grant?
    ensures var r := Decide(bucketId, subject, Some(b), parseUrl, uploadId, tokenOptions).request;
      && r.key == UploadUrlKey
      && r.options.Keys == tokenOptions.Keys + {"subject", "audience", "jwtid", "expiresIn"}
      && r.options["subject"] == subject
      && r.options["expiresIn"] == ExpiresIn(b.upload.value.tokenExpirationSeconds)
      && (forall k :: k in tokenOptions && k !in {"subject", "audience", "jwtid", "expiresIn"} ==> r.options[k] == tokenOptions[k])
  {
  }

  /**
   * A stored bucket whose upload URL is set and parses and whose
   * `maxCount` is non-zero is granted: the payload names the requested id,
   * and the options carry the subject, the upload id and the audience.
   */
  lemma GrantForStored(docs: map<string, BucketDocument>, bucketId: string, subject: string,
    parseUrl: string -> Option<Url>, uploadId: string, tokenOptions: map<string, string>)
    requires bucketId in docs
    requires var u := docs[bucketId].upload;
      && u.Some? && StringTruthy(u.value.url) && NumberTruthy(u.value.maxCount) && parseUrl(u.value.url.value).Some?
    ensures var d := Respond(Some(CreateUploadUrlRequest(bucketId, subject)), docs, parseUrl, uploadId, tokenOptions);
      var url := parseUrl(docs[bucketId].upload.value.url.value).value;
      && d.Grant?
      && d.request.payload.bucketId == bucketId
      && d.request.options["subject"] == subject
      && d.request.options["jwtid"] == uploadId
      && d.audience == Href(SetPathname(url, JoinSegment(url.pathname, uploadId)))
      && (!url.opaquePath && url.pathname != [] && url.pathname[0] == '/' ==>
            d.audience == url.head + JoinSegment(url.pathname, uploadId) + url.tail)
  {
  }

  /** An id no stored bucket has is rejected: `{success: false}`, no signing. */
  lemma UnknownBucketRejected(bucketId: string, subject: string, docs: map<string, BucketDocument>,
    parseUrl: string -> Option<Url>, uploadId: string, tokenOptions: map<string, string>)
    requires bucketId !in docs
    ensures Respond(Some(CreateUploadUrlRequest(bucketId, subject)), docs, parseUrl, uploadId, tokenOptions) == Reject
  {
  }

  /**
   * The projection loses nothing the decision reads: deciding on the
   * projected document is deciding on the whole one.
   */
  lemma ProjectionSuffices(bucketId: string, subject: string, d: BucketDocument,
    parseUrl: string -> Option<Url>, uploadId: string, tokenOptions: map<string, string>)
    ensures Decide(bucketId, subject, Some(Project(d, UploadUrlProjection)), parseUrl, uploadId, tokenOptions)
         == Decide(bucketId, subject, Some(d), parseUrl, uploadId, tokenOptions)
  {
  }

  /**
   * For a bucket in a valid collection the handler never fails on a
   * missing upload sub-document (it is required), and every grant sends
   * `mimeTypes`: the schema cast every stored bucket, so the array path is
   * present (an absent one defaulted to `[]`), with every entry lower case
   * and trimmed.
   */
  lemma StoredBucketDecision(bucketId: string, subject: string, docs: map<string, BucketDocument>,
    parseUrl: string -> Option<Url>, uploadId: string, tokenOptions: map<string, string>)
    requires CollectionInvariant(docs)
    ensures Respond(Some(CreateUploadUrlRequest(bucketId, subject)), docs, parseUrl, uploadId, tokenOptions) != Throw(MissingUpload)
    ensures var d := Respond(Some(CreateUploadUrlRequest(bucketId, subject)), docs, parseUrl, uploadId, tokenOptions);
      d.Grant? ==>
        && d.request.payload.mimeTypes.Some?
        && d.request.payload.mimeTypes == docs[bucketId].acceptedMimeTypes
        && AllTrimmedLower(d.request.payload.mimeTypes.value)
  {
    if bucketId in docs {
      assert MissingRequired(docs[bucketId]) == {};
      assert UploadPath !in MissingRequired(docs[bucketId]);
    }
  }

  /** `pushJobUploadToken(job, response)`: sets `createUploadUrlResponse` and pushes once. */
  method PushJobUploadToken(job: Job, success: bool, uploadToken: Option<string>)
    modifies job
    ensures job.fields == old(job.fields)[ResponseField := CreateUploadUrlResponse(success, uploadToken)]
    ensures job.pushed == old(job.pushed) + [job.fields]
    ensures job.log == old(job.log) + [Set(ResponseField), Push]
    ensures job.consumed == old(job.consumed)
  {
    job.SetAndPush(ResponseField, CreateUploadUrlResponse(success, uploadToken));
  }

  /**
   * `createUploadUrl(job)`: consumes and deletes `request`, reads the
   * bucket, then either pushes `{success: false}` without signing, or
   * signs the grant once and pushes `{success: true, uploadToken}`, or
   * throws having pushed nothing.
   */
  method Handle(
    job: Job, store: Store, signer: Signer,
    parseUrl: string -> Option<Url>, uploadId: string, tokenOptions: map<string, string>)
    returns (r: Outcome<HandlerError>)
    modifies job, signer
    ensures job.consumed == old(job.consumed) + {"request"}
    ensures var d := Respond(RequestField(old(job.fields)), store.docs, parseUrl, uploadId, tokenOptions);
      var rest := old(job.fields) - {"request"};
      var taken := old(job.log) + [Get("request", true), Del("request")];
      var answer := if d.Grant? then signer.Answer(d.request) else None;
      && (d.Grant? ==> signer.calls == old(signer.calls) + [d.request])
      && (!d.Grant? ==> signer.calls == old(signer.calls))
      && (d.Reject? || answer.Some? ==>
            && r == Pass
            && job.fields == rest[ResponseField := CreateUploadUrlResponse(answer.Some?, answer)]
            && job.pushed == old(job.pushed) + [job.fields]
            && job.log == taken + [Set(ResponseField), Push])
      && (d.Throw? ==> r == Fail(d.error))
      && (d.Grant? && answer.None? ==> r == Fail(SigningFailed))
      && (d.Throw? || (d.Grant? && answer.None?) ==>
            job.fields == rest && job.pushed == old(job.pushed) && job.log == taken)
  {
    var request := job.GetDelPull("request");
    if !(request.Some? && request.value.CreateUploadUrlRequest?) {
      return Fail(MissingRequest);
    }
    var bucketId, subject := request.value.bucketId, request.value.subject;
    var found := store.FindById(bucketId, UploadUrlProjection);
    var d := Decide(bucketId, subject, found, parseUrl, uploadId, tokenOptions);
    match d
    case Reject =>
      PushJobUploadToken(job, false, None);
      r := Pass;
    case Throw(e) =>
      r := Fail(e);
    case Grant(signRequest, _) =>
      var token := signer.SignJwt(signRequest.payload, signRequest.key, signRequest.options);
      if token.None? {
        return Fail(SigningFailed);
      }
      PushJobUploadToken(job, true, token);
      r := Pass;
  }
}
