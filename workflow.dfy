/**
 * The two handlers together: a bucket created by CreateBucket can be
 * granted an upload token by CreateUploadUrl, under the id the creation
 * pushed back.
 */
module Workflow {
  import opened Wrappers
  import opened BucketModel
  import opened Envelope
  import opened Signing
  import CreateBucket
  import CreateUploadUrl

  /** The joined path starts with the old path and ends with `/` and the segment. */
  lemma JoinShape(pathname: string, uploadId: string)
    requires pathname != []
    ensures var p := CreateUploadUrl.JoinSegment(pathname, uploadId);
      && |p| >= |pathname| && |p| >= |uploadId| + 1
      && p[..|pathname|] == pathname
      && p[|p| - |uploadId| - 1..] == "/" + uploadId
  {
    var p := CreateUploadUrl.JoinSegment(pathname, uploadId);
    if pathname[|pathname| - 1] == '/' {
      assert p == pathname + uploadId;
      assert p[|p| - |uploadId| - 1..] == [pathname[|pathname| - 1]] + uploadId;
    } else {
      assert p == pathname + "/" + uploadId;
    }
  }

  /**
   * An audience built from a non-empty path starts with the URL up to and
   * including that path and ends its path with `/` and the upload id.
   */
  lemma AudienceShape(head: string, pathname: string, tail: string, uploadId: string)
    requires pathname != []
    ensures var a := head + CreateUploadUrl.JoinSegment(pathname, uploadId) + tail;
      && |a| >= |head| + |pathname| && |a| >= |tail| + |uploadId| + 1
      && a[..|head| + |pathname|] == head + pathname
      && a[|a| - |tail| - |uploadId| - 1..|a| - |tail|] == "/" + uploadId
  {
    var p := CreateUploadUrl.JoinSegment(pathname, uploadId);
    JoinShape(pathname, uploadId);
    var a := head + p + tail;
    assert a[..|head| + |pathname|] == head + p[..|pathname|];
    assert a[|a| - |tail| - |uploadId| - 1..|a| - |tail|] == p[|p| - |uploadId| - 1..];
  }

  /**
   * Create a bucket whose upload URL is set and parses and whose
   * `maxCount` is non-zero; a request for an upload URL naming the pushed
   * `bucketId` is then granted, signed for the requesting subject under
   * the fresh upload id, with the bucket's URL, upload id joined onto its
   * path, as audience (for a hierarchical path, AudienceShape says what
   * that audience looks like).
   */
  lemma CreatedBucketIsGrantable(
    candidate: Bucket, docs: map<string, BucketDocument>, newId: string,
    op: CreateBucket.OperationDate, removeEmptyKeys: Bucket -> Bucket, toIso: int -> string,
    subject: string, parseUrl: string -> Option<CreateUploadUrl.Url>, uploadId: string,
    tokenOptions: map<string, string>)
    requires CreateBucket.Create(Some(CreateBucketRequest(Some(candidate))), docs, newId, op, removeEmptyKeys, toIso).response.Some?
    requires var u := removeEmptyKeys(candidate).upload;
      && u.Some? && CreateUploadUrl.StringTruthy(u.value.url) && CreateUploadUrl.NumberTruthy(u.value.maxCount)
      && parseUrl(u.value.url.value).Some?
    ensures var e := CreateBucket.Create(Some(CreateBucketRequest(Some(candidate))), docs, newId, op, removeEmptyKeys, toIso);
      var d := CreateUploadUrl.Respond(Some(CreateUploadUrlRequest(e.response.value.bucketId.value, subject)), e.docs, parseUrl, uploadId, tokenOptions);
      var url := parseUrl(removeEmptyKeys(candidate).upload.value.url.value).value;
      && d.Grant?
      && d.request.payload.bucketId == newId
      && d.request.options["subject"] == subject
      && d.request.options["jwtid"] == uploadId
      && d.audience == CreateUploadUrl.Href(CreateUploadUrl.SetPathname(url, CreateUploadUrl.JoinSegment(url.pathname, uploadId)))
      && (!url.opaquePath && url.pathname != [] && url.pathname[0] == '/' ==>
            d.audience == url.head + CreateUploadUrl.JoinSegment(url.pathname, uploadId) + url.tail)
  {
    var e := CreateBucket.Create(Some(CreateBucketRequest(Some(candidate))), docs, newId, op, removeEmptyKeys, toIso);
    CreateBucket.PushedIdIsStoreKey(candidate, docs, newId, op, removeEmptyKeys, toIso);
    CreateBucket.StoredUpload(candidate, docs, newId, op, removeEmptyKeys, toIso);
    assert e.response.value.bucketId.value == newId;
    assert e.docs[newId].upload == removeEmptyKeys(candidate).upload;
    CreateUploadUrl.GrantForStored(e.docs, newId, subject, parseUrl, uploadId, tokenOptions);
  }
}
