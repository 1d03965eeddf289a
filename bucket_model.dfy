/**
 * The Bucket schema (`UploadSchema` and `BucketSchema`): the wire object a
 * client submits, the document Mongoose builds from it (casting), the
 * `required` validation, partial reads (projection) and the collection
 * insert that the sparse unique index on `upload.url` guards.
 */
module BucketModel {
  import opened Wrappers
  import opened Text
  import opened Schema

  /**
   * The upload sub-document. Every path is optional and the sub-document
   * has no `_id` of its own, so it carries exactly these four values.
   */
  datatype Upload = Upload(
    url: Option<string>,
    fieldName: Option<string>,
    tokenExpirationSeconds: Option<int>,
    maxCount: Option<int>)

  /** A bucket as a plain object: decoded from a request, stamped, and echoed back in a response. */
  datatype Bucket = Bucket(
    bucketId: Option<string>,
    name: Option<string>,
    upload: Option<Upload>,
    acceptedMimeTypes: Option<seq<string>>,
    tags: Option<seq<string>>,
    maxSize: Option<int>,
    processor: Option<int>,
    createdAt: Option<DateField>,
    createdJobId: Option<string>,
    updatedAt: Option<DateField>,
    updatedJobId: Option<string>)

  /**
   * A bucket document: keyed by the string `_id`; `bucketId` is not a path
   * of the schema, so the document has no such field.
   */
  datatype BucketDocument = BucketDocument(
    id: string,
    name: Option<string>,
    upload: Option<Upload>,
    acceptedMimeTypes: Option<seq<string>>,
    tags: Option<seq<string>>,
    maxSize: Option<int>,
    processor: Option<int>,
    createdAt: Option<DateField>,
    createdJobId: Option<string>,
    updatedAt: Option<DateField>,
    updatedJobId: Option<string>)

  /** The top-level paths of `BucketSchema` other than `_id`. */
  datatype BucketPath =
    | NamePath | UploadPath | MimeTypesPath | TagsPath | MaxSizePath | ProcessorPath
    | CreatedAtPath | CreatedJobIdPath | UpdatedAtPath | UpdatedJobIdPath

  /** Why a save fails: a `required` path is missing, or a unique index (`_id` or `upload.url`) already holds the key. */
  datatype SaveError = Validation(paths: set<BucketPath>) | DuplicateKey

  /**
   * `new BucketModel(bucket)` followed by `_id = id`: the setters trim
   * `name`, lowercase and trim every accepted MIME type, trim every tag,
   * the array paths default to `[]`, and `bucketId` (not in the schema)
   * is dropped.
   */
  function CastBucket(b: Bucket, id: string): (d: BucketDocument)
    ensures d.id == id && Normalized(d)
    ensures d.upload == b.upload && d.maxSize == b.maxSize && d.processor == b.processor
  {
    BucketDocument(
      id,
      TrimmedString(b.name),
      b.upload,
      Some(LoweredArray(b.acceptedMimeTypes)),
      Some(TrimmedArray(b.tags)),
      b.maxSize,
      b.processor,
      b.createdAt,
      b.createdJobId,
      b.updatedAt,
      b.updatedJobId)
  }

  /** The values a cast document holds: what the schema's setters guarantee. */
  predicate Normalized(d: BucketDocument) {
    && (d.name.Some? ==> IsTrimmed(d.name.value))
    && d.acceptedMimeTypes.Some? && AllTrimmedLower(d.acceptedMimeTypes.value)
    && d.tags.Some? && AllTrimmed(d.tags.value)
  }

  /**
   * Casting normalises every string the schema declares `trim` or
   * `lowercase`, keeps every entry of the arrays in place, and keeps the
   * values the schema does not transform.
   */
  lemma CastNormalizes(b: Bucket, id: string)
    ensures var d := CastBucket(b, id);
      && Normalized(d)
      && d.id == id
      && (d.name.Some? <==> b.name.Some?)
      && (b.name.Some? ==> d.name.value == Trim(b.name.value))
      && |d.acceptedMimeTypes.value| == (if b.acceptedMimeTypes.Some? then |b.acceptedMimeTypes.value| else 0)
      && (forall i :: 0 <= i < |d.acceptedMimeTypes.value| ==>
            d.acceptedMimeTypes.value[i] == ToLower(Trim(b.acceptedMimeTypes.value[i])))
      && |d.tags.value| == (if b.tags.Some? then |b.tags.value| else 0)
      && (forall i :: 0 <= i < |d.tags.value| ==> d.tags.value[i] == Trim(b.tags.value[i]))
      && d.upload == b.upload && d.maxSize == b.maxSize && d.processor == b.processor
  {
    var d := CastBucket(b, id);
    forall i | 0 <= i < |d.acceptedMimeTypes.value|
      ensures d.acceptedMimeTypes.value[i] == ToLower(Trim(b.acceptedMimeTypes.value[i]))
    {
      LowerTrimCommute(b.acceptedMimeTypes.value[i]);
    }
  }

  /** The paths `BucketSchema` declares `required`. */
  const RequiredPaths: set<BucketPath> := {NamePath, UploadPath, MaxSizePath, ProcessorPath}

  /** Whether `d` satisfies `required: true` at path `p`. */
  predicate Satisfies(d: BucketDocument, p: BucketPath) {
    match p
    case NamePath => RequiredString(d.name)
    case UploadPath => d.upload.Some?
    case MaxSizePath => d.maxSize.Some?
    case ProcessorPath => d.processor.Some?
    case _ => true
  }

  /** The `required` paths that `d` fails. */
  function MissingRequired(d: BucketDocument): (r: set<BucketPath>)
    ensures r <= RequiredPaths
  {
    set p | p in RequiredPaths && !Satisfies(d, p)
  }

  /** Which required paths a document fails, path by path. */
  lemma MissingRequiredPaths(d: BucketDocument)
    ensures NamePath in MissingRequired(d) <==> !RequiredString(d.name)
    ensures UploadPath in MissingRequired(d) <==> d.upload.None?
    ensures MaxSizePath in MissingRequired(d) <==> d.maxSize.None?
    ensures ProcessorPath in MissingRequired(d) <==> d.processor.None?
    ensures MissingRequired(d) == {} <==>
      RequiredString(d.name) && d.upload.Some? && d.maxSize.Some? && d.processor.Some?
  {
    if MissingRequired(d) == {} {
      assert NamePath !in MissingRequired(d);
      assert UploadPath !in MissingRequired(d);
      assert MaxSizePath !in MissingRequired(d);
      assert ProcessorPath !in MissingRequired(d);
    }
  }

  /**
   * Validation of a cast bucket fails exactly at the required paths that
   * are absent (or, for `name`, empty once trimmed); `maxSize` and
   * `processor` may be 0.
   */
  lemma MissingRequiredExactly(b: Bucket, id: string)
    ensures NamePath in MissingRequired(CastBucket(b, id)) <==> b.name.None? || Trim(b.name.value) == ""
    ensures UploadPath in MissingRequired(CastBucket(b, id)) <==> b.upload.None?
    ensures MaxSizePath in MissingRequired(CastBucket(b, id)) <==> b.maxSize.None?
    ensures ProcessorPath in MissingRequired(CastBucket(b, id)) <==> b.processor.None?
    ensures MissingRequired(CastBucket(b, id)) == {} <==>
      b.name.Some? && Trim(b.name.value) != "" && b.upload.Some? && b.maxSize.Some? && b.processor.Some?
  {
    var d := CastBucket(b, id);
    assert d.name == TrimmedString(b.name);
    MissingRequiredPaths(d);
  }

  /** A name of whitespace only is trimmed to the empty string, which `required` rejects. */
  lemma BlankNameRejected(b: Bucket, id: string)
    requires b.name.Some? && AllWhitespace(b.name.value)
    ensures NamePath in MissingRequired(CastBucket(b, id))
  {
    TrimAllWhitespace(b.name.value);
  }

  /** The key a document has in the sparse `upload.url` index: absent when the document has no URL. */
  function UrlKey(d: BucketDocument): Option<string> {
    if d.upload.Some? then d.upload.value.url else None
  }

  predicate UrlTaken(docs: map<string, BucketDocument>, url: string) {
    exists k :: k in docs && UrlKey(docs[k]) == Some(url)
  }

  /** No two documents share a present `upload.url`. */
  ghost predicate UniqueUrls(docs: map<string, BucketDocument>) {
    forall j, k :: j in docs && k in docs && j != k && UrlKey(docs[j]).Some? ==> UrlKey(docs[j]) != UrlKey(docs[k])
  }

  /**
   * What the bucket collection guarantees of its contents: every document
   * is keyed by its `_id`, was cast by the schema and passed validation,
   * and no two share a present URL.
   */
  ghost predicate CollectionInvariant(docs: map<string, BucketDocument>) {
    && (forall k :: k in docs ==> docs[k].id == k && Normalized(docs[k]) && MissingRequired(docs[k]) == {})
    && UniqueUrls(docs)
  }

  /**
   * `save()` of a new document: validation first, then an insert that
   * fails with a duplicate-key error when the `_id` or the present
   * `upload.url` is already held by another document.
   */
  function Insert(docs: map<string, BucketDocument>, d: BucketDocument): (r: Result<map<string, BucketDocument>, SaveError>)
    ensures r.Success? <==> MissingRequired(d) == {} && d.id !in docs && !(UrlKey(d).Some? && UrlTaken(docs, UrlKey(d).value))
    ensures r.Success? ==> r.value == docs[d.id := d]
    ensures r.Failure? ==> r.error == (if MissingRequired(d) != {} then Validation(MissingRequired(d)) else DuplicateKey)
  {
    var missing := MissingRequired(d);
    if missing != {} then Failure(Validation(missing))
    else if d.id in docs || (UrlKey(d).Some? && UrlTaken(docs, UrlKey(d).value)) then Failure(DuplicateKey)
    else Success(docs[d.id := d])
  }

  /**
   * A successful insert of a cast document adds exactly that document,
   * leaves every other one as it was, and keeps the collection's
   * guarantees.
   */
  lemma InsertPreservesInvariant(docs: map<string, BucketDocument>, d: BucketDocument)
    requires CollectionInvariant(docs) && Normalized(d)
    ensures Insert(docs, d).Success? ==>
      && CollectionInvariant(Insert(docs, d).value)
      && Insert(docs, d).value == docs[d.id := d]
      && Insert(docs, d).value.Keys == docs.Keys + {d.id}
      && d.id !in docs
  {
    if Insert(docs, d).Success? {
      var n := Insert(docs, d).value;
      forall j, k | j in n && k in n && j != k && UrlKey(n[j]).Some?
        ensures UrlKey(n[j]) != UrlKey(n[k])
      {
        if j == d.id {
          assert !UrlTaken(docs, UrlKey(d).value);
          assert k in docs;
        } else if k == d.id {
          if UrlKey(n[j]) == UrlKey(d) {
            assert UrlTaken(docs, UrlKey(d).value);
          }
        }
      }
    }
  }

  /** A document missing a required path is never stored. */
  lemma InsertRejectsInvalid(docs: map<string, BucketDocument>, d: BucketDocument)
    requires MissingRequired(d) != {}
    ensures Insert(docs, d) == Failure(Validation(MissingRequired(d)))
  {
  }

  /** A document whose present `upload.url` another document already holds is rejected. */
  lemma InsertRejectsDuplicateUrl(docs: map<string, BucketDocument>, d: BucketDocument, other: string)
    requires other in docs && UrlKey(d).Some? && UrlKey(docs[other]) == UrlKey(d)
    ensures Insert(docs, d).Failure?
  {
    assert UrlTaken(docs, UrlKey(d).value);
  }

  /**
   * The index is sparse: a valid document without a URL and with a fresh
   * `_id` is stored whatever the other documents hold, including other
   * documents without a URL.
   */
  lemma InsertSparseUrl(docs: map<string, BucketDocument>, d: BucketDocument)
    requires MissingRequired(d) == {} && d.id !in docs && UrlKey(d).None?
    ensures Insert(docs, d) == Success(docs[d.id := d])
  {
  }

  /**
   * Saving two valid buckets with the same present URL: the first is
   * stored, the second fails, and only the first exists afterwards.
   */
  lemma SecondSameUrlFails(docs: map<string, BucketDocument>, d1: BucketDocument, d2: BucketDocument)
    requires Insert(docs, d1).Success?
    requires UrlKey(d1).Some? && UrlKey(d2) == UrlKey(d1)
    ensures Insert(Insert(docs, d1).value, d2).Failure?
    ensures MissingRequired(d2) == {} ==> Insert(Insert(docs, d1).value, d2).error == DuplicateKey
    ensures d2.id != d1.id && d2.id !in docs ==> d2.id !in Insert(docs, d1).value
  {
    var n := Insert(docs, d1).value;
    assert n[d1.id] == d1;
    InsertRejectsDuplicateUrl(n, d2, d1.id);
  }

  /** Every top-level path of `BucketSchema` other than `_id`. */
  const AllPaths: set<BucketPath> :=
    {NamePath, UploadPath, MimeTypesPath, TagsPath, MaxSizePath, ProcessorPath,
     CreatedAtPath, CreatedJobIdPath, UpdatedAtPath, UpdatedJobIdPath}

  /**
   * Keeps the paths named in `fields`; `_id` is always returned. Naming
   * every path returns the whole document; naming none returns `_id` alone.
   */
  function Project(d: BucketDocument, fields: set<BucketPath>): (p: BucketDocument)
    ensures p.id == d.id
    ensures AllPaths <= fields ==> p == d
    ensures fields == {} ==> p == BucketDocument(d.id, None, None, None, None, None, None, None, None, None, None)
  {
    BucketDocument(
      d.id,
      if NamePath in fields then d.name else None,
      if UploadPath in fields then d.upload else None,
      if MimeTypesPath in fields then d.acceptedMimeTypes else None,
      if TagsPath in fields then d.tags else None,
      if MaxSizePath in fields then d.maxSize else None,
      if ProcessorPath in fields then d.processor else None,
      if CreatedAtPath in fields then d.createdAt else None,
      if CreatedJobIdPath in fields then d.createdJobId else None,
      if UpdatedAtPath in fields then d.updatedAt else None,
      if UpdatedJobIdPath in fields then d.updatedJobId else None)
  }

  /** `findById(id, projection)`: the projected document, or nothing when no document has that `_id`. */
  function FindById(docs: map<string, BucketDocument>, id: string, fields: set<BucketPath>): (r: Option<BucketDocument>)
    ensures r.Some? <==> id in docs
  {
    if id in docs then Some(Project(docs[id], fields)) else None
  }
}
