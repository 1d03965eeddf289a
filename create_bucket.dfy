/**
 * The CreateBucket handler (`createBucket`, `pushJobCreateBucket`): it
 * consumes the request, strips empty keys from the candidate bucket,
 * stamps the operation date, assigns one fresh id, saves, and only then
 * turns `createdAt` into text and pushes the bucket.
 *
 * `removeEmptyKeys`, `getJobOperationDate(job, CREATE)`, `uuidv4()` and
 * `Date.prototype.toISOString` are parameters of the handler.
 */
module CreateBucket {
  import opened Wrappers
  import opened Schema
  import opened BucketModel
  import opened Envelope
  import opened BucketStore

  /** The job field the created bucket is pushed under. */
  const ResponseField: string := "bucket"

  /** The object `getJobOperationDate` returns: each key it sets, as a native date or a job id. */
  datatype OperationDate = OperationDate(
    createdAt: Option<int>,
    createdJobId: Option<string>,
    updatedAt: Option<int>,
    updatedJobId: Option<string>)

  /** `{...bucket, ...operationDate}`: every key the operation date sets overrides the client's. */
  function Stamp(b: Bucket, op: OperationDate): (r: Bucket)
    ensures op.createdAt.Some? ==> r.createdAt == Some(Date(op.createdAt.value))
    ensures op.createdAt.None? ==> r.createdAt == b.createdAt
    ensures r.createdJobId == (if op.createdJobId.Some? then op.createdJobId else b.createdJobId)
    ensures op.updatedAt.Some? ==> r.updatedAt == Some(Date(op.updatedAt.value))
    ensures op.updatedAt.None? ==> r.updatedAt == b.updatedAt
    ensures r.updatedJobId == (if op.updatedJobId.Some? then op.updatedJobId else b.updatedJobId)
    ensures r.(createdAt := b.createdAt, createdJobId := b.createdJobId,
               updatedAt := b.updatedAt, updatedJobId := b.updatedJobId) == b
  {
    b.(createdAt := if op.createdAt.Some? then Some(Date(op.createdAt.value)) else b.createdAt,
       createdJobId := if op.createdJobId.Some? then op.createdJobId else b.createdJobId,
       updatedAt := if op.updatedAt.Some? then Some(Date(op.updatedAt.value)) else b.updatedAt,
       updatedJobId := if op.updatedJobId.Some? then op.updatedJobId else b.updatedJobId)
  }

  /** What one run of the handler leaves behind: the collection, the pushed bucket (if any), the error (if any). */
  datatype Effect = Effect(docs: map<string, BucketDocument>, response: Option<Bucket>, error: Option<HandlerError>)

  /**
   * The stamped candidate, before the id is assigned: empty keys are
   * stripped first, so only the four audit fields can differ from the
   * stripped candidate.
   */
  function Stamped(candidate: Bucket, op: OperationDate, removeEmptyKeys: Bucket -> Bucket): (r: Bucket)
    ensures var s := removeEmptyKeys(candidate);
      r.(createdAt := s.createdAt, createdJobId := s.createdJobId,
         updatedAt := s.updatedAt, updatedJobId := s.updatedJobId) == s
  {
    Stamp(removeEmptyKeys(candidate), op)
  }

  /** The whole CreateBucket workflow as a function of the request field and the collection. */
  function Create(
    request: Option<Message>, docs: map<string, BucketDocument>, newId: string,
    op: OperationDate, removeEmptyKeys: Bucket -> Bucket, toIso: int -> string): (r: Effect)
    ensures r.response.Some? <==> r.error.None?
    ensures r.docs == docs || (newId !in docs && r.docs.Keys == docs.Keys + {newId})
    ensures r.response.Some? ==> r.response.value.bucketId == Some(newId) && newId in r.docs && r.docs != docs
    ensures r.error.Some? && r.error.value.SaveFailed? ==> r.docs == docs
  {
    match request
    case Some(CreateBucketRequest(Some(candidate))) =>
      var stamped := Stamped(candidate, op, removeEmptyKeys);
      (match Insert(docs, CastBucket(stamped, newId))
       case Failure(e) => Effect(docs, None, Some(SaveFailed(e)))
       case Success(next) =>
         if stamped.createdAt.Some? && stamped.createdAt.value.Date? then
           var iso := DateString(toIso(stamped.createdAt.value.millis));
           Effect(next, Some(stamped.(bucketId := Some(newId), createdAt := Some(iso))), None)
         else
           Effect(next, None, Some(CreatedAtNotADate)))
    case Some(CreateBucketRequest(None)) => Effect(docs, None, Some(MissingBucket))
    case _ => Effect(docs, None, Some(MissingRequest))
  }

  /**
   * A run either pushes a bucket or reports an error, never both; and it
   * either leaves the collection as it was or adds exactly the one
   * document keyed by the fresh id.
   */
  lemma CreateShape(request: Option<Message>, docs: map<string, BucketDocument>, newId: string,
    op: OperationDate, removeEmptyKeys: Bucket -> Bucket, toIso: int -> string)
    ensures var e := Create(request, docs, newId, op, removeEmptyKeys, toIso);
      && (e.response.Some? <==> e.error.None?)
      && (e.docs == docs || (newId !in docs && e.docs.Keys == docs.Keys + {newId} && e.docs == docs[newId := e.docs[newId]]))
  {
  }

  /**
   * The pushed bucket's `bucketId` is the key of the new document, and
   * that document's `_id`: one fresh id serves both.
   */
  lemma PushedIdIsStoreKey(candidate: Bucket, docs: map<string, BucketDocument>, newId: string,
    op: OperationDate, removeEmptyKeys: Bucket -> Bucket, toIso: int -> string)
    ensures var e := Create(Some(CreateBucketRequest(Some(candidate))), docs, newId, op, removeEmptyKeys, toIso);
      e.response.Some? ==>
        && e.response.value.bucketId == Some(newId)
        && newId !in docs && newId in e.docs && e.docs[newId].id == newId
        && e.docs == docs[newId := CastBucket(Stamped(candidate, op, removeEmptyKeys), newId)]
  {
  }

  /** The created document keeps the upload sub-document the stripped candidate had. */
  lemma StoredUpload(candidate: Bucket, docs: map<string, BucketDocument>, newId: string,
    op: OperationDate, removeEmptyKeys: Bucket -> Bucket, toIso: int -> string)
    ensures var e := Create(Some(CreateBucketRequest(Some(candidate))), docs, newId, op, removeEmptyKeys, toIso);
      e.docs != docs ==> newId in e.docs && e.docs[newId].upload == removeEmptyKeys(candidate).upload
  {
  }

  /**
   * A failed save pushes nothing and leaves the collection unchanged; in
   * particular a second bucket whose URL another stored bucket already
   * has is not stored.
   */
  lemma SaveFailureChangesNothing(candidate: Bucket, docs: map<string, BucketDocument>, newId: string,
    op: OperationDate, removeEmptyKeys: Bucket -> Bucket, toIso: int -> string)
    ensures var e := Create(Some(CreateBucketRequest(Some(candidate))), docs, newId, op, removeEmptyKeys, toIso);
      && (e.error.Some? && e.error.value.SaveFailed? ==> e.docs == docs && e.response.None?)
      && (Insert(docs, CastBucket(Stamped(candidate, op, removeEmptyKeys), newId)).Failure? <==>
            e.error.Some? && e.error.value.SaveFailed?)
  {
  }

  lemma DuplicateUrlNotCreated(candidate: Bucket, docs: map<string, BucketDocument>, newId: string,
    op: OperationDate, removeEmptyKeys: Bucket -> Bucket, toIso: int -> string, other: string)
    requires other in docs
    requires UrlKey(CastBucket(Stamped(candidate, op, removeEmptyKeys), newId)).Some?
    requires UrlKey(docs[other]) == UrlKey(CastBucket(Stamped(candidate, op, removeEmptyKeys), newId))
    ensures var e := Create(Some(CreateBucketRequest(Some(candidate))), docs, newId, op, removeEmptyKeys, toIso);
      e.docs == docs && e.response.None? && e.error.Some? && e.error.value.SaveFailed?
  {
    InsertRejectsDuplicateUrl(docs, CastBucket(Stamped(candidate, op, removeEmptyKeys), newId), other);
  }

  /**
   * The stored document: stripped first, then stamped (the operation date
   * overrides any client-supplied audit field), then cast; it is
   * normalised, valid, and has no `bucketId`, whatever the client sent in
   * that field.
   */
  lemma StoredDocument(candidate: Bucket, docs: map<string, BucketDocument>, newId: string,
    op: OperationDate, removeEmptyKeys: Bucket -> Bucket, toIso: int -> string, clientId: Option<string>)
    requires Create(Some(CreateBucketRequest(Some(candidate))), docs, newId, op, removeEmptyKeys, toIso).docs != docs
    ensures var e := Create(Some(CreateBucketRequest(Some(candidate))), docs, newId, op, removeEmptyKeys, toIso);
      var stored := e.docs[newId];
      var stripped := removeEmptyKeys(candidate);
      && Normalized(stored) && MissingRequired(stored) == {}
      && (op.createdAt.Some? ==> stored.createdAt == Some(Date(op.createdAt.value)))
      && (op.createdJobId.Some? ==> stored.createdJobId == op.createdJobId)
      && (op.createdAt.None? ==> stored.createdAt == stripped.createdAt)
      && stored == CastBucket(Stamp(stripped.(bucketId := clientId), op), newId)
  {
    var stamped := Stamped(candidate, op, removeEmptyKeys);
    var d := CastBucket(stamped, newId);
    assert Insert(docs, d).Success?;
    assert Create(Some(CreateBucketRequest(Some(candidate))), docs, newId, op, removeEmptyKeys, toIso).docs[newId] == d;
    assert MissingRequired(d) == {};
    assert Stamp(removeEmptyKeys(candidate).(bucketId := clientId), op) == stamped.(bucketId := clientId);
    assert CastBucket(stamped.(bucketId := clientId), newId) == d;
  }

  /**
   * The pushed bucket is the stamped candidate as the client wrote it (not
   * the cast document), with the new `bucketId` and `createdAt` as the ISO
   * text of the date the collection holds.
   */
  lemma PushedBucket(candidate: Bucket, docs: map<string, BucketDocument>, newId: string,
    op: OperationDate, removeEmptyKeys: Bucket -> Bucket, toIso: int -> string)
    ensures var e := Create(Some(CreateBucketRequest(Some(candidate))), docs, newId, op, removeEmptyKeys, toIso);
      var stamped := Stamped(candidate, op, removeEmptyKeys);
      e.response.Some? ==>
        && e.docs[newId].createdAt == stamped.createdAt && stamped.createdAt.Some? && stamped.createdAt.value.Date?
        && e.response.value.createdAt == Some(DateString(toIso(stamped.createdAt.value.millis)))
        && e.response.value.(bucketId := stamped.bucketId, createdAt := stamped.createdAt) == stamped
  {
  }

  /**
   * A save can succeed and the push still not happen: when `createdAt` is
   * not a native date after stamping (absent, or text the client sent and
   * the operation date did not override).
   */
  lemma SavedButNotPushed(candidate: Bucket, docs: map<string, BucketDocument>, newId: string,
    op: OperationDate, removeEmptyKeys: Bucket -> Bucket, toIso: int -> string)
    requires Insert(docs, CastBucket(Stamped(candidate, op, removeEmptyKeys), newId)).Success?
    requires var s := Stamped(candidate, op, removeEmptyKeys); !(s.createdAt.Some? && s.createdAt.value.Date?)
    ensures var e := Create(Some(CreateBucketRequest(Some(candidate))), docs, newId, op, removeEmptyKeys, toIso);
      e.docs != docs && e.response.None? && e.error == Some(CreatedAtNotADate)
  {
    var d := CastBucket(Stamped(candidate, op, removeEmptyKeys), newId);
    assert Insert(docs, d).value[newId] == d;
    assert newId !in docs;
  }

  /** The handler keeps the collection's guarantees. */
  lemma CreatePreservesInvariant(request: Option<Message>, docs: map<string, BucketDocument>, newId: string,
    op: OperationDate, removeEmptyKeys: Bucket -> Bucket, toIso: int -> string)
    requires CollectionInvariant(docs)
    ensures CollectionInvariant(Create(request, docs, newId, op, removeEmptyKeys, toIso).docs)
  {
    if request.Some? && request.value.CreateBucketRequest? && request.value.bucket.Some? {
      var stamped := Stamped(request.value.bucket.value, op, removeEmptyKeys);
      InsertPreservesInvariant(docs, CastBucket(stamped, newId));
    }
  }

  /** `pushJobCreateBucket(job, bucket)`: sets `bucket` and pushes once. */
  method PushJobCreateBucket(job: Job, bucket: Bucket)
    modifies job
    ensures job.fields == old(job.fields)[ResponseField := BucketMessage(bucket)]
    ensures job.pushed == old(job.pushed) + [job.fields]
    ensures job.log == old(job.log) + [Set(ResponseField), Push]
    ensures job.consumed == old(job.consumed)
  {
    job.SetAndPush(ResponseField, BucketMessage(bucket));
  }

  /**
   * `createBucket(job)`: consumes and deletes `request`, then strips,
   * stamps, assigns the id, saves, converts `createdAt`, and pushes once;
   * any error before the push leaves the job without a response.
   */
  method Handle(
    job: Job, store: Store, newId: string,
    op: OperationDate, removeEmptyKeys: Bucket -> Bucket, toIso: int -> string)
    returns (r: Outcome<HandlerError>)
    requires store.Valid()
    modifies job, store
    ensures store.Valid()
    ensures job.consumed == old(job.consumed) + {"request"}
    ensures var e := Create(RequestField(old(job.fields)), old(store.docs), newId, op, removeEmptyKeys, toIso);
      var rest := old(job.fields) - {"request"};
      var taken := old(job.log) + [Get("request", true), Del("request")];
      && store.docs == e.docs
      && (e.response.Some? ==>
            && r == Pass
            && job.fields == rest[ResponseField := BucketMessage(e.response.value)]
            && job.pushed == old(job.pushed) + [job.fields]
            && job.log == taken + [Set(ResponseField), Push])
      && (e.response.None? ==>
            && e.error.Some? && r == Fail(e.error.value)
            && job.fields == rest && job.pushed == old(job.pushed) && job.log == taken)
  {
    var request := job.GetDelPull("request");
    if !(request.Some? && request.value.CreateBucketRequest?) {
      return Fail(MissingRequest);
    }
    if request.value.bucket.None? {
      return Fail(MissingBucket);
    }
    var bucket := request.value.bucket.value;
    bucket := removeEmptyKeys(bucket);
    bucket := Stamp(bucket, op);
    // `new BucketModel(bucket)` with `_id` set to the fresh id; `bucketId` is set on the plain object only.
    var model := CastBucket(bucket, newId);
    bucket := bucket.(bucketId := Some(newId));
    var saved := store.Save(model);
    if saved.Fail? {
      return Fail(SaveFailed(saved.error));
    }
    if !(bucket.createdAt.Some? && bucket.createdAt.value.Date?) {
      return Fail(CreatedAtNotADate);
    }
    bucket := bucket.(createdAt := Some(DateString(toIso(bucket.createdAt.value.millis))));
    PushJobCreateBucket(job, bucket);
    r := Pass;
  }
}
