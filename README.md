# storage-service: bucket creation, upload-url grants and the storage schemas

This project models the core of the storage service's two job handlers, plus the two Mongoose schemas they persist against.

- **CreateBucket** (`createBucket`, `pushJobCreateBucket`). The handler:
  - consumes and deletes the job's `request` field;
  - strips empty keys from the candidate bucket;
  - overlays the job's operation date;
  - assigns one fresh id as both `bucketId` and `_id`;
  - saves the document;
  - only after the save turns `createdAt` into ISO text and pushes the bucket once.
- **CreateUploadUrl** (`createUploadUrl`, `pushJobUploadToken`). The handler:
  - consumes and deletes `request`;
  - reads the bucket with a five-path projection;
  - then either pushes `{success: false}` without signing, or builds a grant and has it signed once, then pushes `{success: true, uploadToken}`;
  - a grant has a payload of fixed fields plus `maxSize` and `mimeTypes` under JavaScript truthiness, and sign options in which the request's values override the fixed issuer options;
  - the grant's audience is the bucket's URL with a fresh upload id joined onto its path.
- **BucketSchema / UploadSchema**:
  - required paths;
  - `trim` on `name`;
  - `lowercase` + `trim` on every accepted MIME type and `trim` on every tag;
  - array paths default to `[]`;
  - the sparse unique index on `upload.url`, modelled as an insert into a map `_id -> document` that fails on a duplicate `_id` or a duplicate present URL.
- **FileSchema**: eight required paths, `trim` on five string paths and on every tag, and no unique path besides `_id`.

## Layout

| file | module |
|---|---|
| `wrappers.dfy` | `Option`, `Result`, `Outcome` |
| `text.dfy` | `String.prototype.trim`, ASCII `toLowerCase`, the decimal text of an integer |
| `schema.dfy` | the setters and the `required` check the two schemas share; the value held in a `Date` path |
| `bucket_model.dfy` | the bucket wire object, the bucket document, casting, validation, the sparse-unique insert, projection |
| `file_model.dfy` | the file document, casting, validation, insert |
| `bucket_store.dfy` | `Store`, a class holding the bucket collection and its invariant; `Save` and `FindById` |
| `envelope.dfy` | `Job`, a class holding the job's fields, consumed set, operation log and pushed envelopes; the decoded messages; handler errors |
| `signing.dfy` | the grant payload, the fixed token options, the worker's `algorithm` spread, `Signer` (the `signJwt` oracle) |
| `create_upload_url.dfy` | the upload-url decision as functions, and the handler as a method over `Job`, `Store` and `Signer` |
| `create_bucket.dfy` | the bucket-creation workflow as a function, and the handler as a method over `Job` and `Store` |
| `workflow.dfy` | the two handlers composed: a created bucket can be granted an upload URL under its pushed id |

Each handler is given twice:
- a pure specification function, `CreateBucket.Create` or `CreateUploadUrl.Respond`;
- an imperative `Handle` method that performs the source's steps in order. Its `ensures` ties the job's and the store's new state, and the signer's call log, to that function.

The lemmas state the source's promises about the functions.

### `mimeTypes` on an empty array

A grant carries `mimeTypes` even when `acceptedMimeTypes` is empty: the code tests `if (bucket.acceptedMimeTypes)` (`create-upload-url.ts:114-116`), an array is truthy even when empty, and Mongoose defaults an absent array path to `[]`. The model follows the code:
- `CreateUploadUrl.GrantPayloadFields` states that `mimeTypes` is sent exactly when `acceptedMimeTypes` is present;
- `CreateUploadUrl.StoredBucketDecision` states that every grant for a bucket from a valid collection sends it, lower-cased and trimmed. Every stored bucket was cast by the schema, so the array path is always present.

## Model

| member | source | states |
|---|---|---|
| Text.Trim | src/models/bucket.ts:32-36 | the `trim` setter's result has no whitespace at either end and is no longer than its input |
| Text.TrimOfPadded | src/models/bucket.ts:32-36 | trimming removes exactly the surrounding whitespace: a trimmed string padded with whitespace on both sides trims back to itself |
| Text.TrimIdempotent | src/models/file.ts:12-36 | applying the `trim` setter twice is applying it once |
| Text.TrimAllWhitespace | src/models/bucket.ts:32-36 | a whitespace-only string trims to the empty string |
| Text.ToLower | src/models/bucket.ts:41-45 | `toLowerCase` keeps the length, maps each ASCII capital to its own lower-case letter and keeps every other character, so no capital remains |
| Text.LowerTrimCommute | src/models/bucket.ts:41-45 | the `lowercase` and `trim` setters commute, and their combination yields a lower-case trimmed string |
| Text.ParseIntToString | src/processors/storage/create-upload-url.ts:128 | the decimal text of the expiry seconds reads back as the same integer |
| Schema.TrimmedString | src/models/file.ts:12-36 | a `trim: true` string path stays present exactly when given, and is trimmed |
| Schema.TrimmedArray | src/models/bucket.ts:46-49 | a trimmed string array keeps its length (absent becomes `[]`) and every entry is trimmed |
| Schema.LoweredArray | src/models/bucket.ts:41-45 | a lowercased, trimmed array keeps its length (absent becomes `[]`) and every entry is lower case and trimmed |
| Schema.TrimmedArrayIdempotent | src/models/bucket.ts:41-49 | re-applying either array setter to its own output changes nothing |
| BucketModel.CastNormalizes | src/models/bucket.ts:28-70 | the cast document has the given `_id`, `name` trimmed, each MIME type lowercased and trimmed in place, each tag trimmed in place, and `upload`, `maxSize`, `processor` unchanged |
| BucketModel.CastBucket | src/models/bucket.ts:28-70 | `new BucketModel(bucket)` with `_id` set: the document has that `_id`, is normalised, and keeps `upload`, `maxSize` and `processor` |
| BucketModel.MissingRequired | src/models/bucket.ts:32-57 | only `name`, `upload`, `maxSize` and `processor` can fail `required` |
| BucketModel.MissingRequiredPaths | src/models/bucket.ts:32-57 | a document fails `required` at `name` exactly when it is absent or empty, and at `upload`, `maxSize`, `processor` exactly when absent; it passes exactly when none fails |
| BucketModel.MissingRequiredExactly | src/models/bucket.ts:32-57 | each required path fails exactly when absent (`name`: also when empty after trimming); a bucket is valid exactly when all four hold; a 0 number is accepted |
| BucketModel.BlankNameRejected | src/models/bucket.ts:32-36 | a whitespace-only name fails `required` |
| BucketModel.Insert | src/models/bucket.ts:9-14 | a save succeeds exactly when the document is valid, its `_id` is fresh and its present URL is not held; success adds exactly that document; a failure reports the missing paths when there are any, else a duplicate key |
| BucketModel.InsertPreservesInvariant | src/models/bucket.ts:9-14 | a successful insert of a cast document adds exactly that document under its fresh `_id`, leaves every other one unchanged, and keeps every stored document cast, valid, keyed by its `_id`, with no present URL shared |
| BucketModel.InsertRejectsInvalid | src/models/bucket.ts:32-57 | a document missing a required path is refused with exactly those paths |
| BucketModel.InsertRejectsDuplicateUrl | src/models/bucket.ts:9-14 | a document whose present URL another document holds is refused |
| BucketModel.InsertSparseUrl | src/models/bucket.ts:12 | a valid document without a URL and with a fresh `_id` is always stored |
| BucketModel.SecondSameUrlFails | src/models/bucket.ts:9-14 | of two buckets with the same present URL, the second save fails, with a duplicate-key error when it is valid, and the second bucket does not exist afterwards |
| BucketModel.FindById | src/processors/storage/create-upload-url.ts:76-84 | `findById` finds a document exactly when its `_id` is stored |
| BucketModel.Project | src/processors/storage/create-upload-url.ts:76-82 | a projection always keeps `_id`; naming every path returns the whole document, naming none returns `_id` alone |
| FileModel.CastFileNormalizes | src/models/file.ts:8-65 | the cast file keeps each of the five string paths present exactly when given, holding the trimmed input, each tag trimmed in place (absent becomes `[]`), and `_id`, the numbers and the dates unchanged |
| FileModel.CastFile | src/models/file.ts:8-65 | `new FileModel(f)`: the file is normalised and keeps its `_id`, `size`, `processor` and `status` |
| FileModel.MissingRequiredNone | src/models/file.ts:12-52 | a file has no missing path exactly when the five strings are non-empty and `size`, `processor`, `status` are present |
| FileModel.FileValidIff | src/models/file.ts:12-52 | a file passes validation exactly when all eight required paths are present and the strings are non-empty after trimming |
| FileModel.InsertFile | src/models/file.ts:8-65 | a file is stored exactly when it is valid and its `_id` is fresh; the collection is then the old one with that file added under its `_id` |
| FileModel.FilesMayShareUrlAndPath | src/models/file.ts:8-65 | two files with the same `uploadUrl` and `path` can both be stored |
| BucketStore.Store.constructor | src/models/bucket.ts:72 | a new collection is empty and satisfies the invariant |
| BucketStore.Store.Save | src/processors/storage/create-bucket.ts:85 | `save()` of a cast document stores it when the insert succeeds, leaves the collection unchanged on failure, and keeps the invariant |
| BucketStore.Store.FindById | src/processors/storage/create-upload-url.ts:76-84 | `findById(...).exec()` returns the projected stored document or nothing, and changes nothing |
| Envelope.Job.constructor | src/processors/storage/create-upload-url.ts:45-57 | a job starts with its fields, nothing consumed, logged or pushed |
| Envelope.Job.GetDelPull | src/processors/storage/create-upload-url.ts:60-65 | `get(field, true).del(field).pull()` returns the value before the delete, removes the field, marks it consumed, and pushes nothing |
| Envelope.Job.SetField | src/processors/storage/create-upload-url.ts:34-35 | `set` updates one field and logs it |
| Envelope.Job.PushJob | src/processors/storage/create-upload-url.ts:36 | `push` records the current fields as one pushed envelope |
| Envelope.Job.SetAndPush | src/processors/storage/create-upload-url.ts:34-36 | `set(field, value).push()` pushes exactly once with the value under the field |
| Signing.UploadUrlTokenOptions | src/processors/utils/credentials.ts:3-5 | the fixed token options hold `issuer` exactly when one is configured |
| Signing.WorkerOptions | src/workers/cryptography.ts:29-35 | the worker signs with RS256 unless the caller's options name an algorithm, every caller option survives, and only `algorithm` is added |
| Signing.Signer.constructor | src/processors/utils/cryptography.ts:14-34 | a signer starts with no calls recorded |
| Signing.Signer.Answer | src/workers/cryptography.ts:19-35 | a key name the worker has no private key for yields no token |
| Signing.Signer.SignJwt | src/processors/utils/cryptography.ts:14-34 | `signJwt` records exactly one call with its payload, key and options, and answers with the worker's result |
| CreateUploadUrl.SplitLast | src/processors/storage/create-upload-url.ts:97-100 | a path splits exactly when it contains `/`, into the part before its last `/` and a last segment without `/`, which rejoin to the path |
| CreateUploadUrl.JoinSegment | src/processors/storage/create-upload-url.ts:97-100 | `path.join(dir, segment)` starts with `dir` and ends with `segment` |
| CreateUploadUrl.Href | src/processors/storage/create-upload-url.ts:126 | `toString()` is the head, then the path, then the search and hash |
| CreateUploadUrl.SetPathname | src/processors/storage/create-upload-url.ts:97-100 | the `pathname` setter leaves a URL with an opaque path unchanged; otherwise the new path is stored, starting with `/` (added when missing), and the head, search and hash are kept |
| CreateUploadUrl.SplitLastAppended | src/processors/storage/create-upload-url.ts:97-100 | a path `parent/segment` with no `/` in the segment splits back into `parent` and `segment` |
| CreateUploadUrl.JoinThenSplit | src/processors/storage/create-upload-url.ts:97-100 | `path.join(pathname, uploadId)` adds exactly one last segment, the upload id, after the pathname without its trailing slash |
| CreateUploadUrl.ExpiresIn | src/processors/storage/create-upload-url.ts:128 | `expiresIn` always ends in `s` |
| CreateUploadUrl.ExpiresInReadsBack | src/processors/storage/create-upload-url.ts:128 | `expiresIn` minus its `s` reads back as `tokenExpirationSeconds` |
| CreateUploadUrl.GrantPayload | src/processors/storage/create-upload-url.ts:102-116 | the payload names the requested `bucketId`, the bucket's `processor` and `tags`, the upload's `fieldName` and `maxCount`, `maxSize` only when truthy, and `acceptedMimeTypes` as `mimeTypes` |
| CreateUploadUrl.GrantOptions | src/processors/storage/create-upload-url.ts:120-130 | the options hold the fixed option keys plus `subject`, `audience`, `jwtid` and `expiresIn`, which override the fixed ones; the other fixed options are kept |
| CreateUploadUrl.Decide | src/processors/storage/create-upload-url.ts:86-130 | no bucket rejects; the only errors are a missing upload and an unparseable URL; a grant is signed with `UPLOAD_URL` for the requested id and subject, with `jwtid` the upload id and `audience` the grant's audience |
| CreateUploadUrl.Respond | src/processors/storage/create-upload-url.ts:60-92 | a missing or mistyped request is an error; a request naming an id with no stored bucket is rejected |
| CreateUploadUrl.RejectIff | src/processors/storage/create-upload-url.ts:86-92 | the handler rejects exactly when the bucket is absent, or its upload has an absent or empty `url` or an absent or 0 `maxCount` |
| CreateUploadUrl.GrantIff | src/processors/storage/create-upload-url.ts:86-100 | a grant is built exactly when the bucket exists with a truthy URL that parses and a truthy `maxCount` |
| CreateUploadUrl.GrantAudience | src/processors/storage/create-upload-url.ts:94-100 | for a URL whose path starts with `/`, the audience is the URL with the upload id joined onto its path as one new last segment; an empty path gives `/` and the id; an opaque path leaves the URL unchanged; `jwtid` is that same upload id |
| CreateUploadUrl.GrantPayloadFields | src/processors/storage/create-upload-url.ts:102-116 | the payload's `bucketId` comes from the request, and `processor`, `tags`, `field`, `maxCount` from the bucket; `maxSize` is included exactly when the bucket's is non-zero; `mimeTypes` equals `acceptedMimeTypes`, present exactly when that is present, even if empty |
| CreateUploadUrl.GrantOptionsFields | src/processors/storage/create-upload-url.ts:120-130 | the sign call uses key `UPLOAD_URL`; its options are the fixed options plus `subject`, `audience`, `jwtid`, `expiresIn`, and those four override any fixed option of the same name |
| CreateUploadUrl.GrantForStored | src/processors/storage/create-upload-url.ts:76-130 | a stored bucket with a set, parseable URL and a non-zero `maxCount` is granted for the requested id and subject, with the joined path set on its URL as audience |
| CreateUploadUrl.UnknownBucketRejected | src/processors/storage/create-upload-url.ts:84-92 | an id no stored bucket has is rejected |
| CreateUploadUrl.ProjectionSuffices | src/processors/storage/create-upload-url.ts:76-82 | deciding on the projected document is the same as deciding on the whole one |
| CreateUploadUrl.StoredBucketDecision | src/processors/storage/create-upload-url.ts:86-116 | a bucket from a valid collection never hits the missing-upload error, and every grant for it sends the stored `acceptedMimeTypes`, present, lower case and trimmed |
| CreateUploadUrl.PushJobUploadToken | src/processors/storage/create-upload-url.ts:24-37 | sets `createUploadUrlResponse` and pushes exactly once |
| CreateUploadUrl.Handle | src/processors/storage/create-upload-url.ts:45-137 | consumes and deletes `request` first. A rejection pushes `{success: false}` without signing. A grant signs exactly once and pushes `{success: true, uploadToken}`. Every error pushes nothing |
| CreateBucket.Stamp | src/processors/storage/create-bucket.ts:74-77 | every operation-date key that is set overrides the client's value, and every other field is unchanged |
| CreateBucket.Stamped | src/processors/storage/create-bucket.ts:72-77 | the candidate is stripped before it is stamped, and the stamp changes only the four audit fields |
| CreateBucket.Create | src/processors/storage/create-bucket.ts:45-93 | a run pushes a bucket exactly when it reports no error; the collection either stays as it was or gains only the fresh id; a pushed bucket carries the fresh id, which is then stored; a failed save leaves the collection unchanged |
| CreateBucket.CreateShape | src/processors/storage/create-bucket.ts:45-93 | a run either pushes a bucket or reports an error, never both, and either leaves the collection alone or adds exactly one document under the fresh id |
| CreateBucket.PushedIdIsStoreKey | src/processors/storage/create-bucket.ts:79-83 | the pushed `bucketId` is the fresh id, which is the key and `_id` of the one new document |
| CreateBucket.StoredUpload | src/processors/storage/create-bucket.ts:72-85 | the stored upload sub-document is the stripped candidate's |
| CreateBucket.SaveFailureChangesNothing | src/processors/storage/create-bucket.ts:85-91 | a save fails exactly when the insert is refused; then nothing is pushed and the collection is unchanged |
| CreateBucket.DuplicateUrlNotCreated | src/processors/storage/create-bucket.ts:85 | a candidate whose URL another bucket holds is neither stored nor pushed |
| CreateBucket.StoredDocument | src/processors/storage/create-bucket.ts:72-85 | the stored document is normalised and valid. It is cast from the stripped, then stamped candidate, so the operation date wins. It is the same whatever `bucketId` the client sent |
| CreateBucket.PushedBucket | src/processors/storage/create-bucket.ts:83-91 | the pushed bucket is the stamped candidate with the fresh `bucketId`, and with `createdAt` the ISO text of the native date the stored document keeps |
| CreateBucket.SavedButNotPushed | src/processors/storage/create-bucket.ts:85-89 | when `createdAt` is not a native date after stamping (absent, or client text the operation date does not override), the save succeeds but the ISO conversion throws and nothing is pushed |
| CreateBucket.CreatePreservesInvariant | src/processors/storage/create-bucket.ts:45-93 | every run keeps the collection's invariant |
| CreateBucket.PushJobCreateBucket | src/processors/storage/create-bucket.ts:24-37 | sets `bucket` and pushes exactly once |
| CreateBucket.Handle | src/processors/storage/create-bucket.ts:45-93 | consumes and deletes `request`. The collection ends as the workflow function says, and the store's invariant is kept. On success it pushes exactly once; on any error it pushes nothing |
| Workflow.AudienceShape | src/processors/storage/create-upload-url.ts:94-100 | the audience starts with the URL up to and including its old path, and its path ends in `/` and the upload id |
| Workflow.JoinShape | src/processors/storage/create-upload-url.ts:97-100 | the joined path starts with the old path and ends with `/` and the upload id |
| Workflow.CreatedBucketIsGrantable | src/processors/storage/create-bucket.ts:79-91 | a bucket created with a set, parseable URL and a non-zero `maxCount` is granted when asked for by its pushed `bucketId`. The grant names that id, the requesting subject and the fresh upload id, and for a path starting with `/` its audience is the URL with the id joined onto that path |

## Left out

- Protobuf encoding and decoding (`parseObjectToProtobuf`, `parseProtobufToObject`) are library code that is not shown. Job fields carry the decoded message. A missing `request`, or one of the wrong kind, is the `MissingRequest` error.
- The following are parameters of the handlers, because they are library code, randomness or the clock:
  - `removeEmptyKeys`;
  - `getJobOperationDate(job, CREATE)`, as the keys it sets;
  - `uuidv4()`, as the fresh id;
  - `Date.prototype.toISOString`;
  - WHATWG `URL` parsing, as a function that can fail: `InvalidUrl`.
- `jsonwebtoken.sign` with RS256 and the private keys read from disk are foreign cryptography and I/O. `Signer` records each call and answers through an oracle. A signing failure is the `SigningFailed` error.
- `CreateUploadUrl.JoinSegment`: `path.join` is modelled as appending one segment with a single `/`. Normalisation of `.`, `..` and repeated slashes inside the old path is not modelled.
- `CreateUploadUrl.SetPathname`: the WHATWG `pathname` setter is modelled by opaque paths and the leading `/` only. It also reads `\` as `/` in special schemes, percent-encodes some characters and resolves dot segments. None of that changes a path made of an `http(s)` pathname and a UUID, and it is not modelled.
- `Signing.UploadUrlTokenOptions`: when `UPLOAD_TOKEN_ISSUER` is unset, the source's options object still has the key `issuer`, with the value `undefined`, and the spread passes it on. The model treats a key whose value is `undefined` as absent.
- `CreateBucket.Create`: the source has no test for a request without a bucket. It calls `removeEmptyKeys` on `undefined`, which may throw, or it saves an empty document, which fails validation. Either way nothing is stored and nothing is pushed. The model reports this case as `MissingBucket`.
- `Text.ToLower`: `toLowerCase` is modelled for ASCII letters only, because the full Unicode case mapping tables are out of scope.
- JavaScript numbers are modelled as integers. NaN, fractions, and the exponent notation used for very large numbers in `tokenExpirationSeconds + 's'` are not modelled.
- Mongoose's casting of text into a `Date` path is not modelled. A date that arrives as text is stored as text. The `createdAt` conversion then throws `CreatedAtNotADate`, as it does for any non-Date value.
- The source does not say which unique index a duplicate-key error names. The model reports `DuplicateKey` alone.
- The store's transport failures, Redis and the job bus, the worker pool's queueing, event-loop concurrency, metrics counters and logging are all I/O or observability.
- `src/index.ts` and the registration (`default`) functions are process lifecycle and wiring.
- `jsonwebtoken`'s own validation of `expiresIn`: the text `undefineds` for a bucket without `tokenExpirationSeconds` is passed on as the code builds it. The model does not say what the signer does with it.
