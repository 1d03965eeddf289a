/**
 * The File schema (`FileSchema`): casting, `required` validation and the
 * collection insert. No path besides `_id` is unique.
 */
module FileModel {
  import opened Wrappers
  import opened Text
  import opened Schema

  /** A file document, keyed by the string `_id`. */
  datatype File = File(
    id: string,
    name: Option<string>,
    path: Option<string>,
    mimeType: Option<string>,
    bucketId: Option<string>,
    uploadUrl: Option<string>,
    tags: Option<seq<string>>,
    size: Option<int>,
    processor: Option<int>,
    status: Option<int>,
    createdAt: Option<DateField>,
    createdJobId: Option<string>,
    updatedAt: Option<DateField>,
    updatedJobId: Option<string>)

  /** The top-level paths of `FileSchema` other than `_id`. */
  datatype FilePath =
    | NamePath | PathPath | MimeTypePath | BucketIdPath | UploadUrlPath | TagsPath
    | SizePath | ProcessorPath | StatusPath
    | CreatedAtPath | CreatedJobIdPath | UpdatedAtPath | UpdatedJobIdPath

  datatype SaveError = Validation(paths: set<FilePath>) | DuplicateKey

  /** `new FileModel(f)`: the five string paths and every tag are trimmed; `tags` defaults to `[]`. */
  function CastFile(f: File): (c: File)
    ensures Normalized(c)
    ensures c.id == f.id && c.size == f.size && c.processor == f.processor && c.status == f.status
  {
    f.(name := TrimmedString(f.name),
       path := TrimmedString(f.path),
       mimeType := TrimmedString(f.mimeType),
       bucketId := TrimmedString(f.bucketId),
       uploadUrl := TrimmedString(f.uploadUrl),
       tags := Some(TrimmedArray(f.tags)))
  }

  /** The values a cast file holds. */
  predicate Normalized(f: File) {
    && (f.name.Some? ==> IsTrimmed(f.name.value))
    && (f.path.Some? ==> IsTrimmed(f.path.value))
    && (f.mimeType.Some? ==> IsTrimmed(f.mimeType.value))
    && (f.bucketId.Some? ==> IsTrimmed(f.bucketId.value))
    && (f.uploadUrl.Some? ==> IsTrimmed(f.uploadUrl.value))
    && f.tags.Some? && AllTrimmed(f.tags.value)
  }

  /**
   * Casting trims the declared strings and every tag, keeps each tag in
   * its place, and changes neither the key nor the numbers and dates.
   */
  lemma CastFileNormalizes(f: File)
    ensures var c := CastFile(f);
      && Normalized(c)
      && (c.name.Some? <==> f.name.Some?) && (f.name.Some? ==> c.name.value == Trim(f.name.value))
      && (c.path.Some? <==> f.path.Some?) && (f.path.Some? ==> c.path.value == Trim(f.path.value))
      && (c.mimeType.Some? <==> f.mimeType.Some?) && (f.mimeType.Some? ==> c.mimeType.value == Trim(f.mimeType.value))
      && (c.bucketId.Some? <==> f.bucketId.Some?) && (f.bucketId.Some? ==> c.bucketId.value == Trim(f.bucketId.value))
      && (c.uploadUrl.Some? <==> f.uploadUrl.Some?) && (f.uploadUrl.Some? ==> c.uploadUrl.value == Trim(f.uploadUrl.value))
      && |c.tags.value| == (if f.tags.Some? then |f.tags.value| else 0)
      && (forall i :: 0 <= i < |c.tags.value| ==> c.tags.value[i] == Trim(f.tags.value[i]))
      && c.id == f.id && c.size == f.size && c.processor == f.processor && c.status == f.status
      && c.createdAt == f.createdAt && c.updatedAt == f.updatedAt
  {
  }

  const RequiredPaths: set<FilePath> :=
    {NamePath, PathPath, MimeTypePath, BucketIdPath, UploadUrlPath, SizePath, ProcessorPath, StatusPath}

  /** Whether `f` satisfies `required: true` at path `p`. */
  predicate Satisfies(f: File, p: FilePath) {
    match p
    case NamePath => RequiredString(f.name)
    case PathPath => RequiredString(f.path)
    case MimeTypePath => RequiredString(f.mimeType)
    case BucketIdPath => RequiredString(f.bucketId)
    case UploadUrlPath => RequiredString(f.uploadUrl)
    case SizePath => f.size.Some?
    case ProcessorPath => f.processor.Some?
    case StatusPath => f.status.Some?
    case _ => true
  }

  function MissingRequired(f: File): (r: set<FilePath>)
    ensures r <= RequiredPaths
  {
    set p | p in RequiredPaths && !Satisfies(f, p)
  }

  lemma MissingRequiredNone(f: File)
    ensures MissingRequired(f) == {} <==>
      && RequiredString(f.name) && RequiredString(f.path) && RequiredString(f.mimeType)
      && RequiredString(f.bucketId) && RequiredString(f.uploadUrl)
      && f.size.Some? && f.processor.Some? && f.status.Some?
  {
    if forall p :: p in RequiredPaths ==> Satisfies(f, p) {
      assert MissingRequired(f) == {};
    } else {
      var p :| p in RequiredPaths && !Satisfies(f, p);
      assert p in MissingRequired(f);
    }
  }

  /**
   * A file passes validation exactly when all eight required paths are
   * present, the strings non-empty after trimming; `tags` and the audit
   * paths are optional.
   */
  lemma FileValidIff(f: File)
    ensures MissingRequired(CastFile(f)) == {} <==>
      && f.name.Some? && Trim(f.name.value) != ""
      && f.path.Some? && Trim(f.path.value) != ""
      && f.mimeType.Some? && Trim(f.mimeType.value) != ""
      && f.bucketId.Some? && Trim(f.bucketId.value) != ""
      && f.uploadUrl.Some? && Trim(f.uploadUrl.value) != ""
      && f.size.Some? && f.processor.Some? && f.status.Some?
  {
    MissingRequiredNone(CastFile(f));
  }

  /** `save()` of a new file: validation, then an insert that only the `_id` index can refuse. */
  function InsertFile(files: map<string, File>, f: File): (r: Result<map<string, File>, SaveError>)
    ensures r.Success? ==> r.value == files[f.id := f] && r.value.Keys == files.Keys + {f.id}
    ensures r.Success? <==> MissingRequired(f) == {} && f.id !in files
  {
    var missing := MissingRequired(f);
    if missing != {} then Failure(Validation(missing))
    else if f.id in files then Failure(DuplicateKey)
    else Success(files[f.id := f])
  }

  /**
   * No path besides `_id` is unique: a valid file is stored even when
   * another file already has the same `uploadUrl`, `path` and every other
   * value.
   */
  lemma FilesMayShareUrlAndPath(files: map<string, File>, f: File, g: File)
    requires InsertFile(files, f).Success?
    requires MissingRequired(g) == {} && g.id != f.id && g.id !in files
    requires g.uploadUrl == f.uploadUrl && g.path == f.path
    ensures InsertFile(InsertFile(files, f).value, g).Success?
  {
  }
}
