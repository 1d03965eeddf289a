/**
 * The job envelope a handler works on: the wire messages its fields carry,
 * the get/del/pull/set/push primitives, and the errors a handler throws.
 */
module Envelope {
  import opened Wrappers
  import opened BucketModel

  /** A field value in its decoded form; the protobuf bytes themselves are not modelled. */
  datatype Message =
    | CreateBucketRequest(bucket: Option<Bucket>)
    | BucketMessage(created: Bucket)
    | CreateUploadUrlRequest(bucketId: string, subject: string)
    | CreateUploadUrlResponse(success: bool, uploadToken: Option<string>)

  /** Why a handler throws instead of pushing a response. */
  datatype HandlerError =
    | MissingRequest          // the job has no `request` field, or it does not decode to the expected type
    | MissingBucket           // a CreateBucketRequest without a bucket
    | SaveFailed(error: SaveError)
    | CreatedAtNotADate       // `(bucket.createdAt as Date).toISOString()` on a value that is not a Date
    | MissingUpload           // `bucket.upload!.url` on a bucket without an upload sub-document
    | InvalidUrl              // `new URL(bucket.upload.url)` rejects the text
    | SigningFailed           // the signing worker rejected the call

  /** One operation a handler performs on its job, in the order performed. */
  datatype JobOp = Get(field: string, consume: bool) | Del(field: string) | Set(field: string) | Push

  /** The job's `request` field, if any. */
  function RequestField(fields: map<string, Message>): Option<Message> {
    if "request" in fields then Some(fields["request"]) else None
  }

  class Job {
    const id: string
    /** The job's fields. */
    var fields: map<string, Message>
    /** Fields read with the consume flag. */
    var consumed: set<string>
    /** Every operation performed on the job so far. */
    var log: seq<JobOp>
    /** The fields as they stood at each push, oldest first. */
    var pushed: seq<map<string, Message>>

    constructor (id: string, fields: map<string, Message>)
      ensures this.id == id && this.fields == fields
      ensures consumed == {} && log == [] && pushed == []
    {
      this.id := id;
      this.fields := fields;
      consumed := {};
      log := [];
      pushed := [];
    }

    /**
     * `job.get(field, true).del(field).pull()`: the queued read and delete
     * run together; the result is the field's value before the delete.
     */
    method GetDelPull(field: string) returns (v: Option<Message>)
      modifies this
      ensures v == (if field in old(fields) then Some(old(fields)[field]) else None)
      ensures fields == old(fields) - {field}
      ensures consumed == old(consumed) + {field}
      ensures log == old(log) + [Get(field, true), Del(field)]
      ensures pushed == old(pushed)
    {
      v := if field in fields then Some(fields[field]) else None;
      consumed := consumed + {field};
      fields := fields - {field};
      log := log + [Get(field, true), Del(field)];
    }

    /** `job.set(field, value)`. */
    method SetField(field: string, value: Message)
      modifies this
      ensures fields == old(fields)[field := value]
      ensures log == old(log) + [Set(field)]
      ensures consumed == old(consumed) && pushed == old(pushed)
    {
      fields := fields[field := value];
      log := log + [Set(field)];
    }

    /** `job.push()`: sends the job on with its current fields. */
    method PushJob()
      modifies this
      ensures pushed == old(pushed) + [old(fields)]
      ensures log == old(log) + [Push]
      ensures fields == old(fields) && consumed == old(consumed)
    {
      pushed := pushed + [fields];
      log := log + [Push];
    }

    /**
     * `job.set(field, value).push()`, the last step of both handlers:
     * exactly one push, carrying `value` under `field`.
     */
    method SetAndPush(field: string, value: Message)
      modifies this
      ensures fields == old(fields)[field := value]
      ensures pushed == old(pushed) + [fields]
      ensures log == old(log) + [Set(field), Push]
      ensures consumed == old(consumed)
    {
      SetField(field, value);
      PushJob();
    }
  }
}
