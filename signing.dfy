/**
 * The signing side of the upload-url flow: the grant payload, the fixed
 * token options, the option spread the signing worker performs, and the
 * `signJwt` call as an oracle that records every request it receives.
 */
module Signing {
  import opened Wrappers

  /** The claims of an upload grant; `None` is a key left off the payload. */
  datatype UploadTokenPayload = UploadTokenPayload(
    bucketId: string,
    processor: Option<int>,
    tags: Option<seq<string>>,
    field: Option<string>,
    maxCount: Option<int>,
    maxSize: Option<int>,
    mimeTypes: Option<seq<string>>)

  /** One call of `signJwt(payload, key, options)`. */
  datatype SignRequest = SignRequest(payload: UploadTokenPayload, key: string, options: map<string, string>)

  /** The name of the private key upload grants are signed with. */
  const UploadUrlKey: string := "UPLOAD_URL"

  /** The key names the signing worker loads a private key for. */
  const KnownKeys: set<string> := {UploadUrlKey}

  /** `uploadUrlTokenOptions`: the issuer, when the deployment configures one. */
  function UploadUrlTokenOptions(issuer: Option<string>): (r: map<string, string>)
    ensures r.Keys <= {"issuer"}
    ensures "issuer" in r <==> issuer.Some?
    ensures issuer.Some? ==> r["issuer"] == issuer.value
  {
    if issuer.Some? then map["issuer" := issuer.value] else map[]
  }

  /**
   * `{algorithm: 'RS256', ...options}` in the signing worker: every caller
   * option survives the spread, only `algorithm` is added, and it is RS256
   * unless the caller's options name another algorithm.
   */
  function WorkerOptions(options: map<string, string>): (r: map<string, string>)
    ensures r.Keys == options.Keys + {"algorithm"}
    ensures forall k :: k in options ==> r[k] == options[k]
    ensures r["algorithm"] == (if "algorithm" in options then options["algorithm"] else "RS256")
  {
    map["algorithm" := "RS256"] + options
  }

  /**
   * The signing worker pool behind `signJwt`. `rs256` stands for
   * `jsonwebtoken.sign` with the named private key: a token, or nothing
   * when signing fails.
   */
  class Signer {
    const rs256: (UploadTokenPayload, string, map<string, string>) -> Option<string>
    /** Every request received so far, oldest first. */
    var calls: seq<SignRequest>

    constructor (rs256: (UploadTokenPayload, string, map<string, string>) -> Option<string>)
      ensures this.rs256 == rs256 && calls == []
    {
      this.rs256 := rs256;
      calls := [];
    }

    /** The worker's answer to `req`: an unknown key name fails; otherwise the options get the algorithm default. */
    function Answer(req: SignRequest): (r: Option<string>)
      ensures req.key !in KnownKeys ==> r.None?
    {
      if req.key in KnownKeys then rs256(req.payload, req.key, WorkerOptions(req.options)) else None
    }

    /** `signJwt(payload, key, options)`: one call recorded, answered by the worker. */
    method SignJwt(payload: UploadTokenPayload, key: string, options: map<string, string>) returns (token: Option<string>)
      modifies this
      ensures calls == old(calls) + [SignRequest(payload, key, options)]
      ensures token == Answer(SignRequest(payload, key, options))
    {
      calls := calls + [SignRequest(payload, key, options)];
      token := Answer(SignRequest(payload, key, options));
    }
  }
}
