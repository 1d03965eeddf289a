/**
 * The pieces of Mongoose schema behaviour both models share: the `trim`
 * and `lowercase` setters applied to string arrays (which default to an
 * empty array when absent), the `required` check on strings, and the
 * value of a `Date` path.
 */
module Schema {
  import opened Wrappers
  import opened Text

  /** A value held in a `Date`-typed path: a native date, or text such as an ISO-8601 rendering. */
  datatype DateField = Date(millis: int) | DateString(text: string)

  /** `required: true` on a `String` path: present and not the empty string. */
  predicate RequiredString(v: Option<string>) {
    v.Some? && v.value != ""
  }

  /** `trim: true` on a `String` path. */
  function TrimmedString(v: Option<string>): (r: Option<string>)
    ensures r.Some? == v.Some?
    ensures r.Some? ==> IsTrimmed(r.value)
  {
    if v.Some? then Some(Trim(v.value)) else None
  }

  /** `type: [String], trim: true`: every entry trimmed; an absent array becomes `[]`. */
  function TrimmedArray(v: Option<seq<string>>): (r: seq<string>)
    ensures |r| == (if v.Some? then |v.value| else 0)
    ensures forall i :: 0 <= i < |r| ==> IsTrimmed(r[i])
  {
    if v.None? then []
    else seq(|v.value|, i requires 0 <= i < |v.value| => Trim(v.value[i]))
  }

  /** `type: [String], lowercase: true, trim: true`: every entry lowercased and trimmed; absent becomes `[]`. */
  function LoweredArray(v: Option<seq<string>>): (r: seq<string>)
    ensures |r| == (if v.Some? then |v.value| else 0)
    ensures forall i :: 0 <= i < |r| ==> IsTrimmed(r[i]) && IsLower(r[i])
  {
    if v.None? then []
    else
      var r := seq(|v.value|, i requires 0 <= i < |v.value| => Trim(ToLower(v.value[i])));
      assert forall i :: 0 <= i < |r| ==> r[i] == Trim(ToLower(v.value[i])) by {
        forall i | 0 <= i < |r| ensures r[i] == Trim(ToLower(v.value[i])) { }
      }
      LowerTrimAll(v.value);
      r
  }

  lemma LowerTrimAll(xs: seq<string>)
    ensures forall i :: 0 <= i < |xs| ==> IsLower(Trim(ToLower(xs[i]))) && IsTrimmed(Trim(ToLower(xs[i])))
  {
    forall i | 0 <= i < |xs|
      ensures IsLower(Trim(ToLower(xs[i]))) && IsTrimmed(Trim(ToLower(xs[i])))
    {
      LowerTrimCommute(xs[i]);
    }
  }

  /** Every entry of a string array as the setters leave it. */
  predicate AllTrimmed(xs: seq<string>) {
    forall i :: 0 <= i < |xs| ==> IsTrimmed(xs[i])
  }

  predicate AllTrimmedLower(xs: seq<string>) {
    forall i :: 0 <= i < |xs| ==> IsTrimmed(xs[i]) && IsLower(xs[i])
  }

  /** Setting an already normalised array again changes nothing: the setters are idempotent. */
  lemma {:induction false} TrimmedArrayIdempotent(xs: seq<string>)
    ensures TrimmedArray(Some(TrimmedArray(Some(xs)))) == TrimmedArray(Some(xs))
    ensures LoweredArray(Some(LoweredArray(Some(xs)))) == LoweredArray(Some(xs))
  {
    var t := TrimmedArray(Some(xs));
    forall i | 0 <= i < |xs| ensures Trim(t[i]) == t[i] {
      TrimIdempotent(xs[i]);
    }
    var l := LoweredArray(Some(xs));
    forall i | 0 <= i < |xs| ensures Trim(ToLower(l[i])) == l[i] {
      LowerTrimCommute(xs[i]);
      ToLowerIdempotent(Trim(xs[i]));
      TrimIdempotent(ToLower(xs[i]));
      LowerTrimCommute(l[i]);
    }
  }
}
