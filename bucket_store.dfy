/** The bucket collection as the handlers use it: `save()` of a new document and `findById` with a projection. */
module BucketStore {
  import opened Wrappers
  import opened BucketModel

  class Store {
    /** The stored documents, by `_id`. */
    var docs: map<string, BucketDocument>

    ghost predicate Valid()
      reads this
    {
      CollectionInvariant(docs)
    }

    constructor ()
      ensures Valid() && docs == map[]
    {
      docs := map[];
    }

    /**
     * `bucketModel.save()` of a document the schema has cast: stores `d`
     * when it passes validation and no unique index already holds its
     * keys; on failure nothing changes.
     */
    method Save(d: BucketDocument) returns (r: Outcome<SaveError>)
      requires Valid() && Normalized(d)
      modifies this
      ensures Valid()
      ensures Insert(old(docs), d).Success? ==> r == Pass && docs == Insert(old(docs), d).value
      ensures Insert(old(docs), d).Failure? ==> r == Fail(Insert(old(docs), d).error) && docs == old(docs)
      ensures r.Pass? ==> docs == old(docs)[d.id := d] && d.id !in old(docs)
    {
      InsertPreservesInvariant(docs, d);
      match Insert(docs, d)
      case Success(next) =>
        docs := next;
        r := Pass;
      case Failure(e) =>
        r := Fail(e);
    }

    /** `findById(id, projection).exec()`: reads the store and changes nothing. */
    method FindById(id: string, fields: set<BucketPath>) returns (found: Option<BucketDocument>)
      ensures found == BucketModel.FindById(docs, id, fields)
    {
      if id in docs {
        found := Some(Project(docs[id], fields));
      } else {
        found := None;
      }
    }
  }
}
