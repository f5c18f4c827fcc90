/**
 * The products collection as the handlers see it through the driver: a table of
 * documents keyed by _id. Each operation may fail with a store fault, chosen
 * nondeterministically; a failed operation changes nothing.
 */
module ProductStore {
  import opened Common
  import opened Products

  /** The products of `found` are exactly the stored documents matching `f`, each once. */
  ghost predicate ExactlyMatching(found: seq<Product>, docs: map<ObjectId, Product>, f: Filter) {
    && (forall i :: 0 <= i < |found| ==>
          found[i].id in docs && docs[found[i].id] == found[i] && Matches(found[i], f))
    && (forall id :: id in docs && Matches(docs[id], f) ==> docs[id] in found)
    && (forall i, j :: 0 <= i < j < |found| ==> found[i].id != found[j].id)
  }

  class ProductCollection {
    var docs: map<ObjectId, Product>

    /** Every document is stored under its own _id. */
    ghost predicate Valid()
      reads this
    {
      forall id :: id in docs ==> docs[id].id == id
    }

    constructor ()
      ensures Valid() && docs == map[]
    {
      docs := map[];
    }

    /** FindOne by _id, decoded into a Product. */
    method FindOne(id: ObjectId) returns (r: Result<Product, Error>)
      ensures r.Ok? ==> id in docs && r.value == docs[id]
      ensures r.Err? ==> r.error == StoreFault || (r.error == NoDocuments && id !in docs)
      ensures id !in docs ==> r.Err?
    {
      var fault: bool := *;
      if fault {
        r := Err(StoreFault);
      } else if id in docs {
        r := Ok(docs[id]);
      } else {
        r := Err(NoDocuments);
      }
    }

    /** Find(filter) followed by reading the whole cursor; the order is the store's. */
    method Find(f: Filter) returns (r: Result<seq<Product>, Error>)
      requires Valid()
      ensures r.Ok? ==> ExactlyMatching(r.value, docs, f)
      ensures r.Err? ==> r.error == StoreFault
    {
      var fault: bool := *;
      if fault {
        return Err(StoreFault);
      }
      var pending := docs.Keys;
      var found: seq<Product> := [];
      while pending != {}
        invariant pending <= docs.Keys
        invariant forall i :: 0 <= i < |found| ==>
          found[i].id in docs.Keys - pending && docs[found[i].id] == found[i] && Matches(found[i], f)
        invariant forall id :: id in docs.Keys - pending && Matches(docs[id], f) ==> docs[id] in found
        invariant forall i, j :: 0 <= i < j < |found| ==> found[i].id != found[j].id
        decreases pending
      {
        var id :| id in pending;
        if Matches(docs[id], f) {
          found := found + [docs[id]];
        }
        pending := pending - {id};
      }
      r := Ok(found);
    }

    /** InsertOne: the unique index on _id rejects an id already stored. */
    method InsertOne(p: Product) returns (r: Result<ObjectId, Error>)
      requires Valid()
      modifies this
      ensures Valid()
      ensures r.Ok? ==> r.value == p.id && p.id !in old(docs) && docs == old(docs)[p.id := p]
      ensures r.Err? ==> docs == old(docs)
      ensures r.Err? ==> r.error == StoreFault || (r.error == DuplicateKey && p.id in old(docs))
    {
      var fault: bool := *;
      if fault {
        r := Err(StoreFault);
      } else if p.id in docs {
        r := Err(DuplicateKey);
      } else {
        docs := docs[p.id := p];
        r := Ok(p.id);
      }
    }

    /**
     * UpdateOne({_id: id}, {$set: doc}): no document matched is not an error; a
     * `$set` that would change the _id is rejected.
     */
    method UpdateOne(id: ObjectId, doc: ProductPatch) returns (err: Option<Error>)
      requires Valid()
      modifies this
      ensures Valid()
      ensures err.None? && id in old(docs) ==> docs == old(docs)[id := Merge(old(docs)[id], doc)]
      ensures err.None? && id !in old(docs) ==> docs == old(docs)
      ensures err.Some? ==> docs == old(docs)
      ensures err.Some? ==> err.value == StoreFault
                            || (err.value == ImmutableField && id in old(docs) && doc.id.Some? && doc.id.value != id)
      ensures id in old(docs) && doc.id.Some? && doc.id.value != id ==> err.Some?
    {
      var fault: bool := *;
      if fault {
        err := Some(StoreFault);
      } else if id !in docs {
        err := None;
      } else if doc.id.Some? && doc.id.value != id {
        err := Some(ImmutableField);
      } else {
        docs := docs[id := Merge(docs[id], doc)];
        err := None;
      }
    }

    /** DeleteOne by _id, reporting how many documents were deleted. */
    method DeleteOne(id: ObjectId) returns (r: Result<nat, Error>)
      requires Valid()
      modifies this
      ensures Valid()
      ensures r.Ok? ==> docs == old(docs) - {id} && r.value == (if id in old(docs) then 1 else 0)
      ensures r.Err? ==> r.error == StoreFault && docs == old(docs)
    {
      var fault: bool := *;
      if fault {
        r := Err(StoreFault);
      } else {
        r := Ok(if id in docs then 1 else 0);
        docs := docs - {id};
      }
    }
  }
}
