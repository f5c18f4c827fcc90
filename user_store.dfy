/**
 * The users collection as the handlers see it through the driver: a table of
 * documents keyed by a driver-generated _id, with the unique index on "username"
 * created at startup. Each operation may fail with a store fault, chosen
 * nondeterministically; a failed operation changes nothing.
 */
module UserStore {
  import opened Common
  import opened Users

  class UserCollection {
    var docs: map<ObjectId, User>

    /** The unique index: at most one stored user per username. */
    ghost predicate Valid()
      reads this
    {
      UniqueUsernames(docs)
    }

    constructor ()
      ensures Valid() && docs == map[]
    {
      docs := map[];
    }

    /** FindOne({username: name}), decoded into a User. */
    method FindOneByUsername(name: string) returns (r: Result<User, Error>)
      requires Valid()
      ensures r.Ok? ==> r.value.email == name && exists id :: id in docs && docs[id] == r.value
      ensures r.Ok? ==> forall id :: id in docs && docs[id].email == name ==> docs[id] == r.value
      ensures r.Err? ==> r.error == StoreFault || (r.error == NoDocuments && !HasUsername(docs, name))
      ensures !HasUsername(docs, name) ==> r.Err?
    {
      var fault: bool := *;
      if fault {
        r := Err(StoreFault);
      } else if HasUsername(docs, name) {
        var id :| id in docs && docs[id].email == name;
        r := Ok(docs[id]);
      } else {
        r := Err(NoDocuments);
      }
    }

    /**
     * InsertOne of a document without _id: the driver generates one, and the
     * unique indexes on _id and on "username" reject a duplicate.
     */
    method InsertOne(u: User) returns (r: Result<ObjectId, Error>)
      requires Valid()
      modifies this
      ensures Valid()
      ensures r.Ok? ==> r.value !in old(docs) && !HasUsername(old(docs), u.email)
                        && docs == old(docs)[r.value := u]
      ensures r.Err? ==> docs == old(docs) && (r.error == StoreFault || r.error == DuplicateKey)
      ensures HasUsername(old(docs), u.email) ==> r.Err?
    {
      var id := NewObjectId();
      var fault: bool := *;
      if fault {
        r := Err(StoreFault);
      } else if id in docs || HasUsername(docs, u.email) {
        r := Err(DuplicateKey);
      } else {
        InsertKeepsUnique(docs, id, u);
        docs := docs[id := u];
        r := Ok(id);
      }
    }
  }
}
