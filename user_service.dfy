/**
 * UserAPISample2/Services/UserService.cs over an in-memory store.
 *
 * The MongoDB context and its two collections become one `DocumentStore` object: the users
 * collection is a map from `_id` to the stored document, the counters collection a map
 * from sequence name to `seq`. Each service operation is a method that changes only the
 * collection the source sends it to. Failures that the driver raises (an id that is not
 * the text of an ObjectId, a duplicate `_id` on insert, a replacement that would change
 * `_id`) come back as `Failure` values.
 *
 * `User.Id` is stored as an ObjectId (`[BsonRepresentation(BsonType.ObjectId)]`), so the
 * driver compares ids as ObjectIds, not as text: the users map is keyed by the ObjectId
 * written in canonical text (`ObjectIds.Canonical`), and a stored document reads back with
 * that text as its id. Ids that differ only in the case of their letters name one document.
 */
module Services {
  import opened Wrappers
  import opened Models
  import ObjectIds

  /** Errors the store raises on a write; the service lets them propagate unchanged. */
  datatype StoreError =
    | InvalidObjectId     // an id that is not the text of an ObjectId (a `FormatException`)
    | DuplicateKey        // insert of a document whose `_id` is already taken
    | ImmutableIdChanged  // replace of a stored document by one with another `_id`

  /** The two collections the service reaches through the database context. */
  class DocumentStore {
    var users: map<string, User>
    var counters: map<string, int>

    /** Every user document is stored under its own `_id`, an ObjectId in canonical text. */
    ghost predicate Valid()
      reads this
    {
      forall k :: k in users ==> ObjectIds.IsCanonicalText(k) && users[k].id == Some(k)
    }

    constructor (users: map<string, User>, counters: map<string, int>)
      requires forall k :: k in users ==> ObjectIds.IsCanonicalText(k) && users[k].id == Some(k)
      ensures Valid() && this.users == users && this.counters == counters
    {
      this.users := users;
      this.counters := counters;
    }
  }

  /** `IUsersDatabaseSettings`: only the two collection names matter to the service. */
  datatype DatabaseSettings = DatabaseSettings(
    usersCollectionName: Option<string>,
    countersCollectionName: Option<string>)

  /** Exceptions the constructor can throw. */
  datatype ConstructionError =
    | ArgumentNull(paramName: string)  // ArgumentNullException(nameof(...))
    | NullReference                    // reading a property of a null settings object

  /** A call made on the service, in the order made: the counterpart of a mock's
      invocation record. */
  datatype ServiceCall =
    | IncrementSeqCall(sequenceName: string)
    | GetUserCall(id: string)
    | GetUsersCall
    | CreateUserCall(user: User)
    | UpdateUserCall(id: string, user: User)
    | DeleteUserCall(id: string)

  /** `users` lists, once each, the documents stored under the keys in `keys`. */
  predicate ListsExactly(users: seq<User>, store: map<string, User>, keys: set<string>) {
    && keys <= store.Keys
    && |users| == |keys|
    && (forall i :: 0 <= i < |users| ==>
          users[i].id.Some? && users[i].id.value in keys && store[users[i].id.value] == users[i])
    && (forall i, j :: 0 <= i < j < |users| ==> users[i].id != users[j].id)
    && (forall k :: k in keys ==> store[k] in users)
  }

  /** `users` lists every stored user exactly once, in some order. */
  predicate IsListing(users: seq<User>, store: map<string, User>) {
    ListsExactly(users, store, store.Keys)
  }

  /** Draining one more key from the cursor keeps the list exact. */
  lemma ListsOneMore(users: seq<User>, store: map<string, User>, keys: set<string>, k: string)
    requires ListsExactly(users, store, keys)
    requires k in store && k !in keys && store[k].id == Some(k)
    ensures ListsExactly(users + [store[k]], store, keys + {k})
  {
    var users' := users + [store[k]];
    assert users'[|users|] == store[k];
    forall i | 0 <= i < |users'|
      ensures users'[i].id.Some? && users'[i].id.value in keys + {k} && store[users'[i].id.value] == users'[i]
    {
      if i < |users| { assert users'[i] == users[i]; }
    }
    forall i, j | 0 <= i < j < |users'| ensures users'[i].id != users'[j].id {
      if j < |users| { assert users'[i] == users[i] && users'[j] == users[j]; }
      else { assert users'[i] == users[i]; }
    }
    forall k' | k' in keys + {k} ensures store[k'] in users' {
      if k' in keys {
        var i :| 0 <= i < |users| && users[i] == store[k'];
        assert users'[i] == store[k'];
      }
    }
  }

  /** A document the driver's id generator treats as having no id: its id is null or
      empty (`string.IsNullOrEmpty`). */
  predicate LacksId(u: User) {
    u.id.None? || u.id.value == ""
  }

  /** What the driver does to a document before inserting it: a document without an id
      (null or empty) receives the freshly generated one; any other id is kept. */
  function WithAssignedId(u: User, generated: string): (r: User)
    ensures r.id.Some?
    ensures !LacksId(u) ==> r == u
    ensures LacksId(u) ==> r.id == Some(generated) && r.(id := u.id) == u
  {
    if LacksId(u) then u.(id := Some(generated)) else u
  }

  /** The document the store holds for `u` under the `_id` `key`: the id reads back as the
      ObjectId's canonical text, every other field as written. */
  function AsStored(u: User, key: string): (r: User)
    ensures r.id == Some(key) && r.(id := u.id) == u
  {
    u.(id := Some(key))
  }

  class UserService {
    const store: DocumentStore
    const userCollectionName: string
    const countersCollectionName: string
    ghost var calls: seq<ServiceCall>

    constructor Init(store: DocumentStore, userCollectionName: string, countersCollectionName: string)
      ensures this.store == store && this.calls == []
      ensures this.userCollectionName == userCollectionName
      ensures this.countersCollectionName == countersCollectionName
    {
      this.store := store;
      this.userCollectionName := userCollectionName;
      this.countersCollectionName := countersCollectionName;
      this.calls := [];
    }

    /**
     * `new UserService(mongoDbContext, settings)`: the context is checked first, then the
     * users collection name, then the counters collection name.
     */
    static method New(context: DocumentStore?, settings: Option<DatabaseSettings>)
      returns (r: Result<UserService, ConstructionError>)
      ensures context == null ==> r == Failure(ArgumentNull("mongoDbContext"))
      ensures context != null && settings.None? ==> r == Failure(NullReference)
      ensures context != null && settings.Some? &&
              (settings.value.usersCollectionName.None? || settings.value.countersCollectionName.None?)
              ==> r == Failure(ArgumentNull("settings"))
      ensures r.Success? <==>
              context != null && settings.Some? &&
              settings.value.usersCollectionName.Some? && settings.value.countersCollectionName.Some?
      ensures r.Success? ==>
              && fresh(r.value) && r.value.store == context && r.value.calls == []
              && r.value.userCollectionName == settings.value.usersCollectionName.value
              && r.value.countersCollectionName == settings.value.countersCollectionName.value
    {
      if context == null {
        return Failure(ArgumentNull("mongoDbContext"));
      }
      if settings.None? {
        return Failure(NullReference);
      }
      if settings.value.usersCollectionName.None? {
        return Failure(ArgumentNull("settings"));
      }
      if settings.value.countersCollectionName.None? {
        return Failure(ArgumentNull("settings"));
      }
      var service := new UserService.Init(context, settings.value.usersCollectionName.value,
                                          settings.value.countersCollectionName.value);
      return Success(service);
    }

    /**
     * `IncrementSeq`: find-one-and-update with `seq += 1`, returning the document after the
     * update. No upsert is requested, so an unknown name gives null and creates nothing.
     */
    method IncrementSeq(sequenceName: string) returns (r: Option<Counter>)
      modifies store`counters, this`calls
      ensures calls == old(calls) + [IncrementSeqCall(sequenceName)]
      ensures store.users == old(store.users)
      ensures sequenceName in old(store.counters) ==>
                var next := old(store.counters[sequenceName]) + 1;
                r == Some(Counter(sequenceName, next)) && store.counters == old(store.counters)[sequenceName := next]
      ensures sequenceName !in old(store.counters) ==> r == None && store.counters == old(store.counters)
    {
      calls := calls + [IncrementSeqCall(sequenceName)];
      if sequenceName in store.counters {
        var next := store.counters[sequenceName] + 1;
        store.counters := store.counters[sequenceName := next];
        r := Some(Counter(sequenceName, next));
      } else {
        r := None;
      }
    }

    /** `GetUserAsync`: the first document whose `_id` equals `id` read as an ObjectId, or
        null; an id that is not the text of an ObjectId cannot be put into the filter. */
    method GetUserAsync(id: string) returns (r: Result<Option<User>, StoreError>)
      requires store.Valid()
      modifies this`calls
      ensures calls == old(calls) + [GetUserCall(id)]
      ensures ObjectIds.Canonical(id).None? ==> r == Failure(InvalidObjectId)
      ensures ObjectIds.Canonical(id).Some? ==>
                var key := ObjectIds.Canonical(id).value;
                && r.Success?
                && (r.value.Some? <==> key in store.users)
                && (r.value.Some? ==> r.value.value == store.users[key] && r.value.value.id == Some(key))
    {
      calls := calls + [GetUserCall(id)];
      var key := ObjectIds.Canonical(id);
      if key.None? {
        return Failure(InvalidObjectId);
      }
      if key.value in store.users {
        r := Success(Some(store.users[key.value]));
      } else {
        r := Success(None);
      }
    }

    /** `GetUsersAsync`: the cursor over the whole collection, drained into a list. */
    method GetUsersAsync() returns (r: seq<User>)
      requires store.Valid()
      modifies this`calls
      ensures calls == old(calls) + [GetUsersCall]
      ensures IsListing(r, store.users)
    {
      calls := calls + [GetUsersCall];
      var documents := store.users;
      var pending := documents.Keys;
      ghost var drained: set<string> := {};
      r := [];
      while pending != {}
        invariant pending !! drained && pending + drained == documents.Keys
        invariant ListsExactly(r, documents, drained)
        invariant calls == old(calls) + [GetUsersCall] && documents == store.users
        decreases pending
      {
        var k :| k in pending;
        ListsOneMore(r, documents, drained, k);
        r := r + [documents[k]];
        pending := pending - {k};
        drained := drained + {k};
      }
      assert drained == documents.Keys;
    }

    /**
     * `CreateUserAsync`: inserts the document and returns the same object. The driver first
     * writes `generated` (the text of a freshly generated ObjectId) into an object whose id
     * is null or empty; an id that is not the text of an ObjectId cannot be serialised, and an
     * ObjectId already in use makes the insert fail with a duplicate key.
     */
    method CreateUserAsync(user: UserObject, generated: ObjectIds.ObjectId)
      returns (r: Result<UserObject, StoreError>)
      requires store.Valid()
      modifies store`users, user, this`calls
      ensures store.Valid() && store.counters == old(store.counters)
      ensures calls == old(calls) + [CreateUserCall(old(user.value))]
      ensures user.value == WithAssignedId(old(user.value), ObjectIds.ToString(generated))
      ensures ObjectIds.Canonical(user.value.id.value).None? ==>
                r == Failure(InvalidObjectId) && store.users == old(store.users)
      ensures ObjectIds.Canonical(user.value.id.value).Some? ==>
                var key := ObjectIds.Canonical(user.value.id.value).value;
                && (key in old(store.users) ==> r == Failure(DuplicateKey) && store.users == old(store.users))
                && (key !in old(store.users) ==>
                      r == Success(user) && store.users == old(store.users)[key := AsStored(user.value, key)])
    {
      calls := calls + [CreateUserCall(user.value)];
      user.value := WithAssignedId(user.value, ObjectIds.ToString(generated));
      var key := ObjectIds.Canonical(user.value.id.value);
      if key.None? {
        r := Failure(InvalidObjectId);
      } else if key.value in store.users {
        r := Failure(DuplicateKey);
      } else {
        store.users := store.users[key.value := AsStored(user.value, key.value)];
        r := Success(user);
      }
    }

    /**
     * `UpdateUserAsync`: replaces the document whose `_id` equals `id` and reports whether
     * the modified count is nonzero. Both `id` and the replacement's id must be ObjectId
     * text; no match and an identical replacement both give false; a replacement whose id
     * is missing or names another ObjectId would change the stored `_id`.
     */
    method UpdateUserAsync(id: string, user: UserObject) returns (r: Result<bool, StoreError>)
      requires store.Valid()
      modifies store`users, this`calls
      ensures store.Valid() && store.counters == old(store.counters)
      ensures calls == old(calls) + [UpdateUserCall(id, user.value)]
      ensures ObjectIds.Canonical(id).None? ||
              (user.value.id.Some? && ObjectIds.Canonical(user.value.id.value).None?) ==>
                r == Failure(InvalidObjectId) && store.users == old(store.users)
      ensures ObjectIds.Canonical(id).Some? &&
              (user.value.id.Some? ==> ObjectIds.Canonical(user.value.id.value).Some?) ==>
                var key := ObjectIds.Canonical(id).value;
                && (key !in old(store.users) ==> r == Success(false) && store.users == old(store.users))
                && (key in old(store.users) &&
                    (user.value.id.None? || ObjectIds.Canonical(user.value.id.value).value != key) ==>
                      r == Failure(ImmutableIdChanged) && store.users == old(store.users))
                && (key in old(store.users) &&
                    user.value.id.Some? && ObjectIds.Canonical(user.value.id.value).value == key ==>
                      && r == Success(old(store.users)[key] != AsStored(user.value, key))
                      && store.users == old(store.users)[key := AsStored(user.value, key)])
    {
      calls := calls + [UpdateUserCall(id, user.value)];
      var key := ObjectIds.Canonical(id);
      if key.None? || (user.value.id.Some? && ObjectIds.Canonical(user.value.id.value).None?) {
        r := Failure(InvalidObjectId);
      } else if key.value !in store.users {
        r := Success(false);
      } else if user.value.id.None? || ObjectIds.Canonical(user.value.id.value).value != key.value {
        r := Failure(ImmutableIdChanged);
      } else {
        var replacement := AsStored(user.value, key.value);
        var modified := store.users[key.value] != replacement;
        store.users := store.users[key.value := replacement];
        r := Success(modified);
      }
    }

    /** `DeleteUserAsync`: removes the document whose `_id` equals `id` read as an ObjectId
        and reports whether the deleted count is nonzero. */
    method DeleteUserAsync(id: string) returns (r: Result<bool, StoreError>)
      requires store.Valid()
      modifies store`users, this`calls
      ensures store.Valid() && store.counters == old(store.counters)
      ensures calls == old(calls) + [DeleteUserCall(id)]
      ensures ObjectIds.Canonical(id).None? ==> r == Failure(InvalidObjectId) && store.users == old(store.users)
      ensures ObjectIds.Canonical(id).Some? ==>
                var key := ObjectIds.Canonical(id).value;
                && r == Success(key in old(store.users))
                && store.users == old(store.users) - {key}
    {
      calls := calls + [DeleteUserCall(id)];
      var key := ObjectIds.Canonical(id);
      if key.None? {
        return Failure(InvalidObjectId);
      }
      r := Success(key.value in store.users);
      store.users := store.users - {key.value};
    }
  }

  /**
   * A user without an id is created, read back, deleted, and read again: the store gives
   * it a well-formed id, the read returns the three fields that were posted, the delete
   * reports success, the second read finds nothing, and the collection is as before.
   */
  method CreateGetDeleteScenario(service: UserService, generated: ObjectIds.ObjectId)
    returns (created: Result<UserObject, StoreError>, fetched: Result<Option<User>, StoreError>,
             deleted: Result<bool, StoreError>, refetched: Result<Option<User>, StoreError>)
    requires service.store.Valid()
    requires ObjectIds.ToString(generated) !in service.store.users
    modifies service, service.store
    ensures created.Success? && created.value.value.id == Some(ObjectIds.ToString(generated))
    ensures ObjectIds.IsCanonicalText(created.value.value.id.value)
    ensures fetched.Success? && fetched.value.Some?
    ensures fetched.value.value.name == Some("John Doe") && fetched.value.value.username == Some("johndoe")
    ensures fetched.value.value.email == Some("johndoe@example.com")
    ensures deleted == Success(true) && refetched == Success(None)
    ensures service.store.users == old(service.store.users)
  {
    var user := new UserObject(User(None, Some("John Doe"), Some("johndoe"), Some("johndoe@example.com"),
                                    None, None, None, None));
    ObjectIds.CanonicalIdempotent(ObjectIds.ToString(generated));
    created := service.CreateUserAsync(user, generated);
    var id := user.value.id.value;
    fetched := service.GetUserAsync(id);
    deleted := service.DeleteUserAsync(id);
    refetched := service.GetUserAsync(id);
  }

  /** Two increments of an existing counter hand out the next two values in turn. */
  method IncrementTwiceScenario(service: UserService, name: string)
    returns (first: Option<Counter>, second: Option<Counter>)
    requires name in service.store.counters
    modifies service, service.store
    ensures first == Some(Counter(name, old(service.store.counters[name]) + 1))
    ensures second == Some(Counter(name, old(service.store.counters[name]) + 2))
    ensures service.store.counters == old(service.store.counters)[name := old(service.store.counters[name]) + 2]
  {
    first := service.IncrementSeq(name);
    second := service.IncrementSeq(name);
  }
}
