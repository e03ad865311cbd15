/**
 * UserAPISample2/Controllers/UserController.cs: each action checks its inputs in a fixed
 * order (model state, then the path id), calls the service at most once with the
 * canonical id, and turns the service's answer into an HTTP result.
 *
 * The actions run against the in-memory `UserService`, so their contracts say what the
 * response is in terms of the stored documents, and the service's call record says which
 * service operation was invoked and with what.
 */
module Controllers {
  import opened Wrappers
  import opened Models
  import ObjectIds
  import Validation
  import Services

  /** The body of a 400 response. */
  datatype BadRequestBody =
    | InvalidIdFormat                                    // "Invalid id format"
    | SerializableError(errors: seq<Validation.FieldError>)  // the model state

  datatype ActionResult =
    | OkUsers(users: seq<User>)
    | OkUser(user: User)
    | BadRequest(body: BadRequestBody)
    | NotFound
    | CreatedAtGetUserById(id: Option<string>, user: User)  // route value `id` and the body
    | NoContent

  /** How an action ends: with a result, or with a store error that propagates to the
      global exception filter. */
  datatype Outcome = Returned(result: ActionResult) | Threw(error: Services.StoreError)

  function StatusCode(r: ActionResult): (code: int)
    ensures code in {200, 201, 204, 400, 404}
    ensures code == 400 <==> r.BadRequest?
    ensures code == 404 <==> r.NotFound?
  {
    match r
    case OkUsers(_) => 200
    case OkUser(_) => 200
    case BadRequest(_) => 400
    case NotFound => 404
    case CreatedAtGetUserById(_, _) => 201
    case NoContent => 204
  }

  class UserController {
    const service: Services.UserService

    constructor (service: Services.UserService)
      ensures this.service == service
    {
      this.service := service;
    }

    /** `GetAllUsers`: always 200 with the service's list. */
    method GetAllUsers() returns (r: ActionResult)
      requires service.store.Valid()
      modifies service`calls
      ensures service.calls == old(service.calls) + [Services.GetUsersCall]
      ensures r.OkUsers? && Services.IsListing(r.users, service.store.users)
    {
      var users := service.GetUsersAsync();
      r := OkUsers(users);
    }

    /** `GetUserById`: 400 without a service call when the id is not an ObjectId; otherwise
        looks up the canonical id and answers 404 or 200 with the document. */
    method GetUserById(id: string) returns (r: ActionResult)
      requires service.store.Valid()
      modifies service`calls
      ensures ObjectIds.Canonical(id).None? ==>
                r == BadRequest(InvalidIdFormat) && service.calls == old(service.calls)
      ensures ObjectIds.Canonical(id).Some? ==>
                var key := ObjectIds.Canonical(id).value;
                && service.calls == old(service.calls) + [Services.GetUserCall(key)]
                && (key in service.store.users ==> r == OkUser(service.store.users[key]))
                && (key !in service.store.users ==> r == NotFound)
      ensures StatusCode(r) in {200, 400, 404}
    {
      var canonical := ObjectIds.Canonical(id);
      if canonical.None? {
        return BadRequest(InvalidIdFormat);
      }
      ObjectIds.CanonicalIdempotent(id);
      var found := service.GetUserAsync(canonical.value);
      assert found.Success?;
      if found.value.None? {
        return NotFound;
      }
      r := OkUser(found.value.value);
    }

    /**
     * `CreateUser`: 400 with the model state, and no service call, when the model state
     * holds errors; otherwise one insert, then 201 pointing at `GetUserById` with the id the
     * store left in the object. An id that is not ObjectId text, or a duplicate one,
     * escapes as the store's error.
     */
    method CreateUser(user: UserObject, modelState: seq<Validation.FieldError>, generated: ObjectIds.ObjectId)
      returns (r: Outcome)
      requires service.store.Valid()
      modifies service`calls, service.store`users, user
      ensures service.store.Valid()
      ensures modelState != [] ==>
                && r == Returned(BadRequest(SerializableError(modelState)))
                && service.calls == old(service.calls)
                && service.store.users == old(service.store.users)
                && user.value == old(user.value)
      ensures modelState == [] ==>
                && service.calls == old(service.calls) + [Services.CreateUserCall(old(user.value))]
                && user.value == Services.WithAssignedId(old(user.value), ObjectIds.ToString(generated))
      ensures modelState == [] && ObjectIds.Canonical(user.value.id.value).None? ==>
                r == Threw(Services.InvalidObjectId) && service.store.users == old(service.store.users)
      ensures modelState == [] && ObjectIds.Canonical(user.value.id.value).Some? ==>
                var key := ObjectIds.Canonical(user.value.id.value).value;
                && (key !in old(service.store.users) ==>
                      && r == Returned(CreatedAtGetUserById(user.value.id, user.value))
                      && service.store.users == old(service.store.users)[key := Services.AsStored(user.value, key)])
                && (key in old(service.store.users) ==>
                      r == Threw(Services.DuplicateKey) && service.store.users == old(service.store.users))
      ensures r.Returned? ==> StatusCode(r.result) in {201, 400}
    {
      if modelState != [] {
        return Returned(BadRequest(SerializableError(modelState)));
      }
      var created := service.CreateUserAsync(user, generated);
      if created.Failure? {
        return Threw(created.error);
      }
      r := Returned(CreatedAtGetUserById(user.value.id, user.value));
    }

    /**
     * `UpdateUser`: the model state is checked before the id, so a bad payload gives 400
     * even with a malformed id. With both good, the payload's id is overwritten with the
     * canonical path id and the same id goes to the service: false gives 404 (also for a
     * replacement identical to the stored document), true gives 204. The store's
     * changed-id error cannot arise, so no exception escapes.
     */
    method UpdateUser(id: string, user: UserObject, modelState: seq<Validation.FieldError>)
      returns (r: Outcome)
      requires service.store.Valid()
      modifies service`calls, service.store`users, user
      ensures service.store.Valid()
      ensures r.Returned? && StatusCode(r.result) in {204, 400, 404}
      ensures modelState != [] ==>
                && r == Returned(BadRequest(SerializableError(modelState)))
                && service.calls == old(service.calls)
                && service.store.users == old(service.store.users)
                && user.value == old(user.value)
      ensures modelState == [] && ObjectIds.Canonical(id).None? ==>
                && r == Returned(BadRequest(InvalidIdFormat))
                && service.calls == old(service.calls)
                && service.store.users == old(service.store.users)
                && user.value == old(user.value)
      ensures modelState == [] && ObjectIds.Canonical(id).Some? ==>
                var key := ObjectIds.Canonical(id).value;
                && user.value == old(user.value).(id := Some(key))
                && service.calls == old(service.calls) + [Services.UpdateUserCall(key, user.value)]
                && (key !in old(service.store.users) ==>
                      r == Returned(NotFound) && service.store.users == old(service.store.users))
                && (key in old(service.store.users) && old(service.store.users)[key] == user.value ==>
                      r == Returned(NotFound) && service.store.users == old(service.store.users))
                && (key in old(service.store.users) && old(service.store.users)[key] != user.value ==>
                      r == Returned(NoContent) && service.store.users == old(service.store.users)[key := user.value])
    {
      if modelState != [] {
        return Returned(BadRequest(SerializableError(modelState)));
      }
      var canonical := ObjectIds.Canonical(id);
      if canonical.None? {
        return Returned(BadRequest(InvalidIdFormat));
      }
      ObjectIds.CanonicalIdempotent(id);
      user.value := user.value.(id := Some(canonical.value));
      var updated := service.UpdateUserAsync(user.value.id.value, user);
      assert updated.Success?;
      if !updated.value {
        return Returned(NotFound);
      }
      r := Returned(NoContent);
    }

    /** `DeleteUser`: 400 without a service call when the id is not an ObjectId; otherwise
        deletes by the canonical id and answers 204 when a document went, 404 when none. */
    method DeleteUser(id: string) returns (r: ActionResult)
      requires service.store.Valid()
      modifies service`calls, service.store`users
      ensures service.store.Valid()
      ensures ObjectIds.Canonical(id).None? ==>
                && r == BadRequest(InvalidIdFormat)
                && service.calls == old(service.calls)
                && service.store.users == old(service.store.users)
      ensures ObjectIds.Canonical(id).Some? ==>
                var key := ObjectIds.Canonical(id).value;
                && service.calls == old(service.calls) + [Services.DeleteUserCall(key)]
                && (r == NoContent <==> key in old(service.store.users))
                && (r == NotFound <==> key !in old(service.store.users))
                && service.store.users == old(service.store.users) - {key}
      ensures StatusCode(r) in {204, 400, 404}
    {
      var canonical := ObjectIds.Canonical(id);
      if canonical.None? {
        return BadRequest(InvalidIdFormat);
      }
      ObjectIds.CanonicalIdempotent(id);
      var deleted := service.DeleteUserAsync(canonical.value);
      assert deleted.Success?;
      if !deleted.value {
        return NotFound;
      }
      r := NoContent;
    }
  }

  /**
   * A user posted with a clean model state can be fetched at once through the id in the
   * `CreatedAtAction` result: one posted without an id (null or empty) gets the generated
   * id, and one posted with an ObjectId in any letter case is found under that same text
   * and comes back with the id in canonical form. Nothing else about the user changes.
   */
  method PostThenGetScenario(controller: UserController, user: UserObject, generated: ObjectIds.ObjectId)
    returns (posted: Outcome, fetched: ActionResult)
    requires controller.service.store.Valid()
    requires Services.LacksId(user.value) ==> ObjectIds.ToString(generated) !in controller.service.store.users
    requires !Services.LacksId(user.value) ==> ObjectIds.Canonical(user.value.id.value).Some?
    requires !Services.LacksId(user.value) ==>
               ObjectIds.Canonical(user.value.id.value).value !in controller.service.store.users
    modifies controller.service, controller.service.store, user
    ensures posted.Returned? && posted.result.CreatedAtGetUserById?
    ensures Services.LacksId(old(user.value)) ==>
              && posted.result.id == Some(ObjectIds.ToString(generated))
              && fetched == OkUser(old(user.value).(id := Some(ObjectIds.ToString(generated))))
    ensures !Services.LacksId(old(user.value)) ==>
              && posted.result.id == old(user.value).id
              && fetched == OkUser(old(user.value).(id := ObjectIds.Canonical(old(user.value).id.value)))
  {
    ObjectIds.CanonicalIdempotent(ObjectIds.ToString(generated));
    posted := controller.CreateUser(user, [], generated);
    fetched := controller.GetUserById(posted.result.id.value);
  }
}
