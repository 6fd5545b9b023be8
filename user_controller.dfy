/** The self-service handlers of controllers/userController.js: `getMe`,
    `updateMe`, `deleteMe` and the `createUser` stub. A handler either sends
    a response (status and JSON body) or forwards an `AppError` to the
    error-handling middleware through `next`. */
module UserController {
  import opened JsValues
  import opened FieldFilter
  import opened Persistence

  /** An operational error carrying its HTTP status code. */
  datatype AppError = AppError(message: string, statusCode: nat)

  /** The `data` member of a success body: a user document (null when no
      document was found) or `data: null`. */
  datatype Data = UserData(user: Option<Record>) | NoData

  /** `{ status: 'success', data }` or `{ status: 'error', message }`. */
  datatype Body = SuccessBody(data: Data) | ErrorBody(message: string)

  /** What a handler does with the request: `res.status(..).json(..)` or `next(err)`. */
  datatype Outcome = Send(status: nat, body: Body) | Forward(error: AppError)

  const PasswordRouteMessage: string := "This route is not for password updates. Please use /updateMyPassword."
  const NotDefinedMessage: string := "This route is not defined! Please us /signup instead"

  /** The only fields a user may change about themselves. */
  const SelfEditable: seq<string> := ["name", "email"]

  /** The part of an Express request these handlers touch. `userId` is
      `req.user.id`, put there by the authentication middleware. */
  class Request {
    var params: map<string, string>
    const body: JsObject
    const userId: Id

    constructor (params: map<string, string>, body: JsObject, userId: Id)
      ensures this.params == params && this.body == body && this.userId == userId
    {
      this.params := params;
      this.body := body;
      this.userId := userId;
    }
  }

  /** The route parameters once `id` points at the caller: whatever `id`
      held before is replaced, every other parameter is kept. */
  function ResolveSelf(params: map<string, string>, caller: Id): (r: map<string, string>)
    ensures "id" in r && r["id"] == caller
    ensures forall k :: k != "id" ==> (k in r <==> k in params)
    ensures forall k :: k != "id" && k in params ==> r[k] == params[k]
  {
    params["id" := caller]
  }

  /** `getMe`: points the `id` route parameter at the caller so that the
      generic get-one handler that runs next reads the caller's own record. */
  method GetMe(req: Request)
    modifies req`params
    ensures req.params == ResolveSelf(old(req.params), req.userId)
  {
    req.params := req.params["id" := req.userId];
  }

  /** The guard of `updateMe`: the body carries a truthy `password` or
      `passwordConfirm`. A missing key reads as `undefined`, which is falsy. */
  predicate PasswordAttempt(body: JsObject)
    ensures PasswordAttempt(body) <==>
              || (Lookup(body, "password").Some? && Truthy(Lookup(body, "password").value))
              || (Lookup(body, "passwordConfirm").Some? && Truthy(Lookup(body, "passwordConfirm").value))
    ensures PasswordAttempt(body) ==> "password" in KeysOf(body) || "passwordConfirm" in KeysOf(body)
  {
    Truthy(Get(body, "password")) || Truthy(Get(body, "passwordConfirm"))
  }

  /** The fields `updateMe` hands to the data-access layer: exactly the
      body's `name` and `email`, with the body's values. */
  function SelfUpdate(body: JsObject): (fields: Record)
    ensures forall f :: f in fields <==> (f == "name" || f == "email") && f in KeysOf(body)
    ensures forall f :: f in fields ==> fields[f] == Get(body, f)
  {
    FilterKeys(body, SelfEditable);
    FilterLookup(body, SelfEditable);
    ToMap(Filter(body, SelfEditable))
  }

  /** `updateMe`: rejects password data with a 400 error and no update;
      otherwise merges the filtered body into the caller's own record and
      answers 200 with the updated record. */
  method UpdateMe(store: UserStore, req: Request) returns (out: Outcome)
    modifies store
    ensures PasswordAttempt(req.body) ==>
              out == Forward(AppError(PasswordRouteMessage, 400)) && store.users == old(store.users)
    ensures !PasswordAttempt(req.body) ==>
              && store.users == MergeById(old(store.users), req.userId, SelfUpdate(req.body))
              && out == Send(200, SuccessBody(UserData(FindById(store.users, req.userId))))
  {
    if Truthy(Get(req.body, "password")) || Truthy(Get(req.body, "passwordConfirm")) {
      return Forward(AppError(PasswordRouteMessage, 400));
    }
    var filteredBody := FilterObj(req.body, SelfEditable);
    var fields := ToMap(filteredBody);
    assert fields == SelfUpdate(req.body);
    var updatedUser := store.FindByIdAndUpdate(req.userId, fields);
    out := Send(200, SuccessBody(UserData(updatedUser)));
  }

  /** What an accepted self-update does to the collection: only the caller's
      record changes, and in it only `name` and `email`, to the body's
      values; `password`, `role` and every other field keep their values. */
  lemma UpdateMeFrame(users: map<Id, Record>, caller: Id, body: JsObject)
    ensures var r := MergeById(users, caller, SelfUpdate(body));
      && r.Keys == users.Keys
      && (forall id :: id in users && id != caller ==> r[id] == users[id])
      && (caller in users ==>
            && (forall f :: f in r[caller] <==> f in users[caller] || ((f == "name" || f == "email") && f in KeysOf(body)))
            && (forall f :: f in users[caller] && !((f == "name" || f == "email") && f in KeysOf(body)) ==>
                  r[caller][f] == users[caller][f])
            && (forall f :: (f == "name" || f == "email") && f in KeysOf(body) ==> r[caller][f] == Get(body, f)))
  {
  }

  /** The field-value pair that `deleteMe` writes. */
  const Deactivated: Record := map["active" := Bool(false)]

  /** `deleteMe`: a soft delete. The caller's record gets `active: false`
      and the response is 204 with `data: null`. */
  method DeleteMe(store: UserStore, req: Request) returns (out: Outcome)
    modifies store
    ensures store.users == MergeById(old(store.users), req.userId, Deactivated)
    ensures out == Send(204, SuccessBody(NoData))
  {
    var _ := store.FindByIdAndUpdate(req.userId, Deactivated);
    out := Send(204, SuccessBody(NoData));
  }

  /** Deactivation never removes a record: the caller's record is still
      there with `active` false and every other field as it was, and every
      other record is unchanged. */
  lemma DeleteMeSoft(users: map<Id, Record>, caller: Id)
    ensures var r := MergeById(users, caller, Deactivated);
      && r.Keys == users.Keys
      && (forall id :: id in users && id != caller ==> r[id] == users[id])
      && (caller in users ==>
            && r[caller].Keys == users[caller].Keys + {"active"}
            && r[caller]["active"] == Bool(false)
            && (forall f :: f in users[caller] && f != "active" ==> r[caller][f] == users[caller][f]))
  {
  }

  /** `createUser`: a stub that refuses every request with 500 and points
      to the signup route. */
  function CreateUser(req: Request): (out: Outcome)
    ensures out.Send? && out.status == 500
    ensures out.body == ErrorBody(NotDefinedMessage)
  {
    Send(500, ErrorBody(NotDefinedMessage))
  }

  /** A body with `name`, `email` and `role` but no password passes the
      guard. */
  lemma ScenarioRolePasses()
    ensures !PasswordAttempt([("name", Str("Ann")), ("email", Str("a@x.com")), ("role", Str("admin"))])
  {
    var body := [("name", Str("Ann")), ("email", Str("a@x.com")), ("role", Str("admin"))];
    assert Get(body, "password") == Undefined && Get(body, "passwordConfirm") == Undefined;
  }

  /** Filtering that body keeps its `name` and `email` entries, in that order. */
  lemma ScenarioRoleFiltered()
    ensures Filter([("name", Str("Ann")), ("email", Str("a@x.com")), ("role", Str("admin"))], SelfEditable)
              == [("name", Str("Ann")), ("email", Str("a@x.com"))]
  {
  }

  /** From that body only `name` and `email` reach the data-access layer;
      `role` is dropped. */
  lemma ScenarioRoleDropped()
    ensures SelfUpdate([("name", Str("Ann")), ("email", Str("a@x.com")), ("role", Str("admin"))])
              == map["name" := Str("Ann"), "email" := Str("a@x.com")]
  {
    var kept := [("name", Str("Ann")), ("email", Str("a@x.com"))];
    ScenarioRoleFiltered();
    assert KeysOf(kept) == ["name", "email"];
    assert Lookup(kept, "name") == Some(Str("Ann")) && Lookup(kept, "email") == Some(Str("a@x.com"));
  }

  /** A body with a non-empty password is rejected. */
  lemma ScenarioPasswordRejected()
    ensures PasswordAttempt([("password", Str("newpass"))])
  {
  }

  /** A falsy password (the empty string) and a null confirmation pass the
      guard. */
  lemma ScenarioFalsyPasswordPasses()
    ensures !PasswordAttempt([("password", Str("")), ("passwordConfirm", Null), ("email", Str("b@y.com"))])
  {
    var body := [("password", Str("")), ("passwordConfirm", Null), ("email", Str("b@y.com"))];
    assert Get(body, "password") == Str("") && Get(body, "passwordConfirm") == Null;
  }

  /** Filtering that body keeps only its `email` entry. */
  lemma ScenarioFalsyPasswordFiltered()
    ensures Filter([("password", Str("")), ("passwordConfirm", Null), ("email", Str("b@y.com"))], SelfEditable)
              == [("email", Str("b@y.com"))]
  {
  }

  /** The filter then drops both, so only `email` reaches the data-access
      layer. */
  lemma ScenarioFalsyPasswordDropped()
    ensures SelfUpdate([("password", Str("")), ("passwordConfirm", Null), ("email", Str("b@y.com"))])
              == map["email" := Str("b@y.com")]
  {
    var kept := [("email", Str("b@y.com"))];
    ScenarioFalsyPasswordFiltered();
    assert KeysOf(kept) == ["email"];
    assert Lookup(kept, "email") == Some(Str("b@y.com"));
  }
}
