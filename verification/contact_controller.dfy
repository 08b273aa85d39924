/**
  The ownership-scoped contact controller: list, create, update and delete.

  Every operation is a side-effect-free function or method of the caller's
  identity (absent when no authentication middleware set one), the request
  inputs and the store, and yields an `Outcome`: the reply sent to the client and the store afterwards.
  A failing operation replies with an error status and message and returns
  the store it was given. Only the order of the list `GetContacts` returns
  is left open.
 */
module ContactController {
  import opened ContactModel
  import Messages

  const StatusOk: int := 200
  const StatusCreated: int := 201
  const StatusBadRequest: int := 400
  const StatusUnauthorized: int := 401

  const UserNotFound: string := "User not found"
  const NameRequired: string := "name is required"
  const ContactNotFound: string := "Contact not found"
  const NotAuthorized: string := "User not authorized"

  /** A success carries a payload; an error carries the message the handler throws. */
  datatype Reply<+T> = Ok(status: int, value: T) | Fail(status: int, message: string)

  datatype Outcome<+T> = Outcome(reply: Reply<T>, store: Store)

  /**
    Why an update or delete on `id` is refused. It holds what a `Fail` reply
    holds, but carries no payload type: update replies with a `Record` and
    delete with a `ContactId`, and one refusal serves both. `Reject` turns it
    into the reply of either.
   */
  datatype Denial = Denial(status: int, message: string) {
    function Reject<T>(): (r: Reply<T>)
      ensures r.Fail? && r.status == status && r.message == message
    {
      Fail(status, message)
    }
  }

  /**
    The load-then-authorize sequence shared by update and delete: the record
    must exist, then a caller must be present, then it must own the record.
   */
  function Authorize(caller: Option<UserId>, id: ContactId, store: Store): (d: Option<Denial>)
    ensures d.None? <==> id in store && caller == Some(store[id].user)
    ensures id !in store ==> d == Some(Denial(StatusBadRequest, ContactNotFound))
    ensures id in store && caller.None? ==> d == Some(Denial(StatusUnauthorized, UserNotFound))
    ensures id in store && caller.Some? && caller.value != store[id].user ==>
              d == Some(Denial(StatusUnauthorized, NotAuthorized))
  {
    if id !in store then Some(Denial(StatusBadRequest, ContactNotFound))
    else if caller.None? then Some(Denial(StatusUnauthorized, UserNotFound))
    else if store[id].user != caller.value then Some(Denial(StatusUnauthorized, NotAuthorized))
    else None
  }

  /**
    GET /api/contacts: every record of the caller, in whatever order the
    store yields them.
   */
  method GetContacts(caller: Option<UserId>, store: Store) returns (out: Outcome<seq<Record>>)
    ensures out.store == store
    ensures caller.None? ==> out.reply == Fail(StatusUnauthorized, UserNotFound)
    ensures caller.Some? ==> out.reply.Ok? && out.reply.status == StatusOk
    ensures caller.Some? ==> AsMap(out.reply.value) == Owned(store, caller.value)
    ensures caller.Some? ==> DistinctIds(out.reply.value)
  {
    if caller.None? {
      return Outcome(Fail(StatusUnauthorized, UserNotFound), store);
    }
    var u := caller.value;
    var rs: seq<Record> := [];
    var todo := store.Keys;
    while todo != {}
      invariant todo <= store.Keys
      invariant AsMap(rs) == OwnedAmong(store, u, store.Keys - todo)
      invariant forall i :: 0 <= i < |rs| ==> rs[i].id in store.Keys - todo
      invariant DistinctIds(rs)
      decreases todo
    {
      var id :| id in todo;
      var done := store.Keys - todo;
      OwnedAmongStep(store, u, done, id);
      if store[id].user == u {
        AsMapAppend(rs, Record(id, store[id]));
        rs := rs + [Record(id, store[id])];
      }
      todo := todo - {id};
      assert store.Keys - todo == done + {id};
    }
    assert store.Keys - todo == store.Keys;
    assert OwnedAmong(store, u, store.Keys) == Owned(store, u);
    return Outcome(Ok(StatusOk, rs), store);
  }

  /** The records of `u` whose ids are among `keys`. */
  ghost function OwnedAmong(store: Store, u: UserId, keys: set<ContactId>): (view: Store) {
    map id | id in keys && id in store && store[id].user == u :: store[id]
  }

  /** Taking one more key into account adds that record exactly when `u` owns it. */
  lemma OwnedAmongStep(store: Store, u: UserId, keys: set<ContactId>, id: ContactId)
    requires id in store && id !in keys
    ensures store[id].user == u ==>
              OwnedAmong(store, u, keys + {id}) == OwnedAmong(store, u, keys)[id := store[id]]
    ensures store[id].user != u ==> OwnedAmong(store, u, keys + {id}) == OwnedAmong(store, u, keys)
  {
  }

  /**
    The contact a successful create stores: owned by the caller, fields copied
    from the body. The model applies no schema default to absent fields.
   */
  function NewContact(u: UserId, body: Body): (c: Contact)
    requires Truthy(body.name)
    ensures c.user == u && c.name == body.name.value
    ensures c.email == body.email && c.phone == body.phone && c.kind == body.kind
  {
    Contact(u, body.name.value, body.email, body.phone, body.kind)
  }

  /**
    POST /api/contacts. The name is checked first, then the validation
    errors, then the caller. `newId` is the id the engine assigns, which is
    never one already in use.
   */
  function SetContact(caller: Option<UserId>, body: Body, errors: seq<string>, newId: ContactId, store: Store)
    : (out: Outcome<Record>)
    requires newId !in store
    ensures out.reply.Ok? <==> Truthy(body.name) && |errors| == 0 && caller.Some?
    ensures out.reply.Fail? ==> out.store == store
    ensures !Truthy(body.name) ==> out.reply == Fail(StatusBadRequest, NameRequired)
    ensures Truthy(body.name) && |errors| > 0 ==>
              out.reply == Fail(StatusBadRequest, Messages.Join(errors))
    ensures Truthy(body.name) && |errors| == 0 && caller.None? ==>
              out.reply == Fail(StatusUnauthorized, UserNotFound)
    ensures out.reply.Ok? ==>
              && out.reply.status == StatusCreated
              && out.reply.value.id == newId
              && out.reply.value.contact == NewContact(caller.value, body)
              && out.store == store[newId := out.reply.value.contact]
  {
    if !Truthy(body.name) then
      Outcome(Fail(StatusBadRequest, NameRequired), store)
    else if |errors| > 0 then
      Outcome(Fail(StatusBadRequest, Messages.Join(errors)), store)
    else if caller.None? then
      Outcome(Fail(StatusUnauthorized, UserNotFound), store)
    else
      var c := NewContact(caller.value, body);
      Outcome(Ok(StatusCreated, Record(newId, c)), store[newId := c])
  }

  /**
    The record after an update: every field present in the body replaces the
    stored one, every absent field is kept. The body's `user` is applied like
    any other field, so the owner can change.
   */
  function Merge(c: Contact, body: Body): (merged: Contact)
  {
    Contact(
      body.user.GetOr(c.user),
      body.name.GetOr(c.name),
      if body.email.Some? then body.email else c.email,
      if body.phone.Some? then body.phone else c.phone,
      if body.kind.Some? then body.kind else c.kind)
  }

  /** PUT /api/contacts/:id, as written: the whole body is merged into the record. */
  function UpdateContact(caller: Option<UserId>, id: ContactId, body: Body, store: Store)
    : (out: Outcome<Record>)
    ensures out.reply.Ok? <==> Authorize(caller, id, store).None?
    ensures out.reply.Fail? ==> out.store == store
    ensures out.reply.Fail? ==>
              Some(Denial(out.reply.status, out.reply.message)) == Authorize(caller, id, store)
    ensures out.reply.Ok? ==>
              && id in store
              && out.reply.status == StatusOk
              && out.reply.value == Record(id, Merge(store[id], body))
              && out.store == store[id := Merge(store[id], body)]
  {
    match Authorize(caller, id, store)
    case Some(d) => Outcome(d.Reject(), store)
    case None =>
      var updated := Merge(store[id], body);
      Outcome(Ok(StatusOk, Record(id, updated)), store[id := updated])
  }

  /** DELETE /api/contacts/:id: the record goes and the reply echoes the route id. */
  function DeleteContact(caller: Option<UserId>, id: ContactId, store: Store)
    : (out: Outcome<ContactId>)
    ensures out.reply.Ok? <==> Authorize(caller, id, store).None?
    ensures out.reply.Fail? ==> out.store == store
    ensures out.reply.Fail? ==>
              Some(Denial(out.reply.status, out.reply.message)) == Authorize(caller, id, store)
    ensures out.reply.Ok? ==>
              && out.reply == Ok(StatusOk, id)
              && id !in out.store
              && out.store.Keys == store.Keys - {id}
              && forall k :: k in out.store ==> out.store[k] == store[k]
  {
    match Authorize(caller, id, store)
    case Some(d) => Outcome(d.Reject(), store)
    case None => Outcome(Ok(StatusOk, id), store - {id})
  }

  /**
    PUT /api/contacts/:id with only the record fields forwarded: the same
    checks and merge as `UpdateContact`, but of the body only `name`,
    `email`, `phone` and `type` reach the update, as create picks them, so a
    `user` field is dropped.
   */
  function UpdateContactKeepingOwner(caller: Option<UserId>, id: ContactId, body: Body, store: Store)
    : (out: Outcome<Record>)
    ensures out.reply.Ok? <==> Authorize(caller, id, store).None?
    ensures out.reply.Fail? ==> out.store == store
    ensures out.reply.Fail? ==>
              Some(Denial(out.reply.status, out.reply.message)) == Authorize(caller, id, store)
    ensures out.reply.Ok? ==>
              && id in store
              && out.reply.status == StatusOk
              && out.reply.value.id == id
              && out.reply.value.contact.user == store[id].user
              && out.reply.value.contact == Merge(store[id], body).(user := store[id].user)
              && out.store == store[id := out.reply.value.contact]
  {
    UpdateContact(caller, id, body.(user := None), store)
  }
}
