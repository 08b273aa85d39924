/**
  Properties that relate the controller's operations to each other and to
  the per-user view of the store: ownership isolation, "nothing else
  changes", the order of the checks, and round trips between operations.
 */
module ControllerProperties {
  import opened ContactModel
  import opened ContactController

  // ---------------------------------------------------------------------
  // Create

  /** A successful create adds one record to its caller's view and to nobody else's. */
  lemma CreateTouchesOnlyCallersView(
    u: UserId, body: Body, errors: seq<string>, newId: ContactId, store: Store, v: UserId)
    requires newId !in store
    requires SetContact(Some(u), body, errors, newId, store).reply.Ok?
    ensures var out := SetContact(Some(u), body, errors, newId, store);
            && |out.store| == |store| + 1
            && Owned(out.store, u) == Owned(store, u)[newId := out.reply.value.contact]
            && (v != u ==> Owned(out.store, v) == Owned(store, v))
  {
    var out := SetContact(Some(u), body, errors, newId, store);
    var c := out.reply.value.contact;
    assert c.user == u;
    assert Owned(out.store, u) == Owned(store, u)[newId := c];
    if v != u {
      assert Owned(out.store, v) == Owned(store, v);
    }
  }

  /** The owner of a created record is the caller, whatever `user` the body names. */
  lemma CreateOwnerIsCaller(
    u: UserId, body: Body, errors: seq<string>, newId: ContactId, store: Store)
    requires newId !in store
    requires Truthy(body.name) && |errors| == 0
    ensures var out := SetContact(Some(u), body, errors, newId, store);
            && out.reply.Ok?
            && out.store[newId].user == u
            && out.store[newId] == SetContact(Some(u), body.(user := None), errors, newId, store).store[newId]
  {
  }

  /** A missing name is reported before the validation errors and before the missing caller. */
  lemma CreateChecksNameFirst(
    caller: Option<UserId>, body: Body, errors: seq<string>, newId: ContactId, store: Store)
    requires newId !in store
    requires !Truthy(body.name)
    ensures SetContact(caller, body, errors, newId, store)
              == Outcome(Fail(StatusBadRequest, NameRequired), store)
  {
  }

  /** Validation errors are reported before the missing caller, and no record is created. */
  lemma CreateChecksValidationBeforeCaller(
    caller: Option<UserId>, body: Body, errors: seq<string>, newId: ContactId, store: Store)
    requires newId !in store
    requires Truthy(body.name) && |errors| > 0
    ensures SetContact(caller, body, errors, newId, store)
              == Outcome(Fail(StatusBadRequest, Messages.Join(errors)), store)
  {
  }

  // ---------------------------------------------------------------------
  // Update and delete: order of the checks

  /** An unknown id is reported first, even when no caller is present. */
  lemma UnknownIdComesFirst(caller: Option<UserId>, id: ContactId, body: Body, store: Store)
    requires id !in store
    ensures UpdateContact(caller, id, body, store) == Outcome(Fail(StatusBadRequest, ContactNotFound), store)
    ensures DeleteContact(caller, id, store) == Outcome(Fail(StatusBadRequest, ContactNotFound), store)
  {
  }

  /** For an existing id, a missing caller is reported before ownership is looked at. */
  lemma MissingCallerComesSecond(id: ContactId, body: Body, store: Store)
    requires id in store
    ensures UpdateContact(None, id, body, store) == Outcome(Fail(StatusUnauthorized, UserNotFound), store)
    ensures DeleteContact(None, id, store) == Outcome(Fail(StatusUnauthorized, UserNotFound), store)
  {
  }

  /** A caller who does not own the record can neither update nor delete it. */
  lemma NonOwnerIsRefused(v: UserId, id: ContactId, body: Body, store: Store)
    requires id in store && store[id].user != v
    ensures UpdateContact(Some(v), id, body, store) == Outcome(Fail(StatusUnauthorized, NotAuthorized), store)
    ensures DeleteContact(Some(v), id, store) == Outcome(Fail(StatusUnauthorized, NotAuthorized), store)
  {
  }

  // ---------------------------------------------------------------------
  // Update: effects

  /** An update changes one record and nothing else; with no `user` in the body it keeps the owner. */
  lemma UpdateChangesOnlyThatRecord(u: UserId, id: ContactId, body: Body, store: Store)
    requires UpdateContact(Some(u), id, body, store).reply.Ok?
    ensures var out := UpdateContact(Some(u), id, body, store);
            && out.store.Keys == store.Keys
            && (forall k :: k in store && k != id ==> out.store[k] == store[k])
            && (body.user.None? ==> out.store[id].user == u)
  {
  }

  /**
    With no `user` in the body, an update by the owner leaves every other
    user's view as it was and keeps the record in the owner's view.
   */
  lemma UpdateKeepsOtherViews(u: UserId, id: ContactId, body: Body, store: Store, v: UserId)
    requires body.user.None?
    requires UpdateContact(Some(u), id, body, store).reply.Ok?
    ensures var out := UpdateContact(Some(u), id, body, store);
            && Owned(out.store, u) == Owned(store, u)[id := out.reply.value.contact]
            && (v != u ==> Owned(out.store, v) == Owned(store, v))
  {
    var out := UpdateContact(Some(u), id, body, store);
    assert out.store[id].user == u;
    assert Owned(out.store, u) == Owned(store, u)[id := out.reply.value.contact];
    if v != u {
      assert Owned(out.store, v) == Owned(store, v);
    }
  }

  /**
    A successful update overwrites exactly the fields the body carries: each
    present field takes the body's value and each absent field keeps the
    stored one.
   */
  lemma UpdateMergesPresentFields(u: UserId, id: ContactId, body: Body, store: Store)
    requires UpdateContact(Some(u), id, body, store).reply.Ok?
    ensures var before := store[id];
            var after := UpdateContact(Some(u), id, body, store).store[id];
            && (body.name.Some? ==> after.name == body.name.value)
            && (body.name.None? ==> after.name == before.name)
            && (body.email.Some? ==> after.email == body.email)
            && (body.email.None? ==> after.email == before.email)
            && (body.phone.Some? ==> after.phone == body.phone)
            && (body.phone.None? ==> after.phone == before.phone)
            && (body.kind.Some? ==> after.kind == body.kind)
            && (body.kind.None? ==> after.kind == before.kind)
            && (body.user.Some? ==> after.user == body.user.value)
            && (body.user.None? ==> after.user == before.user)
  {
  }

  /** Updating `{name: "A", email: "a@x.com"}` with only a new email keeps the name. */
  lemma UpdateKeepsUnsentName()
    ensures var store := map["c1" := Contact("u1", "A", Some("a@x.com"), None, None)];
            var body := Body(None, None, Some("b@x.com"), None, None);
            UpdateContact(Some("u1"), "c1", body, store).reply
              == Ok(StatusOk, Record("c1", Contact("u1", "A", Some("b@x.com"), None, None)))
  {
  }

  /** Present fields replace the stored ones; merging the same body twice changes nothing more. */
  lemma MergeIsIdempotent(c: Contact, body: Body)
    ensures Merge(Merge(c, body), body) == Merge(c, body)
    ensures Merge(c, Body(None, None, None, None, None)) == c
  {
  }

  /** Repeating an update that kept the owner gives the same reply and the same store. */
  lemma UpdateIsIdempotent(u: UserId, id: ContactId, body: Body, store: Store)
    requires body.user.None? || body.user == Some(u)
    requires UpdateContact(Some(u), id, body, store).reply.Ok?
    ensures var once := UpdateContact(Some(u), id, body, store);
            UpdateContact(Some(u), id, body, once.store) == once
  {
    var once := UpdateContact(Some(u), id, body, store);
    MergeIsIdempotent(store[id], body);
    assert once.store[id := Merge(once.store[id], body)] == once.store;
  }

  // ---------------------------------------------------------------------
  // Delete: effects

  /** A delete by the owner removes that record from the owner's view and from nobody else's. */
  lemma DeleteTouchesOnlyCallersView(u: UserId, id: ContactId, store: Store, v: UserId)
    requires DeleteContact(Some(u), id, store).reply.Ok?
    ensures var out := DeleteContact(Some(u), id, store);
            && |out.store| == |store| - 1
            && Owned(out.store, u) == Owned(store, u) - {id}
            && (v != u ==> Owned(out.store, v) == Owned(store, v))
  {
    var out := DeleteContact(Some(u), id, store);
    assert out.store == store - {id};
    assert Owned(out.store, u) == Owned(store, u) - {id};
    if v != u {
      assert Owned(out.store, v) == Owned(store, v);
    }
  }

  /** Deleting the same id a second time fails with "Contact not found", whoever asks. */
  lemma DeleteTwiceFails(u: UserId, id: ContactId, store: Store, caller: Option<UserId>)
    requires DeleteContact(Some(u), id, store).reply.Ok?
    ensures var once := DeleteContact(Some(u), id, store);
            DeleteContact(caller, id, once.store) == Outcome(Fail(StatusBadRequest, ContactNotFound), once.store)
  {
  }

  /** Deleting a record right after creating it gives back the store as it was before. */
  lemma CreateThenDeleteRestores(
    u: UserId, body: Body, errors: seq<string>, newId: ContactId, store: Store)
    requires newId !in store
    requires SetContact(Some(u), body, errors, newId, store).reply.Ok?
    ensures var created := SetContact(Some(u), body, errors, newId, store);
            var deleted := DeleteContact(Some(u), newId, created.store);
            deleted.reply == Ok(StatusOk, newId) && deleted.store == store
  {
    var created := SetContact(Some(u), body, errors, newId, store);
    assert created.store[newId].user == u;
    assert created.store - {newId} == store;
  }

  // ---------------------------------------------------------------------
  // A request sequence

  /**
    `u1` creates Bob, lists its contacts and sees exactly Bob; `u2` then tries
    to rename Bob and is refused, so `u1`'s view still shows Bob.
   */
  method OwnershipScenario() returns (listed: seq<Record>, refused: Reply<Record>, relisted: seq<Record>)
    ensures |listed| == 1 && listed[0].id == "c1"
    ensures listed[0].contact == Contact("u1", "Bob", None, Some("555-1111"), None)
    ensures refused == Fail(StatusUnauthorized, NotAuthorized)
    ensures relisted == listed
  {
    var body := Body(None, Some("Bob"), None, Some("555-1111"), None);
    var created := SetContact(Some("u1"), body, [], "c1", map[]);
    var store := created.store;
    assert store == map["c1" := Contact("u1", "Bob", None, Some("555-1111"), None)];
    var first := GetContacts(Some("u1"), store);
    listed := first.reply.value;
    assert Owned(store, "u1") == store;
    ListOfSingleton(listed, "c1", store["c1"]);
    var eve := Body(None, Some("Eve"), None, None, None);
    var attempt := UpdateContact(Some("u2"), "c1", eve, store);
    refused := attempt.reply;
    var second := GetContacts(Some("u1"), attempt.store);
    relisted := second.reply.value;
    ListOfSingleton(relisted, "c1", store["c1"]);
  }

  /** A duplicate-free list that reads back as a one-entry map is that single record. */
  lemma ListOfSingleton(rs: seq<Record>, id: ContactId, c: Contact)
    requires DistinctIds(rs)
    requires AsMap(rs) == map[id := c]
    ensures rs == [Record(id, c)]
  {
    assert id in AsMap(rs).Keys;
    var k :| 0 <= k < |rs| && rs[k].id == id;
    forall i | 0 <= i < |rs|
      ensures rs[i].id == id
    {
      assert rs[i].id in AsMap(rs).Keys;
    }
    if |rs| >= 2 {
      assert false;
    }
    AsMapLast(rs);
  }

  /** The last record of a list gives its own entry in the list's map. */
  lemma AsMapLast(rs: seq<Record>)
    requires |rs| > 0
    ensures AsMap(rs)[rs[|rs| - 1].id] == rs[|rs| - 1].contact
  {
  }

  // ---------------------------------------------------------------------
  // Owner reassignment through the update body

  /**
    As written, an owner's update whose body carries another `user` moves the
    record out of the owner's view into that user's view, and the owner can no
    longer touch it.
   */
  lemma UpdateCanReassignOwner()
    ensures var store := map["c1" := Contact("u1", "Bob", None, None, None)];
            var body := Body(Some("u2"), None, None, None, None);
            var out := UpdateContact(Some("u1"), "c1", body, store);
            && out.reply.Ok?
            && "c1" !in Owned(out.store, "u1")
            && "c1" in Owned(out.store, "u2")
            && DeleteContact(Some("u1"), "c1", out.store).reply == Fail(StatusUnauthorized, NotAuthorized)
  {
    var store := map["c1" := Contact("u1", "Bob", None, None, None)];
    var body := Body(Some("u2"), None, None, None, None);
    var out := UpdateContact(Some("u1"), "c1", body, store);
    assert out.store["c1"].user == "u2";
  }

  /** With only the record fields forwarded, an update never changes who owns what, whatever `user` the body names. */
  lemma UpdateKeepingOwnerPreservesViews(
    caller: Option<UserId>, id: ContactId, body: Body, store: Store, v: UserId)
    ensures var out := UpdateContactKeepingOwner(caller, id, body, store);
            && out.store.Keys == store.Keys
            && (forall k :: k in store ==> out.store[k].user == store[k].user)
            && Owned(out.store, v).Keys == Owned(store, v).Keys
            && (caller != Some(v) ==> Owned(out.store, v) == Owned(store, v))
  {
    var out := UpdateContactKeepingOwner(caller, id, body, store);
    if out.reply.Ok? {
      assert Owned(out.store, v).Keys == Owned(store, v).Keys;
      if caller != Some(v) {
        assert Owned(out.store, v) == Owned(store, v);
      }
    }
  }
}
