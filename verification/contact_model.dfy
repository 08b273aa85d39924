/**
  The contact record and the abstract store it lives in.

  The persistence engine is abstracted as an immutable map from contact id to
  record; the controller's reads and writes become map lookups, updates and
  removals. A request body is a set of optional fields: `None` means the field
  is absent from the JSON object.
 */
module ContactModel {

  datatype Option<+T> = None | Some(value: T) {
    /** The value if present, `default` otherwise. */
    function GetOr(default: T): (v: T) {
      match this
      case Some(v) => v
      case None => default
    }
  }

  /** Identity of an authenticated caller, compared as a string. */
  type UserId = string

  /** Identity of a stored contact, as carried in the route `/api/contacts/:id`. */
  type ContactId = string

  /**
    One stored address-book entry. `kind` is the record's `type` field
    (renamed because `type` is a Dafny keyword). Optional fields that were
    never supplied stay absent: no schema default is modelled.
   */
  datatype Contact = Contact(
    user: UserId,
    name: string,
    email: Option<string>,
    phone: Option<string>,
    kind: Option<string>)

  /** A JSON request body restricted to the fields the controller reads or forwards. */
  datatype Body = Body(
    user: Option<UserId>,
    name: Option<string>,
    email: Option<string>,
    phone: Option<string>,
    kind: Option<string>)

  /** A contact together with its id, as the engine returns a document. */
  datatype Record = Record(id: ContactId, contact: Contact)

  type Store = map<ContactId, Contact>

  /** JavaScript truthiness of an optional string field: absent and "" are falsy. */
  predicate Truthy(field: Option<string>) {
    field.Some? && field.value != ""
  }

  /** The part of the store that belongs to user `u`. */
  function Owned(store: Store, u: UserId): (view: Store)
    ensures view.Keys <= store.Keys
    ensures forall id :: id in view <==> id in store && store[id].user == u
    ensures forall id :: id in view ==> view[id] == store[id]
  {
    map id | id in store && store[id].user == u :: store[id]
  }

  /** No id occurs twice in a list of records. */
  predicate DistinctIds(rs: seq<Record>) {
    forall i, j :: 0 <= i < j < |rs| ==> rs[i].id != rs[j].id
  }

  /** A list of records read back as a map from id to contact. */
  function AsMap(rs: seq<Record>): (m: Store)
    ensures m.Keys == set i | 0 <= i < |rs| :: rs[i].id
  {
    if |rs| == 0 then map[]
    else
      var init := rs[..|rs| - 1];
      var last := rs[|rs| - 1];
      assert (set i | 0 <= i < |rs| :: rs[i].id) == (set i | 0 <= i < |init| :: init[i].id) + {last.id};
      AsMap(init)[last.id := last.contact]
  }

  /** Appending a record to the list adds (or overrides) exactly its entry in the map. */
  lemma AsMapAppend(rs: seq<Record>, r: Record)
    ensures AsMap(rs + [r]) == AsMap(rs)[r.id := r.contact]
  {
    assert (rs + [r])[..|rs|] == rs;
  }
}
