/** The data-access layer the controller calls, reduced to what
    `User.findByIdAndUpdate(id, fields)` does to the user collection:
    merge the given fields into the record with that id. */
module Persistence {
  import opened JsValues

  type Id = string

  /** A stored user document: field name to value. */
  type Record = map<string, Value>

  /** The record stored under `id`, if any. */
  function FindById(users: map<Id, Record>, id: Id): (r: Option<Record>)
    ensures r.Some? <==> id in users
    ensures r.Some? ==> r.value == users[id]
  {
    if id in users then Some(users[id]) else None
  }

  /** The collection after merging `fields` into the record with id `id`:
      no record appears or disappears, every other record is untouched, and
      in that record the given fields take the new values while all other
      fields keep theirs. A missing id changes nothing. */
  function MergeById(users: map<Id, Record>, id: Id, fields: Record): (r: map<Id, Record>)
    ensures r.Keys == users.Keys
    ensures forall other :: other in users && other != id ==> r[other] == users[other]
    ensures id in users ==> r[id].Keys == users[id].Keys + fields.Keys
    ensures id in users ==> forall f :: f in fields ==> r[id][f] == fields[f]
    ensures id in users ==> forall f :: f in users[id] && f !in fields ==> r[id][f] == users[id][f]
  {
    if id in users then users[id := users[id] + fields] else users
  }

  /** The user collection, updated in place. */
  class UserStore {
    var users: map<Id, Record>

    constructor (initial: map<Id, Record>)
      ensures users == initial
    {
      users := initial;
    }

    /** `findByIdAndUpdate(id, fields, { new: true })`: applies the merge and
        returns the record as it is after the update, or nothing when no
        record has that id. */
    method FindByIdAndUpdate(id: Id, fields: Record) returns (updated: Option<Record>)
      modifies this
      ensures users == MergeById(old(users), id, fields)
      ensures updated == FindById(users, id)
    {
      users := MergeById(users, id, fields);
      updated := FindById(users, id);
    }
  }
}
