/** The document store (Cloud Firestore) as the application uses it: the
    `users` and `connections` collections as maps from document id to a
    document, a document as a map from field name to a JSON-like value, and
    the three write modes the code uses (`set`, `set` with `merge: true`, and
    `update` of an existing document). */
module Store {
  import opened Wrappers

  /** A field value. `ServerTimestamp` is the `serverTimestamp()` sentinel,
      `Other` any object or array the model does not inspect. */
  datatype Value = Null | Bool(b: bool) | Num(n: int) | Str(s: string) | Strs(items: seq<string>) | ServerTimestamp | Other

  type Doc = map<string, Value>

  /** JavaScript truthiness of a stored value. */
  predicate Truthy(v: Value) {
    match v
    case Null => false
    case Bool(b) => b
    case Num(n) => n != 0
    case Str(s) => s != ""
    case _ => true
  }

  /** A document field read as in `data?.field`: null when the document or the
      field is missing. */
  function Field(doc: Option<Doc>, name: string): Value {
    if doc.Some? && name in doc.value then doc.value[name] else Null
  }

  /** `set(patch, { merge: true })` (and `update(patch)` on a document that
      exists): the patch's fields are written, every other field and every
      other document keeps its value. */
  function Merge(coll: map<string, Doc>, id: string, patch: Doc): (r: map<string, Doc>)
    ensures r.Keys == coll.Keys + {id}
    ensures forall k :: k in coll && k != id ==> r[k] == coll[k]
    ensures forall f :: f in patch ==> f in r[id] && r[id][f] == patch[f]
    ensures id in coll ==> forall f :: f in coll[id] && f !in patch ==> f in r[id] && r[id][f] == coll[id][f]
    ensures r[id].Keys == patch.Keys + (if id in coll then coll[id].Keys else {})
  {
    coll[id := (if id in coll then coll[id] else map[]) + patch]
  }

  /** Writing the same merge twice is the same as writing it once. */
  lemma MergeIdempotent(coll: map<string, Doc>, id: string, patch: Doc)
    ensures Merge(Merge(coll, id, patch), id, patch) == Merge(coll, id, patch)
  {
    var once := Merge(coll, id, patch);
    assert once[id] + patch == once[id];
  }

  /** A write a request handler decides on: `set(doc)` replaces a document,
      `set(patch, { merge: true })` and `update(patch)` merge into it. */
  datatype Write = SetDoc(id: string, doc: Doc) | MergeDoc(id: string, patch: Doc)

  /** The collection after an optional write. */
  function Apply(coll: map<string, Doc>, w: Option<Write>): (r: map<string, Doc>)
    ensures w.None? ==> r == coll
    ensures w.Some? ==> r.Keys == coll.Keys + {w.value.id}
    ensures w.Some? ==> forall k :: k in coll && k != w.value.id ==> r[k] == coll[k]
    ensures w.Some? && w.value.SetDoc? ==> r[w.value.id] == w.value.doc
  {
    match w
    case None => coll
    case Some(SetDoc(id, doc)) => coll[id := doc]
    case Some(MergeDoc(id, patch)) => Merge(coll, id, patch)
  }

  class Firestore {
    var users: map<string, Doc>
    var connections: map<string, Doc>

    constructor (users: map<string, Doc>, connections: map<string, Doc>)
      ensures this.users == users && this.connections == connections
    {
      this.users := users;
      this.connections := connections;
    }

    /** `set(doc)` on `users/id`: the document is replaced. */
    method SetUser(id: string, doc: Doc)
      modifies this
      ensures users == old(users)[id := doc]
      ensures connections == old(connections)
    {
      users := users[id := doc];
    }

    /** `set(patch, { merge: true })` on `users/id`, or `update(patch)` when
        that document exists. */
    method MergeUser(id: string, patch: Doc)
      modifies this
      ensures users == Merge(old(users), id, patch)
      ensures connections == old(connections)
    {
      users := Merge(users, id, patch);
    }

    /** Perform a handler's write, if any, on the `users` collection. */
    method ApplyToUsers(w: Option<Write>)
      modifies this
      ensures users == Apply(old(users), w)
      ensures connections == old(connections)
    {
      users := Apply(users, w);
    }

    /** `setDoc(ref, patch, { merge: true })` on `connections/id`. */
    method MergeConnection(id: string, patch: Doc)
      modifies this
      ensures connections == Merge(old(connections), id, patch)
      ensures users == old(users)
    {
      connections := Merge(connections, id, patch);
    }
  }
}
