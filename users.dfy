/**
 * User records as the component holds them, the draft edited in the
 * create/edit dialog, and the two list operations the handlers use:
 * `data.find` (edit) and `data.filter` (delete).
 */
module Users {
  import opened Options

  /** The server-assigned identifier; the component only compares ids with `===`. */
  type UserId = int

  /** One row of the user table. */
  datatype User = User(id: UserId, name: string, age: string, email: string)

  /** The dialog's scratch copy of a record: no id, the edited id is kept apart. */
  datatype Draft = Draft(name: string, age: string, email: string)

  /** The `name` attribute of the three form inputs. */
  datatype Field = Name | Age | Email

  /** The draft the component starts with and resets to. */
  const EmptyDraft: Draft := Draft("", "", "")

  function FieldOf(d: Draft, f: Field): string
  {
    match f
    case Name => d.name
    case Age => d.age
    case Email => d.email
  }

  /** `{ ...draft, [f]: v }`: the draft with one named field replaced. */
  function WithField(d: Draft, f: Field, v: string): (r: Draft)
    ensures FieldOf(r, f) == v
    ensures forall g :: g != f ==> FieldOf(r, g) == FieldOf(d, g)
  {
    match f
    case Name => d.(name := v)
    case Age => d.(age := v)
    case Email => d.(email := v)
  }

  /** The submit guard: every one of the three fields is a non-empty string. */
  predicate IsComplete(d: Draft)
  {
    d.name != "" && d.age != "" && d.email != ""
  }

  /** The guard holds exactly when no field of the form is left empty. */
  lemma CompleteIffNoEmptyField(d: Draft)
    ensures IsComplete(d) <==> forall f :: FieldOf(d, f) != ""
  {
    if !IsComplete(d) {
      if d.name == "" { assert FieldOf(d, Name) == ""; }
      else if d.age == "" { assert FieldOf(d, Age) == ""; }
      else { assert FieldOf(d, Email) == ""; }
    }
  }

  /** The editable fields of a record, as copied into the draft by edit. */
  function DraftOf(u: User): Draft
  {
    Draft(u.name, u.age, u.email)
  }

  /** Some record of `data` carries `id`. */
  predicate HasId(data: seq<User>, id: UserId)
  {
    exists i :: 0 <= i < |data| && data[i].id == id
  }

  /**
   * `data.find(user => user.id === id)`: the first record with that id,
   * or nothing when no record has it.
   */
  function FindById(data: seq<User>, id: UserId): (r: Option<User>)
    ensures r.None? <==> !HasId(data, id)
    ensures r.Some? ==> exists k :: 0 <= k < |data| && data[k] == r.value && r.value.id == id &&
                                    forall j :: 0 <= j < k ==> data[j].id != id
  {
    if data == [] then None
    else if data[0].id == id then Some(data[0])
    else
      var r := FindById(data[1..], id);
      assert HasId(data[1..], id) ==> HasId(data, id) by {
        if HasId(data[1..], id) {
          var i :| 0 <= i < |data[1..]| && data[1..][i].id == id;
          assert data[i + 1].id == id;
        }
      }
      assert HasId(data, id) ==> HasId(data[1..], id) by {
        if HasId(data, id) {
          var i :| 0 <= i < |data| && data[i].id == id;
          assert i != 0;
          assert data[1..][i - 1].id == id;
        }
      }
      assert r.Some? ==> exists k :: 0 <= k < |data| && data[k] == r.value && r.value.id == id &&
                                     forall j :: 0 <= j < k ==> data[j].id != id by {
        if r.Some? {
          var k :| 0 <= k < |data[1..]| && data[1..][k] == r.value && r.value.id == id &&
                   forall j :: 0 <= j < k ==> data[1..][j].id != id;
          assert data[k + 1] == r.value;
          forall j | 0 <= j < k + 1 ensures data[j].id != id {
            if j > 0 { assert data[j] == data[1..][j - 1]; }
          }
        }
      }
      r
  }

  /**
   * `data.filter(user => user.id !== id)`: the list without every record
   * whose id is `id`; the other records keep their contents and multiplicity.
   */
  function RemoveById(data: seq<User>, id: UserId): (r: seq<User>)
    ensures |r| <= |data|
    ensures forall u :: u in r <==> u in data && u.id != id
    ensures forall u :: multiset(r)[u] == if u.id == id then 0 else multiset(data)[u]
  {
    if data == [] then []
    else
      assert data == [data[0]] + data[1..];
      if data[0].id == id then RemoveById(data[1..], id)
      else [data[0]] + RemoveById(data[1..], id)
  }

  /**
   * Filtering distributes over concatenation, so the kept records stay in
   * the order they had: together with RemoveByIdSingle this pins the
   * result down completely.
   */
  lemma {:induction false} RemoveByIdAppend(a: seq<User>, b: seq<User>, id: UserId)
    ensures RemoveById(a + b, id) == RemoveById(a, id) + RemoveById(b, id)
  {
    if a == [] {
      assert a + b == b;
    } else {
      assert (a + b)[0] == a[0];
      assert (a + b)[1..] == a[1..] + b;
      RemoveByIdAppend(a[1..], b, id);
    }
  }

  /** On one record the filter keeps it exactly when its id differs. */
  lemma RemoveByIdSingle(u: User, id: UserId)
    ensures RemoveById([u], id) == if u.id == id then [] else [u]
  {
  }

  /** Filtering out an id nobody carries leaves the list untouched. */
  lemma {:induction false} RemoveByIdAbsent(data: seq<User>, id: UserId)
    requires !HasId(data, id)
    ensures RemoveById(data, id) == data
  {
    if data != [] {
      assert data[0].id != id;
      RemoveByIdAbsent(data[1..], id);
      assert data == [data[0]] + data[1..];
    }
  }

  /** After the filter no record with that id is left for `find` to return. */
  lemma FindAfterRemove(data: seq<User>, id: UserId)
    ensures FindById(RemoveById(data, id), id) == None
  {
  }
}
