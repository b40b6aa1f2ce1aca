/** src/api/V1/models/Role.js: a role document, its `name` constraints
    (required, one of the enum values, unique, trimmed) and the queries
    roleController.js and registerController.js run on the collection.
    Ids are ObjectIds, written in requests as their decimal text. */
module RoleModel {
  import opened Wrappers
  import opened Text

  datatype Role = Role(id: nat, name: string, createdAt: nat)

  /** Why a role query or write throws. */
  datatype DbError =
    | Down            // the connection failed
    | CastError       // an id that is not an ObjectId
    | ValidationError // a `name` validator failed
    | DuplicateKey    // the unique index on `name`: code 11000

  datatype Outcome<T> = Done(value: T) | Failed(error: DbError)

  const NAME_ENUM: seq<string> := ["Admin", "Client", "Livreur"]

  /** The name the `trim` setter stores passes `required` and `enum`. */
  predicate NameValid(name: string) {
    var t := Trim(name);
    |t| > 0 && t in NAME_ENUM
  }

  lemma NameValidMeans(name: string)
    ensures NameValid(name) <==> Trim(name) == "Admin" || Trim(name) == "Client" || Trim(name) == "Livreur"
  {
  }

  predicate UniqueNames(docs: seq<Role>) {
    forall i, j | 0 <= i < j < |docs| :: docs[i].name != docs[j].name
  }

  function FreshId(docs: seq<Role>): (id: nat)
    ensures forall i | 0 <= i < |docs| :: docs[i].id < id
  {
    if docs == [] then 1
    else
      var rest := FreshId(docs[1..]);
      if docs[0].id < rest then rest else docs[0].id + 1
  }

  function FirstNamed(docs: seq<Role>, name: string): (r: Option<Role>)
    ensures r.Some? ==> r.value in docs && r.value.name == name
    ensures r.None? <==> forall i | 0 <= i < |docs| :: docs[i].name != name
  {
    if docs == [] then None
    else if docs[0].name == name then Some(docs[0])
    else FirstNamed(docs[1..], name)
  }

  /** `Role.findOne({ name })`: the query value is trimmed like the path; an
      absent name drops out of the filter and the first role matches. */
  function FindByName(docs: seq<Role>, name: Option<string>): (r: Option<Role>)
    ensures name.Some? ==> r == FirstNamed(docs, Trim(name.value))
    ensures name.None? ==> r == if docs == [] then None else Some(docs[0])
  {
    match name
    case None => if docs == [] then None else Some(docs[0])
    case Some(n) => FirstNamed(docs, Trim(n))
  }

  function Trimmed(names: seq<string>): (r: seq<string>)
    ensures |r| == |names| && forall i | 0 <= i < |names| :: r[i] == Trim(names[i])
  {
    seq(|names|, i requires 0 <= i < |names| => Trim(names[i]))
  }

  /** The roles whose name is one of `wanted`, in collection order. */
  function NamedIn(docs: seq<Role>, wanted: seq<string>): (r: seq<Role>)
    ensures |r| <= |docs|
    ensures forall i | 0 <= i < |r| :: r[i] in docs && r[i].name in wanted
    ensures forall i | 0 <= i < |docs| :: docs[i].name in wanted ==> docs[i] in r
  {
    if docs == [] then []
    else (if docs[0].name in wanted then [docs[0]] else []) + NamedIn(docs[1..], wanted)
  }

  /** `Role.find({ name: { $in: names } })`: each query value is trimmed. */
  function FindNamedIn(docs: seq<Role>, names: seq<string>): seq<Role> {
    NamedIn(docs, Trimmed(names))
  }

  /** The id text of a request parameter, cast as Mongoose casts it to an ObjectId. */
  function CastId(id: string): (r: Outcome<nat>)
    ensures r.Done? <==> ParseNat(id).Some?
    ensures r.Done? ==> r.value == ParseNat(id).value
    ensures r.Failed? ==> r.error == CastError
  {
    match ParseNat(id)
    case None => Failed(CastError)
    case Some(n) => Done(n)
  }

  function FirstWithId(docs: seq<Role>, id: nat): (r: Option<Role>)
    ensures r.Some? ==> r.value in docs && r.value.id == id
    ensures r.None? <==> forall i | 0 <= i < |docs| :: docs[i].id != id
  {
    if docs == [] then None
    else if docs[0].id == id then Some(docs[0])
    else FirstWithId(docs[1..], id)
  }

  /** `new Role({ name }).save()`: the trimmed name is validated, then the
      unique index refuses a name that is already stored. */
  function Insert(docs: seq<Role>, name: string, nowMs: nat): (r: Outcome<(Role, seq<Role>)>)
    ensures r.Done? <==> NameValid(name) && FirstNamed(docs, Trim(name)).None?
    ensures r.Done? ==> r.value.0.name == Trim(name) && r.value.1 == docs + [r.value.0]
    ensures r.Done? ==> forall i | 0 <= i < |docs| :: docs[i].id != r.value.0.id
    ensures r.Failed? ==> r.error == if !NameValid(name) then ValidationError else DuplicateKey
  {
    if !NameValid(name) then Failed(ValidationError)
    else if FirstNamed(docs, Trim(name)).Some? then Failed(DuplicateKey)
    else
      var role := Role(FreshId(docs), Trim(name), nowMs);
      Done((role, docs + [role]))
  }

  function Rename(docs: seq<Role>, id: nat, name: string): (r: seq<Role>)
    ensures |r| == |docs|
  {
    seq(|docs|, i requires 0 <= i < |docs| => if docs[i].id == id then docs[i].(name := name) else docs[i])
  }

  function Without(docs: seq<Role>, id: nat): (r: seq<Role>)
    ensures forall i | 0 <= i < |r| :: r[i] in docs && r[i].id != id
    ensures forall i | 0 <= i < |docs| :: docs[i].id != id ==> docs[i] in r
  {
    if docs == [] then []
    else (if docs[0].id == id then [] else [docs[0]]) + Without(docs[1..], id)
  }

  /** `Role.findByIdAndUpdate(id, { name }, { new: true, runValidators: true })`:
      the id is cast, the update validators run on the trimmed name, then the
      role is looked up; renaming onto another role's name trips the unique
      index. The result is the updated role, or None when the id is not stored. */
  function UpdateName(docs: seq<Role>, id: string, name: string): (r: Outcome<(Option<Role>, seq<Role>)>)
    ensures r.Done? && r.value.0.None? ==> r.value.1 == docs
    ensures r.Done? && r.value.0.Some? ==> r.value.0.value.name == Trim(name) && NameValid(name)
    ensures r.Done? ==> |r.value.1| == |docs|
    ensures r.Done? && r.value.0.Some? ==> CastId(id).Done? && r.value.0.value.id == CastId(id).value
  {
    match CastId(id)
    case Failed(e) => Failed(e)
    case Done(n) =>
      if !NameValid(name) then Failed(ValidationError)
      else match FirstWithId(docs, n)
        case None => Done((None, docs))
        case Some(role) =>
          var clash := FirstNamed(docs, Trim(name));
          if clash.Some? && clash.value.id != n then Failed(DuplicateKey)
          else Done((Some(role.(name := Trim(name))), Rename(docs, n, Trim(name))))
  }

  /** `Role.findByIdAndDelete(id)`: the deleted role, or None when the id is not stored. */
  function Delete(docs: seq<Role>, id: string): (r: Outcome<(Option<Role>, seq<Role>)>)
    ensures r.Done? && r.value.0.None? ==> r.value.1 == docs
  {
    match CastId(id)
    case Failed(e) => Failed(e)
    case Done(n) =>
      match FirstWithId(docs, n)
      case None => Done((None, docs))
      case Some(role) => Done((Some(role), Without(docs, n)))
  }

  // ---------------------------------------------------------------------------
  // The unique index: no write ever stores two roles with one name.

  lemma InsertKeepsNamesUnique(docs: seq<Role>, name: string, nowMs: nat)
    requires UniqueNames(docs)
    requires Insert(docs, name, nowMs).Done?
    ensures UniqueNames(Insert(docs, name, nowMs).value.1)
  {
  }

  lemma {:induction false} FirstNamedAt(docs: seq<Role>, i: nat)
    requires i < |docs| && UniqueNames(docs)
    ensures FirstNamed(docs, docs[i].name) == Some(docs[i])
    decreases |docs|
  {
    if i > 0 {
      assert docs[0].name != docs[i].name;
      assert docs[1..][i - 1] == docs[i];
      FirstNamedAt(docs[1..], i - 1);
    }
  }

  lemma {:induction false} FirstWithIdAt(docs: seq<Role>, n: nat, i: nat)
    requires i < |docs| && docs[i].id == n && FirstWithId(docs, n).Some?
    requires forall j, k | 0 <= j < k < |docs| :: docs[j].id != docs[k].id
    ensures FirstWithId(docs, n) == Some(docs[i])
    decreases |docs|
  {
    if i > 0 {
      assert docs[0].id != docs[i].id;
      assert docs[1..][i - 1] == docs[i];
      FirstWithIdAt(docs[1..], n, i - 1);
    }
  }

  /** No document whose name is not queried is returned. */
  lemma {:induction false} NamedInNoneWanted(docs: seq<Role>, wanted: seq<string>)
    requires forall i | 0 <= i < |docs| :: docs[i].name !in wanted
    ensures NamedIn(docs, wanted) == []
    decreases |docs|
  {
    if docs != [] {
      NamedInNoneWanted(docs[1..], wanted);
    }
  }

  /** With unique role names, a query that repeats one name finds at most one role. */
  lemma {:induction false} NamedInOneName(docs: seq<Role>, wanted: seq<string>, x: string)
    requires UniqueNames(docs)
    requires forall i | 0 <= i < |wanted| :: wanted[i] == x
    ensures |NamedIn(docs, wanted)| <= 1
    decreases |docs|
  {
    if docs != [] {
      var tail := docs[1..];
      assert UniqueNames(tail) by {
        forall i, j | 0 <= i < j < |tail| ensures tail[i].name != tail[j].name {
          assert tail[i] == docs[i + 1] && tail[j] == docs[j + 1];
        }
      }
      NamedInOneName(tail, wanted, x);
      if docs[0].name in wanted {
        forall k | 0 <= k < |tail| ensures tail[k].name !in wanted {
          assert tail[k] == docs[k + 1];
        }
        NamedInNoneWanted(tail, wanted);
      }
    }
  }

  predicate UniqueIds(docs: seq<Role>) {
    forall i, j | 0 <= i < j < |docs| :: docs[i].id != docs[j].id
  }

  lemma UpdateNameKeepsNamesUnique(docs: seq<Role>, id: string, name: string)
    requires UniqueNames(docs) && UniqueIds(docs)
    requires UpdateName(docs, id, name).Done?
    ensures UniqueNames(UpdateName(docs, id, name).value.1)
  {
    var n := CastId(id).value;
    var t := Trim(name);
    if FirstWithId(docs, n).Some? {
      var r := Rename(docs, n, t);
      forall i, j | 0 <= i < j < |r| ensures r[i].name != r[j].name {
        if docs[i].id == n && docs[j].id != n {
          FirstNamedAt(docs, j);
        } else if docs[j].id == n && docs[i].id != n {
          FirstNamedAt(docs, i);
        }
      }
    }
  }

  /** Deleting keeps every other role and removes the target. */
  lemma DeleteRemovesOnlyTarget(docs: seq<Role>, id: string, other: nat)
    requires Delete(docs, id).Done? && Delete(docs, id).value.0.Some?
    ensures var n := CastId(id).value;
            var after := Delete(docs, id).value.1;
            FirstWithId(after, n).None? &&
            (other != n ==> FirstWithId(after, other).Some? == FirstWithId(docs, other).Some?)
  {
    var n := CastId(id).value;
    var after := Without(docs, n);
    if other != n && FirstWithId(docs, other).Some? {
      var i :| 0 <= i < |docs| && docs[i] == FirstWithId(docs, other).value;
      assert docs[i] in after;
    }
  }

  /** Renaming keeps every role's id and touches only the target's name. */
  lemma UpdateNameChangesOnlyTarget(docs: seq<Role>, id: string, name: string, i: nat)
    requires UpdateName(docs, id, name).Done? && i < |docs|
    ensures var after := UpdateName(docs, id, name).value.1;
            |after| == |docs| && after[i].id == docs[i].id && after[i].createdAt == docs[i].createdAt &&
            (docs[i].id != CastId(id).value ==> after[i] == docs[i]) &&
            (docs[i].id == CastId(id).value ==> after[i].name == Trim(name))
  {
  }

  // ---------------------------------------------------------------------------
  // The collection and its connection.

  class Roles {
    var up: bool
    var docs: seq<Role>

    constructor (up: bool, docs: seq<Role>)
      ensures this.up == up && this.docs == docs
    {
      this.up := up;
      this.docs := docs;
    }

    /** `Role.find()` */
    method FindAll() returns (r: Outcome<seq<Role>>)
      ensures r == if up then Done(docs) else Failed(Down)
    {
      r := if up then Done(docs) else Failed(Down);
    }

    /** `Role.findOne({ name })` */
    method FindOne(name: Option<string>) returns (r: Outcome<Option<Role>>)
      ensures r == if up then Done(FindByName(docs, name)) else Failed(Down)
    {
      r := if up then Done(FindByName(docs, name)) else Failed(Down);
    }

    /** `Role.find({ name: { $in: names } })` */
    method FindIn(names: seq<string>) returns (r: Outcome<seq<Role>>)
      ensures r == if up then Done(FindNamedIn(docs, names)) else Failed(Down)
    {
      r := if up then Done(FindNamedIn(docs, names)) else Failed(Down);
    }

    /** `Role.findById(id)` */
    method FindById(id: string) returns (r: Outcome<Option<Role>>)
      ensures !up ==> r == Failed(Down)
      ensures up ==> r == match CastId(id) case Failed(e) => Failed(e) case Done(n) => Done(FirstWithId(docs, n))
    {
      if !up {
        return Failed(Down);
      }
      var n := CastId(id);
      r := if n.Failed? then Failed(n.error) else Done(FirstWithId(docs, n.value));
    }

    /** `new Role({ name }).save()` */
    method Save(name: string, nowMs: nat) returns (r: Outcome<Role>)
      modifies this`docs
      ensures !up ==> r == Failed(Down) && docs == old(docs)
      ensures up ==> match Insert(old(docs), name, nowMs)
                     case Failed(e) => r == Failed(e) && docs == old(docs)
                     case Done(p) => r == Done(p.0) && docs == p.1
    {
      if !up {
        return Failed(Down);
      }
      var ins := Insert(docs, name, nowMs);
      if ins.Failed? {
        return Failed(ins.error);
      }
      docs := ins.value.1;
      r := Done(ins.value.0);
    }

    /** `Role.findByIdAndUpdate(id, { name }, { new: true, runValidators: true })` */
    method FindByIdAndUpdate(id: string, name: string) returns (r: Outcome<Option<Role>>)
      modifies this`docs
      ensures !up ==> r == Failed(Down) && docs == old(docs)
      ensures up ==> match UpdateName(old(docs), id, name)
                     case Failed(e) => r == Failed(e) && docs == old(docs)
                     case Done(p) => r == Done(p.0) && docs == p.1
    {
      if !up {
        return Failed(Down);
      }
      var upd := UpdateName(docs, id, name);
      if upd.Failed? {
        return Failed(upd.error);
      }
      docs := upd.value.1;
      r := Done(upd.value.0);
    }

    /** `Role.findByIdAndDelete(id)` */
    method FindByIdAndDelete(id: string) returns (r: Outcome<Option<Role>>)
      modifies this`docs
      ensures !up ==> r == Failed(Down) && docs == old(docs)
      ensures up ==> match Delete(old(docs), id)
                     case Failed(e) => r == Failed(e) && docs == old(docs)
                     case Done(p) => r == Done(p.0) && docs == p.1
    {
      if !up {
        return Failed(Down);
      }
      var del := Delete(docs, id);
      if del.Failed? {
        return Failed(del.error);
      }
      docs := del.value.1;
      r := Done(del.value.0);
    }
  }
}
