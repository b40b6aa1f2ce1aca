/** src/api/V1/controllers/roleController.js: create, list, read, rename and
    delete roles. Each handler is a method on the role collection, proved
    equal to a function of the connection flag, the stored roles and the
    request; the properties are lemmas about those functions. */
module RoleController {
  import opened Wrappers
  import opened Text
  import opened Joi
  import opened RoleModel
  import RoleValidation

  const CREATED := "Role created successfully"
  const NAME_NOT_UNIQUE := "Role name must be unique."
  const CREATE_ERROR := "Error creating role"
  const FETCH_ALL_ERROR := "Error fetching roles"
  const NOT_FOUND := "Role not found"
  const FETCH_ERROR := "Error fetching role"
  const UPDATED := "Role updated successfully"
  const UPDATE_ERROR := "Error updating role"
  const DELETED := "Role deleted successfully"
  const DELETE_ERROR := "Error deleting role"

  /** `Role with name "${name}" already exists.` */
  function ExistsMessage(name: string): string {
    "Role with name \"" + name + "\" already exists."
  }

  /** `req.body`: its `name` and every other key it carries. */
  datatype RoleBody = RoleBody(name: Option<string>, extra: seq<string>)

  /** A status with a message, a status with a message and the role, the
      whole table (200), or one role (200). */
  datatype RoleReply =
    | Answer(status: int, message: string)
    | WithRole(status: int, message: string, role: Role)
    | Listing(roles: seq<Role>)
    | Found(role: Role)

  /** The reply and the collection after the handler. */
  datatype RoleStep = RoleStep(reply: RoleReply, docs: seq<Role>)

  function SchemaError(body: RoleBody): Option<string> {
    FirstMessage(RoleValidation.Details(body.name, body.extra))
  }

  /** `createRole(req, res)` for a collection whose connection is `up`. */
  function CreateRole(up: bool, docs: seq<Role>, body: RoleBody, nowMs: nat): (r: RoleStep)
    ensures r.reply.WithRole? ==> r.reply.status == 201 && r.docs == docs + [r.reply.role]
    ensures !r.reply.WithRole? ==> r.docs == docs && r.reply.Answer?
  {
    var invalid := SchemaError(body);
    if invalid.Some? then RoleStep(Answer(400, invalid.value), docs)
    else
      assert body.name.Some?;
      var name := body.name.value;
      if !up then RoleStep(Answer(500, CREATE_ERROR), docs)
      else if FindByName(docs, Some(name)).Some? then RoleStep(Answer(400, ExistsMessage(name)), docs)
      else match Insert(docs, name, nowMs)
        case Failed(DuplicateKey) => RoleStep(Answer(400, NAME_NOT_UNIQUE), docs)
        case Failed(_) => RoleStep(Answer(500, CREATE_ERROR), docs)
        case Done(p) => RoleStep(WithRole(201, CREATED, p.0), p.1)
  }

  /** `getRoles(req, res)` */
  function GetRoles(up: bool, docs: seq<Role>): (r: RoleReply)
    ensures r.Listing? <==> up
    ensures r.Listing? ==> r.roles == docs
  {
    if up then Listing(docs) else Answer(500, FETCH_ALL_ERROR)
  }

  /** `getRoleById(req, res)` for the path parameter `id`. */
  function GetRoleById(up: bool, docs: seq<Role>, id: string): (r: RoleReply)
    ensures r.Found? <==> up && CastId(id).Done? && FirstWithId(docs, CastId(id).value).Some?
    ensures r.Found? ==> r.role in docs && r.role.id == CastId(id).value
  {
    if !up then Answer(500, FETCH_ERROR)
    else match CastId(id)
      case Failed(_) => Answer(500, FETCH_ERROR)
      case Done(n) =>
        match FirstWithId(docs, n)
        case None => Answer(404, NOT_FOUND)
        case Some(role) => Found(role)
  }

  /** `updateRole(req, res)` for the path parameter `id`. */
  function UpdateRole(up: bool, docs: seq<Role>, id: string, body: RoleBody): (r: RoleStep)
    ensures !r.reply.WithRole? ==> r.docs == docs && r.reply.Answer?
    ensures r.reply.WithRole? ==> r.reply.status == 200 && |r.docs| == |docs|
  {
    var invalid := SchemaError(body);
    if invalid.Some? then RoleStep(Answer(400, invalid.value), docs)
    else
      assert body.name.Some?;
      if !up then RoleStep(Answer(500, UPDATE_ERROR), docs)
      else match UpdateName(docs, id, body.name.value)
        case Failed(_) => RoleStep(Answer(500, UPDATE_ERROR), docs)
        case Done(p) =>
          match p.0
          case None => RoleStep(Answer(404, NOT_FOUND), docs)
          case Some(role) => RoleStep(WithRole(200, UPDATED, role), p.1)
  }

  /** `deleteRole(req, res)` for the path parameter `id`. */
  function DeleteRole(up: bool, docs: seq<Role>, id: string): (r: RoleStep)
    ensures r.reply.Answer?
    ensures r.reply.status != 200 ==> r.docs == docs
    ensures r.reply.status == 200 ==> |r.docs| < |docs|
  {
    if !up then RoleStep(Answer(500, DELETE_ERROR), docs)
    else match Delete(docs, id)
      case Failed(_) => RoleStep(Answer(500, DELETE_ERROR), docs)
      case Done(p) =>
        match p.0
        case None => RoleStep(Answer(404, NOT_FOUND), docs)
        case Some(_) =>
          assert |p.1| < |docs| by { WithoutShorter(docs, CastId(id).value); }
          RoleStep(Answer(200, DELETED), p.1)
  }

  lemma {:induction false} WithoutShorter(docs: seq<Role>, n: nat)
    requires FirstWithId(docs, n).Some?
    ensures |Without(docs, n)| < |docs|
    decreases |docs|
  {
    if docs[0].id != n {
      WithoutShorter(docs[1..], n);
    } else {
      WithoutNoLonger(docs[1..], n);
    }
  }

  lemma {:induction false} WithoutNoLonger(docs: seq<Role>, n: nat)
    ensures |Without(docs, n)| <= |docs|
    decreases |docs|
  {
    if docs != [] {
      WithoutNoLonger(docs[1..], n);
    }
  }

  // ---------------------------------------------------------------------------
  // The handlers against the collection.

  method CreateRoleHandler(roles: Roles, body: RoleBody, nowMs: nat) returns (reply: RoleReply)
    modifies roles`docs
    ensures RoleStep(reply, roles.docs) == CreateRole(roles.up, old(roles.docs), body, nowMs)
  {
    var invalid := SchemaError(body);
    if invalid.Some? {
      return Answer(400, invalid.value);
    }
    var name := body.name.value;
    var all := roles.FindAll();
    if all.Failed? {
      return Answer(500, CREATE_ERROR);
    }
    var existing := roles.FindOne(Some(name));
    if existing.Failed? {
      return Answer(500, CREATE_ERROR);
    }
    if existing.value.Some? {
      return Answer(400, ExistsMessage(name));
    }
    var saved := roles.Save(name, nowMs);
    if saved.Failed? {
      return if saved.error == DuplicateKey then Answer(400, NAME_NOT_UNIQUE) else Answer(500, CREATE_ERROR);
    }
    reply := WithRole(201, CREATED, saved.value);
  }

  method GetRolesHandler(roles: Roles) returns (reply: RoleReply)
    ensures reply == GetRoles(roles.up, roles.docs)
  {
    var all := roles.FindAll();
    reply := if all.Failed? then Answer(500, FETCH_ALL_ERROR) else Listing(all.value);
  }

  method GetRoleByIdHandler(roles: Roles, id: string) returns (reply: RoleReply)
    ensures reply == GetRoleById(roles.up, roles.docs, id)
  {
    var found := roles.FindById(id);
    if found.Failed? {
      return Answer(500, FETCH_ERROR);
    }
    reply := if found.value.None? then Answer(404, NOT_FOUND) else Found(found.value.value);
  }

  method UpdateRoleHandler(roles: Roles, id: string, body: RoleBody) returns (reply: RoleReply)
    modifies roles`docs
    ensures RoleStep(reply, roles.docs) == UpdateRole(roles.up, old(roles.docs), id, body)
  {
    var invalid := SchemaError(body);
    if invalid.Some? {
      return Answer(400, invalid.value);
    }
    var updated := roles.FindByIdAndUpdate(id, body.name.value);
    if updated.Failed? {
      return Answer(500, UPDATE_ERROR);
    }
    reply := if updated.value.None? then Answer(404, NOT_FOUND) else WithRole(200, UPDATED, updated.value.value);
  }

  method DeleteRoleHandler(roles: Roles, id: string) returns (reply: RoleReply)
    modifies roles`docs
    ensures RoleStep(reply, roles.docs) == DeleteRole(roles.up, old(roles.docs), id)
  {
    var deleted := roles.FindByIdAndDelete(id);
    if deleted.Failed? {
      return Answer(500, DELETE_ERROR);
    }
    reply := if deleted.value.None? then Answer(404, NOT_FOUND) else Answer(200, DELETED);
  }

  // ---------------------------------------------------------------------------
  // Properties.

  /** A body the schema refuses gets 400 with Joi's first message, before
      the collection is touched, for create and for update. */
  lemma InvalidBodyRefused(up: bool, docs: seq<Role>, id: string, body: RoleBody, nowMs: nat)
    requires RoleValidation.Details(body.name, body.extra) != []
    ensures var m := RoleValidation.Details(body.name, body.extra)[0].message;
            CreateRole(up, docs, body, nowMs) == RoleStep(Answer(400, m), docs) &&
            UpdateRole(up, docs, id, body) == RoleStep(Answer(400, m), docs)
  {
  }

  /** A name that is already stored gets 400 naming it, and nothing is written. */
  lemma ExistingNameRefused(docs: seq<Role>, name: string, nowMs: nat)
    requires name in RoleValidation.ALLOWED && FirstNamed(docs, name).Some?
    ensures CreateRole(true, docs, RoleBody(Some(name), []), nowMs) == RoleStep(Answer(400, ExistsMessage(name)), docs)
  {
    RoleValidation.ListedNamesTrimmed();
  }

  /** 'Admin' or 'Client', not yet stored, is added as exactly one new role
      with that name and a fresh id, returned with 201; the names stay unique. */
  lemma CreateAddsOneRole(docs: seq<Role>, name: string, nowMs: nat)
    requires name == "Admin" || name == "Client"
    requires FirstNamed(docs, name).None? && UniqueNames(docs)
    ensures var r := CreateRole(true, docs, RoleBody(Some(name), []), nowMs);
            r.reply.WithRole? && r.reply.status == 201 && r.reply.message == CREATED &&
            r.reply.role.name == name && r.docs == docs + [r.reply.role] &&
            (forall i | 0 <= i < |docs| :: docs[i].id != r.reply.role.id) &&
            UniqueNames(r.docs)
  {
    RoleValidation.ListedNamesTrimmed();
    RoleValidation.DetailsEmptyIff(Some(name), []);
    NameValidMeans(name);
    InsertKeepsNamesUnique(docs, name, nowMs);
  }

  /** 'deliverer' passes the schema but not the model's enum: the save
      throws a validation error, answered 500, and nothing is written. */
  lemma DelivererIsServerError(docs: seq<Role>, name: string, nowMs: nat)
    requires name == "deliverer" && FirstNamed(docs, name).None?
    ensures CreateRole(true, docs, RoleBody(Some(name), []), nowMs) == RoleStep(Answer(500, CREATE_ERROR), docs)
  {
    RoleValidation.DetailsEmptyIff(Some(name), []);
    RoleValidation.ListedNamesTrimmed();
    RoleValidation.SchemaAndModelAgree(name);
  }

  /** The duplicate-key branch of the catch is never reached by one request
      at a time: the name was looked up just before the save. */
  lemma DuplicateKeyNotReached(up: bool, docs: seq<Role>, body: RoleBody, nowMs: nat)
    ensures CreateRole(up, docs, body, nowMs).reply != Answer(400, NAME_NOT_UNIQUE)
  {
    var invalid := SchemaError(body);
    if invalid.Some? {
      assert invalid.value != NAME_NOT_UNIQUE by {
        var d := RoleValidation.Details(body.name, body.extra);
        if body.name.None? {
          assert d[0].message == RequiredMessage("name");
          assert RequiredMessage("name")[|RequiredMessage("name")| - 1] == 'd';
        } else if body.name.value !in RoleValidation.ALLOWED {
          assert d[0].message == RoleValidation.NOT_ALLOWED_NAME;
          assert |RoleValidation.NOT_ALLOWED_NAME| != |NAME_NOT_UNIQUE|;
        } else {
          assert d[0].message == UnknownMessage(body.extra[0]);
          assert UnknownMessage(body.extra[0])[0] == '"';
        }
      }
    }
  }

  /** Reading, renaming or deleting an id that is not stored gets 404 and
      the collection is unchanged (a rename needs a name that passes both the
      schema and the model, since the update validators run first). */
  lemma MissingIdNotFound(docs: seq<Role>, id: string, name: string)
    requires CastId(id).Done? && FirstWithId(docs, CastId(id).value).None?
    requires name == "Admin" || name == "Client"
    ensures GetRoleById(true, docs, id) == Answer(404, NOT_FOUND)
    ensures UpdateRole(true, docs, id, RoleBody(Some(name), [])) == RoleStep(Answer(404, NOT_FOUND), docs)
    ensures DeleteRole(true, docs, id) == RoleStep(Answer(404, NOT_FOUND), docs)
  {
    RoleValidation.SchemaAndModelAgree(name);
  }

  /** A rename of a stored role changes that role's name only: every role
      keeps its id and creation time, every other role is as it was, and the
      names stay unique. */
  lemma UpdateChangesOnlyTarget(docs: seq<Role>, id: string, name: string, i: nat)
    requires UniqueNames(docs) && UniqueIds(docs) && i < |docs|
    requires UpdateRole(true, docs, id, RoleBody(Some(name), [])).reply.WithRole?
    ensures var r := UpdateRole(true, docs, id, RoleBody(Some(name), []));
            r.reply.role.id == CastId(id).value && r.reply.role.name == Trim(name) &&
            |r.docs| == |docs| && r.docs[i].id == docs[i].id && r.docs[i].createdAt == docs[i].createdAt &&
            (docs[i].id != CastId(id).value ==> r.docs[i] == docs[i]) &&
            (docs[i].id == CastId(id).value ==> r.docs[i].name == Trim(name)) &&
            UniqueNames(r.docs)
  {
    UpdateNameChangesOnlyTarget(docs, id, name, i);
    UpdateNameKeepsNamesUnique(docs, id, name);
  }

  /** A delete of a stored role removes it and keeps every other role. */
  lemma DeleteRemovesTarget(docs: seq<Role>, id: string, other: nat)
    requires DeleteRole(true, docs, id).reply.status == 200
    ensures var r := DeleteRole(true, docs, id);
            var n := CastId(id).value;
            r.reply == Answer(200, DELETED) && FirstWithId(r.docs, n).None? &&
            (other != n ==> FirstWithId(r.docs, other).Some? == FirstWithId(docs, other).Some?)
  {
    DeleteRemovesOnlyTarget(docs, id, other);
  }
}
