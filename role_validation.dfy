/** src/api/V1/validations/roleValidation.js: `name` required and one of the
    listed values; no other key is allowed. Joi compares against the listed
    values before it looks at the type, so the empty string is refused with
    the `any.only` message rather than `string.empty`. */
module RoleValidation {
  import opened Wrappers
  import opened Joi
  import RoleModel
  import Text

  const ALLOWED: seq<string> := ["Admin", "Client", "deliverer"]
  const NOT_ALLOWED_NAME := "Role name must be one of the following: Admin, Client, Livreur"

  /** The failures of `roleValidationSchema.validate(body)`: `name` first,
      then every key other than `name`. */
  function Details(name: Option<string>, extra: seq<string>): (r: seq<Detail>)
    ensures |r| == (if name.Some? && name.value in ALLOWED then 0 else 1) + |extra|
  {
    (match name
     case None => [Detail("name", RequiredMessage("name"))]
     case Some(s) => if s in ALLOWED then [] else [Detail("name", NOT_ALLOWED_NAME)]) +
    UnknownKeys(extra)
  }

  /** The body is accepted exactly when `name` is one of the three listed
      values, compared case-sensitively, and there is no other key. */
  lemma DetailsEmptyIff(name: Option<string>, extra: seq<string>)
    ensures Details(name, extra) == [] <==>
              extra == [] && (name == Some("Admin") || name == Some("Client") || name == Some("deliverer"))
  {
  }

  /** What the role handlers report: the missing name, the refused name (the
      empty one included), or the first unknown key when the name is fine. */
  lemma FirstFailure(name: Option<string>, extra: seq<string>)
    ensures name.None? ==> FirstMessage(Details(name, extra)) == Some(RequiredMessage("name"))
    ensures name.Some? && name.value !in ALLOWED ==> FirstMessage(Details(name, extra)) == Some(NOT_ALLOWED_NAME)
    ensures name == Some("") ==> FirstMessage(Details(name, extra)) == Some(NOT_ALLOWED_NAME)
    ensures name.Some? && name.value in ALLOWED && extra != [] ==>
              FirstMessage(Details(name, extra)) == Some(UnknownMessage(extra[0]))
  {
    assert "" !in ALLOWED;
  }

  /** 'Livreur' is refused although the message offers it, and 'deliverer'
      is accepted although the message does not list it. */
  lemma LivreurRefused()
    ensures Details(Some("Livreur"), []) == [Detail("name", NOT_ALLOWED_NAME)]
    ensures Details(Some("deliverer"), []) == []
  {
    assert "Livreur" !in ALLOWED by {
      assert "Livreur" != "Admin" && "Livreur" != "Client" && "Livreur" != "deliverer";
    }
  }

  /** A word that neither starts nor ends with white space is its own trim. */
  lemma WordTrimmed(s: string, first: char, last: char)
    requires |s| > 0 && s[0] == first && s[|s| - 1] == last
    requires Text.IsAlnum(first) && Text.IsAlnum(last)
    ensures Text.Trim(s) == s
  {
    Text.TrimOfTrimmed(s);
  }

  /** The listed values have no white space around them. */
  lemma ListedNamesTrimmed()
    ensures Text.Trim("Admin") == "Admin" && Text.Trim("Client") == "Client"
    ensures Text.Trim("deliverer") == "deliverer"
  {
    WordTrimmed("Admin", 'A', 'n');
    WordTrimmed("Client", 'C', 't');
    WordTrimmed("deliverer", 'd', 'r');
  }

  /** Only 'Admin' and 'Client' pass both this schema and the Role model's
      `enum`; 'deliverer' passes the schema and then fails the model. */
  lemma SchemaAndModelAgree(name: string)
    ensures Details(Some(name), []) == [] && RoleModel.NameValid(name) <==> name == "Admin" || name == "Client"
  {
    RoleModel.NameValidMeans(name);
    if name in ALLOWED {
      ListedNamesTrimmed();
      assert Details(Some(name), []) == [];
      assert Text.Trim(name) == name;
      if name == "deliverer" {
        assert |name| == 9;
      }
    } else {
      assert Details(Some(name), []) != [];
    }
  }
}
