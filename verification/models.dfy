/** The records the components exchange (the pydantic models of
    dynamo_mcp/core/models.py) and the already-parsed JSON values they carry. */
module Models {
  import opened Outcomes

  /** A parsed JSON value. Floats are kept opaque: their literal text and whether they
      are zero (which is all Python's truthiness needs). An object keeps its members in
      file order, as Python's `dict` does. */
  datatype Json =
    | JNull
    | JBool(flag: bool)
    | JInt(num: int)
    | JFloat(literal: string, zero: bool)
    | JStr(str: string)
    | JList(items: seq<Json>)
    | JObject(members: seq<(string, Json)>)
  {
    /** Python's `bool(value)`. */
    predicate Truthy() {
      match this
      case JNull => false
      case JBool(b) => b
      case JInt(n) => n != 0
      case JFloat(_, z) => !z
      case JStr(s) => s != []
      case JList(xs) => xs != []
      case JObject(m) => m != []
    }

    /** `type(value).__name__`. */
    function TypeName(): string {
      match this
      case JNull => "NoneType"
      case JBool(_) => "bool"
      case JInt(_) => "int"
      case JFloat(_, _) => "float"
      case JStr(_) => "str"
      case JList(_) => "list"
      case JObject(_) => "dict"
    }
  }

  /** `d.get(key)` on a parsed object (its keys are distinct, so the first match is the match). */
  function Lookup(members: seq<(string, Json)>, key: string): (r: Option<Json>)
    ensures r.Some? <==> exists i :: 0 <= i < |members| && members[i].0 == key
    ensures r.Some? ==> exists i :: 0 <= i < |members| && members[i] == (key, r.value)
  {
    if members == [] then None
    else if members[0].0 == key then Some(members[0].1)
    else
      var r := Lookup(members[1..], key);
      assert forall i :: 1 <= i < |members| ==> members[i] == members[1..][i - 1];
      r
  }

  /** What reading a template's `cookiecutter.json` gives: no file, a file `json.load`
      rejects, or the parsed document. */
  datatype JsonFile = Missing | Malformed(reason: string) | Loaded(doc: Json)

  /** Information about a template; `description` defaults to the empty string. The
      record has no category or tags. */
  datatype TemplateInfo = TemplateInfo(
    name: string,
    url: string,
    description: string := "",
    path: string,
    venvPath: string)

  /** The variable types the interface deriver reports. */
  datatype VarType = Derived | Boolean | Choice | Str | Integer | Float | Object
  {
    function Name(): string {
      match this
      case Derived => "derived"
      case Boolean => "boolean"
      case Choice => "choice"
      case Str => "string"
      case Integer => "integer"
      case Float => "float"
      case Object => "object"
    }
  }

  /** A variable of a template: name and type are required; the description defaults to
      "", the default value to `None` (JSON null) and the options to `None`. */
  datatype TemplateVariable = TemplateVariable(
    name: string,
    varType: VarType,
    description: string := "",
    default: Json := JNull,
    options: Option<seq<Json>> := None)

  /** A request to create a project: template name, output directory and the variable
      assignments, all required. */
  datatype CreateProjectRequest = CreateProjectRequest(
    templateName: string,
    outputDir: string,
    variables: map<string, Json>)
}
