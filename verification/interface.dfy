/** The variable-interface deriver (dynamo_mcp/core/interface_generator.py): from a
    template's parsed `cookiecutter.json`, one variable per public key, each with a
    type, options, default and description guessed from its value and name. */
module Interface {
  import opened Outcomes
  import opened Text
  import opened Models
  import opened Registry

  /** The answers that read as yes/no once lower-cased. */
  const YesNo: set<string> := {"y", "n", "yes", "no"}

  /** A string value is a yes/no question when it starts with `y/n` or is one of the
      yes/no answers in any letter case. */
  predicate YesNoText(s: string) {
    StartsWith(s, "y/n") || Lower(s) in YesNo
  }

  /** `_get_variable_type`. For strings, in order: a Jinja expression is `derived`, a
      yes/no text `boolean`, a text with `/` or `,` a `choice`, anything else a
      `string`. Other values by JSON type, with `bool` taken before `int`. */
  function VariableType(value: Json): (t: VarType)
    ensures value.JStr? && Contains(value.str, "{{") && Contains(value.str, "}}") ==> t == Derived
    ensures t == Derived ==> value.JStr? && Contains(value.str, "{{") && Contains(value.str, "}}")
    ensures t == Choice <==> value.JList? || (value.JStr? && t != Derived && !YesNoText(value.str)
                                             && ('/' in value.str || ',' in value.str))
    ensures t == Boolean <==> value.JBool? || (value.JStr? && t != Derived && YesNoText(value.str))
    ensures t == Object <==> value.JObject?
  {
    match value
    case JStr(s) =>
      if Contains(s, "{{") && Contains(s, "}}") then Derived
      else if YesNoText(s) then Boolean
      else if '/' in s || ',' in s then Choice
      else Str
    case JBool(_) => Boolean
    case JInt(_) => Integer
    case JFloat(_, _) => Float
    case JList(_) => Choice
    case JObject(_) => Object
    case JNull => Str
  }

  /** The pieces of a string as JSON strings. */
  function Strs(parts: seq<string>): (r: seq<Json>)
    ensures |r| == |parts| && forall i :: 0 <= i < |parts| ==> r[i] == JStr(parts[i])
  {
    seq(|parts|, i requires 0 <= i < |parts| => JStr(parts[i]))
  }

  /** `_get_variable_options`: a string with `/` is split on `/` (tested first), else
      one with `,` on `,`; a yes/no text offers `y` and `n`; a list offers its items. It
      looks at the value only, not at the type. */
  function VariableOptions(value: Json): (r: Option<seq<Json>>)
    ensures value.JList? ==> r == Some(value.items)
    ensures value.JStr? && '/' in value.str ==> r == Some(Strs(Split(value.str, "/")))
    ensures value.JStr? && '/' !in value.str && ',' in value.str ==> r == Some(Strs(Split(value.str, ",")))
    ensures r.Some? && !value.JList? ==> value.JStr? && |r.value| >= 2
  {
    match value
    case JStr(s) =>
      if '/' in s then SplitsInTwo(s, '/'); Some(Strs(Split(s, "/")))
      else if ',' in s then SplitsInTwo(s, ','); Some(Strs(Split(s, ",")))
      else if StartsWith(s, "y/n") then Some([JStr("y"), JStr("n")])
      else if Lower(s) in YesNo then Some([JStr("y"), JStr("n")])
      else None
    case JList(xs) => Some(xs)
    case _ => None
  }

  /** A text holding the separator splits into at least two pieces. */
  lemma SplitsInTwo(s: string, c: char)
    requires c in s
    ensures |Split(s, [c])| >= 2
  {
    ContainsChar(s, c);
    IndexOfFirst(s, [c]);
  }

  /** The default offered: the value itself, except for a choice, whose default is its
      first option (`None` when there are none). */
  function VariableDefault(value: Json, t: VarType, options: Option<seq<Json>>): (d: Json)
    ensures t != Choice ==> d == value
    ensures t == Choice && options.Some? && options.value != [] ==> d == options.value[0]
    ensures t == Choice && (options.None? || options.value == []) ==> d == JNull
  {
    if t != Choice then value
    else if options.Some? && options.value != [] then options.value[0]
    else JNull
  }

  /** The fixed descriptions of well-known variables. */
  const Descriptions: map<string, string> := map[
    "project_name" := "The name of the project",
    "project_slug" := "The slug of the project (used for URLs and file names)",
    "project_short_description" := "A short description of the project",
    "full_name" := "Your full name",
    "email" := "Your email address",
    "github_username" := "Your GitHub username",
    "version" := "The version of the project",
    "command_line_interface" := "The command line interface to use",
    "use_pytest" := "Whether to use pytest for testing",
    "use_black" := "Whether to use black for code formatting",
    "use_pypi_deployment_with_travis" := "Whether to use PyPI deployment with Travis",
    "add_pyup_badge" := "Whether to add a PyUp badge",
    "create_author_file" := "Whether to create an authors file",
    "open_source_license" := "The open source license to use"
  ]

  /** `_get_variable_description`: the table entry, or `The ` and the name with its
      underscores turned into spaces. */
  function VariableDescription(name: string): (d: string)
    ensures name in Descriptions ==> d == Descriptions[name]
    ensures name !in Descriptions ==> StartsWith(d, "The ") && |d| == 4 + |name|
                                      && forall i :: 0 <= i < |name| ==> d[4 + i] == (if name[i] == '_' then ' ' else name[i])
  {
    if name in Descriptions then Descriptions[name] else "The " + ReplaceChar(name, '_', ' ')
  }

  /** The variable one key of `cookiecutter.json` yields. */
  function VariableOf(key: string, value: Json): (v: TemplateVariable)
    ensures v.name == key && v.varType == VariableType(value) && v.options == VariableOptions(value)
  {
    var t := VariableType(value);
    var options := VariableOptions(value);
    TemplateVariable(name := key, varType := t, description := VariableDescription(key),
                     default := VariableDefault(value, t, options), options := options)
  }

  /** Keys that start with `_` are private: they hold template settings, not questions. */
  predicate Private(key: string) {
    StartsWith(key, "_")
  }

  /** The variables of a `cookiecutter.json` object, in file order, private keys skipped. */
  function VariablesOf(members: seq<(string, Json)>): seq<TemplateVariable> {
    KeepMap(members, (m: (string, Json)) => !Private(m.0), (m: (string, Json)) => VariableOf(m.0, m.1))
  }

  /** The images under `f` of the elements that pass `keep`, in order. */
  function KeepMap<A, B>(xs: seq<A>, keep: A -> bool, f: A -> B): seq<B>
    decreases |xs|
  {
    if xs == [] then []
    else KeepMap(xs[..|xs| - 1], keep, f) + (if keep(xs[|xs| - 1]) then [f(xs[|xs| - 1])] else [])
  }

  lemma {:induction false} KeepMapMembers<A, B>(xs: seq<A>, keep: A -> bool, f: A -> B)
    ensures |KeepMap(xs, keep, f)| <= |xs|
    ensures forall y :: y in KeepMap(xs, keep, f) <==> exists j :: 0 <= j < |xs| && keep(xs[j]) && y == f(xs[j])
    decreases |xs|
  {
    if xs != [] {
      var n := |xs| - 1;
      KeepMapMembers(xs[..n], keep, f);
      assert forall j :: 0 <= j < n ==> xs[..n][j] == xs[j];
    }
  }

  /** Exactly the public keys yield variables, each key its own variable, and there are
      no more variables than keys. */
  lemma VariablesOfKeys(members: seq<(string, Json)>)
    ensures |VariablesOf(members)| <= |members|
    ensures forall v :: v in VariablesOf(members) ==>
              !Private(v.name) && exists j :: 0 <= j < |members| && v == VariableOf(members[j].0, members[j].1)
    ensures forall j :: 0 <= j < |members| && !Private(members[j].0) ==>
              VariableOf(members[j].0, members[j].1) in VariablesOf(members)
  {
    KeepMapMembers(members, (m: (string, Json)) => !Private(m.0), (m: (string, Json)) => VariableOf(m.0, m.1));
  }

  /** The loop of `get_template_variables` over the items of the object. */
  method ExtractVariables(members: seq<(string, Json)>) returns (variables: seq<TemplateVariable>)
    ensures variables == VariablesOf(members)
  {
    variables := [];
    var i := 0;
    while i < |members|
      invariant 0 <= i <= |members|
      invariant variables == VariablesOf(members[..i])
    {
      var (key, value) := members[i];
      assert members[..i + 1][..i] == members[..i];
      if !Private(key) {
        variables := variables + [VariableOf(key, value)];
      }
      i := i + 1;
    }
    assert members[..i] == members;
  }

  const MissingJsonPrefix := "cookiecutter.json not found in template: "
  const InvalidJsonPrefix := "Invalid cookiecutter.json: "
  const ExtractPrefix := "Failed to extract variables: "

  /** `get_template_variables`. `file` is what reading `cookiecutter.json` in the
      template's directory gives. An unknown template and a missing file are reported
      first; a file `json.load` rejects, or a document that is not an object (it has no
      `.items()`), becomes an `InterfaceGenerationError`. */
  method GetTemplateVariables(registry: TemplateRegistry, templateName: string, file: JsonFile)
    returns (r: Result<seq<TemplateVariable>>)
    ensures templateName !in registry.templates.items ==> r == Err(NotFoundError(templateName))
    ensures templateName in registry.templates.items ==>
              match file
              case Missing => r == Err(Error(InterfaceGeneration, MissingJsonPrefix + templateName))
              case Malformed(why) => r == Err(Error(InterfaceGeneration, InvalidJsonPrefix + why))
              case Loaded(doc) =>
                if doc.JObject? then r == Ok(VariablesOf(doc.members))
                else r == Err(Error(InterfaceGeneration, ExtractPrefix + "'" + doc.TypeName()
                                                         + "' object has no attribute 'items'"))
  {
    if templateName !in registry.templates.items {
      return Err(NotFoundError(templateName));
    }
    match file {
      case Missing =>
        return Err(Error(InterfaceGeneration, MissingJsonPrefix + templateName));
      case Malformed(why) =>
        return Err(Error(InterfaceGeneration, InvalidJsonPrefix + why));
      case Loaded(doc) =>
        if !doc.JObject? {
          return Err(Error(InterfaceGeneration, ExtractPrefix + "'" + doc.TypeName()
                                                + "' object has no attribute 'items'"));
        }
        var variables := ExtractVariables(doc.members);
        return Ok(variables);
    }
  }

  /** Options exist only for choices, yes/no questions and Jinja expressions, and every
      choice has options. */
  lemma OptionsFollowType(value: Json)
    ensures VariableOptions(value).Some? ==> VariableType(value) in {Choice, Boolean, Derived}
    ensures VariableType(value) == Choice ==> VariableOptions(value).Some?
  {
  }

  /** The options ignore the type: a Jinja expression holding a `/` is typed `derived`
      and still offers the pieces between its slashes as options. */
  lemma DerivedStillSplit(s: string)
    requires Contains(s, "{{") && Contains(s, "}}") && '/' in s
    ensures VariableType(JStr(s)) == Derived
    ensures VariableOptions(JStr(s)) == Some(Strs(Split(s, "/")))
    ensures VariableOf("x", JStr(s)).default == JStr(s)
  {
  }

  /** A choice with options offers its first option as the default. */
  lemma ChoiceDefault(key: string, value: Json, opts: seq<Json>)
    requires VariableType(value) == Choice && VariableOptions(value) == Some(opts) && opts != []
    ensures VariableOf(key, value).default == opts[0]
  {
  }

  /** Names joined with `/` hold a `/` and split back into the names. */
  lemma SlashSplit(names: seq<string>, s: string)
    requires |names| >= 2 && s == Join(names, "/")
    requires forall n :: n in names ==> '/' !in n
    ensures '/' in s && Split(s, "/") == names
  {
    JoinHasSeparator(names, '/');
    SplitJoin(names, '/');
  }

  /** A slash-separated list of names becomes a choice among those names, and the first
      of them is the default, as for `MIT/BSD/Not open source`. */
  lemma SlashChoice(key: string, names: seq<string>, s: string)
    requires |names| >= 2 && s == Join(names, "/")
    requires forall n :: n in names ==> '/' !in n
    requires !(Contains(s, "{{") && Contains(s, "}}")) && !YesNoText(s)
    ensures VariableType(JStr(s)) == Choice
    ensures VariableOptions(JStr(s)) == Some(Strs(names))
    ensures VariableOf(key, JStr(s)).default == JStr(names[0])
  {
    SlashSplit(names, s);
    SlashPieces(key, names, s);
  }

  /** A plain text holding `/` is a choice among the pieces of its split, the first
      piece being the default. */
  lemma SlashPieces(key: string, names: seq<string>, s: string)
    requires '/' in s && Split(s, "/") == names
    requires !(Contains(s, "{{") && Contains(s, "}}")) && !YesNoText(s)
    ensures VariableType(JStr(s)) == Choice
    ensures VariableOptions(JStr(s)) == Some(Strs(names))
    ensures VariableOf(key, JStr(s)).default == JStr(names[0])
  {
    SlashTyped(s);
    SlashOptions(s, names);
    ChoiceDefault(key, JStr(s), Strs(names));
  }

  /** A plain text holding `/` is a choice. */
  lemma SlashTyped(s: string)
    requires '/' in s && !(Contains(s, "{{") && Contains(s, "}}")) && !YesNoText(s)
    ensures VariableType(JStr(s)) == Choice
  {
  }

  /** A text holding `/` offers the pieces of its split on `/`. */
  lemma SlashOptions(s: string, names: seq<string>)
    requires '/' in s && Split(s, "/") == names
    ensures VariableOptions(JStr(s)) == Some(Strs(names))
  {
  }
}
