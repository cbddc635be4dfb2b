/** The template registry (dynamo_mcp/core/template_registry.py): the in-memory index
    of installed cookiecutter templates, rebuilt from the templates directory at start-up,
    and the operations that add (clone + venv + install), update (pull), remove and
    discover templates. */
module Registry {
  import opened Outcomes
  import opened Text
  import opened Models
  import opened OrderedMaps
  import opened Hosts
  import opened EnvironmentManager

  // ---- template names ----

  lemma SlashBefore(s: string, prefix: string, seg: string, l: string)
    requires s == prefix + "/" + seg && EndsWith(s, "/" + l) && |l| < |seg|
    ensures seg[|seg| - |l| - 1] == '/'
  {
    assert s[|s| - |l| - 1] == ("/" + l)[0];
    assert seg[|seg| - |l| - 1] == s[|s| - |l| - 1];
  }

  /** The last `/`-separated segment of a string is the text after its last `/`. */
  lemma LastSegment(prefix: string, seg: string)
    requires '/' !in seg
    ensures Last(Split(prefix + "/" + seg, "/")) == seg
  {
    var s := prefix + "/" + seg;
    var parts := Split(s, "/");
    var l := Last(parts);
    SplitPiecesFree(s, "/");
    SplitLast(s, "/");
    assert l in parts;
    ContainsChar(l, '/');
    assert s[|prefix|] == '/';
    ContainsChar(s, '/');
    if |l| < |seg| {
      SlashBefore(s, prefix, seg, l);
      assert false;
    } else if |l| > |seg| {
      assert false;
    }
    assert l == s[|s| - |l|..] == seg;
  }

  const GitSuffix := ".git"
  const CookiecutterPrefix := "cookiecutter-"

  /** The name a repository segment gives: drop a trailing `.git`, then one leading
      `cookiecutter-`. */
  function SegmentName(seg: string): string {
    var base := if EndsWith(seg, GitSuffix) then seg[..|seg| - |GitSuffix|] else seg;
    if StartsWith(base, CookiecutterPrefix) then base[|CookiecutterPrefix|..] else base
  }

  /** What is left is a piece of the segment that ends it, or ends just before its
      `.git`. */
  lemma SegmentNameShape(seg: string)
    ensures EndsWith(seg, SegmentName(seg)) || EndsWith(seg, SegmentName(seg) + GitSuffix)
    ensures forall c :: c in SegmentName(seg) ==> c in seg
  {
    var base := if EndsWith(seg, GitSuffix) then seg[..|seg| - |GitSuffix|] else seg;
    assert EndsWith(seg, GitSuffix) ==> seg == base + GitSuffix;
  }

  lemma EndsWithTrans(s: string, t: string, u: string)
    requires EndsWith(s, t) && EndsWith(t, u)
    ensures EndsWith(s, u)
  {
    assert s[|s| - |u|..] == t[|t| - |u|..];
  }

  /** `add_template`'s name for a URL given without a name: the last `/`-segment with a
      trailing `.git` and then a leading `cookiecutter-` removed. */
  function DeriveName(url: string): string {
    SegmentName(Last(Split(url, "/")))
  }

  /** The derived name never holds a `/`, and the URL ends with it, or with it followed
      by `.git`. */
  lemma DeriveNameShape(url: string)
    ensures '/' !in DeriveName(url)
    ensures EndsWith(url, DeriveName(url)) || EndsWith(url, DeriveName(url) + GitSuffix)
  {
    var seg := Last(Split(url, "/"));
    SplitPiecesFree(url, "/");
    assert seg in Split(url, "/");
    ContainsChar(seg, '/');
    SplitLastSuffix(url, "/");
    var name := SegmentName(seg);
    SegmentNameShape(seg);
    if EndsWith(seg, name) {
      EndsWithTrans(url, seg, name);
    } else {
      EndsWithTrans(url, seg, name + GitSuffix);
    }
  }

  /** A URL whose last segment is `cookiecutter-<n>.git` registers template `n` (so
      `https://example.com/cookiecutter-demo.git` gives `demo`). */
  lemma DeriveNameOfRepository(prefix: string, n: string)
    requires '/' !in n
    ensures DeriveName(prefix + "/" + CookiecutterPrefix + n + GitSuffix) == n
  {
    var seg := CookiecutterPrefix + n + GitSuffix;
    assert prefix + "/" + CookiecutterPrefix + n + GitSuffix == prefix + "/" + seg;
    LastSegment(prefix, seg);
    assert seg[..|seg| - 4] == CookiecutterPrefix + n;
    assert (CookiecutterPrefix + n)[13..] == n;
  }

  /** `add_template`'s name: the caller's name unless it is missing or empty. */
  function TemplateName(url: string, name: Option<string>): string {
    if name.Some? && name.value != "" then name.value else DeriveName(url)
  }

  // ---- reading a template's files ----

  const UrlMarker := "url = "

  /** The repository URL in a `.git/config`: the first stripped line that starts with
      `url = `, cut at the next `url = ` on that line. */
  function ConfigUrl(lines: seq<string>): Option<string> {
    FirstValue(Stripped(lines), UrlMarker)
  }

  /** Every line of a file, stripped of surrounding whitespace. */
  function Stripped(lines: seq<string>): seq<string>
  {
    seq(|lines|, i requires 0 <= i < |lines| => Trim(lines[i], Whitespace))
  }

  /** A URL is found exactly when some stripped line starts with `url = `; it is the
      text after the marker on the first such line, and holds no further marker. */
  lemma ConfigUrlFound(lines: seq<string>)
    ensures ConfigUrl(lines).Some? <==>
              exists i :: 0 <= i < |lines| && StartsWith(Trim(lines[i], Whitespace), UrlMarker)
    ensures ConfigUrl(lines).Some? ==>
              exists i :: (0 <= i < |lines| && StartsWith(Trim(lines[i], Whitespace), UrlMarker)
                && (forall j :: 0 <= j < i ==> !StartsWith(Trim(lines[j], Whitespace), UrlMarker))
                && ConfigUrl(lines).value == AfterMarker(Trim(lines[i], Whitespace), UrlMarker))
    ensures ConfigUrl(lines).Some? ==> !Contains(ConfigUrl(lines).value, UrlMarker)
  {
    var stripped := Stripped(lines);
    assert |stripped| == |lines| && forall i :: 0 <= i < |lines| ==> stripped[i] == Trim(lines[i], Whitespace);
    FirstValueFound(stripped, UrlMarker);
    if ConfigUrl(lines).Some? {
      var i :| (0 <= i < |stripped| && StartsWith(stripped[i], UrlMarker)
                && (forall j :: 0 <= j < i ==> !StartsWith(stripped[j], UrlMarker))
                && ConfigUrl(lines).value == AfterMarker(stripped[i], UrlMarker));
    }
  }

  /** The `"_description" in doc` / `doc["_description"]` step on a template's
      `cookiecutter.json`: no file or a file `json.load` rejects gives nothing; an object
      gives its `_description` member if it has one. Any other document makes the
      membership test or the subscript raise `TypeError`. */
  function FoundDescription(file: JsonFile): (r: Result<Option<Json>>)
    ensures file.Loaded? && file.doc.JObject? ==> r == Ok(Lookup(file.doc.members, "_description"))
    ensures r.Err? ==> r.error.kind == TypeFailure
    ensures !file.Loaded? ==> r == Ok(None)
  {
    match file
    case Missing => Ok(None)
    case Malformed(_) => Ok(None)
    case Loaded(doc) =>
      match doc
      case JObject(m) => Ok(Lookup(m, "_description"))
      case JList(xs) =>
        if JStr("_description") in xs
        then Err(Error(TypeFailure, "list indices must be integers or slices, not str"))
        else Ok(None)
      case JStr(s) =>
        if Contains(s, "_description")
        then Err(Error(TypeFailure, "string indices must be integers, not 'str'"))
        else Ok(None)
      case _ => Err(Error(TypeFailure, "argument of type '" + doc.TypeName() + "' is not iterable"))
  }

  /** pydantic's refusal of a non-string `description`. */
  const DescriptionNotString := Error(Validation, "1 validation error for TemplateInfo\ndescription\n  Input should be a valid string")

  /** The description `_load_templates` records: the `_description` string, `""` when
      there is none, and a validation error when it is not a string. */
  function LoadedDescription(file: JsonFile): (r: Result<string>)
    ensures r.Ok? <==> FoundDescription(file).Ok?
                       && (FoundDescription(file).value.None? || FoundDescription(file).value.value.JStr?)
    ensures r.Ok? && FoundDescription(file).value.Some? ==> r.value == FoundDescription(file).value.value.str
    ensures r.Ok? && FoundDescription(file).value.None? ==> r.value == ""
  {
    match FoundDescription(file)
    case Err(e) => Err(e)
    case Ok(None) => Ok("")
    case Ok(Some(v)) => if v.JStr? then Ok(v.str) else Err(DescriptionNotString)
  }

  /** The description `add_template` records: the caller's one when non-empty;
      otherwise the cloned `cookiecutter.json`'s `_description`, where a falsy value
      gives `""` (`description or ""`) and a truthy non-string is refused. */
  function AddedDescription(given: Option<string>, cloned: JsonFile): (r: Result<string>)
    ensures given.Some? && given.value != "" ==> r == Ok(given.value)
    ensures r.Ok? && r.value != "" && !(given.Some? && given.value != "") ==>
              FoundDescription(cloned) == Ok(Some(JStr(r.value)))
    ensures (given.None? || given.value == "") && FoundDescription(cloned) == Ok(None) ==> r == Ok("")
  {
    if given.Some? && given.value != "" then Ok(given.value)
    else
      match FoundDescription(cloned)
      case Err(e) => Err(e)
      case Ok(None) => Ok("")
      case Ok(Some(v)) =>
        if !v.Truthy() then Ok("")
        else if v.JStr? then Ok(v.str)
        else Err(DescriptionNotString)
  }

  // ---- the start-up scan ----

  /** One child of the templates directory, as `_load_templates` sees it: its name,
      whether it is a directory, the lines of its `.git/config` if that file exists, and
      its `cookiecutter.json`. */
  datatype DirEntry = DirEntry(name: string, isDir: bool, gitConfig: Option<seq<string>>,
                               cookiecutter: JsonFile)

  /** A child is registered when it is a directory with a `.git/config` that names a
      non-empty URL. */
  predicate Qualifies(e: DirEntry) {
    e.isDir && e.gitConfig.Some? && ConfigUrl(e.gitConfig.value).Some?
    && ConfigUrl(e.gitConfig.value).value != ""
  }

  /** The record `_load_templates` builds for a registered child. */
  function EntryInfo(templatesDir: string, venvsDir: string, e: DirEntry, description: string): TemplateInfo
    requires Qualifies(e)
  {
    TemplateInfo(name := e.name, url := ConfigUrl(e.gitConfig.value).value,
                 description := description, path := PathJoin(templatesDir, e.name),
                 venvPath := PathJoin(venvsDir, e.name))
  }

  /** The registry's invariant: the key order is a valid dictionary order, and each
      record is filed under its own name, with the template's directory and venv placed
      under the two base directories by that name. */
  ghost predicate Consistent(templatesDir: string, venvsDir: string, m: OMap<string, TemplateInfo>) {
    m.Valid()
    && forall k :: k in m.items ==>
         m.items[k].name == k && m.items[k].path == PathJoin(templatesDir, k)
         && m.items[k].venvPath == PathJoin(venvsDir, k)
  }

  /** Filing a record under its own name, with its directory and venv placed by that
      name, keeps the invariant. */
  lemma PutConsistent(templatesDir: string, venvsDir: string, m: OMap<string, TemplateInfo>,
                      info: TemplateInfo)
    requires Consistent(templatesDir, venvsDir, m)
    requires info.path == PathJoin(templatesDir, info.name) && info.venvPath == PathJoin(venvsDir, info.name)
    ensures Consistent(templatesDir, venvsDir, Put(m, info.name, info))
  {
  }

  /** The names of the qualifying children of a listing. */
  function Names(listing: seq<DirEntry>): (ns: set<string>)
    ensures forall e :: e in listing && Qualifies(e) ==> e.name in ns
    ensures forall k :: k in ns ==> exists e :: e in listing && Qualifies(e) && e.name == k
  {
    if listing == [] then {}
    else (if Qualifies(listing[0]) then {listing[0].name} else {}) + Names(listing[1..])
  }

  /** One step of the scan: a qualifying child is filed under its name, unless its
      description cannot be read; any other child is skipped. */
  function FileEntry(templatesDir: string, venvsDir: string, m: OMap<string, TemplateInfo>,
                     e: DirEntry): (r: Result<OMap<string, TemplateInfo>>)
    requires m.Valid()
    ensures r.Err? <==> Qualifies(e) && LoadedDescription(e.cookiecutter).Err?
    ensures r.Err? ==> r.error.kind in {TypeFailure, Validation}
    ensures r.Ok? ==> r.value.Valid()
    ensures r.Ok? ==> r.value.items.Keys == m.items.Keys + (if Qualifies(e) then {e.name} else {})
    ensures r.Ok? && Consistent(templatesDir, venvsDir, m) ==> Consistent(templatesDir, venvsDir, r.value)
  {
    if !Qualifies(e) then Ok(m)
    else
      match LoadedDescription(e.cookiecutter)
      case Err(err) => Err(err)
      case Ok(d) => Ok(Put(m, e.name, EntryInfo(templatesDir, venvsDir, e, d)))
  }

  /** The scan over the directory listing, in listing order, starting from `m` (a later
      child with the same name replaces an earlier one in place); the first child whose
      description cannot be read aborts the scan. */
  function LoadAll(templatesDir: string, venvsDir: string, m: OMap<string, TemplateInfo>,
                   listing: seq<DirEntry>): (r: Result<OMap<string, TemplateInfo>>)
    requires m.Valid()
    ensures r.Ok? ==> r.value.Valid()
    decreases |listing|
  {
    if listing == [] then Ok(m)
    else
      match FileEntry(templatesDir, venvsDir, m, listing[0])
      case Err(err) => Err(err)
      case Ok(m') => LoadAll(templatesDir, venvsDir, m', listing[1..])
  }

  /** Scanning from position `i` handles the child there and then the rest. */
  lemma LoadAllStep(templatesDir: string, venvsDir: string, m: OMap<string, TemplateInfo>,
                    listing: seq<DirEntry>, i: nat)
    requires m.Valid() && i < |listing|
    ensures LoadAll(templatesDir, venvsDir, m, listing[i..])
            == match FileEntry(templatesDir, venvsDir, m, listing[i])
               case Err(err) => Err(err)
               case Ok(m') => LoadAll(templatesDir, venvsDir, m', listing[i + 1..])
  {
    assert listing[i..][0] == listing[i] && listing[i..][1..] == listing[i + 1..];
  }

  /** A successful scan registers exactly the qualifying children, on top of what was
      there, and keeps the registry's invariant. */
  lemma {:induction false} LoadAllRegisters(templatesDir: string, venvsDir: string,
                                            m: OMap<string, TemplateInfo>, listing: seq<DirEntry>)
    requires m.Valid() && LoadAll(templatesDir, venvsDir, m, listing).Ok?
    ensures LoadAll(templatesDir, venvsDir, m, listing).value.items.Keys == m.items.Keys + Names(listing)
    decreases |listing|
  {
    if listing != [] {
      var m' := FileEntry(templatesDir, venvsDir, m, listing[0]).value;
      LoadAllRegisters(templatesDir, venvsDir, m', listing[1..]);
    }
  }

  /** A successful scan keeps the registry's invariant. */
  lemma {:induction false} LoadAllConsistent(templatesDir: string, venvsDir: string,
                                             m: OMap<string, TemplateInfo>, listing: seq<DirEntry>)
    requires Consistent(templatesDir, venvsDir, m) && LoadAll(templatesDir, venvsDir, m, listing).Ok?
    ensures Consistent(templatesDir, venvsDir, LoadAll(templatesDir, venvsDir, m, listing).value)
    decreases |listing|
  {
    if listing != [] {
      var m' := FileEntry(templatesDir, venvsDir, m, listing[0]).value;
      LoadAllConsistent(templatesDir, venvsDir, m', listing[1..]);
    }
  }

  /** The scan fails exactly when some qualifying child's description cannot be read,
      and then with that `TypeError` or validation error. */
  lemma {:induction false} LoadAllFails(templatesDir: string, venvsDir: string,
                                        m: OMap<string, TemplateInfo>, listing: seq<DirEntry>)
    requires m.Valid()
    ensures LoadAll(templatesDir, venvsDir, m, listing).Err? <==>
              exists e :: e in listing && Qualifies(e) && LoadedDescription(e.cookiecutter).Err?
    ensures LoadAll(templatesDir, venvsDir, m, listing).Err? ==>
              LoadAll(templatesDir, venvsDir, m, listing).error.kind in {TypeFailure, Validation}
    decreases |listing|
  {
    if listing != [] {
      var e := listing[0];
      var step := FileEntry(templatesDir, venvsDir, m, e);
      if step.Err? {
        assert e in listing;
      } else {
        LoadAllFails(templatesDir, venvsDir, step.value, listing[1..]);
        assert forall x :: x in listing ==> x == e || x in listing[1..];
      }
    }
  }

  // ---- fixed data ----

  /** The five well-known templates `discover_templates` reports; they are not
      installed, so their paths are empty. */
  function DiscoverTemplates(): (r: seq<TemplateInfo>)
    ensures |r| == 5
    ensures forall i :: 0 <= i < |r| ==> r[i].path == "" && r[i].venvPath == ""
    ensures forall i, j :: 0 <= i < j < |r| ==> r[i].name != r[j].name
  {
    [ TemplateInfo(name := "python-package",
                   url := "https://github.com/audreyfeldroy/cookiecutter-pypackage.git",
                   description := "Cookiecutter template for a Python package", path := "", venvPath := ""),
      TemplateInfo(name := "django",
                   url := "https://github.com/pydanny/cookiecutter-django.git",
                   description := "Cookiecutter template for Django projects", path := "", venvPath := ""),
      TemplateInfo(name := "flask",
                   url := "https://github.com/cookiecutter-flask/cookiecutter-flask.git",
                   description := "Cookiecutter template for Flask projects", path := "", venvPath := ""),
      TemplateInfo(name := "fastapi",
                   url := "https://github.com/tiangolo/full-stack-fastapi-postgresql.git",
                   description := "Cookiecutter template for FastAPI projects", path := "", venvPath := ""),
      TemplateInfo(name := "data-science",
                   url := "https://github.com/drivendata/cookiecutter-data-science.git",
                   description := "Cookiecutter template for data science projects", path := "", venvPath := "") ]
  }

  // ---- the registry object ----

  const ClonePrefix := "Failed to clone template repository: "
  const InstallDepsPrefix := "Failed to install dependencies: "
  const UpdatePrefix := "Failed to update template: "
  const RemoveDirPrefix := "Failed to remove template directory: "
  const RemoveVenvPrefix := "Failed to remove virtual environment: "

  function NotFoundError(name: string): Error {
    Error(TemplateNotFound, "Template '" + name + "' not found")
  }

  /** The command line that clones a template. */
  function CloneArgv(url: string, dir: string): seq<string> {
    ["git", "clone", url, dir]
  }

  /** The command line that updates a template. */
  function PullArgv(dir: string): seq<string> {
    ["git", "-C", dir, "pull"]
  }

  class TemplateRegistry {
    const templatesDir: string
    const venvsDir: string
    var templates: OMap<string, TemplateInfo>

    ghost predicate Valid()
      reads this
    {
      Consistent(templatesDir, venvsDir, templates)
    }

    constructor (templatesDir: string, venvsDir: string)
      ensures Valid() && templates == Empty()
      ensures this.templatesDir == templatesDir && this.venvsDir == venvsDir
    {
      this.templatesDir := templatesDir;
      this.venvsDir := venvsDir;
      templates := Empty();
    }

    /** `__init__`: an empty registry filled by the start-up scan. */
    static method Open(host: Host, templatesDir: string, venvsDir: string, listing: seq<DirEntry>)
      returns (reg: TemplateRegistry, r: Result<()>)
      modifies host
      ensures fresh(reg) && reg.templatesDir == templatesDir && reg.venvsDir == venvsDir
      ensures r.Ok? ==> reg.Valid()
                        && LoadAll(templatesDir, venvsDir, Empty(), listing) == Ok(reg.templates)
                        && reg.templates.items.Keys == Names(listing)
      ensures r.Err? ==> r.error.kind in {OsFailure, TypeFailure, Validation}
      ensures (exists e :: e in listing && Qualifies(e) && LoadedDescription(e.cookiecutter).Err?) ==> r.Err?
    {
      reg := new TemplateRegistry(templatesDir, venvsDir);
      r := reg.LoadTemplates(host, listing);
      LoadAllFails(templatesDir, venvsDir, Empty(), listing);
      if r.Ok? {
        LoadAllRegisters(templatesDir, venvsDir, Empty(), listing);
      }
    }

    /** `_load_templates`: create both base directories (an `OSError` there escapes),
        then file every qualifying child of the listing. */
    method LoadTemplates(host: Host, listing: seq<DirEntry>) returns (r: Result<()>)
      requires Valid()
      modifies this, host
      ensures old(host.paths) <= host.paths <= old(host.paths) + {templatesDir, venvsDir}
      ensures r.Ok? ==> Valid() && host.Exists(templatesDir) && host.Exists(venvsDir)
      ensures r.Ok? ==> LoadAll(templatesDir, venvsDir, old(templates), listing) == Ok(templates)
      ensures r.Err? ==> r.error.kind == OsFailure
                         || LoadAll(templatesDir, venvsDir, old(templates), listing) == Err(r.error)
      ensures LoadAll(templatesDir, venvsDir, old(templates), listing).Err? ==> r.Err?
    {
      var made := host.MakeDirs(templatesDir);
      if made.Err? {
        return Err(made.error);
      }
      ghost var mark :| mark in host.paths && Under(mark, templatesDir);
      made := host.MakeDirs(venvsDir);
      if made.Err? {
        return Err(made.error);
      }
      assert mark in host.paths;
      r := ScanListing(listing);
    }

    /** The loop of `_load_templates` over the children of the templates directory. */
    method ScanListing(listing: seq<DirEntry>) returns (r: Result<()>)
      requires Valid()
      modifies this
      ensures r.Ok? ==> Valid() && LoadAll(templatesDir, venvsDir, old(templates), listing) == Ok(templates)
      ensures r.Err? ==> LoadAll(templatesDir, venvsDir, old(templates), listing) == Err(r.error)
    {
      var i := 0;
      while i < |listing|
        invariant 0 <= i <= |listing|
        invariant Valid()
        invariant LoadAll(templatesDir, venvsDir, templates, listing[i..])
                  == LoadAll(templatesDir, venvsDir, old(templates), listing)
      {
        var e := listing[i];
        LoadAllStep(templatesDir, venvsDir, templates, listing, i);
        ghost var step := FileEntry(templatesDir, venvsDir, templates, e);
        if Qualifies(e) {
          var d := LoadedDescription(e.cookiecutter);
          if d.Err? {
            return Err(d.error);
          }
          templates := Put(templates, e.name, EntryInfo(templatesDir, venvsDir, e, d.value));
        }
        assert step == Ok(templates);
        i := i + 1;
      }
      assert listing[i..] == [];
      return Ok(());
    }

    /** `list_templates`: the records in registration order, one per template. */
    function ListTemplates(): (r: seq<TemplateInfo>)
      reads this
      requires Valid()
      ensures |r| == |templates.keys| == |templates.items|
      ensures forall t :: t in r <==> t in templates.items.Values
      ensures forall i :: 0 <= i < |r| ==> r[i].name == templates.keys[i]
    {
      ValuesExact(templates);
      Values(templates)
    }

    /** `add_template`: refuse a name already in use; create the template directory,
        clone into it, create the venv and install cookiecutter there, then file the
        record. A failure after the directory is created leaves what was created on disk
        and the index unchanged. */
    method AddTemplate(host: Host, url: string, name: Option<string>, description: Option<string>,
                       run: Runner, cloned: JsonFile) returns (r: Result<TemplateInfo>)
      requires Valid()
      modifies this, host
      ensures Valid()
      ensures var n := TemplateName(url, name);
              n in old(templates.items) ==>
                r == Err(Error(TemplateExists, "Template '" + n + "' already exists"))
                && host.paths == old(host.paths)
      ensures r.Err? ==> templates == old(templates)
      ensures r.Ok? ==> var n := TemplateName(url, name);
                        n !in old(templates.items)
                        && AddedDescription(description, cloned) == Ok(r.value.description)
                        && r.value == TemplateInfo(name := n, url := url, description := r.value.description,
                                                   path := PathJoin(templatesDir, n), venvPath := PathJoin(venvsDir, n))
                        && templates == Put(old(templates), n, r.value)
                        && templates.keys == old(templates.keys) + [n]
      ensures r.Ok? ==> host.Exists(r.value.path)
                        && GetPythonPath(host.paths, host.windows, r.value.venvPath).Ok?
      ensures r.Ok? ==> run(CloneArgv(url, r.value.path)).Exited? && run(CloneArgv(url, r.value.path)).code == 0
      ensures var n := TemplateName(url, name);
              (match run(CloneArgv(url, PathJoin(templatesDir, n)))
               case Exited(c, _, err) =>
                 c != 0 && n !in old(templates.items) && host.Exists(PathJoin(templatesDir, n)) ==>
                   r == Err(Error(Environment, ClonePrefix + ClonePrefix + err))
               case SpawnFailed(_, m) =>
                 n !in old(templates.items) && host.Exists(PathJoin(templatesDir, n)) ==>
                   r == Err(Error(Environment, ClonePrefix + m)))
      ensures old(host.paths) <= host.paths
    {
      var n := TemplateName(url, name);
      if n in templates.items {
        return Err(Error(TemplateExists, "Template '" + n + "' already exists"));
      }
      var dir := PathJoin(templatesDir, n);
      var made := host.MakeDirs(dir);
      if made.Err? {
        return Err(made.error);
      }
      ghost var mark :| mark in host.paths && Under(mark, dir);
      match run(CloneArgv(url, dir)) {
        case SpawnFailed(_, m) =>
          return Err(Error(Environment, ClonePrefix + m));
        case Exited(c, _, err) =>
          if c != 0 {
            return Err(Error(Environment, ClonePrefix + ClonePrefix + err));
          }
      }
      var venv := PathJoin(venvsDir, n);
      var created := CreateVenv(host, venv, run);
      if created.Err? {
        return Err(Error(Environment, CreatePrefix + created.error.message));
      }
      var installed := InstallPackage(host.paths, host.windows, venv, "cookiecutter", run);
      if installed.Err? {
        return Err(Error(Environment, InstallDepsPrefix + installed.error.message));
      }
      var desc := AddedDescription(description, cloned);
      if desc.Err? {
        return Err(desc.error);
      }
      var info := TemplateInfo(name := n, url := url, description := desc.value, path := dir, venvPath := venv);
      assert mark in host.paths;
      PutConsistent(templatesDir, venvsDir, templates, info);
      templates := Put(templates, n, info);
      return Ok(info);
    }

    /** `update_template`: `git pull` in the template's directory. The record itself is
        returned unchanged; a failed spawn or a non-zero exit is an `EnvironmentError`
        (the latter with the prefix twice, from the re-wrap). `force` only selects which
        progress message is logged. */
    function UpdateTemplate(templateName: string, force: bool, run: Runner): (r: Result<TemplateInfo>)
      reads this
      ensures templateName !in templates.items ==> r == Err(NotFoundError(templateName))
      ensures r.Ok? <==> templateName in templates.items
                         && run(PullArgv(templates.items[templateName].path)).Exited?
                         && run(PullArgv(templates.items[templateName].path)).code == 0
      ensures r.Ok? ==> r.value == templates.items[templateName]
      ensures r.Err? && templateName in templates.items ==>
                r.error.kind == Environment && StartsWith(r.error.message, UpdatePrefix)
    {
      if templateName !in templates.items then Err(NotFoundError(templateName))
      else
        var info := templates.items[templateName];
        match run(PullArgv(info.path))
        case SpawnFailed(_, m) => Err(Error(Environment, UpdatePrefix + m))
        case Exited(c, _, err) =>
          if c != 0 then Err(Error(Environment, UpdatePrefix + UpdatePrefix + err)) else Ok(info)
    }

    /** Neither the outcome of an update nor the index depends on `force`: the source
        reads `force` only to pick the progress message it logs, which the model leaves
        out, so this holds by the definition of `UpdateTemplate` alone. */
    lemma UpdateIgnoresForce(templateName: string, run: Runner)
      ensures UpdateTemplate(templateName, true, run) == UpdateTemplate(templateName, false, run)
    {
    }

    /** `remove_template`: delete the template's directory (which must exist), then its
        venv if present, then drop the record. Either deletion that fails is reported as
        an `EnvironmentError` naming the step, and leaves the index as it was. On success
        exactly the two trees are gone, so no command can run in the template's venv any
        more and every other file stays. */
    method RemoveTemplate(host: Host, templateName: string) returns (r: Result<string>)
      requires Valid()
      modifies this, host
      ensures Valid()
      ensures templateName !in old(templates.items) ==>
                r == Err(NotFoundError(templateName)) && host.paths == old(host.paths)
      ensures r.Err? ==> templates == old(templates)
      ensures r.Err? && templateName in old(templates.items) ==>
                r.error.kind == Environment
                && (StartsWith(r.error.message, RemoveDirPrefix) || StartsWith(r.error.message, RemoveVenvPrefix))
      ensures r.Ok? ==> templateName in old(templates.items)
                        && r.value == "Template '" + templateName + "' removed successfully"
                        && templates == Remove(old(templates), templateName)
                        && templateName !in templates.items
      ensures templateName in old(templates.items) ==>
                var t := old(templates.items[templateName]);
                old(host.paths) - Tree(old(host.paths), t.path) - Tree(old(host.paths), t.venvPath)
                  <= host.paths <= old(host.paths)
                && (r.Ok? ==> host.paths == old(host.paths) - Tree(old(host.paths), t.path)
                                            - Tree(old(host.paths), t.venvPath)
                              && !host.Exists(t.path) && !host.Exists(t.venvPath))
      ensures templateName in old(templates.items) && !Present(old(host.paths), old(templates.items[templateName].path)) ==>
                r == Err(Error(Environment, RemoveDirPrefix + NotFound(old(templates.items[templateName].path)).message))
                && host.paths == old(host.paths)
      ensures templateName in old(templates.items) ==>
                var t := old(templates.items[templateName]);
                Present(old(host.paths), t.path) && Tree(old(host.paths), t.path) * host.undeletable != {} ==>
                  exists q :: q in Tree(old(host.paths), t.path) && q in host.undeletable
                              && r == Err(Error(Environment, RemoveDirPrefix + Denied(q).message))
      ensures templateName in old(templates.items) ==>
                var t := old(templates.items[templateName]);
                var mid := old(host.paths) - Tree(old(host.paths), t.path);
                Present(old(host.paths), t.path) && Tree(old(host.paths), t.path) * host.undeletable == {} ==>
                  if Present(mid, t.venvPath) && Tree(mid, t.venvPath) * host.undeletable != {} then
                    (exists q :: q in Tree(mid, t.venvPath) && q in host.undeletable
                                 && r == Err(Error(Environment, RemoveVenvPrefix + (CleanupPrefix + Denied(q).message))))
                    && !host.Exists(t.path)
                  else r.Ok?
    {
      if templateName !in templates.items {
        return Err(NotFoundError(templateName));
      }
      var info := templates.items[templateName];
      ghost var start := host.paths;
      var removed := host.RemoveTree(info.path);
      if removed.Err? {
        return Err(Error(Environment, RemoveDirPrefix + removed.error.message));
      }
      ghost var mid := host.paths;
      RemovedTreeAbsent(start, info.path);
      TreeAfterTree(start, info.path, info.venvPath);
      if host.Exists(info.venvPath) {
        var cleaned := CleanupVenv(host, info.venvPath);
        if cleaned.Err? {
          assert !host.Exists(info.path) by {
            assert host.paths <= mid;
          }
          return Err(Error(Environment, RemoveVenvPrefix + cleaned.error.message));
        }
        assert !host.Exists(info.path) by {
          assert host.paths <= mid;
        }
      }
      templates := Remove(templates, templateName);
      return Ok("Template '" + templateName + "' removed successfully");
    }
  }
}
