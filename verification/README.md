# dynamo-mcp core, modelled in Dafny

dynamo-mcp is an MCP server that manages cookiecutter project templates. This project
models its core in Dafny:

- **Template registry.** The in-memory index of installed templates. It is rebuilt at
  start-up by scanning the templates directory. Its operations are add (clone the
  repository, create a virtual environment, install the templating engine into it),
  update (`git pull`), remove, and a fixed discovery list.
- **Environment manager.** Per-template virtual environments: where the interpreter
  lives, creating and deleting a venv, and running a module or pip inside it.
- **Interface generator.** Derives the question list of a template from its
  `cookiecutter.json`: a type, options, a default and a description per public key.
- **Project generator.** Runs the engine with the template's interpreter, falls back to
  the server's own interpreter when that run cannot be started, and works out where the
  project landed.
- **SQLite catalog.** Insert, look up, filter by category, list distinct categories,
  search with `LIKE`, delete, update and clear. It also converts rows into records.
- **Catalog seeder.** Turns a built-in CSV list of 56 repositories into catalog rows.
- **Template hooks.** The pre-generation hook validates the module name and e-mail
  address. The post-generation hook deletes unwanted files, then runs `git init` and
  sets up a venv.

Conventions used throughout the model:

- **Processes** are a pure function from a command line to an outcome. An outcome is
  an exit status with its output, or a failure to start, which Python raises as
  `OSError` (module `Outcomes`).
- **The file system** is the set of paths that exist, held by a `Host` object. The paths
  where creating or deleting fails are fixed up front (module `Hosts`).
- **Exceptions** are `Result` values. Each carries the exception class and the text
  `str(e)` would give, so doubled message prefixes and the difference between the
  repository's `EnvironmentError` and Python's builtin one can be stated.

Modules, one per file:

| module | file |
|---|---|
| `Outcomes` | outcomes.dfy |
| `Text` | text.dfy (Python string methods and POSIX `os.path.join`) |
| `OrderedMaps` | omap.dfy (insertion-ordered `dict`) |
| `Models` | models.dfy |
| `Hosts` | host.dfy |
| `EnvironmentManager` | environment.dfy |
| `Registry` | registry.dfy |
| `Interface` | interface.dfy |
| `ProjectGenerator` | project.dfy |
| `Catalog` | catalog.dfy |
| `Seeder` | seeder.dfy |
| `SeedData` | seed_data.dfy (the 56-row literal) |
| `PreGen` | pre_gen.dfy |
| `PostGen` | post_gen.dfy |

Where the code does something other than its docstrings and names suggest, the model
follows the code:

- `remove_template` fails when the template directory is already gone, because
  `shutil.rmtree` raises `FileNotFoundError`.
- `_get_variable_options` looks at the value only, so a Jinja expression holding `/` is
  typed `derived` and still gets options (`Interface.DerivedStillSplit`).
- Several errors carry their prefix twice. The inner `raise` sits inside a
  `try/except Exception` that wraps it again. This affects clone, pull, venv creation
  during `add_template`, and `install_package`.

## Model

| member | source | states |
|---|---|---|
| Text.IndexOfFirst | dynamo_mcp/core/template_registry.py:116 | `find` gives -1 exactly when the separator does not occur; otherwise no earlier occurrence exists (the scan behind `str.split`) |
| Text.SplitJoin | dynamo_mcp/core/template_registry.py:116 | joining pieces free of a one-character separator and splitting again gives the pieces back |
| Text.JoinSplit | dynamo_mcp/core/template_registry.py:116 | splitting on a separator and joining with it gives the original text back |
| Text.SplitSingle | dynamo_mcp/core/template_registry.py:116 | a split into a single piece leaves the text whole |
| Text.SplitPiecesFree | dynamo_mcp/core/template_registry.py:116 | no piece of `split(sep)` contains `sep` |
| Text.SplitLast | dynamo_mcp/core/template_registry.py:116 | `split(sep)[-1]` is the whole text when there is no separator, and otherwise the text ends with `sep` followed by it |
| Text.SplitLastSuffix | dynamo_mcp/core/template_registry.py:116 | `split(sep)[-1]` is always a suffix of the text |
| Text.SplitAtStart | dynamo_mcp/core/template_registry.py:59 | a text that starts with the marker splits into an empty first piece, and the second piece is the first piece of the rest |
| Text.SplitFirst | dynamo_mcp/core/template_registry.py:59 | the first piece of a split is a separator-free prefix that is either the whole text or followed by the separator |
| Text.AfterMarker | dynamo_mcp/core/template_registry.py:59 | `line.split(marker)[1]` on a line starting with the marker is a separator-free prefix of the text after the marker, ending at the next marker or at the end |
| Text.FirstValueFound | dynamo_mcp/core/project_generator.py:125-131 | a value is found exactly when some line starts with the marker; it comes from the first such line (the `for ... break ... else`) |
| Text.TrimLeftShape | dynamo_mcp/core/template_registry.py:58 | `lstrip` keeps a suffix, removes only stripped characters, and stops at one that is not stripped |
| Text.TrimRightShape | dynamo_mcp/core/template_registry.py:58 | `rstrip` keeps a prefix, removes only stripped characters, and stops at one that is not stripped |
| Text.TrimSlice | dynamo_mcp/core/template_registry.py:58 | `strip` gives a slice of the input with only stripped characters cut on both sides; neither end of the result is strippable, and stripping twice changes nothing |
| Text.Lower | dynamo_mcp/core/interface_generator.py:110 | `lower()` keeps the length and lower-cases every ASCII capital, character by character |
| Text.ReplaceChar | dynamo_mcp/core/interface_generator.py:182 | `replace('_', ' ')` keeps the length and swaps exactly the underscores |
| Text.FirstOf | dynamo_mcp/core/project_generator.py:125 | the first line boundary: every character before it is not a boundary, and it is a boundary or the end |
| Text.SplitLinesClean | dynamo_mcp/core/project_generator.py:125 | no line of `splitlines()` holds a line boundary, and a text without one is a single line (none when empty) |
| Text.JoinUnder | dynamo_mcp/core/project_generator.py:134 | `os.path.join` of a directory and a relative name lies under the directory, and so does a further join |
| OrderedMaps.Put | dynamo_mcp/core/template_registry.py:87 | `d[k] = v` maps `k` to `v`, keeps the order of an existing key and appends a new one, and keeps the key order duplicate-free |
| OrderedMaps.Remove | dynamo_mcp/core/template_registry.py:271 | `del d[k]` drops exactly `k`, from the keys and from their order |
| OrderedMaps.Without | dynamo_mcp/core/template_registry.py:271 | the key order after deletion holds exactly the other keys, still without repeats |
| OrderedMaps.Values | dynamo_mcp/core/template_registry.py:95 | `list(d.values())` in key order; `OrderedMaps.ValuesExact` states that these are exactly the dictionary's values, one per key |
| OrderedMaps.ValuesExact | dynamo_mcp/core/template_registry.py:95 | the listed values are exactly the dictionary's values, as many as there are keys |
| OrderedMaps.DistinctCard | dynamo_mcp/core/template_registry.py:95 | a list without repeats has as many distinct elements as entries |
| Models.Lookup | dynamo_mcp/core/template_registry.py:72-73 | a lookup in a parsed object finds a value exactly when the key is present, and then it is that key's value |
| Hosts.Tree | dynamo_mcp/core/template_registry.py:258 | what `rmtree(p)` deletes: exactly the recorded paths at or below `p` |
| Hosts.RemovedTreeAbsent | dynamo_mcp/core/template_registry.py:258 | after the tree is removed, the path no longer exists |
| Hosts.UnderTrans | dynamo_mcp/core/environment_manager.py:91-94 | lying below a directory is transitive |
| Hosts.AbsentBelow | dynamo_mcp/core/environment_manager.py:91-94 | when a directory is absent, everything below it is absent too |
| Hosts.Host.constructor | dynamo_mcp/core/template_registry.py:28-31 | the host starts with the given paths, fault sets and interpreter facts |
| Hosts.Host.MakeDirs | dynamo_mcp/core/template_registry.py:128 | `os.makedirs(p, exist_ok=True)`: an existing path is left alone, a protected one raises `PermissionError`, otherwise `p` is created; success leaves `p` existing |
| Hosts.Host.CreateFile | dynamo_mcp/core/project_generator.py:62-64 | opening a file for writing creates it unless the path is protected |
| Hosts.Host.Record | dynamo_mcp/core/environment_manager.py:23-50 | files an external program wrote are added and nothing else changes |
| Hosts.Host.RemoveTree | dynamo_mcp/core/template_registry.py:258 | `shutil.rmtree`: a missing path raises `FileNotFoundError`; a tree without protected entries goes entirely and the path is gone; a tree holding one raises `PermissionError` naming a protected entry, keeps every protected entry and everything outside the tree, and deletes nothing else |
| Hosts.Host.Unlink | dynamo_mcp/core/project_generator.py:144 | `os.unlink` deletes exactly the file, and raises for a missing or protected one |
| EnvironmentManager.PythonPathInside | dynamo_mcp/core/environment_manager.py:91-94 | the venv interpreter (`bin/python`, or `Scripts/python.exe` on Windows) lies strictly inside the venv |
| EnvironmentManager.GetPythonPath | dynamo_mcp/core/environment_manager.py:74-100 | the interpreter path is returned exactly when it exists; otherwise the error names the venv |
| EnvironmentManager.NoVenvNoPython | dynamo_mcp/core/environment_manager.py:74-100 | a venv whose directory is gone has no interpreter |
| EnvironmentManager.CreateVenv | dynamo_mcp/core/environment_manager.py:23-50 | success exactly when the directory can be made and `python -m venv` exits 0, after which the interpreter exists; every failure carries the create prefix and the stderr or spawn message; nothing is removed |
| EnvironmentManager.CleanupVenv | dynamo_mcp/core/environment_manager.py:53-71 | an absent venv is a no-op; a venv without protected entries is removed entirely; otherwise the `PermissionError` for a protected entry is wrapped and nothing outside the venv changes; success leaves no venv |
| EnvironmentManager.RunInVenv | dynamo_mcp/core/environment_manager.py:103-139 | stdout exactly when the interpreter exists and the module exits 0; a missing interpreter, a failed spawn and a non-zero exit are all wrapped under the run prefix |
| EnvironmentManager.InstallPackage | dynamo_mcp/core/environment_manager.py:142-172 | success exactly when the interpreter exists and pip exits 0; a non-zero exit carries the install prefix twice |
| EnvironmentManager.CleanedVenvIsUnusable | dynamo_mcp/core/environment_manager.py:53-172 | after cleanup, neither a module nor pip can run in the venv: both report the missing interpreter |
| Registry.LastSegment | dynamo_mcp/core/template_registry.py:116 | `url.split("/")[-1]` is the text after the last `/` |
| Registry.SegmentNameShape | dynamo_mcp/core/template_registry.py:117-120 | the name is a suffix of the segment, or a suffix followed by `.git`, made of the segment's characters |
| Registry.DeriveName | dynamo_mcp/core/template_registry.py:115-120 | the name derived from a URL; `Registry.DeriveNameShape` and `Registry.DeriveNameOfRepository` state what it is |
| Registry.TemplateName | dynamo_mcp/core/template_registry.py:115-120 | the caller's name unless missing or empty, else the derived one; `Registry.TemplateRegistry.AddTemplate` states how it keys the record |
| Registry.DeriveNameShape | dynamo_mcp/core/template_registry.py:115-120 | a derived name never contains `/`, and the URL ends with it or with it plus `.git` |
| Registry.DeriveNameOfRepository | dynamo_mcp/core/template_registry.py:115-120 | a URL ending in `cookiecutter-<n>.git` registers template `n` |
| Registry.ConfigUrl | dynamo_mcp/core/template_registry.py:55-60 | the URL read off a `.git/config`; `Registry.ConfigUrlFound` states which line it comes from and what it holds |
| Registry.Stripped | dynamo_mcp/core/template_registry.py:58 | every config line stripped of whitespace, one for one; `Registry.ConfigUrlFound` states what is read off them |
| Registry.ConfigUrlFound | dynamo_mcp/core/template_registry.py:55-60 | a URL is found exactly when some stripped line starts with `url = `; it is the text after the marker on the first such line and holds no further marker |
| Registry.FoundDescription | dynamo_mcp/core/template_registry.py:66-75 | no file or an unparsable file gives no description; an object gives its `_description` member; any other document can only fail with `TypeError` |
| Registry.LoadedDescription | dynamo_mcp/core/template_registry.py:66-84 | the recorded description is the `_description` string, or `""` when absent; it fails exactly when reading failed or the value is not a string |
| Registry.AddedDescription | dynamo_mcp/core/template_registry.py:162-178 | the caller's non-empty description wins; otherwise a non-empty result is the cloned file's `_description` string, and no `_description` gives `""` |
| Registry.PutConsistent | dynamo_mcp/core/template_registry.py:184 | filing a record under its own name, with its paths placed by that name, keeps the registry invariant |
| Registry.Names | dynamo_mcp/core/template_registry.py:42-63 | the names the scan registers are exactly those of the qualifying children |
| Registry.FileEntry | dynamo_mcp/core/template_registry.py:42-87 | one scan step fails exactly for a qualifying child with an unreadable description; otherwise it adds exactly the qualifying child's name and keeps the invariant |
| Registry.LoadAll | dynamo_mcp/core/template_registry.py:42-87 | the whole scan keeps the dictionary's key order valid |
| Registry.LoadAllStep | dynamo_mcp/core/template_registry.py:42-87 | scanning from a position handles that child, then the rest |
| Registry.LoadAllRegisters | dynamo_mcp/core/template_registry.py:42-87 | a successful scan registers exactly the qualifying children on top of what was there |
| Registry.LoadAllConsistent | dynamo_mcp/core/template_registry.py:78-87 | a successful scan keeps every record filed under its own name, with its directory and venv under the two base directories |
| Registry.LoadAllFails | dynamo_mcp/core/template_registry.py:66-84 | the scan fails exactly when some qualifying child's description cannot be read, and then with `TypeError` or a validation error |
| Registry.DiscoverTemplates | dynamo_mcp/core/template_registry.py:276-334 | five well-known templates with distinct names and empty paths |
| Registry.TemplateRegistry.constructor | dynamo_mcp/core/template_registry.py:28-31 | an empty registry over the two base directories |
| Registry.TemplateRegistry.Open | dynamo_mcp/core/template_registry.py:28-31 | after start-up the registry holds exactly the qualifying children; an unreadable description makes start-up fail |
| Registry.TemplateRegistry.LoadTemplates | dynamo_mcp/core/template_registry.py:33-87 | creates at most the two base directories, then the index becomes the scan's result; only an `OSError` or the scan's own error can fail it |
| Registry.TemplateRegistry.ScanListing | dynamo_mcp/core/template_registry.py:42-87 | the loop over the children computes exactly the scan: its result or its error |
| Registry.TemplateRegistry.ListTemplates | dynamo_mcp/core/template_registry.py:89-95 | one record per registered template, in registration order, exactly the registry's records |
| Registry.TemplateRegistry.AddTemplate | dynamo_mcp/core/template_registry.py:97-186 | a taken name is refused before anything is touched. On success the record is filed last under the derived name with the paths placed by it, the clone exited 0, and the venv interpreter exists. A failed clone gives the wrapped error (prefix doubled on a non-zero exit). Any failure leaves the index unchanged; the registry invariant always holds |
| Registry.TemplateRegistry.UpdateTemplate | dynamo_mcp/core/template_registry.py:188-231 | an unknown name is `TemplateNotFoundError`; success exactly when `git pull` exits 0, returning the unchanged record; otherwise an `EnvironmentError` under the update prefix |
| Registry.TemplateRegistry.UpdateIgnoresForce | dynamo_mcp/core/template_registry.py:224-227 | `force` changes neither the outcome nor the record |
| Registry.TemplateRegistry.RemoveTemplate | dynamo_mcp/core/template_registry.py:233-274 | an unknown name changes nothing. A missing template directory fails with the wrapped `FileNotFoundError` and changes nothing; a protected entry in it fails with the wrapped `PermissionError`; then a protected entry in the venv fails with the doubly wrapped cleanup error, the template directory already gone; every other case succeeds. Every failure is an `EnvironmentError` naming its step and keeps the index. Success drops exactly that record and exactly the two trees, and every other file stays |
| Interface.VariableType | dynamo_mcp/core/interface_generator.py:98-127 | `derived` exactly for strings holding `{{` and `}}`; `choice` exactly for lists and non-derived, non-yes/no strings with `/` or `,`; `boolean` exactly for bools and yes/no strings; `object` exactly for objects |
| Interface.Strs | dynamo_mcp/core/interface_generator.py:140-142 | the split pieces as JSON strings, one for one |
| Interface.VariableOptions | dynamo_mcp/core/interface_generator.py:129-152 | a list offers its items; a string with `/` its `/`-pieces, else one with `,` its `,`-pieces; any other options come from a string and number at least two |
| Interface.SplitsInTwo | dynamo_mcp/core/interface_generator.py:139-142 | a string holding the separator splits into at least two pieces |
| Interface.VariableDefault | dynamo_mcp/core/interface_generator.py:86 | the value itself unless a choice; a choice defaults to its first option, or `None` when it has none |
| Interface.VariableDescription | dynamo_mcp/core/interface_generator.py:154-182 | the table's text for a known name; otherwise `The ` followed by the name with underscores turned into spaces |
| Interface.VariableOf | dynamo_mcp/core/interface_generator.py:75-88 | each key yields a variable with that name, the key's type and the key's options |
| Interface.KeepMapMembers | dynamo_mcp/core/interface_generator.py:69-92 | a filtered map has at most as many results as inputs, and its results are exactly the images of the kept inputs |
| Interface.VariablesOfKeys | dynamo_mcp/core/interface_generator.py:69-92 | exactly the public keys yield variables, each its own, and there are no more variables than keys |
| Interface.ExtractVariables | dynamo_mcp/core/interface_generator.py:69-92 | the loop builds exactly the variables of the public keys, in file order |
| Interface.GetTemplateVariables | dynamo_mcp/core/interface_generator.py:33-96 | unknown template, missing file, unparsable file and non-object document give their errors; an object gives the variables of its public keys |
| Interface.OptionsFollowType | dynamo_mcp/core/interface_generator.py:98-152 | options exist only for choices, yes/no questions and Jinja expressions, and every choice has options |
| Interface.DerivedStillSplit | dynamo_mcp/core/interface_generator.py:107-109 | a Jinja expression with `/` is `derived`, still offers its `/`-pieces, and keeps itself as default |
| Interface.ChoiceDefault | dynamo_mcp/core/interface_generator.py:86 | a choice with options defaults to the first option |
| Interface.SlashSplit | dynamo_mcp/core/interface_generator.py:139-140 | names joined with `/` contain `/` and split back into the names |
| Interface.SlashChoice | dynamo_mcp/core/interface_generator.py:112-113 | a `/`-separated list such as `MIT/BSD/Not open source` becomes a choice among exactly those names, the first being the default |
| ProjectGenerator.EnsureEngine | dynamo_mcp/core/project_generator.py:74-88 | a failure to get the engine installed is an `EnvironmentError` with the install prefix |
| ProjectGenerator.EngineInstalledOnDemand | dynamo_mcp/core/project_generator.py:74-88 | the engine is left alone when `pip list` names it, and otherwise the outcome is that of one installation |
| ProjectGenerator.SystemEngine | dynamo_mcp/core/project_generator.py:107-118 | the system-interpreter run succeeds exactly on exit 0, with its stdout; a non-zero exit is a `ProjectGenerationError` with the system prefix; a failed spawn is an `OSError` |
| ProjectGenerator.VenvEngine | dynamo_mcp/core/project_generator.py:90-108 | a spawn failure of the venv run switches to the system interpreter; exit 0 gives stdout; a non-zero exit is a `ProjectGenerationError` with the engine's stderr |
| ProjectGenerator.RunEngineAsWritten | dynamo_mcp/core/project_generator.py:70-118 | as written, the errors that reach the caller include the repository's `EnvironmentError` |
| ProjectGenerator.RunEngine | dynamo_mcp/core/project_generator.py:70-118 | with the fallback as intended, only `ProjectGenerationError` or `OSError` can come out |
| ProjectGenerator.ProjectPath | dynamo_mcp/core/project_generator.py:120-134 | where the project landed; `ProjectGenerator.SlugPath`, `ProjectGenerator.NoMarkerPath` and `ProjectGenerator.MarkerPath` state it for each case |
| ProjectGenerator.SlugPath | dynamo_mcp/core/project_generator.py:121-134 | a truthy slug fails exactly when it is not a string; a relative string slug puts the project strictly inside the output directory |
| ProjectGenerator.NoMarkerPath | dynamo_mcp/core/project_generator.py:122-131 | with no slug and no marker line, the project is the output directory |
| ProjectGenerator.MarkerPath | dynamo_mcp/core/project_generator.py:122-128 | with no slug, the path is what follows the marker on the first marker line |
| ProjectGenerator.Outcome | dynamo_mcp/core/project_generator.py:66-140 | success exactly when the engine ran and a path could be formed, and then the result is that path; every failure is a `ProjectGenerationError` under the generate prefix |
| ProjectGenerator.MissingInterpreterFailsAsWritten | dynamo_mcp/core/project_generator.py:72-103 | as written, a venv that lost its interpreter makes generation fail outright |
| ProjectGenerator.MissingInterpreterFallsBack | dynamo_mcp/core/project_generator.py:103-118 | as intended, a lost interpreter hands the run to the system interpreter, and the project is generated when that run succeeds |
| ProjectGenerator.HealthyVenvUnaffected | dynamo_mcp/core/project_generator.py:70-102 | with the interpreter present and the engine installed, the intended and the written versions agree and run in the venv |
| ProjectGenerator.CreateProject | dynamo_mcp/core/project_generator.py:35-146 | an unknown template and an unwritable output directory or answers file fail before the engine runs; otherwise the result is the outcome of the engine run as written (`RunEngineAsWritten`, so a venv without its interpreter fails with `ProjectGenerationError`) with the output directory and answers file in place; the answers file is removed afterwards unless protected |
| Catalog.Filter | dynamo_mcp/utils/database.py:133 | a `WHERE` keeps exactly the rows satisfying it, never more rows, and all rows when all satisfy it |
| Catalog.FirstNamed | dynamo_mcp/utils/database.py:95-116 | `fetchone()` of the name query is `None` exactly when no row has the name; otherwise it is a row with that name |
| Catalog.Table.GetByName | dynamo_mcp/utils/database.py:95-116 | `get_template_by_name` on the table; its meaning is `Catalog.FirstNamed`'s contract |
| Catalog.InCategory | dynamo_mcp/utils/database.py:118-140 | the category filter; `Catalog.InCategoryExact` states which rows it keeps |
| Catalog.Table.ByCategory | dynamo_mcp/utils/database.py:118-140 | `get_templates_by_category` on the table; its meaning is `Catalog.InCategoryExact` |
| Catalog.InCategoryExact | dynamo_mcp/utils/database.py:118-140 | a truthy category selects exactly the rows of that category; `None` or `""` selects every row |
| Catalog.CategoriesFromExact | dynamo_mcp/utils/database.py:142-157 | the distinct-category scan yields each category once, and exactly the non-NULL, non-empty categories |
| Catalog.CategoriesExact | dynamo_mcp/utils/database.py:142-157 | every non-empty category appears exactly once, and nothing else |
| Catalog.Categories | dynamo_mcp/utils/database.py:142-157 | the distinct-category query; `Catalog.CategoriesExact` states what it lists |
| Catalog.Table.AllCategories | dynamo_mcp/utils/database.py:142-157 | `get_all_categories` on the table; its meaning is `Catalog.CategoriesExact` |
| Catalog.Like | dynamo_mcp/utils/database.py:173-179 | SQLite's `LIKE`; `Catalog.LikeAnything`, `Catalog.LikePrefix` and `Catalog.LikeSubstring` state what it matches |
| Catalog.LikeAnything | dynamo_mcp/utils/database.py:173 | `%` matches every text |
| Catalog.LikePrefix | dynamo_mcp/utils/database.py:173 | a plain pattern followed by `%` matches exactly the texts starting with it, ASCII case aside |
| Catalog.LikeSubstring | dynamo_mcp/utils/database.py:173-179 | `LIKE '%q%'` for a plain `q` is a case-insensitive substring test |
| Catalog.SearchSubstring | dynamo_mcp/utils/database.py:159-185 | a row is found exactly when its name, description, category or tags holds the query, case aside |
| Catalog.Search | dynamo_mcp/utils/database.py:159-185 | the four-column `LIKE` query; `Catalog.SearchSubstring` states which rows it finds |
| Catalog.Table.SearchTemplates | dynamo_mcp/utils/database.py:159-185 | `search_templates` on the table; its meaning is `Catalog.SearchSubstring` |
| Catalog.Kept | dynamo_mcp/utils/database.py:219-220 | only `url`, `description`, `category` and `tags` survive, with their values |
| Catalog.Updated | dynamo_mcp/utils/database.py:228-232 | the update touches only the named rows and only the given columns, keeping ids, names and order |
| Catalog.TagList | dynamo_mcp/utils/database.py:259 | a non-empty tags column joins back from its tag list; a NULL or empty one has no tags |
| Catalog.ConvertRow | dynamo_mcp/utils/database.py:240-260 | as written: name and URL copied, description or `""`, empty paths |
| Catalog.ConvertForgetsCategory | dynamo_mcp/utils/database.py:258-259 | as written, the conversion cannot tell rows apart by category or tags |
| Catalog.ConvertRowToEntry | dynamo_mcp/utils/database.py:252-260 | the intended conversion extends the written one |
| Catalog.EntryKeepsCategoryAndTags | dynamo_mcp/utils/database.py:258-259 | the intended conversion keeps the category and a tag list that joins back to the stored tags |
| Catalog.TagsRoundTrip | dynamo_mcp/utils/database.py:259 | tags stored as a comma-joined list come back as that list |
| Catalog.Table.constructor | dynamo_mcp/utils/database.py:18-38 | a fresh database has an empty `templates` table with its counter at 0 |
| Catalog.Table.Add | dynamo_mcp/utils/database.py:67-93 | one row appended with the given columns and a fresh id larger than any before; the counter advances to it |
| Catalog.Table.Delete | dynamo_mcp/utils/database.py:187-206 | every row with the name goes and the others stay in order; the answer is whether any went, and no row with the name remains |
| Catalog.Table.Update | dynamo_mcp/utils/database.py:208-238 | no updatable field or no such row: `False` and nothing changes; a NULL `url` violates `NOT NULL` and changes nothing; otherwise `True` and exactly the update |
| Catalog.Table.Clear | dynamo_mcp/utils/database.py:262-272 | every row goes; the AUTOINCREMENT counter stays |
| Catalog.FilterAscending | dynamo_mcp/utils/database.py:30 | deleting rows keeps ids ascending along the table |
| Catalog.DeletedIsGone | dynamo_mcp/utils/database.py:187-206 | after a delete the name is not found, and every other row remains |
| Seeder.ParseRowShape | dynamo_mcp/utils/init_template_db.py:90-109 | a seeded name is `/`-free and ends the URL (before an optional `.git`); neither cell keeps a quote at either end; the description names the category |
| Seeder.DescriptionShape | dynamo_mcp/utils/init_template_db.py:108 | the description is `Cookiecutter template for <category> projects` |
| Seeder.TrimEnds | dynamo_mcp/utils/init_template_db.py:92 | a stripped cell has no stripped character at either end |
| Seeder.ParseRowOfRepository | dynamo_mcp/utils/init_template_db.py:92-101 | the row for `.../cookiecutter-<n>` seeds template `n` |
| Seeder.ParseCsvData | dynamo_mcp/utils/init_template_db.py:76-113 | one record per row, in order |
| Seeder.SurvivorsBound | dynamo_mcp/utils/init_template_db.py:139-152 | no more inserts succeed than there are records, and with no failing insert every record is added |
| Seeder.SurvivorsKept | dynamo_mcp/utils/init_template_db.py:139-152 | every record whose insert does not raise is added |
| Seeder.SurvivorsFrom | dynamo_mcp/utils/init_template_db.py:139-152 | every added record comes from an insert that did not raise |
| Seeder.NamesOf | dynamo_mcp/utils/init_template_db.py:148 | the names of the added records, in order; which records are added is stated by `Seeder.SurvivorsKept` and `Seeder.SurvivorsFrom` |
| Seeder.SeedRows | dynamo_mcp/utils/init_template_db.py:141-146 | the rows the inserts add, with consecutive ids and empty tags; `Seeder.InsertAll` states that these are the rows the table gains |
| Seeder.InitializeDatabase | dynamo_mcp/utils/init_template_db.py:115-152 | after the optional reset, the count and names are those of the successful inserts, and the table gains exactly their rows, numbered on from its counter |
| Seeder.InsertAll | dynamo_mcp/utils/init_template_db.py:136-152 | the insert loop adds exactly the surviving records in order and counts them |
| SeedData.InitializeDefault | dynamo_mcp/utils/init_template_db.py:16-74 | seeding the built-in list adds at most its 56 entries, and all of them when no insert fails |
| PreGen.NameRun | hooks/pre_gen_project.py:6 | the greedy `[_a-zA-Z0-9]+` run takes only name characters and stops at the first other one |
| PreGen.ModuleNameRule | hooks/pre_gen_project.py:6-12 | without newlines, a slug passes exactly when it has at least two characters, starts with a letter or `_`, and continues with letters, digits or `_` |
| PreGen.ModuleNameTrailingNewline | hooks/pre_gen_project.py:6-9 | Python's `$` lets one trailing newline through |
| PreGen.NameRunStops | hooks/pre_gen_project.py:6 | the run stops at an appended newline |
| PreGen.EmailRule | hooks/pre_gen_project.py:15-20 | an address passes exactly when it has a single `@` with something before it, and its domain holds a `.` that is neither first nor last |
| PreGen.EmailFromShape | hooks/pre_gen_project.py:15 | an address of that shape matches the pattern |
| PreGen.EmailParts | hooks/pre_gen_project.py:15 | a match's `@` is the only one and the dot lies inside the domain |
| PreGen.NoAtBetween | hooks/pre_gen_project.py:15 | a stretch avoiding the only `@` holds none |
| PreGen.Validate | hooks/pre_gen_project.py:9-22 | exit 0 exactly when both checks pass, then only the success line; otherwise exit 1 with the first failed check's messages |
| PostGen.Targets | hooks/post_gen_project.py:38-46 | the pytest files exactly when the answer is not `y`, the pre-commit file exactly when black is not `y`, the licence exactly for closed source, nothing else, no repeats |
| PostGen.Removal | hooks/post_gen_project.py:38-46 | `os.remove` of each listed file in turn, stopping at the first that raises; `PostGen.RemovalOnlyTargets`, `PostGen.RemovalAll` and `PostGen.RemovalMissing` state its outcome |
| PostGen.RemovalStep | hooks/post_gen_project.py:8-9 | one removal, then the rest |
| PostGen.RemovalAppend | hooks/post_gen_project.py:38-46 | removing two lists is removing the first, then, on success, the second |
| PostGen.RemovalOnlyTargets | hooks/post_gen_project.py:38-46 | the hook deletes nothing but listed files |
| PostGen.RemovalAll | hooks/post_gen_project.py:38-46 | when every listed file exists and may be deleted, all of them go and nothing else |
| PostGen.JoinedFirst | hooks/post_gen_project.py:9 | the paths of a list of files are the first one's and the rest's |
| PostGen.RemovalMissing | hooks/post_gen_project.py:8-9 | a listed file missing at the start makes the hook fail |
| PostGen.RemoveFile | hooks/post_gen_project.py:8-9 | `remove_file` is one step of the removal |
| PostGen.InitializeGit | hooks/post_gen_project.py:11-17 | the ready line exactly when `git init` exits 0; a non-zero exit or a missing `git` gives the warning; any other failure to start `git` escapes as `OSError`, printing nothing |
| PostGen.PipPathRule | hooks/post_gen_project.py:26-29 | pip is `venv/bin/pip`, or `venv/Scripts/pip` on Windows, under the project |
| PostGen.Relative | hooks/post_gen_project.py:27-29 | the relative names in the pip path are not absolute |
| PostGen.SetupVirtualEnvironment | hooks/post_gen_project.py:19-35 | a non-zero exit of either command ends in the warning; a spawn failure of either escapes as `OSError`; the printed lines follow the steps, and the dependencies line appears exactly when both commands exit 0 |
| PostGen.RemoveUnwantedFiles | hooks/post_gen_project.py:38-46 | the removals are exactly those the answers call for, in order, stopping at the first error |
| PostGen.PostGenerate | hooks/post_gen_project.py:37-58 | the removals, then git, then the venv; a removal error ends the hook with nothing logged; a `git` that cannot be started for a reason other than being missing ends it too; otherwise the log is the git line `InitializeGit` gives followed by the lines `SetupVirtualEnvironment` gives, and the result is the venv step's |

## Left out

- I/O details: file contents are given already parsed. `json.load` results are a `JsonFile`, `.git/config` is its list of lines, and the CSV data are the rows `csv.DictReader` yields. CSV quoting and JSON duplicate keys are not modelled.
- The MCP `ctx.info` progress messages, `async` scheduling, and the `print`ed next-steps text of the post-generation hook are left out. They do not affect results.
- The working directory of subprocesses is not modelled. A process outcome depends on its command line only, so the retried installation in `create_project` (`project_generator.py:86-88`) meets the same outcome as the first.
- Files written by external programs (`git clone`, `pip`) are not recorded beyond the venv interpreter.
- `os.makedirs` of an empty path and `OSError`s other than permission and missing-file ones are not modelled.
- Windows path separators are not modelled. `os.path.join` is POSIX; the Windows choice only selects `Scripts`/`python.exe`.
- Python's `str.lower()` outside ASCII is not modelled: `Text.Lower` lower-cases ASCII letters only.
- `created_at` and the `template_versions` and `template_dependencies` tables are not modelled. No operation of the core reads them.
- `ensure_db_exists` is modelled only as creating an empty table (`Catalog.Table.constructor`). The `CONFIG_DIR` that `database.py` imports is not defined by `dynamo_mcp/utils/config.py`, which is not part of this model.
- `Catalog.Table.Update`: keyword values are `str` or `None` only; other SQLite-bindable types are left out.
- `Seeder.InitializeDatabase`: a failing insert is given as the set of positions whose insert raises; why it raises is left out. The `main` printout of counts per category is left out.
- `init_template_db.py:108` uses a backslash inside an f-string expression, which needs Python 3.12; the model gives the text it produces there.
- Jinja rendering of the hook answers is not modelled: the hooks take the rendered strings.
- `ProjectGenerator.EnsureEngine` is stated weaker than its behaviour: its contract only bounds its errors, and `ProjectGenerator.EngineInstalledOnDemand` gives the rest.
- `ProjectGenerator.RunEngineAsWritten` is stated weaker than its behaviour: its contract only lists the error kinds that reach the caller, and the behaviour that matters is given by `ProjectGenerator.MissingInterpreterFailsAsWritten`.
- `Registry.TemplateRegistry.AddTemplate` does not state the outcomes of the venv creation and package installation steps beyond their wrapped errors leaving the index unchanged.
- The corrected fallback of the first finding (`ProjectGenerator.RunEngine`) is stated on its own. `create_project` is modelled as written. `ProjectGenerator.MissingInterpreterFallsBack` states what the correction would change, and `ProjectGenerator.HealthyVenvUnaffected` what it leaves alone.
- `Hosts.Host.RemoveTree` does not say which deletable entries `shutil.rmtree` removes before it meets a protected one, since that depends on the order directories are listed in. Its contract bounds the paths left instead: the protected entries and everything outside the tree stay.
- `Registry.LoadedDescription` and `Registry.AddedDescription` follow pydantic 2, which refuses a `_description` that is not a string; pydantic 1.x, which `setup.py` also allows, would turn a number into its text. The `ValidationError` message is abbreviated to its first three lines; pydantic 2 adds the input value, its type and a documentation link.
- `Catalog.ConvertRow` models `convert_db_template_to_model` as written, where pydantic drops the extra fields. Code that uses the corrected `Catalog.ConvertRowToEntry` is not part of the repository.

## Findings

| source | as written | input that shows it | evidently intended | confidence | as-written member | corrected member |
|---|---|---|---|---|---|---|
| dynamo_mcp/core/project_generator.py:103 | `except EnvironmentError` names Python's builtin alias of `OSError`, not the repository's `EnvironmentError` (not imported there). So the missing-interpreter error of `_get_python_path` (`environment_manager.py:97-98`) and a failed engine installation escape, and become a `ProjectGenerationError` | a registered template whose venv lacks `bin/python`, while the server's own interpreter renders the project | any venv trouble falls back to the system interpreter | not executed | ProjectGenerator.MissingInterpreterFailsAsWritten | ProjectGenerator.MissingInterpreterFallsBack |
| dynamo_mcp/utils/database.py:258-259 | `convert_db_template_to_model` passes `category` and `tags` to `TemplateInfo`, which declares neither (`models.py:10-17`), so pydantic drops them | a row with category `Python` and tags `a,b`: the record carries neither | the record keeps the category and the tag list (`tests/test_database.py:243-244` reads them) | not executed | Catalog.ConvertForgetsCategory | Catalog.EntryKeepsCategoryAndTags |
