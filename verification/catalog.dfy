/** The SQLite template catalog (dynamo_mcp/utils/database.py), held as the `templates`
    table's rows in rowid order together with the table's AUTOINCREMENT counter. The
    queries are filters over the rows; inserting, deleting, updating and clearing change
    them in place. */
module Catalog {
  import opened Outcomes
  import opened Text
  import opened Models
  import opened OrderedMaps

  /** A row of `templates`. The text columns other than `name` and `url` may be NULL;
      `created_at` is not modelled. */
  datatype Row = Row(id: nat, name: string, url: string, description: Option<string>,
                     category: Option<string>, tags: Option<string>)

  // ---- filtering ----

  /** The rows a `WHERE` clause keeps, in table order. */
  function Filter(rows: seq<Row>, keep: Row -> bool): (r: seq<Row>)
    ensures |r| <= |rows|
    ensures forall x :: x in r <==> x in rows && keep(x)
    ensures (forall x :: x in rows ==> keep(x)) ==> r == rows
  {
    if rows == [] then []
    else (if keep(rows[0]) then [rows[0]] else []) + Filter(rows[1..], keep)
  }

  /** The rows under other names: what `DELETE ... WHERE name = ?` leaves. */
  function Others(rows: seq<Row>, name: string): seq<Row> {
    Filter(rows, (x: Row) => x.name != name)
  }

  /** A row with the name exists. */
  predicate HasName(rows: seq<Row>, name: string) {
    exists i :: 0 <= i < |rows| && rows[i].name == name
  }

  /** `SELECT * ... WHERE name = ?` then `fetchone()`: the first such row in table order. */
  function FirstNamed(rows: seq<Row>, name: string): (r: Option<Row>)
    ensures r.None? <==> !HasName(rows, name)
    ensures r.Some? ==> r.value in rows && r.value.name == name
  {
    if rows == [] then None
    else if rows[0].name == name then Some(rows[0])
    else
      var r := FirstNamed(rows[1..], name);
      assert forall i :: 1 <= i < |rows| ==> rows[i] == rows[1..][i - 1];
      r
  }

  /** `get_templates_by_category`: a truthy category selects the rows with exactly that
      category; `None` or `""` selects every row. */
  function InCategory(rows: seq<Row>, category: Option<string>): seq<Row> {
    if category.Some? && category.value != "" then Filter(rows, (x: Row) => x.category == category) else rows
  }

  lemma InCategoryExact(rows: seq<Row>, category: Option<string>)
    ensures category.None? || category.value == "" ==> InCategory(rows, category) == rows
    ensures category.Some? && category.value != "" ==>
              forall x :: x in InCategory(rows, category) <==> x in rows && x.category == category
  {
  }

  // ---- distinct categories ----

  /** A category that counts for `get_all_categories`: not NULL and not empty. */
  predicate Listed(rows: seq<Row>, c: string) {
    c != "" && exists x :: x in rows && x.category == Some(c)
  }

  /** `SELECT DISTINCT category ... WHERE category IS NOT NULL AND category != ''`, in the
      order the categories first appear, after those already in `seen`. */
  function CategoriesFrom(rows: seq<Row>, seen: seq<string>): seq<string>
    decreases |rows|
  {
    if rows == [] then seen
    else
      var c := rows[0].category;
      CategoriesFrom(rows[1..], if c.Some? && c.value != "" && c.value !in seen then seen + [c.value] else seen)
  }

  function Categories(rows: seq<Row>): seq<string> {
    CategoriesFrom(rows, [])
  }

  lemma {:induction false} CategoriesFromExact(rows: seq<Row>, seen: seq<string>)
    requires Distinct(seen)
    ensures Distinct(CategoriesFrom(rows, seen))
    ensures forall c :: c in CategoriesFrom(rows, seen) <==> c in seen || Listed(rows, c)
    decreases |rows|
  {
    if rows != [] {
      var c := rows[0].category;
      var next := if c.Some? && c.value != "" && c.value !in seen then seen + [c.value] else seen;
      CategoriesFromExact(rows[1..], next);
      assert forall x :: x in rows <==> x == rows[0] || x in rows[1..];
    }
  }

  /** Every non-empty category appears once, and nothing else appears. */
  lemma CategoriesExact(rows: seq<Row>)
    ensures Distinct(Categories(rows))
    ensures forall c :: c in Categories(rows) <==> Listed(rows, c)
  {
    CategoriesFromExact(rows, []);
  }

  // ---- LIKE ----

  /** SQLite's `s LIKE p` with the default settings: `%` matches any run of characters,
      `_` any one character, and other characters match ignoring ASCII letter case. */
  function Like(s: string, p: string): bool
    decreases |p|, |s|
  {
    if p == [] then s == []
    else if p[0] == '%' then Like(s, p[1..]) || (s != [] && Like(s[1..], p))
    else s != [] && (p[0] == '_' || AsciiLower(s[0]) == AsciiLower(p[0])) && Like(s[1..], p[1..])
  }

  /** A query without wildcards. */
  predicate Plain(q: string) {
    '%' !in q && '_' !in q
  }

  lemma {:induction false} LikeAnything(s: string)
    ensures Like(s, "%")
    decreases |s|
  {
    if s != [] {
      LikeAnything(s[1..]);
    }
  }

  lemma StartsWithStep(a: string, b: string)
    requires b != []
    ensures StartsWith(a, b) <==> a != [] && a[0] == b[0] && StartsWith(a[1..], b[1..])
  {
    if a != [] && a[0] == b[0] && StartsWith(a[1..], b[1..]) {
      assert a[..|b|] == [a[0]] + a[1..][..|b| - 1];
      assert b == [b[0]] + b[1..];
    }
  }

  lemma ContainsStep(l: string, q: string)
    ensures Contains(l, q) <==> StartsWith(l, q) || (l != [] && Contains(l[1..], q))
  {
    assert OccursAt(l, q, 0) <==> StartsWith(l, q) by {
      if |q| <= |l| {
        assert l[0..|q|] == l[..|q|];
      }
    }
    if l != [] {
      OccursShift(l, q);
      if Contains(l, q) && !StartsWith(l, q) {
        var i: nat :| i <= |l| && OccursAt(l, q, i);
        assert i > 0 && OccursAt(l[1..], q, i - 1);
      }
      if Contains(l[1..], q) {
        var j: nat :| j <= |l[1..]| && OccursAt(l[1..], q, j);
        assert OccursAt(l, q, j + 1);
      }
    }
  }

  /** A plain pattern followed by `%` matches exactly the texts that start with it, case
      aside. */
  lemma {:induction false} LikePrefix(s: string, q: string)
    requires Plain(q)
    ensures Like(s, q + "%") <==> StartsWith(Lower(s), Lower(q))
    decreases |q|
  {
    if q == [] {
      assert q + "%" == "%";
      LikeAnything(s);
    } else {
      var p := q + "%";
      assert p[0] == q[0] && p[1..] == q[1..] + "%";
      StartsWithStep(Lower(s), Lower(q));
      assert Lower(q)[1..] == Lower(q[1..]);
      if s != [] {
        LikePrefix(s[1..], q[1..]);
        assert Lower(s)[1..] == Lower(s[1..]);
      }
    }
  }

  /** `s LIKE '%q%'` for a plain `q` is a case-insensitive substring test. */
  lemma {:induction false} LikeSubstring(s: string, q: string)
    requires Plain(q)
    ensures Like(s, "%" + q + "%") <==> Contains(Lower(s), Lower(q))
    decreases |s|
  {
    var p := "%" + q + "%";
    assert p[0] == '%' && p[1..] == q + "%";
    LikePrefix(s, q);
    ContainsStep(Lower(s), Lower(q));
    if s != [] {
      LikeSubstring(s[1..], q);
      assert Lower(s)[1..] == Lower(s[1..]);
    }
  }

  /** A NULL column never satisfies `LIKE`. */
  predicate LikeColumn(column: Option<string>, p: string) {
    column.Some? && Like(column.value, p)
  }

  predicate RowMatches(x: Row, p: string) {
    Like(x.name, p) || LikeColumn(x.description, p) || LikeColumn(x.category, p) || LikeColumn(x.tags, p)
  }

  /** `search_templates`: the rows where `%query%` matches the name, description,
      category or tags. */
  function Search(rows: seq<Row>, query: string): seq<Row> {
    Filter(rows, (x: Row) => RowMatches(x, "%" + query + "%"))
  }

  /** For a query without wildcards, a row is found exactly when one of the four columns
      holds the query as a substring, ASCII case aside. */
  lemma SearchSubstring(rows: seq<Row>, query: string)
    requires Plain(query)
    ensures forall x :: x in Search(rows, query) <==>
              x in rows && (Contains(Lower(x.name), Lower(query))
                            || (x.description.Some? && Contains(Lower(x.description.value), Lower(query)))
                            || (x.category.Some? && Contains(Lower(x.category.value), Lower(query)))
                            || (x.tags.Some? && Contains(Lower(x.tags.value), Lower(query))))
  {
    forall x: Row | x in rows ensures x in Search(rows, query) <==>
              (Contains(Lower(x.name), Lower(query))
               || (x.description.Some? && Contains(Lower(x.description.value), Lower(query)))
               || (x.category.Some? && Contains(Lower(x.category.value), Lower(query)))
               || (x.tags.Some? && Contains(Lower(x.tags.value), Lower(query))))
    {
      LikeSubstring(x.name, query);
      if x.description.Some? { LikeSubstring(x.description.value, query); }
      if x.category.Some? { LikeSubstring(x.category.value, query); }
      if x.tags.Some? { LikeSubstring(x.tags.value, query); }
    }
  }

  // ---- update ----

  /** The columns `update_template` may set. */
  const UpdatableFields: set<string> := {"url", "description", "category", "tags"}

  /** The keyword arguments that survive the filter. */
  function Kept(kwargs: map<string, Option<string>>): (kept: map<string, Option<string>>)
    ensures kept.Keys == kwargs.Keys * UpdatableFields
    ensures forall k :: k in kept ==> kept[k] == kwargs[k]
  {
    map k | k in kwargs && k in UpdatableFields :: kwargs[k]
  }

  /** `url` is `NOT NULL`: setting it to NULL violates the constraint. */
  predicate NullsUrl(fields: map<string, Option<string>>) {
    "url" in fields && fields["url"].None?
  }

  const NotNullUrl := Error(Integrity, "NOT NULL constraint failed: templates.url")

  /** One row after `SET field = ?, ...`. */
  function Apply(x: Row, fields: map<string, Option<string>>): Row
    requires !NullsUrl(fields)
  {
    Row(x.id, x.name,
        if "url" in fields then fields["url"].value else x.url,
        if "description" in fields then fields["description"] else x.description,
        if "category" in fields then fields["category"] else x.category,
        if "tags" in fields then fields["tags"] else x.tags)
  }

  /** The table after `UPDATE templates SET ... WHERE name = ?`. */
  function Updated(rows: seq<Row>, name: string, fields: map<string, Option<string>>): (r: seq<Row>)
    requires !NullsUrl(fields)
    ensures |r| == |rows|
    ensures forall i :: 0 <= i < |rows| ==> r[i].id == rows[i].id && r[i].name == rows[i].name
    ensures forall i :: 0 <= i < |rows| && rows[i].name != name ==> r[i] == rows[i]
    ensures forall i :: 0 <= i < |rows| && rows[i].name == name ==>
              (forall k :: k in fields && k in UpdatableFields ==> Column(r[i], k) == fields[k])
              && (forall k :: k in UpdatableFields && k !in fields ==> Column(r[i], k) == Column(rows[i], k))
  {
    seq(|rows|, i requires 0 <= i < |rows| => if rows[i].name == name then Apply(rows[i], fields) else rows[i])
  }

  /** A column of a row by its SQL name. */
  function Column(x: Row, field: string): Option<string>
    requires field in UpdatableFields
  {
    if field == "url" then Some(x.url)
    else if field == "description" then x.description
    else if field == "category" then x.category
    else x.tags
  }

  // ---- rows as models ----

  /** `value or ""` for a column. */
  function OrEmpty(column: Option<string>): string {
    if column.Some? then column.value else ""
  }

  /** The tag list a `tags` column stands for: split on `,`, none when NULL or empty. */
  function TagList(tags: Option<string>): (r: seq<string>)
    ensures tags.Some? && tags.value != "" ==> Join(r, ",") == tags.value
    ensures tags.None? || tags.value == "" ==> r == []
  {
    if tags.Some? && tags.value != "" then JoinSplit(tags.value, ","); Split(tags.value, ",") else []
  }

  /** `convert_db_template_to_model` as written: the category and tag list are handed to
      `TemplateInfo`, which declares neither, and pydantic drops them. */
  function ConvertRow(x: Row): (info: TemplateInfo)
    ensures info.name == x.name && info.url == x.url && info.path == "" && info.venvPath == ""
    ensures x.description.Some? ==> info.description == x.description.value
    ensures x.description.None? ==> info.description == ""
  {
    TemplateInfo(name := x.name, url := x.url, description := OrEmpty(x.description), path := "", venvPath := "")
  }

  /** As written, the conversion cannot tell rows apart by category or tags: they are lost. */
  lemma ConvertForgetsCategory(x: Row, category: Option<string>, tags: Option<string>)
    ensures ConvertRow(x) == ConvertRow(x.(category := category, tags := tags))
  {
  }

  /** A catalog record carrying what the row holds: the model plus its category and tags. */
  datatype CatalogEntry = CatalogEntry(info: TemplateInfo, category: string, tags: seq<string>)

  /** The conversion as evidently intended: the category (`""` when NULL) and the tag list
      are kept beside the model. */
  function ConvertRowToEntry(x: Row): (e: CatalogEntry)
    ensures e.info == ConvertRow(x)
  {
    CatalogEntry(ConvertRow(x), OrEmpty(x.category), TagList(x.tags))
  }

  /** The intended conversion loses nothing: the category comes back as stored, and
      joining the tag list with `,` gives back the stored tags. */
  lemma EntryKeepsCategoryAndTags(x: Row)
    ensures x.category.Some? ==> ConvertRowToEntry(x).category == x.category.value
    ensures x.tags.Some? && x.tags.value != "" ==> Join(ConvertRowToEntry(x).tags, ",") == x.tags.value
    ensures x.tags.None? || x.tags.value == "" ==> ConvertRowToEntry(x).tags == []
  {
  }

  /** Tags written as a comma-joined list come back as that same list. */
  lemma TagsRoundTrip(tags: seq<string>)
    requires tags != [] && Join(tags, ",") != ""
    requires forall t :: t in tags ==> ',' !in t
    ensures TagList(Some(Join(tags, ","))) == tags
  {
    SplitJoin(tags, ',');
  }

  // ---- the table ----

  class Table {
    var rows: seq<Row>
    /** The largest id ever handed out (`sqlite_sequence`); deleting rows does not lower it. */
    var lastId: nat

    /** Ids grow along the table and none exceeds the counter. */
    ghost predicate Valid()
      reads this
    {
      (forall x :: x in rows ==> 1 <= x.id <= lastId) && Ascending(rows)
    }

    /** `ensure_db_exists` on a fresh database file: an empty table. */
    constructor ()
      ensures Valid() && rows == [] && lastId == 0
    {
      rows := [];
      lastId := 0;
    }

    /** `add_template`: one row appended with the given columns and a fresh id, larger than
        every id handed out before. Names need not be unique. */
    method Add(name: string, url: string, description: string, category: string, tags: string)
      returns (id: nat)
      requires Valid()
      modifies this
      ensures Valid()
      ensures id == old(lastId) + 1 && lastId == id
      ensures rows == old(rows) + [Row(id, name, url, Some(description), Some(category), Some(tags))]
      ensures forall x :: x in old(rows) ==> x.id < id
    {
      id := lastId + 1;
      rows := rows + [Row(id, name, url, Some(description), Some(category), Some(tags))];
      lastId := id;
    }

    function GetByName(name: string): Option<Row>
      reads this
    {
      FirstNamed(rows, name)
    }

    function ByCategory(category: Option<string>): seq<Row>
      reads this
    {
      InCategory(rows, category)
    }

    function AllCategories(): seq<string>
      reads this
    {
      Categories(rows)
    }

    function SearchTemplates(query: string): seq<Row>
      reads this
    {
      Search(rows, query)
    }

    /** `delete_template`: every row with the name goes, the others stay in order; the
        answer is whether any row went. */
    method Delete(name: string) returns (deleted: bool)
      requires Valid()
      modifies this
      ensures Valid() && lastId == old(lastId)
      ensures rows == Others(old(rows), name)
      ensures deleted <==> HasName(old(rows), name)
      ensures !HasName(rows, name)
    {
      deleted := HasName(rows, name);
      FilterAscending(rows, (x: Row) => x.name != name);
      rows := Others(rows, name);
    }

    /** `update_template`: only `url`, `description`, `category` and `tags` are used; with
        none of them nothing happens. Otherwise every row with the name gets the values,
        and the answer is whether any row has the name. Setting `url` to NULL on a
        matching row violates `NOT NULL` and changes nothing. */
    method Update(name: string, kwargs: map<string, Option<string>>) returns (r: Result<bool>)
      requires Valid()
      modifies this
      ensures Valid() && lastId == old(lastId)
      ensures Kept(kwargs) == map[] ==> r == Ok(false) && rows == old(rows)
      ensures Kept(kwargs) != map[] && !HasName(old(rows), name) ==> r == Ok(false) && rows == old(rows)
      ensures Kept(kwargs) != map[] && HasName(old(rows), name) && NullsUrl(kwargs) ==>
                r == Err(NotNullUrl) && rows == old(rows)
      ensures Kept(kwargs) != map[] && HasName(old(rows), name) && !NullsUrl(kwargs) ==>
                r == Ok(true) && rows == Updated(old(rows), name, Kept(kwargs))
    {
      var fields := Kept(kwargs);
      if fields == map[] {
        return Ok(false);
      }
      if !HasName(rows, name) {
        return Ok(false);
      }
      if NullsUrl(fields) {
        return Err(NotNullUrl);
      }
      rows := Updated(rows, name, fields);
      return Ok(true);
    }

    /** `clear_database`: every row goes; the id counter stays where it was. */
    method Clear()
      requires Valid()
      modifies this
      ensures Valid() && rows == [] && lastId == old(lastId)
    {
      rows := [];
    }
  }

  /** Ids grow along the table. */
  predicate Ascending(rows: seq<Row>) {
    forall i, j :: 0 <= i < j < |rows| ==> rows[i].id < rows[j].id
  }

  /** Filtering keeps the rows' relative order, so growing ids stay growing. */
  lemma {:induction false} FilterAscending(rows: seq<Row>, keep: Row -> bool)
    requires Ascending(rows)
    ensures Ascending(Filter(rows, keep))
    decreases |rows|
  {
    if rows != [] {
      var rest := Filter(rows[1..], keep);
      FilterAscending(rows[1..], keep);
      if keep(rows[0]) {
        var f := Filter(rows, keep);
        assert f == [rows[0]] + rest;
        forall j | 1 <= j < |f| ensures rows[0].id < f[j].id {
          assert f[j] == rest[j - 1] && rest[j - 1] in rows[1..];
        }
      }
    }
  }

  /** After a delete, looking the name up finds nothing, and every row under another
      name is still there. */
  lemma DeletedIsGone(rows: seq<Row>, name: string)
    ensures FirstNamed(Others(rows, name), name) == None
    ensures forall x :: x in rows && x.name != name ==> x in Others(rows, name)
  {
    var f := Others(rows, name);
    assert forall i :: 0 <= i < |f| ==> f[i] in f;
  }
}
