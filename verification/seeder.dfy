/** The catalog seeder (dynamo_mcp/utils/init_template_db.py): turn the rows of the
    built-in CSV list into template records (name from the URL, a stock description) and
    insert them, counting the inserts that succeed. */
module Seeder {
  import opened Outcomes
  import opened Text
  import opened Registry
  import opened Catalog

  /** A data row as `csv.DictReader` hands it over: its `category` and `url` cells. */
  datatype CsvRow = CsvRow(category: string, url: string)

  /** The record `parse_csv_data` makes of a row. */
  datatype Seed = Seed(name: string, url: string, category: string, description: string)

  const Quote: set<char> := {'"'}

  /** The stock description of a seeded template. */
  function SeedDescription(category: string): string {
    "Cookiecutter template for " + category + " projects"
  }

  /** One row: both cells lose their surrounding double quotes, the name is the URL's
      last segment without `.git` and then without `cookiecutter-` (the rule templates
      added by URL follow), and the description names the category. */
  function ParseRow(row: CsvRow): Seed {
    var url := Trim(row.url, Quote);
    var category := Trim(row.category, Quote);
    Seed(DeriveName(url), url, category, SeedDescription(category))
  }

  /** A record's name is a `/`-free tail of its URL (up to a `.git`), neither cell keeps
      a double quote at either end, and the description names the category. */
  lemma ParseRowShape(row: CsvRow)
    ensures var s := ParseRow(row);
      '/' !in s.name
      && (EndsWith(s.url, s.name) || EndsWith(s.url, s.name + GitSuffix))
      && (s.url == [] || (s.url[0] != '"' && s.url[|s.url| - 1] != '"'))
      && (s.category == [] || (s.category[0] != '"' && s.category[|s.category| - 1] != '"'))
      && StartsWith(s.description, "Cookiecutter template for ")
      && EndsWith(s.description, s.category + " projects")
  {
    var url := Trim(row.url, Quote);
    var category := Trim(row.category, Quote);
    DeriveNameShape(url);
    TrimEnds(row.url, Quote);
    TrimEnds(row.category, Quote);
    DescriptionShape(category);
  }

  lemma DescriptionShape(category: string)
    ensures StartsWith(SeedDescription(category), "Cookiecutter template for ")
    ensures EndsWith(SeedDescription(category), category + " projects")
  {
    assert SeedDescription(category) == "Cookiecutter template for " + (category + " projects");
  }

  /** A stripped text has no stripped character at either end. */
  lemma TrimEnds(s: string, cs: set<char>)
    ensures var r := Trim(s, cs); r == [] || (r[0] !in cs && r[|r| - 1] !in cs)
  {
    var l := TrimLeft(s, cs);
    var r := TrimRight(l, cs);
    TrimLeftShape(s, cs);
    TrimRightShape(l, cs);
    if r != [] {
      assert r[0] == l[0];
    }
  }

  /** A repository named `cookiecutter-<n>` seeds template `n`, as
      `.../cookiecutter-pypackage` seeds `pypackage`. */
  lemma ParseRowOfRepository(category: string, prefix: string, n: string)
    requires '/' !in n && !EndsWith(CookiecutterPrefix + n, GitSuffix)
    requires prefix != [] && prefix[0] != '"' && n != [] && n[|n| - 1] != '"'
    ensures ParseRow(CsvRow(category, prefix + "/" + CookiecutterPrefix + n)).name == n
  {
    var url := prefix + "/" + CookiecutterPrefix + n;
    var seg := CookiecutterPrefix + n;
    assert url == prefix + "/" + seg;
    assert url[0] == prefix[0] && url[|url| - 1] == n[|n| - 1];
    assert Trim(url, Quote) == url;
    LastSegment(prefix, seg);
    assert seg[13..] == n;
  }

  /** `parse_csv_data` over the rows the CSV reader yields: one record per row, in order. */
  method ParseCsvData(rows: seq<CsvRow>) returns (seeds: seq<Seed>)
    ensures seeds == ParseAll(rows)
  {
    seeds := [];
    for i := 0 to |rows|
      invariant |seeds| == i && forall k :: 0 <= k < i ==> seeds[k] == ParseRow(rows[k])
    {
      seeds := seeds + [ParseRow(rows[i])];
    }
  }

  /** The records of all rows, in order: the record at each position is the parse of
      the row there. */
  function ParseAll(rows: seq<CsvRow>): seq<Seed> {
    seq(|rows|, i requires 0 <= i < |rows| => ParseRow(rows[i]))
  }

  /** The records whose insert succeeds, in order: those at positions not in `failing`. */
  function Survivors(seeds: seq<Seed>, failing: set<nat>): seq<Seed>
    decreases |seeds|
  {
    if seeds == [] then []
    else
      var n := |seeds| - 1;
      Survivors(seeds[..n], failing) + (if n in failing then [] else [seeds[n]])
  }

  /** There are no more survivors than records, and with no failures every record
      survives. */
  lemma {:induction false} SurvivorsBound(seeds: seq<Seed>, failing: set<nat>)
    ensures |Survivors(seeds, failing)| <= |seeds|
    ensures (forall k :: 0 <= k < |seeds| ==> k !in failing) ==> Survivors(seeds, failing) == seeds
    decreases |seeds|
  {
    if seeds != [] {
      var n := |seeds| - 1;
      SurvivorsBound(seeds[..n], failing);
      assert seeds[..n] + [seeds[n]] == seeds;
    }
  }

  /** The record at every position outside `failing` is inserted. */
  lemma {:induction false} SurvivorsKept(seeds: seq<Seed>, failing: set<nat>)
    ensures forall k :: 0 <= k < |seeds| && k !in failing ==> seeds[k] in Survivors(seeds, failing)
    decreases |seeds|
  {
    if seeds != [] {
      var n := |seeds| - 1;
      var front := seeds[..n];
      SurvivorsKept(front, failing);
      forall k | 0 <= k < n && k !in failing ensures seeds[k] in Survivors(seeds, failing) {
        assert front[k] == seeds[k];
      }
    }
  }

  /** Every inserted record comes from a position outside `failing`. */
  lemma {:induction false} SurvivorsFrom(seeds: seq<Seed>, failing: set<nat>)
    ensures forall s :: s in Survivors(seeds, failing) ==>
              exists k :: 0 <= k < |seeds| && k !in failing && seeds[k] == s
    decreases |seeds|
  {
    if seeds != [] {
      var n := |seeds| - 1;
      var front := seeds[..n];
      SurvivorsFrom(front, failing);
      forall s | s in Survivors(seeds, failing)
        ensures exists k :: 0 <= k < |seeds| && k !in failing && seeds[k] == s
      {
        if s in Survivors(front, failing) {
          var k :| 0 <= k < |front| && k !in failing && front[k] == s;
          assert seeds[k] == s;
        } else {
          assert seeds[n] == s;
        }
      }
    }
  }

  /** The names of the records, in order. */
  function NamesOf(seeds: seq<Seed>): seq<string>
  {
    seq(|seeds|, i requires 0 <= i < |seeds| => seeds[i].name)
  }

  /** The rows the inserts add, numbered from `first`; `tags` takes its default `""`. */
  function SeedRows(seeds: seq<Seed>, first: nat): seq<Row>
  {
    seq(|seeds|, i requires 0 <= i < |seeds| =>
      Row(first + i, seeds[i].name, seeds[i].url, Some(seeds[i].description), Some(seeds[i].category), Some("")))
  }

  /** `initialize_database`: after the optional reset, the loop over the parsed records.
      The insert at each position in `failing` raises; it is reported and skipped. The
      answer counts and names the inserts that succeeded, in order, and the table gains
      exactly their rows, numbered on from its id counter (which a reset keeps). */
  method InitializeDatabase(table: Table, reset: bool, data: seq<CsvRow>, failing: set<nat>)
    returns (count: nat, names: seq<string>)
    requires table.Valid()
    modifies table
    ensures table.Valid()
    ensures count == |names|
    ensures names == NamesOf(Survivors(ParseAll(data), failing))
    ensures table.rows == (if reset then [] else old(table.rows))
                          + SeedRows(Survivors(ParseAll(data), failing), old(table.lastId) + 1)
    ensures table.lastId == old(table.lastId) + count
  {
    if reset {
      table.Clear();
    }
    var seeds := ParseCsvData(data);
    count, names := InsertAll(table, seeds, failing);
  }

  /** The insert loop: each record not at a failing position is added in turn. */
  method InsertAll(table: Table, seeds: seq<Seed>, failing: set<nat>)
    returns (count: nat, names: seq<string>)
    requires table.Valid()
    modifies table
    ensures table.Valid()
    ensures count == |names| && names == NamesOf(Survivors(seeds, failing))
    ensures table.rows == old(table.rows) + SeedRows(Survivors(seeds, failing), old(table.lastId) + 1)
    ensures table.lastId == old(table.lastId) + count
  {
    ghost var base := table.rows;
    ghost var first := table.lastId + 1;
    ghost var done: seq<Seed> := [];
    count, names := 0, [];
    for i := 0 to |seeds|
      invariant table.Valid() && table.lastId == first - 1 + count
      invariant done == Survivors(seeds[..i], failing)
      invariant count == |done| && names == NamesOf(done)
      invariant table.rows == base + SeedRows(done, first)
    {
      SurvivorsStep(seeds, i, failing);
      if i !in failing {
        var seed := seeds[i];
        var id := table.Add(seed.name, seed.url, seed.description, seed.category, "");
        SeedRowsStep(done, seed, first);
        NamesStep(done, seed);
        done := done + [seed];
        count := count + 1;
        names := names + [seed.name];
      }
    }
    assert seeds[..|seeds|] == seeds;
  }

  lemma SurvivorsStep(seeds: seq<Seed>, i: nat, failing: set<nat>)
    requires i < |seeds|
    ensures Survivors(seeds[..i + 1], failing)
            == Survivors(seeds[..i], failing) + (if i in failing then [] else [seeds[i]])
  {
    assert seeds[..i + 1][..i] == seeds[..i];
  }

  lemma NamesStep(done: seq<Seed>, seed: Seed)
    ensures NamesOf(done + [seed]) == NamesOf(done) + [seed.name]
  {
  }

  lemma SeedRowsStep(done: seq<Seed>, seed: Seed, first: nat)
    ensures SeedRows(done + [seed], first)
            == SeedRows(done, first) + [Row(first + |done|, seed.name, seed.url, Some(seed.description),
                                            Some(seed.category), Some(""))]
  {
    assert (done + [seed])[|done|] == seed;
  }

}
