/**
 * The accumulation loop of `load_benchmark_results`: already-decoded result files are
 * folded, page record by page record, into a map from test name to the units and the
 * sample values of that test. File discovery and JSON decoding are not modelled; the
 * files arrive in the order the directory walk yields them.
 */
module Aggregate {
  import opened Wrappers

  /** The record type holding a list of samples. */
  const ListOfScalarValues: string := "list_of_scalar_values"

  /** The record type holding a single sample. */
  const ScalarValue: string := "scalar"

  /**
   * One entry of `per_page_values`. A `values` or `value` field that is missing or
   * `null` is `None`; `kind` is the record's `type`.
   */
  datatype Page = Page(
    name: string,
    pageId: string,
    units: string,
    kind: string,
    values: Option<seq<real>>,
    value: Option<real>)

  /** One decoded result file: its `benchmark_name` and its `per_page_values`. */
  datatype ResultFile = ResultFile(benchmarkName: string, perPageValues: seq<Page>)

  /** What the map holds per test: the units and the samples gathered so far. */
  datatype Entry = Entry(units: string, values: seq<real>)

  /** The test name `benchmark_name/name/page_id`. */
  function TestName(benchmarkName: string, page: Page): string {
    benchmarkName + "/" + page.name + "/" + page.pageId
  }

  /** The samples a record adds: its list, its one value, or nothing. */
  function Contribution(page: Page): seq<real> {
    if page.kind == ListOfScalarValues && page.values.Some? then page.values.value
    else if page.kind == ScalarValue && page.value.Some? then [page.value.value]
    else []
  }

  /**
   * One iteration of the inner loop: the first record of a test creates its entry with
   * that record's units, and the record's samples are then appended.
   */
  function AddPage(tests: map<string, Entry>, key: string, page: Page): (r: map<string, Entry>)
    ensures r.Keys == tests.Keys + {key}
    ensures forall k :: k in tests && k != key ==> r[k] == tests[k]
    ensures key in tests ==> r[key] == Entry(tests[key].units, tests[key].values + Contribution(page))
    ensures key !in tests ==> r[key] == Entry(page.units, Contribution(page))
  {
    var created := if key in tests then tests else tests[key := Entry(page.units, [])];
    var entry := created[key];
    if page.kind == ListOfScalarValues then
      if page.values.Some? then created[key := entry.(values := entry.values + page.values.value)]
      else created
    else if page.kind == ScalarValue then
      if page.value.Some? then created[key := entry.(values := entry.values + [page.value.value])]
      else created
    else
      created
  }

  /** The inner loop over the records of one file. */
  function AddPages(tests: map<string, Entry>, benchmarkName: string, pages: seq<Page>): map<string, Entry>
    decreases |pages|
  {
    if |pages| == 0 then tests
    else AddPages(AddPage(tests, TestName(benchmarkName, pages[0]), pages[0]), benchmarkName, pages[1..])
  }

  /** The outer loop over the files. */
  function AddFiles(tests: map<string, Entry>, files: seq<ResultFile>): map<string, Entry>
    decreases |files|
  {
    if |files| == 0 then tests
    else AddFiles(AddPages(tests, files[0].benchmarkName, files[0].perPageValues), files[1..])
  }

  /** `load_benchmark_results`, from the decoded files on. */
  function LoadBenchmarkResults(files: seq<ResultFile>): map<string, Entry> {
    AddFiles(map[], files)
  }

  // A reference description of the result, over the records of all files in order,
  // each paired with its test name.

  function Keyed(benchmarkName: string, pages: seq<Page>): (r: seq<(string, Page)>)
    ensures |r| == |pages|
    ensures forall i :: 0 <= i < |pages| ==> r[i] == (TestName(benchmarkName, pages[i]), pages[i])
  {
    if |pages| == 0 then [] else [(TestName(benchmarkName, pages[0]), pages[0])] + Keyed(benchmarkName, pages[1..])
  }

  function Records(files: seq<ResultFile>): seq<(string, Page)> {
    if |files| == 0 then [] else Keyed(files[0].benchmarkName, files[0].perPageValues) + Records(files[1..])
  }

  predicate Mentions(records: seq<(string, Page)>, key: string) {
    exists i :: 0 <= i < |records| && records[i].0 == key
  }

  /** The units of the first record of test `key`. */
  function FirstUnits(records: seq<(string, Page)>, key: string): string
    requires Mentions(records, key)
  {
    if records[0].0 == key then records[0].1.units
    else
      assert Mentions(records[1..], key) by {
        var i :| 0 <= i < |records| && records[i].0 == key;
        assert records[1..][i - 1] == records[i];
      }
      FirstUnits(records[1..], key)
  }

  /** The samples of all records of test `key`, in record order. */
  function Collected(records: seq<(string, Page)>, key: string): seq<real> {
    if |records| == 0 then []
    else (if records[0].0 == key then Contribution(records[0].1) else []) + Collected(records[1..], key)
  }

  /** The fold over keyed records that the two loops perform together. */
  function AddRecords(tests: map<string, Entry>, records: seq<(string, Page)>): map<string, Entry>
    decreases |records|
  {
    if |records| == 0 then tests
    else AddRecords(AddPage(tests, records[0].0, records[0].1), records[1..])
  }

  lemma {:induction false} AddRecordsAppend(tests: map<string, Entry>, a: seq<(string, Page)>, b: seq<(string, Page)>)
    ensures AddRecords(tests, a + b) == AddRecords(AddRecords(tests, a), b)
    decreases |a|
  {
    if |a| == 0 {
      assert a + b == b;
    } else {
      assert (a + b)[1..] == a[1..] + b;
      AddRecordsAppend(AddPage(tests, a[0].0, a[0].1), a[1..], b);
    }
  }

  lemma {:induction false} AddPagesIsAddRecords(tests: map<string, Entry>, benchmarkName: string, pages: seq<Page>)
    ensures AddPages(tests, benchmarkName, pages) == AddRecords(tests, Keyed(benchmarkName, pages))
    decreases |pages|
  {
    if |pages| > 0 {
      var tests' := AddPage(tests, TestName(benchmarkName, pages[0]), pages[0]);
      AddPagesIsAddRecords(tests', benchmarkName, pages[1..]);
      assert Keyed(benchmarkName, pages)[1..] == Keyed(benchmarkName, pages[1..]);
    }
  }

  /** The two nested loops fold the records of all files, in order. */
  lemma {:induction false} AddFilesIsAddRecords(tests: map<string, Entry>, files: seq<ResultFile>)
    ensures AddFiles(tests, files) == AddRecords(tests, Records(files))
    decreases |files|
  {
    if |files| > 0 {
      var keyed := Keyed(files[0].benchmarkName, files[0].perPageValues);
      AddPagesIsAddRecords(tests, files[0].benchmarkName, files[0].perPageValues);
      AddFilesIsAddRecords(AddRecords(tests, keyed), files[1..]);
      AddRecordsAppend(tests, keyed, Records(files[1..]));
    }
  }

  /** A test is named by some record exactly when the first or a later record names it. */
  lemma MentionsFirstOrRest(records: seq<(string, Page)>, key: string)
    requires |records| > 0
    ensures Mentions(records, key) <==> records[0].0 == key || Mentions(records[1..], key)
  {
  }

  /** Folding records into a map keeps the tests present and adds the ones the records name. */
  lemma {:induction false} AddRecordsKeys(tests: map<string, Entry>, records: seq<(string, Page)>, key: string)
    ensures key in AddRecords(tests, records) <==> key in tests || Mentions(records, key)
    decreases |records|
  {
    if |records| > 0 {
      AddRecordsKeys(AddPage(tests, records[0].0, records[0].1), records[1..], key);
      MentionsFirstOrRest(records, key);
    }
  }

  /** One record leaves an existing entry's units and appends the record's samples if it names the test. */
  lemma AddPageExisting(tests: map<string, Entry>, name: string, page: Page, key: string)
    requires key in tests
    ensures key in AddPage(tests, name, page)
    ensures AddPage(tests, name, page)[key] ==
            Entry(tests[key].units, tests[key].values + (if name == key then Contribution(page) else []))
  {
    if name != key {
      assert tests[key].values + [] == tests[key].values;
    }
  }

  /** An entry already present keeps its units and gains the samples of the records of its test. */
  lemma {:induction false} AddRecordsExisting(tests: map<string, Entry>, records: seq<(string, Page)>, key: string)
    requires key in tests
    ensures key in AddRecords(tests, records)
    ensures AddRecords(tests, records)[key] == Entry(tests[key].units, tests[key].values + Collected(records, key))
    decreases |records|
  {
    if |records| == 0 {
      assert tests[key].values + Collected(records, key) == tests[key].values;
    } else {
      var tests' := AddPage(tests, records[0].0, records[0].1);
      var first := if records[0].0 == key then Contribution(records[0].1) else [];
      var later := Collected(records[1..], key);
      AddPageExisting(tests, records[0].0, records[0].1, key);
      assert tests'[key] == Entry(tests[key].units, tests[key].values + first);
      AddRecordsExisting(tests', records[1..], key);
      assert AddRecords(tests, records) == AddRecords(tests', records[1..]);
      assert Collected(records, key) == first + later;
      assert (tests[key].values + first) + later == tests[key].values + (first + later);
    }
  }

  /** A new entry takes its units from the first record of its test and gathers all its samples. */
  lemma {:induction false} AddRecordsNew(tests: map<string, Entry>, records: seq<(string, Page)>, key: string)
    requires key !in tests && Mentions(records, key)
    ensures key in AddRecords(tests, records)
    ensures AddRecords(tests, records)[key] == Entry(FirstUnits(records, key), Collected(records, key))
    decreases |records|
  {
    var tests' := AddPage(tests, records[0].0, records[0].1);
    MentionsFirstOrRest(records, key);
    if records[0].0 == key {
      AddRecordsExisting(tests', records[1..], key);
    } else {
      AddRecordsNew(tests', records[1..], key);
    }
  }

  /**
   * Folding records into a map: a test is present afterwards exactly when it was before
   * or some record names it; an existing entry keeps its units and gains the samples of
   * the records of that test, and a new one takes its units from the first such record.
   */
  lemma AddRecordsContents(tests: map<string, Entry>, records: seq<(string, Page)>, key: string)
    ensures key in AddRecords(tests, records) <==> key in tests || Mentions(records, key)
    ensures key in tests ==>
            AddRecords(tests, records)[key] == Entry(tests[key].units, tests[key].values + Collected(records, key))
    ensures key !in tests && Mentions(records, key) ==>
            AddRecords(tests, records)[key] == Entry(FirstUnits(records, key), Collected(records, key))
  {
    AddRecordsKeys(tests, records, key);
    if key in tests {
      AddRecordsExisting(tests, records, key);
    } else if Mentions(records, key) {
      AddRecordsNew(tests, records, key);
    }
  }

  /**
   * `load_benchmark_results`: the tests are exactly the names of the records read; each
   * test carries the units of its first record and the samples of all its records in
   * file and record order (`list_of_scalar_values` extends, `scalar` appends, anything
   * else or a `null` adds nothing).
   */
  lemma LoadBenchmarkResultsContents(files: seq<ResultFile>, key: string)
    ensures key in LoadBenchmarkResults(files) <==> Mentions(Records(files), key)
    ensures key in LoadBenchmarkResults(files) ==>
            LoadBenchmarkResults(files)[key] == Entry(FirstUnits(Records(files), key), Collected(Records(files), key))
  {
    AddFilesIsAddRecords(map[], files);
    AddRecordsContents(map[], Records(files), key);
  }
}
