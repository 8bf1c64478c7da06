/** Turning parsed CSV rows into keyed records (`objectRow`) and one category
    directory into a company's table (the body of `getCompanyData`). */
module Records {
  import opened Options
  import opened Seqs
  import opened Csv
  import opened Sorting

  /** A JavaScript object built from a row: field name to text. */
  type Record = map<string, string>

  /** What the dashboard keeps per company: its header list and its records. */
  datatype Company = Company(headers: seq<string>, data: seq<Record>)

  // ---------------------------------------------------------------------------
  // objectRow

  /** `values[i] != null ? values[i] : ''`: the value at position `i`, or the
      empty string where the row is too short. */
  function ValueAt(values: seq<string>, i: nat): string {
    if i < |values| then values[i] else ""
  }

  /** `headers[i]` does not occur again after position `i`, so the assignment
      at `i` is the one `objectRow` leaves in place. */
  predicate IsLastOccurrence(headers: seq<string>, i: nat)
    requires i < |headers|
  {
    forall j :: i < j < |headers| ==> headers[j] != headers[i]
  }

  /** The record after the first `k` assignments of `objectRow`. */
  function RowPrefix(headers: seq<string>, values: seq<string>, k: nat): Record
    requires k <= |headers|
  {
    if k == 0 then map[] else RowPrefix(headers, values, k - 1)[headers[k - 1] := ValueAt(values, k - 1)]
  }

  /** The record `objectRow(headers, values)` returns. */
  function RowOf(headers: seq<string>, values: seq<string>): Record {
    RowPrefix(headers, values, |headers|)
  }

  /** `objectRow`: assigns each header its positional value in turn. */
  method ObjectRow(headers: seq<string>, values: seq<string>) returns (obj: Record)
    ensures obj == RowOf(headers, values)
  {
    obj := map[];
    for k := 0 to |headers|
      invariant obj == RowPrefix(headers, values, k)
    {
      obj := obj[headers[k] := ValueAt(values, k)];
    }
  }

  // ---------------------------------------------------------------------------
  // Properties of objectRow

  /** The record has a key for every header, and only those. */
  lemma {:induction false} RowPrefixKeys(headers: seq<string>, values: seq<string>, k: nat)
    requires k <= |headers|
    ensures RowPrefix(headers, values, k).Keys == set h | h in headers[..k]
  {
    if k > 0 {
      RowPrefixKeys(headers, values, k - 1);
      assert headers[..k] == headers[..k - 1] + [headers[k - 1]];
    }
  }

  /** The value of a header is the one at its last position among the first `k`. */
  lemma {:induction false} RowPrefixValue(headers: seq<string>, values: seq<string>, k: nat, i: nat)
    requires i < k <= |headers|
    requires forall j :: i < j < k ==> headers[j] != headers[i]
    ensures headers[i] in RowPrefix(headers, values, k)
    ensures RowPrefix(headers, values, k)[headers[i]] == ValueAt(values, i)
  {
    if i < k - 1 {
      RowPrefixValue(headers, values, k - 1, i);
    }
  }

  /** `objectRow` gives every header a key, and each header the value at its
      last position: `''` past the end of the row. */
  lemma RowOfMeaning(headers: seq<string>, values: seq<string>)
    ensures RowOf(headers, values).Keys == set h | h in headers
    ensures forall i :: 0 <= i < |headers| && IsLastOccurrence(headers, i) ==>
      RowOf(headers, values)[headers[i]] == ValueAt(values, i)
  {
    RowPrefixKeys(headers, values, |headers|);
    assert headers[..|headers|] == headers;
    forall i | 0 <= i < |headers| && IsLastOccurrence(headers, i)
      ensures RowOf(headers, values)[headers[i]] == ValueAt(values, i)
    {
      RowPrefixValue(headers, values, |headers|, i);
    }
  }

  /** With distinct headers, header `i` holds `values[i]`, or `''` when the
      row has fewer than `i + 1` values. */
  lemma RowOfDistinct(headers: seq<string>, values: seq<string>, i: nat)
    requires NoDup(headers) && i < |headers|
    ensures headers[i] in RowOf(headers, values)
    ensures RowOf(headers, values)[headers[i]] == (if i < |values| then values[i] else "")
  {
    RowOfMeaning(headers, values);
    assert IsLastOccurrence(headers, i);
    assert headers[i] in headers;
  }

  /** Values beyond the headers are dropped: only the first `|headers|` values matter. */
  lemma {:induction false} RowIgnoresExtra(headers: seq<string>, values: seq<string>, extra: seq<string>, k: nat)
    requires |headers| <= |values| && k <= |headers|
    ensures RowPrefix(headers, values + extra, k) == RowPrefix(headers, values, k)
  {
    if k > 0 {
      RowIgnoresExtra(headers, values, extra, k - 1);
      assert ValueAt(values + extra, k - 1) == ValueAt(values, k - 1);
    }
  }

  // ---------------------------------------------------------------------------
  // One company: parseCSV, then rows.map(row => objectRow(headers, row))

  /** The company a parsed table describes: one record per row. */
  function Materialise(t: Table): (c: Company)
    ensures c.headers == t.headers && |c.data| == |t.rows|
  {
    Company(t.headers, seq(|t.rows|, j requires 0 <= j < |t.rows| => RowOf(t.headers, t.rows[j])))
  }

  /** The company `getCompanyData` builds from one CSV text. */
  function CompanyOf(text: string): Company {
    Materialise(CsvTable(text))
  }

  /** `rows.map(row => objectRow(headers, row))`: one record per row. */
  method MaterialiseRows(t: Table) returns (c: Company)
    ensures c == Materialise(t)
  {
    var data: seq<Record> := [];
    for j := 0 to |t.rows|
      invariant |data| == j
      invariant forall i :: 0 <= i < j ==> data[i] == RowOf(t.headers, t.rows[i])
    {
      var r := ObjectRow(t.headers, t.rows[j]);
      data := data + [r];
    }
    c := Company(t.headers, data);
  }

  /** Parses one CSV text and materialises every row. */
  method LoadCompany(text: string) returns (c: Company)
    ensures c == CompanyOf(text)
    ensures |c.data| == if |Lines(text)| == 0 then 0 else |Lines(text)| - 1
  {
    var t := ParseCsv(text);
    c := MaterialiseRows(t);
  }

  // ---------------------------------------------------------------------------
  // getCompanyData

  /** A directory entry under the root: its name, whether it is a directory,
      and the text of its `All.csv` (else of `5. All.csv`), if one was found
      and could be read. */
  datatype Entry = Entry(name: string, isDirectory: bool, csv: Option<string>)

  /** The entries `getCompanyData` loads: directories whose name does not
      start with a dot and is not `node_modules`, with a readable CSV file. */
  predicate IsCompanyEntry(e: Entry) {
    && e.isDirectory
    && !(|e.name| > 0 && e.name[0] == '.')
    && e.name != "node_modules"
    && e.csv.Some?
  }

  /** The companies loaded from the first `n` entries, each entry's CSV text
      turned into a company by `load` (which is `CompanyOf` for the dashboard;
      the facts below hold for any `load`). */
  function CompaniesPrefix(entries: seq<Entry>, n: nat, load: string -> Company): map<string, Company>
    requires n <= |entries|
  {
    if n == 0 then map[]
    else
      var e := entries[n - 1];
      var before := CompaniesPrefix(entries, n - 1, load);
      if IsCompanyEntry(e) then before[e.name := load(e.csv.value)] else before
  }

  /** `getCompanyData`: one company per loadable entry, keyed by its name. */
  method GetCompanyData(entries: seq<Entry>) returns (companies: map<string, Company>)
    ensures companies == CompaniesPrefix(entries, |entries|, CompanyOf)
  {
    companies := map[];
    for n := 0 to |entries|
      invariant companies == CompaniesPrefix(entries, n, CompanyOf)
    {
      var e := entries[n];
      if IsCompanyEntry(e) {
        var c := LoadCompany(e.csv.value);
        companies := companies[e.name := c];
      }
    }
  }

  /** The companies are keyed by the names of the loadable entries. */
  lemma {:induction false} CompaniesKeys(entries: seq<Entry>, n: nat, load: string -> Company)
    requires n <= |entries|
    ensures forall name :: name in CompaniesPrefix(entries, n, load) <==>
      exists i :: 0 <= i < n && IsCompanyEntry(entries[i]) && entries[i].name == name
  {
    if n > 0 {
      CompaniesKeys(entries, n - 1, load);
    }
  }

  /** A loadable entry whose name no later loadable entry repeats keeps the
      company loaded from its own CSV text. */
  lemma {:induction false} CompaniesValue(entries: seq<Entry>, n: nat, i: nat, load: string -> Company)
    requires i < n <= |entries| && IsCompanyEntry(entries[i])
    requires forall j :: i < j < n && IsCompanyEntry(entries[j]) ==> entries[j].name != entries[i].name
    ensures entries[i].name in CompaniesPrefix(entries, n, load)
    ensures CompaniesPrefix(entries, n, load)[entries[i].name] == load(entries[i].csv.value)
  {
    if i < n - 1 {
      CompaniesValue(entries, n - 1, i, load);
    }
  }

  /** The names of the loadable entries, in directory order. */
  function EntryNames(entries: seq<Entry>): seq<string>
    decreases |entries|
  {
    if |entries| == 0 then []
    else
      var e := entries[|entries| - 1];
      EntryNames(entries[..|entries| - 1]) + (if IsCompanyEntry(e) then [e.name] else [])
  }

  lemma {:induction false} EntryNamesMembers(entries: seq<Entry>)
    ensures forall name :: name in EntryNames(entries) <==>
      exists i :: 0 <= i < |entries| && IsCompanyEntry(entries[i]) && entries[i].name == name
    decreases |entries|
  {
    if |entries| > 0 {
      var init := entries[..|entries| - 1];
      EntryNamesMembers(init);
      forall name | (exists i :: 0 <= i < |entries| && IsCompanyEntry(entries[i]) && entries[i].name == name)
        ensures name in EntryNames(entries)
      {
        var i :| 0 <= i < |entries| && IsCompanyEntry(entries[i]) && entries[i].name == name;
        if i < |entries| - 1 {
          assert init[i] == entries[i];
        }
      }
    }
  }

  /** `Object.keys(companies).sort()`: the company names, each once, sorted. */
  function CompanyNames(entries: seq<Entry>): (r: seq<string>)
    ensures Sorted(r) && NoDup(r)
    ensures forall name :: name in r <==> name in EntryNames(entries)
  {
    var d := Dedup(EntryNames(entries));
    SortNoDup(d);
    assert forall name :: name in Sort(d) <==> name in multiset(Sort(d));
    Sort(d)
  }

  /** The sorted name list holds every loaded company exactly once. */
  lemma CompanyNamesMeaning(entries: seq<Entry>)
    ensures Sorted(CompanyNames(entries)) && NoDup(CompanyNames(entries))
    ensures forall name :: name in CompanyNames(entries) <==> name in CompaniesPrefix(entries, |entries|, CompanyOf)
  {
    var d := Dedup(EntryNames(entries));
    SortNoDup(d);
    EntryNamesMembers(entries);
    CompaniesKeys(entries, |entries|, CompanyOf);
    forall name ensures name in Sort(d) <==> name in d {
      assert name in Sort(d) <==> name in multiset(Sort(d));
    }
  }
}
