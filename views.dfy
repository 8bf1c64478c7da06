/** What the page shows of a company: the rows that pass the filter bar
    (`applyFilters`), the company names that match the search box (the
    filter in `renderCompanyList`), and the count line above the table
    (`renderTableWithFilters`).

    `parseFloat` is a parameter `num`: the number a text starts with, or
    `None` where `parseFloat` gives `NaN`. Comparisons with `NaN` are false,
    so a `None` value or bound never rejects a row. */
module Views {
  import opened Options
  import opened Seqs
  import opened Strings
  import opened Records

  /** `parseFloat`, `None` standing for `NaN`. */
  type Num = string -> Option<real>

  /** The filter bar: the three difficulty boxes and the texts of the four
      bound inputs, as typed. */
  datatype FilterState = FilterState(
    easy: bool, medium: bool, hard: bool,
    freqMin: string, freqMax: string, acceptMin: string, acceptMax: string)

  /** A bound of `getFilterState`: none for a blank input, else the parsed
      trimmed text (`None` also where it parses to `NaN`). */
  function BoundOf(text: string, num: Num): (r: Option<real>)
    ensures (forall i :: 0 <= i < |text| ==> IsSpace(text[i])) ==> r.None?
    ensures r.Some? ==> Trim(text) != "" && num(Trim(text)) == r
    ensures Trim(text) != "" ==> r == num(Trim(text))
  {
    var t := Trim(text);
    if t == "" then None else num(t)
  }

  /** `row.Difficulty || row[headers[diffIdx]] || ''`: an absent or empty
      `Difficulty` falls back to `headers[diffIdx]`, which is `Difficulty`
      again when the header exists and `headers[-1]`, that is the key
      `undefined`, when it does not. */
  function DifficultyOf(row: Record, headers: seq<string>): (r: string)
    ensures "Difficulty" in row && row["Difficulty"] != "" ==> r == row["Difficulty"]
    ensures "Difficulty" in headers && ("Difficulty" !in row || row["Difficulty"] == "") ==> r == ""
    ensures r != "" ==> ("Difficulty" in row && r == row["Difficulty"]) || ("undefined" in row && r == row["undefined"])
    ensures "Difficulty" !in headers && ("Difficulty" !in row || row["Difficulty"] == "") && "undefined" in row ==>
      r == row["undefined"]
  {
    if "Difficulty" in row && row["Difficulty"] != "" then row["Difficulty"]
    else if "Difficulty" !in headers && "undefined" in row then row["undefined"]
    else ""
  }

  /** `parseFloat` of a field: the field is read by its name (the header
      fallback names the same key), and an absent field parses to `NaN`. */
  function NumberOf(row: Record, key: string, num: Num): Option<real> {
    if key in row then num(row[key]) else None
  }

  /** `v` is not rejected by the bounds: a `NaN` value or bound rejects nothing. */
  predicate WithinBounds(v: Option<real>, lo: Option<real>, hi: Option<real>) {
    v.None? || ((lo.None? || !(v.value < lo.value)) && (hi.None? || !(v.value > hi.value)))
  }

  /** `parseFloat(acceptVal) * 100`. */
  function Percent(v: Option<real>): Option<real> {
    if v.None? then None else Some(v.value * 100.0)
  }

  /** The difficulty checks: a lower-cased difficulty of `easy`, `medium` or
      `hard` needs its box checked; any other passes. */
  predicate DifficultyPasses(state: FilterState, diff: string) {
    && !(!state.easy && diff == "easy")
    && !(!state.medium && diff == "medium")
    && !(!state.hard && diff == "hard")
  }

  /** The callback of `data.filter` in `applyFilters`: a row is dropped
      exactly when one of its early `return false` fires. */
  predicate Keeps(state: FilterState, headers: seq<string>, num: Num, row: Record)
    ensures var diff := Lower(DifficultyOf(row, headers));
      var freq := NumberOf(row, "Frequency", num);
      var pct := Percent(NumberOf(row, "Acceptance Rate", num));
      var fMin, fMax := BoundOf(state.freqMin, num), BoundOf(state.freqMax, num);
      var aMin, aMax := BoundOf(state.acceptMin, num), BoundOf(state.acceptMax, num);
      !Keeps(state, headers, num, row) <==>
        || (!state.easy && diff == "easy")
        || (!state.medium && diff == "medium")
        || (!state.hard && diff == "hard")
        || (freq.Some? && fMin.Some? && freq.value < fMin.value)
        || (freq.Some? && fMax.Some? && freq.value > fMax.value)
        || (pct.Some? && aMin.Some? && pct.value < aMin.value)
        || (pct.Some? && aMax.Some? && pct.value > aMax.value)
  {
    && DifficultyPasses(state, Lower(DifficultyOf(row, headers)))
    && WithinBounds(NumberOf(row, "Frequency", num),
                    BoundOf(state.freqMin, num), BoundOf(state.freqMax, num))
    && WithinBounds(Percent(NumberOf(row, "Acceptance Rate", num)),
                    BoundOf(state.acceptMin, num), BoundOf(state.acceptMax, num))
  }

  /** `applyFilters(data, headers)`. */
  function ApplyFilters(data: seq<Record>, headers: seq<string>, state: FilterState, num: Num): (r: seq<Record>)
    ensures |r| <= |data|
  {
    Filter(data, row => Keeps(state, headers, num, row))
  }

  // ---------------------------------------------------------------------------
  // Properties of applyFilters

  /** Whether `applyFilters` keeps each row of `data`, position by position. */
  function KeepFlags(data: seq<Record>, headers: seq<string>, state: FilterState, num: Num): (r: seq<bool>)
    ensures |r| == |data|
  {
    seq(|data|, i requires 0 <= i < |data| => Keeps(state, headers, num, data[i]))
  }

  /** `applyFilters` keeps the positions whose row passes. */
  lemma {:induction false} ApplyFiltersSelect(data: seq<Record>, headers: seq<string>, state: FilterState, num: Num)
    ensures ApplyFilters(data, headers, state, num) == Select(data, KeepFlags(data, headers, state, num))
    decreases |data|
  {
    if |data| > 0 {
      ApplyFiltersSelect(data[1..], headers, state, num);
      assert KeepFlags(data, headers, state, num)[1..] == KeepFlags(data[1..], headers, state, num);
    }
  }

  /** The filtered rows are the rows that pass, in their order, each
      position of `data` kept or dropped on its own. */
  lemma ApplyFiltersMeaning(data: seq<Record>, headers: seq<string>, state: FilterState, num: Num)
    ensures ApplyFilters(data, headers, state, num) == Select(data, KeepFlags(data, headers, state, num))
    ensures IsSubsequence(ApplyFilters(data, headers, state, num), data)
    ensures forall row :: row in ApplyFilters(data, headers, state, num) <==>
      row in data && Keeps(state, headers, num, row)
  {
    var p := row => Keeps(state, headers, num, row);
    ApplyFiltersSelect(data, headers, state, num);
    FilterIsSubsequence(data, p);
    FilterMembers(data, p);
  }

  /** The filter bar as the page first shows it: every box checked, every
      bound blank. */
  predicate Unfiltered(state: FilterState) {
    && state.easy && state.medium && state.hard
    && Trim(state.freqMin) == "" && Trim(state.freqMax) == ""
    && Trim(state.acceptMin) == "" && Trim(state.acceptMax) == ""
  }

  /** With every box checked and no bounds, every row is kept. */
  lemma UnfilteredKeepsAll(data: seq<Record>, headers: seq<string>, state: FilterState, num: Num)
    requires Unfiltered(state)
    ensures ApplyFilters(data, headers, state, num) == data
  {
    var p := row => Keeps(state, headers, num, row);
    forall i | 0 <= i < |data| ensures p(data[i]) {
      assert BoundOf(state.freqMin, num).None? && BoundOf(state.freqMax, num).None?;
      assert BoundOf(state.acceptMin, num).None? && BoundOf(state.acceptMax, num).None?;
    }
    FilterKeepsAll(data, p);
  }

  /** The boxes only drop rows whose difficulty is `easy`, `medium` or `hard`
      (in any case): where no row has one of those, the boxes do not matter. */
  lemma OtherDifficultyNotDropped(data: seq<Record>, headers: seq<string>, state: FilterState, num: Num)
    requires forall i :: 0 <= i < |data| ==> Lower(DifficultyOf(data[i], headers)) !in ["easy", "medium", "hard"]
    ensures ApplyFilters(data, headers, state, num) ==
      ApplyFilters(data, headers, state.(easy := true, medium := true, hard := true), num)
  {
    var s' := state.(easy := true, medium := true, hard := true);
    FilterSame(data, row => Keeps(state, headers, num, row), row => Keeps(s', headers, num, row));
  }

  /** A row whose frequency is absent or does not parse is never rejected by
      the frequency bounds. */
  lemma UnparsableFrequencyNeverRejected(data: seq<Record>, headers: seq<string>, state: FilterState, num: Num)
    requires forall i :: 0 <= i < |data| ==> NumberOf(data[i], "Frequency", num).None?
    ensures ApplyFilters(data, headers, state, num) ==
      ApplyFilters(data, headers, state.(freqMin := "", freqMax := ""), num)
  {
    var s' := state.(freqMin := "", freqMax := "");
    var p := row => Keeps(state, headers, num, row);
    var q := row => Keeps(s', headers, num, row);
    forall i | 0 <= i < |data| ensures p(data[i]) == q(data[i]) {
      assert NumberOf(data[i], "Frequency", num).None?;
      assert BoundOf(s'.freqMin, num).None? && BoundOf(s'.freqMax, num).None?;
    }
    FilterSame(data, p, q);
  }

  /** A row whose acceptance rate is absent or does not parse is never
      rejected by the acceptance bounds. */
  lemma UnparsableAcceptanceNeverRejected(data: seq<Record>, headers: seq<string>, state: FilterState, num: Num)
    requires forall i :: 0 <= i < |data| ==> NumberOf(data[i], "Acceptance Rate", num).None?
    ensures ApplyFilters(data, headers, state, num) ==
      ApplyFilters(data, headers, state.(acceptMin := "", acceptMax := ""), num)
  {
    var s' := state.(acceptMin := "", acceptMax := "");
    var p := row => Keeps(state, headers, num, row);
    var q := row => Keeps(s', headers, num, row);
    forall i | 0 <= i < |data| ensures p(data[i]) == q(data[i]) {
      assert NumberOf(data[i], "Acceptance Rate", num).None?;
      assert BoundOf(s'.acceptMin, num).None? && BoundOf(s'.acceptMax, num).None?;
    }
    FilterSame(data, p, q);
  }

  /** A bound input whose text does not parse is ignored. */
  lemma UnparsableBoundIgnored(data: seq<Record>, headers: seq<string>, state: FilterState, num: Num)
    requires num(Trim(state.freqMin)).None?
    ensures ApplyFilters(data, headers, state, num) == ApplyFilters(data, headers, state.(freqMin := ""), num)
  {
    var s' := state.(freqMin := "");
    var p := row => Keeps(state, headers, num, row);
    var q := row => Keeps(s', headers, num, row);
    forall i | 0 <= i < |data| ensures p(data[i]) == q(data[i]) {
      assert BoundOf(state.freqMin, num).None? && BoundOf(s'.freqMin, num).None?;
    }
    FilterSame(data, p, q);
  }

  /** A lower bound `a` is at least as tight as `b`. */
  predicate TighterMin(a: Option<real>, b: Option<real>) {
    b.None? || (a.Some? && a.value >= b.value)
  }

  /** An upper bound `a` is at least as tight as `b`. */
  predicate TighterMax(a: Option<real>, b: Option<real>) {
    b.None? || (a.Some? && a.value <= b.value)
  }

  /** Filter bar `a` asks for at least as much as `b`: fewer boxes checked
      and tighter bounds. */
  predicate Narrower(a: FilterState, b: FilterState, num: Num) {
    && (a.easy ==> b.easy) && (a.medium ==> b.medium) && (a.hard ==> b.hard)
    && TighterMin(BoundOf(a.freqMin, num), BoundOf(b.freqMin, num))
    && TighterMax(BoundOf(a.freqMax, num), BoundOf(b.freqMax, num))
    && TighterMin(BoundOf(a.acceptMin, num), BoundOf(b.acceptMin, num))
    && TighterMax(BoundOf(a.acceptMax, num), BoundOf(b.acceptMax, num))
  }

  /** Tighter bounds admit fewer values. */
  lemma TighterBounds(v: Option<real>, lo: Option<real>, hi: Option<real>, lo': Option<real>, hi': Option<real>)
    requires TighterMin(lo, lo') && TighterMax(hi, hi')
    ensures WithinBounds(v, lo, hi) ==> WithinBounds(v, lo', hi')
  {
  }

  /** A row the narrower filter keeps, the wider one keeps too. */
  lemma NarrowerRow(headers: seq<string>, a: FilterState, b: FilterState, num: Num, row: Record)
    requires Narrower(a, b, num)
    ensures Keeps(a, headers, num, row) ==> Keeps(b, headers, num, row)
  {
    var diff := Lower(DifficultyOf(row, headers));
    assert DifficultyPasses(a, diff) ==> DifficultyPasses(b, diff);
    TighterBounds(NumberOf(row, "Frequency", num), BoundOf(a.freqMin, num), BoundOf(a.freqMax, num),
                  BoundOf(b.freqMin, num), BoundOf(b.freqMax, num));
    TighterBounds(Percent(NumberOf(row, "Acceptance Rate", num)), BoundOf(a.acceptMin, num), BoundOf(a.acceptMax, num),
                  BoundOf(b.acceptMin, num), BoundOf(b.acceptMax, num));
  }

  /** Unchecking a box or tightening a bound never brings a row back: the
      narrower filter keeps a subsequence of what the wider one keeps. */
  lemma NarrowerKeepsFewer(data: seq<Record>, headers: seq<string>, a: FilterState, b: FilterState, num: Num)
    requires Narrower(a, b, num)
    ensures IsSubsequence(ApplyFilters(data, headers, a, num), ApplyFilters(data, headers, b, num))
    ensures |ApplyFilters(data, headers, a, num)| <= |ApplyFilters(data, headers, b, num)|
  {
    var p := row => Keeps(a, headers, num, row);
    var q := row => Keeps(b, headers, num, row);
    forall i | 0 <= i < |data| ensures p(data[i]) ==> q(data[i]) {
      NarrowerRow(headers, a, b, num, data[i]);
    }
    FilterStronger(data, p, q);
  }

  // ---------------------------------------------------------------------------
  // The company search

  /** The names `renderCompanyList(filter)` lists: all of them for an empty
      filter, else those containing the filter, ignoring case. */
  function NameFilter(names: seq<string>, filter: string): (r: seq<string>)
    ensures |r| <= |names|
  {
    if filter == "" then names
    else Filter(names, n => Contains(Lower(n), Lower(filter)))
  }

  /** The listed names are a subsequence of all names: every name when the
      search is empty, else exactly those containing it, ignoring case. */
  lemma NameFilterMeaning(names: seq<string>, filter: string)
    ensures IsSubsequence(NameFilter(names, filter), names)
    ensures filter == "" ==> NameFilter(names, filter) == names
    ensures filter != "" ==> forall n :: n in NameFilter(names, filter) <==>
      n in names && Contains(Lower(n), Lower(filter))
  {
    if filter == "" {
      FilterKeepsAll(names, n => true);
      FilterIsSubsequence(names, n => true);
    } else {
      FilterIsSubsequence(names, n => Contains(Lower(n), Lower(filter)));
      FilterMembers(names, n => Contains(Lower(n), Lower(filter)));
    }
  }

  /** Lower-casing twice is lower-casing once. */
  lemma LowerIdempotent(s: string)
    ensures Lower(Lower(s)) == Lower(s)
  {
  }

  /** The search ignores the case of what is typed. */
  lemma NameFilterIgnoresCase(names: seq<string>, filter: string)
    ensures NameFilter(names, Lower(filter)) == NameFilter(names, filter)
  {
    LowerIdempotent(filter);
    if filter != "" {
      FilterSame(names, n => Contains(Lower(n), Lower(Lower(filter))), n => Contains(Lower(n), Lower(filter)));
    }
  }

  /** Typing a listed name in full keeps that name in the list. */
  lemma NameFindsItself(names: seq<string>, n: string)
    requires n in names
    ensures n in NameFilter(names, n)
  {
    NameFilterMeaning(names, n);
    assert OccursAt(Lower(n), Lower(n), 0);
  }

  // ---------------------------------------------------------------------------
  // The count line

  /** A decimal digit. */
  function Digit(d: nat): char
    requires d < 10
  {
    ('0' as int + d) as char
  }

  /** A string of decimal digits. */
  predicate IsDigits(s: string) {
    forall i :: 0 <= i < |s| ==> '0' <= s[i] <= '9'
  }

  /** The number a string of decimal digits denotes. */
  function DecimalValue(s: string): nat
    requires IsDigits(s)
    decreases |s|
  {
    if |s| == 0 then 0
    else 10 * DecimalValue(s[..|s| - 1]) + (s[|s| - 1] as int - '0' as int)
  }

  /** `String(n)` for a count: the decimal digits of `n`, without leading
      zeros. */
  function NatToString(n: nat): (r: string)
    ensures |r| > 0 && IsDigits(r)
    ensures DecimalValue(r) == n
    ensures r[0] == '0' <==> n == 0
    ensures |r| > 1 ==> r[0] != '0'
  {
    if n < 10 then [Digit(n)]
    else
      var init := NatToString(n / 10);
      var r := init + [Digit(n % 10)];
      assert r[..|r| - 1] == init;
      r
  }

  /** The line `renderTableWithFilters` shows above the table: it starts
      with the number of rows shown, and ends in `(All time)` exactly when
      none is filtered out. */
  function Summary(filtered: nat, total: nat): (r: string)
    ensures var n := NatToString(filtered); |n| < |r| && r[..|n|] == n && r[|n|] == ' '
    ensures (|r| >= 10 && r[|r| - 10..] == "(All time)") <==> filtered == total
  {
    if filtered == total then
      var r := NatToString(total) + " problems (All time)";
      assert r[|r| - 10..] == "(All time)";
      r
    else
      var r := NatToString(filtered) + " of " + NatToString(total) + " problems";
      assert r[|r| - 1] == 's';
      r
  }

  /** The line for a company's rows under a filter bar. */
  function SummaryOf(data: seq<Record>, headers: seq<string>, state: FilterState, num: Num): string {
    Summary(|ApplyFilters(data, headers, state, num)|, |data|)
  }

  /** The line gives the total and `(All time)` when every row passes the
      filters, and the kept count out of the total otherwise. */
  lemma SummaryAllTime(data: seq<Record>, headers: seq<string>, state: FilterState, num: Num)
    ensures (forall i :: 0 <= i < |data| ==> Keeps(state, headers, num, data[i])) ==>
      SummaryOf(data, headers, state, num) == NatToString(|data|) + " problems (All time)"
    ensures !(forall i :: 0 <= i < |data| ==> Keeps(state, headers, num, data[i])) ==>
      SummaryOf(data, headers, state, num) ==
        NatToString(|ApplyFilters(data, headers, state, num)|) + " of " + NatToString(|data|) + " problems"
  {
    FilterKeepsAll(data, row => Keeps(state, headers, num, row));
  }
}
