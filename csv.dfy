/** The dashboard's CSV reader (`parseCSV` and its inner `parseCSVLine` in
    build-dashboard.js): a quote-aware splitter of lines into trimmed fields,
    with no escaped quotes and no fields spanning lines. */
module Csv {
  import opened Seqs
  import opened Strings

  // ---------------------------------------------------------------------------
  // Specification of one line

  /** Just before position `k` the scanner is inside quotes: an odd number of
      double quotes precede it, each one flipping the flag. */
  predicate InQuotesAt(line: string, k: nat)
    requires k <= |line|
  {
    if k == 0 then false else InQuotesAt(line, k - 1) != (line[k - 1] == '"')
  }

  /** Position `k` holds a comma outside quotes, which ends a field. */
  predicate IsSeparator(line: string, k: nat)
    requires k < |line|
  {
    line[k] == ',' && !InQuotesAt(line, k)
  }

  /** The untrimmed fields of `line[..k]`: a separator starts a new field, a
      double quote is dropped, and every other character extends the last field. */
  function Pieces(line: string, k: nat): (r: seq<string>)
    requires k <= |line|
    ensures |r| >= 1
  {
    if k == 0 then [""]
    else
      var init := Pieces(line, k - 1);
      if IsSeparator(line, k - 1) then init + [""]
      else if line[k - 1] == '"' then init
      else init[..|init| - 1] + [init[|init| - 1] + [line[k - 1]]]
  }

  /** Every piece trimmed. */
  function TrimAll(pieces: seq<string>): (r: seq<string>)
    ensures |r| == |pieces|
  {
    seq(|pieces|, i requires 0 <= i < |pieces| => Trim(pieces[i]))
  }

  /** Pieces that neither start nor end with whitespace are left as they are. */
  lemma TrimAllUnchanged(pieces: seq<string>)
    requires forall i :: 0 <= i < |pieces| ==> pieces[i] == [] || (!IsSpace(pieces[i][0]) && !IsSpace(pieces[i][|pieces[i]| - 1]))
    ensures TrimAll(pieces) == pieces
  {
    forall i | 0 <= i < |pieces| ensures TrimAll(pieces)[i] == pieces[i] {
      TrimUnchanged(pieces[i]);
    }
  }

  /** The fields `parseCSVLine` returns for `line`: each piece trimmed as a
      whole, whitespace that came from inside quotes included. */
  function Fields(line: string): seq<string> {
    TrimAll(Pieces(line, |line|))
  }

  /** The example line `a,"b,c",d` as the scanner sees it, up to the comma
      inside the quotes. */
  lemma QuotedCommaPiecesOpen(line: string)
    requires line == "a,\"b,c\",d"
    ensures Pieces(line, 5) == ["a", "b,"]
  {
    assert "" + ['a'] == "a" && [""][..0] == [];
    assert !InQuotesAt(line, 1) && Pieces(line, 1) == ["a"];
    assert IsSeparator(line, 1) && Pieces(line, 2) == ["a", ""];
    assert InQuotesAt(line, 3) && Pieces(line, 3) == ["a", ""];
    assert "" + ['b'] == "b" && ["a", ""][..1] == ["a"];
    assert Pieces(line, 4) == ["a", "b"];
    assert "b" + [','] == "b," && ["a", "b"][..1] == ["a"];
    assert InQuotesAt(line, 4) && !IsSeparator(line, 4);
  }

  /** The example line as the scanner sees it, to its end. */
  lemma QuotedCommaPieces(line: string)
    requires line == "a,\"b,c\",d"
    ensures Pieces(line, |line|) == ["a", "b,c", "d"]
  {
    QuotedCommaPiecesOpen(line);
    assert |line| == 9;
    assert InQuotesAt(line, 5) && InQuotesAt(line, 6);
    assert "b," + ['c'] == "b,c" && ["a", "b,"][..1] == ["a"];
    assert Pieces(line, 6) == ["a", "b,c"];
    assert !InQuotesAt(line, 7) && Pieces(line, 7) == ["a", "b,c"];
    assert IsSeparator(line, 7) && Pieces(line, 8) == ["a", "b,c", ""];
    assert "" + ['d'] == "d" && ["a", "b,c", ""][..2] == ["a", "b,c"];
  }

  /** A quoted field keeps its comma: `a,"b,c",d` has the three fields
      `a`, `b,c` and `d`. */
  lemma QuotedCommaExample(line: string)
    requires line == "a,\"b,c\",d"
    ensures Fields(line) == ["a", "b,c", "d"]
  {
    QuotedCommaPieces(line);
    var pieces := Pieces(line, |line|);
    assert forall i :: 0 <= i < |pieces| ==> |pieces[i]| > 0 && !IsSpace(pieces[i][0]) && !IsSpace(pieces[i][|pieces[i]| - 1]);
    TrimAllUnchanged(pieces);
  }

  // ---------------------------------------------------------------------------
  // parseCSVLine

  /** Trimming one more piece appends its trimmed form. */
  lemma TrimAllSnoc(pieces: seq<string>, p: string)
    ensures TrimAll(pieces + [p]) == TrimAll(pieces) + [Trim(p)]
  {
  }

  /** One scanner step on the pieces: with the pieces of `line[..k]` split
      into the finished ones and the current one, the pieces of
      `line[..k + 1]` follow the three cases of the loop body. */
  lemma PiecesStep(line: string, k: nat, done: seq<string>, cur: string)
    requires k < |line| && Pieces(line, k) == done + [cur]
    ensures IsSeparator(line, k) ==> Pieces(line, k + 1) == (done + [cur]) + [""]
    ensures !IsSeparator(line, k) && line[k] == '"' ==> Pieces(line, k + 1) == done + [cur]
    ensures !IsSeparator(line, k) && line[k] != '"' ==> Pieces(line, k + 1) == done + [cur + [line[k]]]
  {
    var init := done + [cur];
    assert init[..|init| - 1] == done && init[|init| - 1] == cur;
  }

  /** `parseCSVLine`: scans `line` once, toggling the quote flag on every `"`,
      and ends a field at each comma met outside quotes. */
  method ParseLine(line: string) returns (out: seq<string>)
    ensures out == Fields(line)
  {
    out := [];
    var cur := "";
    var inQuotes := false;
    ghost var done: seq<string> := [];
    for k := 0 to |line|
      invariant inQuotes == InQuotesAt(line, k)
      invariant Pieces(line, k) == done + [cur]
      invariant out == TrimAll(done)
    {
      var c := line[k];
      PiecesStep(line, k, done, cur);
      if c == '"' {
        inQuotes := !inQuotes;
      } else if inQuotes {
        cur := cur + [c];
      } else if c == ',' {
        TrimAllSnoc(done, cur);
        out := out + [Trim(cur)];
        done := done + [cur];
        cur := "";
      } else {
        cur := cur + [c];
      }
    }
    TrimAllSnoc(done, cur);
    out := out + [Trim(cur)];
  }

  // ---------------------------------------------------------------------------
  // Properties of one line

  /** The number of separators before position `k`. */
  function SeparatorCount(line: string, k: nat): nat
    requires k <= |line|
  {
    if k == 0 then 0 else SeparatorCount(line, k - 1) + (if IsSeparator(line, k - 1) then 1 else 0)
  }

  /** The separator positions before `k`. */
  function SeparatorSet(line: string, k: nat): set<nat>
    requires k <= |line|
  {
    set p: nat | p < k && IsSeparator(line, p)
  }

  /** Counting the separators counts the set of their positions. */
  lemma {:induction false} SeparatorCountIsCardinality(line: string, k: nat)
    requires k <= |line|
    ensures SeparatorCount(line, k) == |SeparatorSet(line, k)|
  {
    if k > 0 {
      SeparatorCountIsCardinality(line, k - 1);
      if IsSeparator(line, k - 1) {
        assert SeparatorSet(line, k) == SeparatorSet(line, k - 1) + {k - 1};
      } else {
        assert SeparatorSet(line, k) == SeparatorSet(line, k - 1);
      }
    }
  }

  /** One piece per separator, plus one; and no piece holds a double quote. */
  lemma {:induction false} PiecesShape(line: string, k: nat)
    requires k <= |line|
    ensures |Pieces(line, k)| == SeparatorCount(line, k) + 1
    ensures forall i :: 0 <= i < |Pieces(line, k)| ==> '"' !in Pieces(line, k)[i]
  {
    if k > 0 {
      PiecesShape(line, k - 1);
    }
  }

  /** A line always has at least one field, one more than it has commas
      outside quotes, and no field holds a double quote. */
  lemma FieldCount(line: string)
    ensures |Fields(line)| == |SeparatorSet(line, |line|)| + 1
    ensures forall i :: 0 <= i < |Fields(line)| ==> '"' !in Fields(line)[i]
  {
    PiecesShape(line, |line|);
    SeparatorCountIsCardinality(line, |line|);
    var pieces := Pieces(line, |line|);
    forall i | 0 <= i < |pieces|
      ensures '"' !in Fields(line)[i]
    {
      TrimKeepsChars(pieces[i]);
    }
  }

  /** In a line without quotes the scanner is never inside quotes. */
  lemma {:induction false} NeverInQuotes(line: string, k: nat)
    requires '"' !in line && k <= |line|
    ensures !InQuotesAt(line, k)
  {
    if k > 0 {
      NeverInQuotes(line, k - 1);
    }
  }

  /** In a quote-free line, the pieces of the first `k` characters are those
      of splitting them on commas. */
  lemma {:induction false} QuoteFreePiecesAreSplit(line: string, k: nat)
    requires '"' !in line && k <= |line|
    ensures Pieces(line, k) == SplitOn(line[..k], ',')
  {
    if k > 0 {
      QuoteFreePiecesAreSplit(line, k - 1);
      NeverInQuotes(line, k - 1);
      assert line[..k][..k - 1] == line[..k - 1];
    }
  }

  /** Without quotes, `parseCSVLine` is `split(',')` with every piece trimmed. */
  lemma QuoteFreeLineIsSplit(line: string)
    requires '"' !in line
    ensures Fields(line) == TrimAll(SplitOn(line, ','))
  {
    QuoteFreePiecesAreSplit(line, |line|);
    assert line[..|line|] == line;
  }

  // ---------------------------------------------------------------------------
  // parseCSV

  /** `s` without one carriage return at its end. */
  function DropFinalCR(s: string): string {
    if |s| > 0 && s[|s| - 1] == '\r' then s[..|s| - 1] else s
  }

  /** `text.split(/\r?\n/)`: the pieces between line feeds, every piece that a
      line feed ends losing one carriage return right before it. */
  function SplitLines(text: string): (r: seq<string>)
    ensures |r| >= 1
    ensures forall i :: 0 <= i < |r| ==> '\n' !in r[i]
  {
    var pieces := SplitOn(text, '\n');
    seq(|pieces|, i requires 0 <= i < |pieces| =>
      if i < |pieces| - 1 then DropFinalCR(pieces[i]) else pieces[i])
  }

  /** The filter `line => line.trim()`: a line with a non-blank character. */
  predicate IsNonBlank(line: string) {
    Trim(line) != ""
  }

  /** The lines `parseCSV` keeps, in their order. */
  function Lines(text: string): seq<string> {
    Filter(SplitLines(text), IsNonBlank)
  }

  /** The result of `parseCSV`. */
  datatype Table = Table(headers: seq<string>, rows: seq<seq<string>>)

  /** The table the kept lines describe: the first gives the headers, every
      later one a row, in order. */
  function TableOf(lines: seq<string>): Table {
    if |lines| == 0 then Table([], [])
    else Table(Fields(lines[0]), seq(|lines| - 1, j requires 0 <= j < |lines| - 1 => Fields(lines[j + 1])))
  }

  /** The table `parseCSV` returns for `text`. */
  function CsvTable(text: string): Table {
    TableOf(Lines(text))
  }

  /** The loop of `parseCSV` over its kept lines: the first gives the headers,
      every later one a row. */
  method ParseLines(lines: seq<string>) returns (t: Table)
    ensures |lines| == 0 ==> t == Table([], [])
    ensures |lines| > 0 ==>
      && t.headers == Fields(lines[0])
      && |t.rows| == |lines| - 1
      && forall j :: 0 <= j < |t.rows| ==> t.rows[j] == Fields(lines[j + 1])
    ensures t == TableOf(lines)
  {
    if |lines| == 0 {
      return Table([], []);
    }
    var headers := ParseLine(lines[0]);
    var rows: seq<seq<string>> := [];
    for j := 1 to |lines|
      invariant |rows| == j - 1
      invariant forall i :: 0 <= i < |rows| ==> rows[i] == Fields(lines[i + 1])
    {
      var row := ParseLine(lines[j]);
      rows := rows + [row];
    }
    t := Table(headers, rows);
  }

  /** `parseCSV`: splits `text` into lines, drops the blank ones and parses the rest. */
  method ParseCsv(text: string) returns (t: Table)
    ensures var lines := Lines(text);
      && (|lines| == 0 ==> t == Table([], []))
      && (|lines| > 0 ==>
            && t.headers == Fields(lines[0])
            && |t.rows| == |lines| - 1
            && forall j :: 0 <= j < |t.rows| ==> t.rows[j] == Fields(lines[j + 1]))
    ensures t == CsvTable(text)
  {
    t := ParseLines(Lines(text));
  }

  // ---------------------------------------------------------------------------
  // Properties of line splitting

  /** Every character of a piece occurs in the joined string. */
  lemma {:induction false} InJoin(pieces: seq<string>, sep: string, i: nat, c: char)
    requires i < |pieces| && c in pieces[i]
    ensures c in Join(pieces, sep)
    decreases |pieces|
  {
    if |pieces| > 1 && i < |pieces| - 1 {
      InJoin(pieces[..|pieces| - 1], sep, i, c);
    }
  }

  /** For text without carriage returns, the lines joined with line feeds give
      back the text. */
  lemma LinesRoundTrip(text: string)
    requires '\r' !in text
    ensures Join(SplitLines(text), "\n") == text
  {
    var pieces := SplitOn(text, '\n');
    SplitJoin(text, '\n');
    forall i | 0 <= i < |pieces|
      ensures SplitLines(text)[i] == pieces[i]
    {
      if |pieces[i]| > 0 && pieces[i][|pieces[i]| - 1] == '\r' {
        InJoin(pieces, "\n", i, '\r');
      }
    }
    assert SplitLines(text) == pieces;
  }

  /** Every line feed of `text` comes right after a carriage return: the
      text uses `\r\n` line ends only. */
  predicate CrlfOnly(text: string) {
    forall i :: 0 <= i < |text| && text[i] == '\n' ==> i > 0 && text[i - 1] == '\r'
  }

  /** `s` ends in a carriage return. */
  predicate EndsInCR(s: string) {
    |s| > 0 && s[|s| - 1] == '\r'
  }

  /** In text with `\r\n` line ends, every piece between line feeds but the
      last ends in a carriage return. */
  lemma {:induction false} CrlfPiecesEndInCR(text: string)
    requires CrlfOnly(text)
    ensures var pieces := SplitOn(text, '\n');
      forall i :: 0 <= i < |pieces| - 1 ==> EndsInCR(pieces[i])
    decreases |text|
  {
    if |text| > 0 {
      var t, x := text[..|text| - 1], text[|text| - 1];
      assert text == t + [x];
      assert CrlfOnly(t) by {
        forall i | 0 <= i < |t| && t[i] == '\n' ensures i > 0 && t[i - 1] == '\r' {
          assert text[i] == t[i];
        }
      }
      CrlfPiecesEndInCR(t);
      var before := SplitOn(t, '\n');
      var after := SplitOn(text, '\n');
      SplitOnSnoc(t, '\n', x);
      if x == '\n' {
        var u := t[..|t| - 1];
        assert t == u + ['\r'];
        SplitOnSnoc(u, '\n', '\r');
        assert EndsInCR(before[|before| - 1]);
        forall i | 0 <= i < |after| - 1 ensures EndsInCR(after[i]) {
          assert after[i] == before[i];
        }
      } else {
        forall i | 0 <= i < |after| - 1 ensures EndsInCR(after[i]) {
          assert after[i] == before[i];
        }
      }
    }
  }

  /** Every piece without one carriage return at its end. */
  function DropAllCR(pieces: seq<string>): (r: seq<string>)
    ensures |r| == |pieces|
  {
    seq(|pieces|, i requires 0 <= i < |pieces| => DropFinalCR(pieces[i]))
  }

  /** Pieces that all end in a carriage return: dropping it from each and
      joining with `\r\n` gives their join with `\n`, less the final `\r`. */
  lemma {:induction false} JoinDroppedCR(pieces: seq<string>)
    requires |pieces| >= 1
    requires forall i :: 0 <= i < |pieces| ==> EndsInCR(pieces[i])
    ensures Join(DropAllCR(pieces), "\r\n") + "\r" == Join(pieces, "\n")
    decreases |pieces|
  {
    var dropped := DropAllCR(pieces);
    var n := |pieces|;
    var last := pieces[n - 1];
    assert EndsInCR(last);
    assert DropFinalCR(last) + "\r" == last;
    if n > 1 {
      var init := pieces[..n - 1];
      JoinDroppedCR(init);
      assert dropped[..n - 1] == DropAllCR(init);
      var j := Join(DropAllCR(init), "\r\n");
      calc {
        Join(dropped, "\r\n") + "\r";
        j + "\r\n" + DropFinalCR(last) + "\r";
        (j + "\r") + "\n" + (DropFinalCR(last) + "\r");
        Join(init, "\n") + "\n" + last;
      }
    }
  }

  /** The lines of `split(/\r?\n/)` are the pieces between line feeds, every
      one but the last without its final carriage return. */
  lemma SplitLinesShape(text: string)
    ensures var pieces := SplitOn(text, '\n');
      var lines := SplitLines(text);
      && |lines| == |pieces|
      && lines[|lines| - 1] == pieces[|pieces| - 1]
      && lines[..|lines| - 1] == DropAllCR(pieces[..|pieces| - 1])
  {
  }

  /** A `\r\n` line end is a carriage return followed by a line feed. */
  lemma CrlfSplitsAsCrThenLf(j: string, last: string)
    ensures j + "\r\n" + last == (j + "\r") + "\n" + last
  {
    assert "\r\n" == "\r" + "\n";
  }

  /** Lines made from pieces as `split(/\r?\n/)` makes them, where every
      piece but the last ends in a carriage return, join with `\r\n` to
      what the pieces join to with `\n`. */
  lemma JoinCrlfLines(lines: seq<string>, pieces: seq<string>)
    requires |pieces| >= 1 && |lines| == |pieces|
    requires lines[|lines| - 1] == pieces[|pieces| - 1]
    requires lines[..|lines| - 1] == DropAllCR(pieces[..|pieces| - 1])
    requires forall i :: 0 <= i < |pieces| - 1 ==> EndsInCR(pieces[i])
    ensures Join(lines, "\r\n") == Join(pieces, "\n")
  {
    var n := |pieces|;
    var last := pieces[n - 1];
    if n > 1 {
      var init := pieces[..n - 1];
      assert forall i :: 0 <= i < |init| ==> EndsInCR(init[i]);
      JoinDroppedCR(init);
      var j := Join(DropAllCR(init), "\r\n");
      assert Join(lines, "\r\n") == j + "\r\n" + last;
      CrlfSplitsAsCrThenLf(j, last);
      assert Join(pieces, "\n") == Join(init, "\n") + "\n" + last;
    }
  }

  /** For text with `\r\n` line ends, the lines joined with `\r\n` give back
      the text: `split(/\r?\n/)` removes each line end whole. */
  lemma CrlfLinesRoundTrip(text: string)
    requires CrlfOnly(text)
    ensures Join(SplitLines(text), "\r\n") == text
  {
    SplitJoin(text, '\n');
    SplitLinesShape(text);
    CrlfPiecesEndInCR(text);
    JoinCrlfLines(SplitLines(text), SplitOn(text, '\n'));
  }
}
