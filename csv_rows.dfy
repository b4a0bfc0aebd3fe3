/**
 * The `data` handler of the import: every parsed CSV record (header line
 * already skipped) has its cells trimmed; records with a blank title, type
 * or value are dropped, the others are kept and their category title is
 * collected.
 */
module CsvRows {
  import opened Text
  import opened Entities

  /** One record delivered by the CSV parser: its cells, as text. */
  type Row = seq<string>

  /** A kept record: its trimmed title, type, value and category cells. */
  datatype ParsedRow = ParsedRow(title: string, kind: string, value: string, category: string)

  /** Every cell trimmed. */
  function TrimCells(row: Row): Row
  {
    seq(|row|, i requires 0 <= i < |row| => Trim(row[i]))
  }

  /**
   * Cell `i` of a record as the array destructuring sees it. A missing cell
   * is `undefined` in the source; like "" it is falsy, so it is read as "".
   */
  function Cell(cells: Row, i: nat): string
  {
    if i < |cells| then cells[i] else ""
  }

  /**
   * What the handler does with one record. It is kept exactly when its
   * trimmed title, type and value are non-empty (a blank category does not
   * drop it), and then its fields are the trimmed cells 0 to 3.
   */
  function ParseRow(row: Row): (r: Option<ParsedRow>)
    ensures r.Some? <==> Trim(Cell(row, 0)) != "" && Trim(Cell(row, 1)) != "" && Trim(Cell(row, 2)) != ""
    ensures r.Some? ==> r.value == ParsedRow(Trim(Cell(row, 0)), Trim(Cell(row, 1)), Trim(Cell(row, 2)), Trim(Cell(row, 3)))
    ensures r.Some? ==>
      NoEdgeSpace(r.value.title) && NoEdgeSpace(r.value.kind) && NoEdgeSpace(r.value.value) && NoEdgeSpace(r.value.category)
  {
    var cells := TrimCells(row);
    var title := Cell(cells, 0);
    var kind := Cell(cells, 1);
    var value := Cell(cells, 2);
    var category := Cell(cells, 3);
    if title == "" || kind == "" || value == "" then None
    else Some(ParsedRow(title, kind, value, category))
  }

  /** What the handler makes of each record, in input order. */
  function Parsed(rows: seq<Row>): seq<Option<ParsedRow>>
  {
    seq(|rows|, i requires 0 <= i < |rows| => ParseRow(rows[i]))
  }

  /** The present entries of `parsed`, in order. */
  function Kept(parsed: seq<Option<ParsedRow>>): (r: seq<ParsedRow>)
    ensures |r| <= |parsed|
    ensures forall x :: x in r ==> Some(x) in parsed
  {
    if parsed == [] then []
    else
      var last := parsed[|parsed| - 1];
      Kept(parsed[..|parsed| - 1]) + (if last.Some? then [last.value] else [])
  }

  /** The kept records of `rows`, in input order. */
  function KeptRows(rows: seq<Row>): (r: seq<ParsedRow>)
    ensures |r| <= |rows|
    ensures forall x :: x in r ==> x.title != "" && x.kind != "" && x.value != ""
  {
    var parsed := Parsed(rows);
    forall x | x in Kept(parsed) ensures x.title != "" && x.kind != "" && x.value != "" {
      var i :| 0 <= i < |parsed| && parsed[i] == Some(x);
      assert ParseRow(rows[i]) == Some(x);
    }
    Kept(parsed)
  }

  /** The collected category titles: one per kept record, its category, in order. */
  function CategoryTitles(kept: seq<ParsedRow>): (ts: seq<string>)
    ensures |ts| == |kept|
    ensures forall i :: 0 <= i < |kept| ==> ts[i] == kept[i].category
  {
    if kept == [] then []
    else CategoryTitles(kept[..|kept| - 1]) + [kept[|kept| - 1].category]
  }

  /** The `data` handler run over every record, pushing onto the two lists. */
  method CollectRows(rows: seq<Row>) returns (kept: seq<ParsedRow>, titles: seq<string>)
    ensures kept == KeptRows(rows)
    ensures titles == CategoryTitles(kept)
  {
    kept, titles := [], [];
    for n := 0 to |rows|
      invariant kept == KeptRows(rows[..n])
      invariant titles == CategoryTitles(kept)
    {
      ghost var next := ParseRow(rows[n]);
      KeptRowsStep(rows, n);
      var cells := TrimCells(rows[n]);
      var title, kind, value, category := Cell(cells, 0), Cell(cells, 1), Cell(cells, 2), Cell(cells, 3);
      if title == "" || kind == "" || value == "" {
        continue;
      }
      assert next == Some(ParsedRow(title, kind, value, category));
      assert (kept + [next.value])[..|kept|] == kept;
      titles := titles + [category];
      kept := kept + [ParsedRow(title, kind, value, category)];
    }
    assert rows[..|rows|] == rows;
  }

  /** `Kept` distributes over concatenation. */
  lemma {:induction false} KeptAppend(a: seq<Option<ParsedRow>>, b: seq<Option<ParsedRow>>)
    ensures Kept(a + b) == Kept(a) + Kept(b)
  {
    if b == [] {
      assert a + b == a;
    } else {
      var b' := b[..|b| - 1];
      assert (a + b)[..|a + b| - 1] == a + b';
      KeptAppend(a, b');
    }
  }

  /** Every present entry is kept. */
  lemma {:induction false} KeptComplete(parsed: seq<Option<ParsedRow>>, i: nat)
    requires i < |parsed| && parsed[i].Some?
    ensures parsed[i].value in Kept(parsed)
  {
    var init := parsed[..|parsed| - 1];
    if i < |init| {
      assert init[i] == parsed[i];
      KeptComplete(init, i);
    }
  }

  /** The `k`-th kept entry is present at the returned position. */
  lemma {:induction false} KeptSound(parsed: seq<Option<ParsedRow>>, k: nat) returns (i: nat)
    requires k < |Kept(parsed)|
    ensures i < |parsed| && parsed[i] == Some(Kept(parsed)[k])
  {
    var init := parsed[..|parsed| - 1];
    if k < |Kept(init)| {
      i := KeptSound(init, k);
      assert init[i] == parsed[i];
    } else {
      i := |parsed| - 1;
    }
  }

  /** Handling one more record extends the kept records by what it parses to. */
  lemma KeptRowsStep(rows: seq<Row>, n: nat)
    requires n < |rows|
    ensures var next := ParseRow(rows[n]);
      KeptRows(rows[..n + 1]) == KeptRows(rows[..n]) + (if next.Some? then [next.value] else [])
  {
    var p := Parsed(rows[..n + 1]);
    assert p[..n] == Parsed(rows[..n]);
    assert p[n] == ParseRow(rows[n]);
  }

  /** Records are handled one by one: the kept records of a concatenation are those of each part. */
  lemma KeptRowsAppend(a: seq<Row>, b: seq<Row>)
    ensures KeptRows(a + b) == KeptRows(a) + KeptRows(b)
  {
    assert Parsed(a + b) == Parsed(a) + Parsed(b);
    KeptAppend(Parsed(a), Parsed(b));
  }

  /**
   * A record with a blank title, type or value contributes neither a kept
   * record nor a category title, wherever it stands.
   */
  lemma BlankRowIgnored(a: seq<Row>, row: Row, b: seq<Row>)
    requires Trim(Cell(row, 0)) == "" || Trim(Cell(row, 1)) == "" || Trim(Cell(row, 2)) == ""
    ensures KeptRows(a + [row] + b) == KeptRows(a + b)
    ensures CategoryTitles(KeptRows(a + [row] + b)) == CategoryTitles(KeptRows(a + b))
  {
    BlankRowKeepsNothing(row);
    var front := a + [row];
    KeptRowsAppend(a, [row]);
    assert KeptRows(front) == KeptRows(a);
    KeptRowsAppend(front, b);
    KeptRowsAppend(a, b);
  }

  /** A blank record on its own keeps nothing. */
  lemma BlankRowKeepsNothing(row: Row)
    requires Trim(Cell(row, 0)) == "" || Trim(Cell(row, 1)) == "" || Trim(Cell(row, 2)) == ""
    ensures KeptRows([row]) == []
  {
    var none: seq<Option<ParsedRow>> := [None];
    assert Parsed([row]) == none;
    assert none[..0] == [];
  }

  /** Every record that parses is kept. */
  lemma KeptRowsComplete(rows: seq<Row>, i: nat)
    requires i < |rows| && ParseRow(rows[i]).Some?
    ensures ParseRow(rows[i]).value in KeptRows(rows)
  {
    KeptComplete(Parsed(rows), i);
  }

  /** Every kept record comes from an input record: the `k`-th one from the returned index. */
  lemma KeptRowsSound(rows: seq<Row>, k: nat) returns (i: nat)
    requires k < |KeptRows(rows)|
    ensures i < |rows| && ParseRow(rows[i]) == Some(KeptRows(rows)[k])
  {
    i := KeptSound(Parsed(rows), k);
  }
}
