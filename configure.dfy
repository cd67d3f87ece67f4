/**
 * The configuration dialog: an editable list of rows (id, ICS address, colour) seeded from
 * the page's event sources, a month offset, and the query string that "Save & Reload"
 * navigates to.
 */
module Configure {
  import opened Wrappers
  import opened Seqs
  import opened Urls
  import opened Numbers
  import opened Registry

  /** One row of the sources table; `url` is the bare ICS address, not the fetch URL. */
  datatype Row = Row(id: string, url: string, color: string)

  /** The row that "add" appends. */
  const Blank: Row := Row("", "", "")

  /** The three editable columns. */
  datatype Field = IdField | UrlField | ColorField

  function FieldOf(r: Row, f: Field): string {
    match f
    case IdField => r.id
    case UrlField => r.url
    case ColorField => r.color
  }

  /** `row[prop] = newValue`. */
  function WithField(r: Row, f: Field, value: string): (r': Row)
    ensures FieldOf(r', f) == value
    ensures forall g | g != f :: FieldOf(r', g) == FieldOf(r, g)
  {
    match f
    case IdField => r.(id := value)
    case UrlField => r.(url := value)
    case ColorField => r.(color := value)
  }

  /** The row a source is shown as: its id, the `source` parameter of its fetch URL, its colour. */
  function SeedRow(s: EventSource): Row {
    Row(s.id, SourceOrNull(s.url), s.color)
  }

  function SeedRows(sources: seq<EventSource>): (rows: seq<Row>)
    ensures |rows| == |sources| && forall i | 0 <= i < |sources| :: rows[i] == SeedRow(sources[i])
  {
    seq(|sources|, i requires 0 <= i < |sources| => SeedRow(sources[i]))
  }

  /** The row after "add": unchanged when a blank row exists, else one blank row appended. */
  function WithBlankRow(rows: seq<Row>): (r: seq<Row>)
    ensures Blank in r
    ensures rows <= r && |r| <= |rows| + 1
    ensures Blank in rows <==> r == rows
  {
    if Blank in rows then rows else rows + [Blank]
  }

  /** Adding a blank row twice is adding it once. */
  lemma AddBlankIdempotent(rows: seq<Row>)
    ensures WithBlankRow(WithBlankRow(rows)) == WithBlankRow(rows)
    ensures |WithBlankRow(rows)| == |rows| + (if Blank in rows then 0 else 1)
  {
  }

  // ---------------------------------------------------------------------------------
  // The save URL

  /** A row is saved only when both its id and its ICS address are filled in. */
  predicate Complete(r: Row) {
    r.id != "" && r.url != ""
  }

  /** The `id`, `ics`, `color` triple of a row. */
  function Triple(r: Row): seq<Param> {
    [Param("id", r.id), Param("ics", r.url), Param("color", r.color)]
  }

  /** The pairs one row contributes: its triple, or nothing. */
  function RowParams(r: Row): seq<Param> {
    if Complete(r) then Triple(r) else []
  }

  /** The pairs all rows contribute, in row order. */
  function RowsParams(rows: seq<Row>): seq<Param> {
    if rows == [] then [] else RowsParams(rows[..|rows| - 1]) + RowParams(rows[|rows| - 1])
  }

  /** The query string of the save URL: `monthOffset` first, then the rows' pairs. */
  function SaveParams(monthOffset: ParsedInt, rows: seq<Row>): seq<Param> {
    [Param("monthOffset", NumberToString(monthOffset))] + RowsParams(rows)
  }

  /** The rows that are saved, in order. */
  function CompleteRows(rows: seq<Row>): (r: seq<Row>)
    ensures |r| <= |rows|
    ensures forall x :: x in r <==> x in rows && Complete(x)
  {
    if rows == [] then []
    else
      var last := rows[|rows| - 1];
      assert rows == rows[..|rows| - 1] + [last];
      CompleteRows(rows[..|rows| - 1]) + (if Complete(last) then [last] else [])
  }

  /** Filtering keeps the order of the rows: the kept rows of a concatenation are the kept rows of each part. */
  lemma {:induction false} CompleteRowsAppend(a: seq<Row>, b: seq<Row>)
    ensures CompleteRows(a + b) == CompleteRows(a) + CompleteRows(b)
  {
    if b != [] {
      assert (a + b)[..|a + b| - 1] == a + b[..|b| - 1];
      CompleteRowsAppend(a, b[..|b| - 1]);
    } else {
      assert a + b == a;
    }
  }

  /** The triples of a list of rows, all of them. */
  function Triples(rows: seq<Row>): (ps: seq<Param>)
    ensures |ps| == 3 * |rows|
  {
    if rows == [] then [] else Triples(rows[..|rows| - 1]) + Triple(rows[|rows| - 1])
  }

  /** The id, address and colour columns. */
  function RowIds(rows: seq<Row>): seq<string> {
    Project(rows, (r: Row) => r.id)
  }

  function RowUrls(rows: seq<Row>): seq<string> {
    Project(rows, (r: Row) => r.url)
  }

  function RowColors(rows: seq<Row>): seq<string> {
    Project(rows, (r: Row) => r.color)
  }

  /** The rows' pairs are exactly the triples of the complete rows, in row order. */
  lemma {:induction false} RowsParamsAreCompleteTriples(rows: seq<Row>)
    ensures RowsParams(rows) == Triples(CompleteRows(rows))
  {
    if rows != [] {
      var n := |rows| - 1;
      RowsParamsAreCompleteTriples(rows[..n]);
      var c := CompleteRows(rows[..n]);
      if Complete(rows[n]) {
        assert CompleteRows(rows) == c + [rows[n]];
        assert (c + [rows[n]])[..|c|] == c;
      } else {
        assert CompleteRows(rows) == c;
      }
    }
  }

  lemma GetAllTriple(r: Row, key: string)
    ensures GetAll(Triple(r), key) ==
            (if key == "id" then [r.id] else []) + (if key == "ics" then [r.url] else []) +
            (if key == "color" then [r.color] else [])
  {
    var t := Triple(r);
    assert GetAll(t[3..], key) == [];
    assert GetAll(t[2..], key) == (if key == "color" then [r.color] else []) + GetAll(t[3..], key);
    assert GetAll(t[1..], key) == (if key == "ics" then [r.url] else []) + GetAll(t[2..], key);
  }

  /** Reading the triples back key by key gives each column in row order. */
  lemma {:induction false} GetAllTriples(rows: seq<Row>)
    ensures GetAll(Triples(rows), "id") == RowIds(rows)
    ensures GetAll(Triples(rows), "ics") == RowUrls(rows)
    ensures GetAll(Triples(rows), "color") == RowColors(rows)
    ensures GetAll(Triples(rows), "monthOffset") == []
  {
    if rows != [] {
      var n := |rows| - 1;
      var r := rows[n];
      var before := Triples(rows[..n]);
      GetAllTriples(rows[..n]);
      assert Triples(rows) == before + Triple(r);
      assert GetAll(Triples(rows), "id") == RowIds(rows) by {
        GetAllTriple(r, "id");
        GetAllAppend(before, Triple(r), "id");
        assert RowIds(rows) == RowIds(rows[..n]) + [r.id];
      }
      assert GetAll(Triples(rows), "ics") == RowUrls(rows) by {
        GetAllTriple(r, "ics");
        GetAllAppend(before, Triple(r), "ics");
        assert RowUrls(rows) == RowUrls(rows[..n]) + [r.url];
      }
      assert GetAll(Triples(rows), "color") == RowColors(rows) by {
        GetAllTriple(r, "color");
        GetAllAppend(before, Triple(r), "color");
        assert RowColors(rows) == RowColors(rows[..n]) + [r.color];
      }
      assert GetAll(Triples(rows), "monthOffset") == [] by {
        GetAllTriple(r, "monthOffset");
        GetAllAppend(before, Triple(r), "monthOffset");
      }
    }
  }

  /**
   * The save query: `monthOffset` first and only once, then for the complete rows, in
   * order, their ids, ICS addresses and colours; nothing from an incomplete row.
   */
  lemma SaveParamsLayout(monthOffset: ParsedInt, rows: seq<Row>)
    ensures SaveParams(monthOffset, rows)[0] == Param("monthOffset", NumberToString(monthOffset))
    ensures GetAll(SaveParams(monthOffset, rows), "monthOffset") == [NumberToString(monthOffset)]
    ensures GetAll(SaveParams(monthOffset, rows), "id") == RowIds(CompleteRows(rows))
    ensures GetAll(SaveParams(monthOffset, rows), "ics") == RowUrls(CompleteRows(rows))
    ensures GetAll(SaveParams(monthOffset, rows), "color") == RowColors(CompleteRows(rows))
    ensures |SaveParams(monthOffset, rows)| == 1 + 3 * |CompleteRows(rows)|
  {
    var head := [Param("monthOffset", NumberToString(monthOffset))];
    RowsParamsAreCompleteTriples(rows);
    GetAllTriples(CompleteRows(rows));
    GetAllAppend(head, RowsParams(rows), "monthOffset");
    GetAllAppend(head, RowsParams(rows), "id");
    GetAllAppend(head, RowsParams(rows), "ics");
    GetAllAppend(head, RowsParams(rows), "color");
  }

  /** Every pair after `monthOffset` comes from a complete row. */
  lemma {:induction false} RowsParamsFromCompleteRows(rows: seq<Row>)
    ensures forall p | p in RowsParams(rows) :: exists r | r in rows :: Complete(r) && p in RowParams(r)
  {
    if rows != [] {
      var n := |rows| - 1;
      RowsParamsFromCompleteRows(rows[..n]);
      forall p | p in RowsParams(rows) ensures exists r | r in rows :: Complete(r) && p in RowParams(r) {
        if p in RowsParams(rows[..n]) {
          var r :| r in rows[..n] && Complete(r) && p in RowParams(r);
          assert r in rows;
        } else {
          assert p in RowParams(rows[n]);
        }
      }
    }
  }

  // ---------------------------------------------------------------------------------
  // The dialog's state

  class ConfigureDialog {
    var monthOffset: ParsedInt
    var rows: seq<Row>

    /**
     * Opening the dialog: the month offset is `parseInt` of the page's parameter (with no
     * NaN guard here), and one row per event source, in order.
     */
    constructor(pageQuery: seq<Param>, eventSources: seq<EventSource>)
      ensures monthOffset == ParseInt(Get(pageQuery, "monthOffset").GetOr("0"))
      ensures rows == SeedRows(eventSources)
    {
      monthOffset := ParseInt(Get(pageQuery, "monthOffset").GetOr("0"));
      var cloned: seq<Row> := [];
      for i := 0 to |eventSources|
        invariant |cloned| == i
        invariant forall j | 0 <= j < i :: cloned[j] == SeedRow(eventSources[j])
      {
        cloned := cloned + [SeedRow(eventSources[i])];
      }
      rows := cloned;
    }

    /** `onChangeMonthOffset`: text that parses to NaN is ignored. */
    method OnChangeMonthOffset(text: string)
      modifies this
      ensures rows == old(rows)
      ensures ParseInt(text).NaN? ==> monthOffset == old(monthOffset)
      ensures ParseInt(text).Int? ==> monthOffset == ParseInt(text)
    {
      var parsed := ParseInt(text);
      if parsed.Int? {
        monthOffset := parsed;
      }
    }

    /** `updateSource(ix, prop, newValue)`: one field of one row changes. */
    method UpdateSource(ix: nat, field: Field, value: string)
      requires ix < |rows|
      modifies this
      ensures monthOffset == old(monthOffset)
      ensures |rows| == |old(rows)|
      ensures forall j | 0 <= j < |rows| && j != ix :: rows[j] == old(rows)[j]
      ensures FieldOf(rows[ix], field) == value
      ensures forall g | g != field :: FieldOf(rows[ix], g) == FieldOf(old(rows)[ix], g)
    {
      rows := rows[ix := WithField(rows[ix], field, value)];
    }

    /** `removeSource(ix)`: `splice(ix, 1)`, which does nothing past the end. */
    method RemoveSource(ix: nat)
      modifies this
      ensures monthOffset == old(monthOffset)
      ensures ix < |old(rows)| ==> rows == old(rows)[..ix] + old(rows)[ix + 1..]
      ensures ix < |old(rows)| ==> |rows| == |old(rows)| - 1
      ensures ix >= |old(rows)| ==> rows == old(rows)
    {
      if ix < |rows| {
        rows := rows[..ix] + rows[ix + 1..];
      }
    }

    /** `addSource`: append a blank row unless one is already there. */
    method AddSource()
      modifies this
      ensures monthOffset == old(monthOffset)
      ensures rows == WithBlankRow(old(rows))
    {
      if Blank in rows {
        return;
      }
      rows := rows + [Blank];
    }

    /** The "Save & Reload" target: the page URL with its query replaced by the loop's pairs. */
    method SaveUrl(page: Url) returns (url: Url)
      ensures url.base == page.base
      ensures url.query == SaveParams(monthOffset, rows)
    {
      var query := [Param("monthOffset", NumberToString(monthOffset))];
      for i := 0 to |rows|
        invariant query == SaveParams(monthOffset, rows[..i])
      {
        var source := rows[i];
        assert rows[..i + 1][..i] == rows[..i];
        if source.id == "" || source.url == "" {
          continue;
        }
        query := query + [Param("id", source.id)];
        query := query + [Param("ics", source.url)];
        query := query + [Param("color", source.color)];
      }
      assert rows[..|rows|] == rows;
      url := Url(page.base, query);
    }
  }
}
