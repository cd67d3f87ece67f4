/**
 * How the pieces meet across a "Save & Reload": the dialog's save query becomes the next
 * page URL, whose parameters the registry and the month-offset reader consume, and whose
 * sources seed the dialog again. Also: a response for a source always finds that source's
 * entry in the error map.
 */
module RoundTrip {
  import opened Wrappers
  import opened Seqs
  import opened Urls
  import opened Numbers
  import opened Registry
  import opened ErrorTracker
  import opened Configure

  lemma SavedMonthOffsetIsFirst(monthOffset: ParsedInt, rows: seq<Row>)
    ensures Get(SaveParams(monthOffset, rows), "monthOffset") == Some(NumberToString(monthOffset))
  {
  }

  /**
   * The page reads back the saved month offset (a NaN one as 0), and the dialog, opened
   * again, shows the very value it saved.
   */
  lemma MonthOffsetRoundTrip(monthOffset: ParsedInt, rows: seq<Row>)
    requires monthOffset.NaN? || -ExponentThreshold < monthOffset.n < ExponentThreshold
    ensures StartMonthOffset(SaveParams(monthOffset, rows)) == (if monthOffset.NaN? then 0 else monthOffset.n)
    ensures ParseInt(Get(SaveParams(monthOffset, rows), "monthOffset").GetOr("0")) == monthOffset
  {
    SavedMonthOffsetIsFirst(monthOffset, rows);
    NumberRoundTrip(monthOffset);
  }

  /**
   * After a reload from the save query, the dialog's rows are the complete rows, in
   * order, with their ids and ICS addresses; the colour is the id's hash colour again,
   * because the page does not read the `color` parameter. Holds when the saved ids are
   * distinct (a repeated id keeps only its last address).
   */
  lemma {:induction false} SaveReloadRows(host: string, monthOffset: ParsedInt, rows: seq<Row>, colorFor: string -> string)
    requires Distinct(RowIds(CompleteRows(rows)))
    ensures var query := SaveParams(monthOffset, rows);
            var complete := CompleteRows(rows);
            var reloaded := SeedRows(SourcesOf(host, ZipObject(GetAll(query, "id"), GetAll(query, "ics")), colorFor));
            |reloaded| == |complete| &&
            forall i | 0 <= i < |complete| ::
              reloaded[i] == Row(complete[i].id, complete[i].url, colorFor(complete[i].id))
  {
    var query := SaveParams(monthOffset, rows);
    var complete := CompleteRows(rows);
    SaveParamsLayout(monthOffset, rows);
    var ids := GetAll(query, "id");
    var icss := GetAll(query, "ics");
    ZipObjectOfDistinct(ids, icss);
    var entries := ZipObject(ids, icss);
    var sources := SourcesOf(host, entries, colorFor);
    forall i | 0 <= i < |complete|
      ensures SeedRows(sources)[i] == Row(complete[i].id, complete[i].url, colorFor(complete[i].id))
    {
      assert entries[i] == Entry(complete[i].id, Some(complete[i].url));
      SourceOfFetchUrl(host, Some(complete[i].url));
    }
  }

  lemma {:induction false} CompleteRowsOfComplete(rows: seq<Row>)
    requires forall i | 0 <= i < |rows| :: Complete(rows[i])
    ensures CompleteRows(rows) == rows
  {
    if rows != [] {
      CompleteRowsOfComplete(rows[..|rows| - 1]);
      assert rows == rows[..|rows| - 1] + [rows[|rows| - 1]];
    }
  }

  /**
   * Opening the dialog and saving without edits writes back the page's own `id` and `ics`
   * lists, when the ids are distinct and every id and address is filled in.
   */
  lemma UneditedSaveKeepsSources(host: string, ids: seq<string>, icss: seq<string>,
                                 colorFor: string -> string, monthOffset: ParsedInt)
    requires Distinct(ids) && |icss| == |ids|
    requires forall i | 0 <= i < |ids| :: ids[i] != "" && icss[i] != ""
    ensures var rows := SeedRows(SourcesOf(host, ZipObject(ids, icss), colorFor));
            GetAll(SaveParams(monthOffset, rows), "id") == ids &&
            GetAll(SaveParams(monthOffset, rows), "ics") == icss
  {
    ZipObjectOfDistinct(ids, icss);
    var rows := SeedRows(SourcesOf(host, ZipObject(ids, icss), colorFor));
    forall i | 0 <= i < |rows| ensures rows[i].id == ids[i] && rows[i].url == icss[i] {
      SourceOfFetchUrl(host, Some(icss[i]));
    }
    CompleteRowsOfComplete(rows);
    SaveParamsLayout(monthOffset, rows);
  }

  /**
   * A response for a source's fetch, whatever range parameters the calendar component
   * appended, normalises to a key the fresh error map holds, and the error handler finds
   * a source, so its message is labelled with an id rather than "Unknown Source".
   */
  lemma ResponseFindsItsEntry(host: string, ids: seq<string>, icss: seq<string>, colorFor: string -> string,
                              i: nat, extra: seq<Param>)
    requires i < |ZipObject(ids, icss)|
    ensures var sources := SourcesOf(host, ZipObject(ids, icss), colorFor);
            var key := Normalize(Url(sources[i].url.base, sources[i].url.query + extra));
            key == sources[i].url && key in SourceUrls(sources) && FindId(sources, key).Some?
  {
  }
}
