/**
 * The source registry of the calendar page: the `id` and `ics` query parameters of the
 * page URL become one event source per distinct id, each fetched from the aggregation
 * endpoint with the upstream ICS address as its only query parameter. Also here: the
 * normalisation of a response URL back to the source's key, and the month offset read
 * from the page URL.
 */
module Registry {
  import opened Wrappers
  import opened Seqs
  import opened Urls
  import opened Numbers

  /** The aggregation endpoint on the page's own host. */
  function ServerBase(host: string): string {
    "http://" + host + ":8000/parse"
  }

  /** JavaScript's string conversion of a possibly undefined string. */
  function JsString(v: Option<string>): string {
    match v
    case Some(s) => s
    case None => "undefined"
  }

  /** The URL a source is fetched from: the endpoint with `source=<ics>` as its only pair. */
  function FetchUrl(host: string, ics: Option<string>): (u: Url)
    ensures u.base == ServerBase(host) && |u.query| == 1
    ensures GetAll(u.query, "source") == [JsString(ics)]
  {
    Url(ServerBase(host), [Param("source", JsString(ics))])
  }

  /** `searchParams.get('source') as string`, written back as text: an absent value reads "null". */
  function SourceOrNull(u: Url): string {
    Get(u.query, "source").GetOr("null")
  }

  /** `normalizeResponseUrl`: drop every query pair except `source`. */
  function Normalize(u: Url): (r: Url)
    ensures r.base == u.base && |r.query| == 1
    ensures Get(r.query, "source") == Some(SourceOrNull(u))
    ensures forall i | 0 <= i < |r.query| :: r.query[i].key == "source"
  {
    Url(u.base, [Param("source", SourceOrNull(u))])
  }

  lemma NormalizeIdempotent(u: Url)
    ensures Normalize(Normalize(u)) == Normalize(u)
  {
  }

  /** Two URLs share a key exactly when they share base and `source` value. */
  lemma NormalizeEqualIff(a: Url, b: Url)
    ensures Normalize(a) == Normalize(b) <==> a.base == b.base && SourceOrNull(a) == SourceOrNull(b)
  {
  }

  /** Whatever pairs the calendar component appends to a fetch URL, normalising gives the fetch URL back. */
  lemma NormalizeRecoversFetchUrl(host: string, ics: Option<string>, extra: seq<Param>)
    ensures Normalize(Url(ServerBase(host), FetchUrl(host, ics).query + extra)) == FetchUrl(host, ics)
  {
  }

  /** Unwrapping the `source` parameter of a fetch URL gives back the ICS address. */
  lemma SourceOfFetchUrl(host: string, ics: Option<string>)
    ensures SourceOrNull(FetchUrl(host, ics)) == JsString(ics)
  {
  }

  // ---------------------------------------------------------------------------------
  // lodash `zipObject` followed by `Object.entries`

  /** One own property of the object built by `zipObject`: an id and its ICS address, if any. */
  datatype Entry = Entry(id: string, ics: Option<string>)

  function EntryIds(es: seq<Entry>): seq<string> {
    Project(es, (e: Entry) => e.id)
  }

  /** `values[i]`, undefined past the end. */
  function At(values: seq<string>, i: nat): Option<string> {
    if i < |values| then Some(values[i]) else None
  }

  /**
   * Property assignment on an object whose keys are distinct: an existing key keeps its
   * place and takes the new value, a new key goes last.
   */
  function Assign(es: seq<Entry>, id: string, ics: Option<string>): (r: seq<Entry>)
    requires Distinct(EntryIds(es))
    ensures Distinct(EntryIds(r))
    ensures forall x :: x in EntryIds(r) <==> x in EntryIds(es) || x == id
    ensures id in EntryIds(es) ==> |r| == |es|
    ensures id !in EntryIds(es) ==> r == es + [Entry(id, ics)]
    ensures forall i | 0 <= i < |es| :: r[i] == if es[i].id == id then Entry(id, ics) else es[i]
  {
    if id in EntryIds(es) then
      var k :| 0 <= k < |es| && es[k].id == id;
      var r := es[k := Entry(id, ics)];
      assert EntryIds(r) == EntryIds(es);
      r
    else
      var r := es + [Entry(id, ics)];
      assert EntryIds(r) == EntryIds(es) + [id];
      r
  }

  /**
   * `zipObject(ids, icss)`: assigns `ids[i] := icss[i]` for every index of `ids`, in order.
   * The object has one property per distinct id, and no other.
   */
  function ZipObject(ids: seq<string>, icss: seq<string>): (r: seq<Entry>)
    ensures Distinct(EntryIds(r))
    ensures forall id :: id in EntryIds(r) <==> id in ids
  {
    if ids == [] then []
    else
      var prefix := ids[..|ids| - 1];
      assert ids == prefix + [ids[|ids| - 1]];
      Assign(ZipObject(prefix, icss), ids[|ids| - 1], At(icss, |ids| - 1))
  }

  /** The index of the last occurrence of `id`: its value is the one that survives. */
  function LastIndex(ids: seq<string>, id: string): (k: nat)
    requires id in ids
    ensures k < |ids| && ids[k] == id && forall j | k < j < |ids| :: ids[j] != id
  {
    if ids[|ids| - 1] == id then |ids| - 1 else LastIndex(ids[..|ids| - 1], id)
  }

  /** The index of the first occurrence of `id`: it fixes the property's position. */
  function FirstIndex(ids: seq<string>, id: string): (k: nat)
    requires id in ids
    ensures k < |ids| && ids[k] == id && forall j | 0 <= j < k :: ids[j] != id
  {
    if ids[0] == id then 0 else 1 + FirstIndex(ids[1..], id)
  }

  /** Each id carries the ICS address at its LAST occurrence (undefined when `ics` is shorter). */
  lemma {:induction false} ZipObjectValues(ids: seq<string>, icss: seq<string>)
    ensures forall e | e in ZipObject(ids, icss) :: e.id in ids && e.ics == At(icss, LastIndex(ids, e.id))
  {
    if ids != [] {
      var n := |ids| - 1;
      var prefix := ids[..n];
      ZipObjectValues(prefix, icss);
      var es := ZipObject(prefix, icss);
      var r := ZipObject(ids, icss);
      assert r == Assign(es, ids[n], At(icss, n));
      forall e | e in r ensures e.id in ids && e.ics == At(icss, LastIndex(ids, e.id)) {
        var i :| 0 <= i < |r| && r[i] == e;
        assert EntryIds(r)[i] == e.id;
        if e.id != ids[n] {
          assert i < |es| && r[i] == es[i];
          assert e.id in prefix && LastIndex(ids, e.id) == LastIndex(prefix, e.id);
        }
      }
    }
  }

  /** An id in a prefix has its first occurrence there. */
  lemma FirstIndexPrefix(ids: seq<string>, n: nat, id: string)
    requires n <= |ids| && id in ids[..n]
    ensures FirstIndex(ids, id) == FirstIndex(ids[..n], id) < n
  {
  }

  /** Properties are listed in the order their ids first occur. */
  lemma {:induction false} ZipObjectOrder(ids: seq<string>, icss: seq<string>)
    ensures forall i, j | 0 <= i < j < |ZipObject(ids, icss)| ::
              ZipObject(ids, icss)[i].id in ids && ZipObject(ids, icss)[j].id in ids &&
              FirstIndex(ids, ZipObject(ids, icss)[i].id) < FirstIndex(ids, ZipObject(ids, icss)[j].id)
  {
    if ids != [] {
      var n := |ids| - 1;
      var prefix := ids[..n];
      ZipObjectOrder(prefix, icss);
      var es := ZipObject(prefix, icss);
      var id := ids[n];
      var r := ZipObject(ids, icss);
      assert r == Assign(es, id, At(icss, n));
      forall i, j | 0 <= i < j < |r|
        ensures r[i].id in ids && r[j].id in ids && FirstIndex(ids, r[i].id) < FirstIndex(ids, r[j].id)
      {
        assert EntryIds(r)[i] == r[i].id && EntryIds(r)[j] == r[j].id;
        assert i < |es| && r[i].id == es[i].id;
        assert EntryIds(es)[i] == es[i].id;
        FirstIndexPrefix(ids, n, r[i].id);
        if j < |es| {
          assert r[j].id == es[j].id;
          assert EntryIds(es)[j] == es[j].id;
          FirstIndexPrefix(ids, n, r[j].id);
        } else {
          assert id !in EntryIds(es) && r[j].id == id;
          assert id !in prefix;
        }
      }
    }
  }

  /** With distinct ids the object is the plain positional zip, padded with undefined. */
  lemma {:induction false} ZipObjectOfDistinct(ids: seq<string>, icss: seq<string>)
    requires Distinct(ids)
    ensures |ZipObject(ids, icss)| == |ids|
    ensures forall i | 0 <= i < |ids| :: ZipObject(ids, icss)[i] == Entry(ids[i], At(icss, i))
  {
    if ids != [] {
      var prefix := ids[..|ids| - 1];
      ZipObjectOfDistinct(prefix, icss);
      assert ids[|ids| - 1] !in prefix;
    }
  }

  // ---------------------------------------------------------------------------------
  // Event sources

  /** What the calendar component is given per source; `color` comes from the id's hash. */
  datatype EventSource = EventSource(id: string, url: Url, color: string)

  /** The sources built from the registry's entries, one per entry, in order. */
  function SourcesOf(host: string, es: seq<Entry>, colorFor: string -> string): (r: seq<EventSource>)
    ensures |r| == |es|
    ensures forall i | 0 <= i < |es| ::
              r[i].id == es[i].id && r[i].color == colorFor(es[i].id) && r[i].url == FetchUrl(host, es[i].ics)
  {
    seq(|es|, i requires 0 <= i < |es| => EventSource(es[i].id, FetchUrl(host, es[i].ics), colorFor(es[i].id)))
  }

  /** The ids of a list of sources. */
  function SourceIds(sources: seq<EventSource>): seq<string> {
    Project(sources, (s: EventSource) => s.id)
  }

  /**
   * The `eventSources` builder: zips the page's `id` and `ics` parameters and pushes one
   * source per resulting property.
   */
  method BuildEventSources(host: string, ids: seq<string>, icss: seq<string>, colorFor: string -> string)
    returns (sources: seq<EventSource>)
    ensures sources == SourcesOf(host, ZipObject(ids, icss), colorFor)
    ensures Distinct(SourceIds(sources))
    ensures forall id :: id in SourceIds(sources) <==> id in ids
    ensures forall i | 0 <= i < |sources| ::
              sources[i].url.base == ServerBase(host) && |sources[i].url.query| == 1 &&
              sources[i].url.query[0].key == "source"
  {
    var entries := ZipObject(ids, icss);
    sources := [];
    for k := 0 to |entries|
      invariant |sources| == k
      invariant forall i | 0 <= i < k ::
                  sources[i] == EventSource(entries[i].id, FetchUrl(host, entries[i].ics), colorFor(entries[i].id))
    {
      var url := FetchUrl(host, entries[k].ics);
      sources := sources + [EventSource(entries[k].id, url, colorFor(entries[k].id))];
    }
    assert SourceIds(sources) == EntryIds(entries);
  }

  // ---------------------------------------------------------------------------------
  // Month offset

  /** The page's month offset: `parseInt` of the parameter, "0" when absent, 0 when NaN. */
  function StartMonthOffset(query: seq<Param>): (offset: int)
    ensures Get(query, "monthOffset").None? ==> offset == 0
    ensures ParseInt(Get(query, "monthOffset").GetOr("0")).NaN? ==> offset == 0
    ensures ParseInt(Get(query, "monthOffset").GetOr("0")).Int? ==>
              offset == ParseInt(Get(query, "monthOffset").GetOr("0")).n
  {
    assert ParseInt("0") == Int(0) by { ParseDigits("0"); }
    match ParseInt(Get(query, "monthOffset").GetOr("0"))
    case NaN => 0
    case Int(n) => n
  }
}
