/**
 * The per-source error tracker of the calendar page: a map from normalised fetch URL to
 * the last error message (or none), updated in place by the failure and success handlers,
 * counted to choose the status banner, and filtered into the error list.
 */
module ErrorTracker {
  import opened Wrappers
  import opened Seqs
  import opened Urls
  import opened Registry

  /** The fetch URLs of the sources, in order. */
  function SourceUrls(sources: seq<EventSource>): seq<Url> {
    Project(sources, (s: EventSource) => s.url)
  }

  /** `getEventSources().find(source => source.url === url)?.id`: the id of the first source with that URL. */
  function FindId(sources: seq<EventSource>, url: Url): (r: Option<string>)
    ensures r.None? <==> forall i | 0 <= i < |sources| :: sources[i].url != url
    ensures r.Some? ==> exists i | 0 <= i < |sources| ::
                          sources[i].url == url && sources[i].id == r.value &&
                          forall j | 0 <= j < i :: sources[j].url != url
  {
    if sources == [] then None
    else if sources[0].url == url then Some(sources[0].id)
    else
      var r := FindId(sources[1..], url);
      assert r.Some? ==> exists i | 1 <= i < |sources| ::
                           sources[i].url == url && sources[i].id == r.value &&
                           forall j | 0 <= j < i :: sources[j].url != url by {
        if r.Some? {
          var i :| 0 <= i < |sources[1..]| && sources[1..][i].url == url && sources[1..][i].id == r.value &&
                   forall j | 0 <= j < i :: sources[1..][j].url != url;
          assert sources[i + 1] == sources[1..][i];
          forall j | 0 <= j < i + 1 ensures sources[j].url != url {
            if j > 0 { assert sources[j] == sources[1..][j - 1]; }
          }
        }
      }
      r
  }

  /** The text recorded on failure: "<id or 'Unknown Source'>: <message>". */
  function FailureMessage(calendarId: Option<string>, message: string): string {
    calendarId.GetOr("Unknown Source") + ": " + message
  }

  /** The map's values in iteration (insertion) order. */
  function ValuesOf(order: seq<Url>, m: map<Url, Option<string>>): (vs: seq<Option<string>>)
    requires forall i | 0 <= i < |order| :: order[i] in m
    ensures |vs| == |order| && forall i | 0 <= i < |order| :: vs[i] == m[order[i]]
  {
    seq(|order|, i requires 0 <= i < |order| && order[i] in m => m[order[i]])
  }

  /** The non-null messages, in order: the `ErrorList` filter and what the counting loop counts. */
  function NonNull(vs: seq<Option<string>>): (r: seq<string>)
    ensures |r| <= |vs|
  {
    if vs == [] then []
    else
      var last := vs[|vs| - 1];
      assert vs == vs[..|vs| - 1] + [last];
      NonNull(vs[..|vs| - 1]) + (if last.Some? then [last.value] else [])
  }

  /** The keys whose entry holds a message. */
  function NonNullKeys(m: map<Url, Option<string>>): set<Url> {
    set k | k in m && m[k].Some?
  }

  /** The non-null messages are exactly the messages present among the values. */
  lemma {:induction false} NonNullMembers(vs: seq<Option<string>>)
    ensures forall s :: s in NonNull(vs) <==> Some(s) in vs
  {
    if vs != [] {
      var n := |vs| - 1;
      NonNullMembers(vs[..n]);
      assert vs == vs[..n] + [vs[n]];
    }
  }

  /** The keys listed in `order` whose entry holds a message. */
  function KeysWithMessage(order: seq<Url>, m: map<Url, Option<string>>): set<Url>
    requires forall i | 0 <= i < |order| :: order[i] in m
  {
    set i | 0 <= i < |order| && m[order[i]].Some? :: order[i]
  }

  lemma KeysWithMessageSnoc(prefix: seq<Url>, key: Url, m: map<Url, Option<string>>)
    requires forall i | 0 <= i < |prefix| :: prefix[i] in m
    requires key in m
    ensures KeysWithMessage(prefix + [key], m) ==
            KeysWithMessage(prefix, m) + (if m[key].Some? then {key} else {})
  {
    var order := prefix + [key];
    forall k | k in KeysWithMessage(order, m)
      ensures k in KeysWithMessage(prefix, m) + (if m[key].Some? then {key} else {})
    {
      var i :| 0 <= i < |order| && m[order[i]].Some? && order[i] == k;
      if i < |prefix| { assert order[i] == prefix[i]; }
    }
    forall k | k in KeysWithMessage(prefix, m) ensures k in KeysWithMessage(order, m) {
      var i :| 0 <= i < |prefix| && m[prefix[i]].Some? && prefix[i] == k;
      assert order[i] == prefix[i];
    }
    if m[key].Some? {
      assert order[|prefix|] == key;
    }
  }

  /** Counting the non-null values in insertion order counts the keys that hold a message. */
  lemma {:induction false} NonNullCountIsKeyCount(order: seq<Url>, m: map<Url, Option<string>>)
    requires Distinct(order)
    requires forall i | 0 <= i < |order| :: order[i] in m
    ensures |NonNull(ValuesOf(order, m))| == |KeysWithMessage(order, m)|
  {
    if order != [] {
      var n := |order| - 1;
      var prefix := order[..n];
      NonNullCountIsKeyCount(prefix, m);
      var key := order[n];
      var vs := ValuesOf(order, m);
      assert vs[..n] == ValuesOf(prefix, m);
      assert NonNull(vs) == NonNull(vs[..n]) + (if m[key].Some? then [m[key].value] else []);
      assert order == prefix + [key];
      KeysWithMessageSnoc(prefix, key, m);
      assert key !in KeysWithMessage(prefix, m);
    }
  }

  /** A map that holds no message has nothing to list. */
  lemma {:induction false} AllNullNoMessages(order: seq<Url>, m: map<Url, Option<string>>)
    requires forall i | 0 <= i < |order| :: order[i] in m
    requires forall k | k in m :: m[k] == None
    ensures NonNull(ValuesOf(order, m)) == []
  {
    if order != [] {
      AllNullNoMessages(order[..|order| - 1], m);
      assert ValuesOf(order, m)[..|order| - 1] == ValuesOf(order[..|order| - 1], m);
    }
  }

  /** A failure adds one message unless that key already held one. */
  lemma FailureCount(m: map<Url, Option<string>>, key: Url, text: string)
    ensures NonNullKeys(m[key := Some(text)]) == NonNullKeys(m) + {key}
    ensures |NonNullKeys(m[key := Some(text)])| == |NonNullKeys(m)| + (if key in NonNullKeys(m) then 0 else 1)
  {
  }

  /** A success removes the key's message, if it held one. */
  lemma SuccessCount(m: map<Url, Option<string>>, key: Url)
    ensures NonNullKeys(m[key := None]) == NonNullKeys(m) - {key}
    ensures |NonNullKeys(m[key := None])| == |NonNullKeys(m)| - (if key in NonNullKeys(m) then 1 else 0)
  {
  }

  /** The `errorMessages` map: insertion order of its keys, and its contents. */
  class SourceErrors {
    var order: seq<Url>
    var messages: map<Url, Option<string>>

    ghost predicate Valid()
      reads this
    {
      Distinct(order) && forall k :: k in messages <==> k in order
    }

    /** `new Map(eventSources.map(source => [source.url, null]))`. */
    constructor(sources: seq<EventSource>)
      ensures Valid()
      ensures order == Dedup(SourceUrls(sources))
      ensures forall k :: k in messages <==> k in SourceUrls(sources)
      ensures forall k | k in messages :: messages[k] == None
    {
      var urls := SourceUrls(sources);
      var keys: seq<Url> := [];
      var m: map<Url, Option<string>> := map[];
      for i := 0 to |urls|
        invariant keys == Dedup(urls[..i])
        invariant forall k :: k in m <==> k in keys
        invariant forall k | k in m :: m[k] == None
      {
        assert urls[..i + 1][..i] == urls[..i];
        if urls[i] !in m {
          keys := keys + [urls[i]];
        }
        m := m[urls[i] := None];
      }
      assert urls[..|urls|] == urls;
      order := keys;
      messages := m;
    }

    /** `Map.prototype.set`: an existing key keeps its place, a new key goes last. */
    method Set(key: Url, value: Option<string>)
      requires Valid()
      modifies this
      ensures Valid()
      ensures messages == old(messages)[key := value]
      ensures order == if key in old(messages) then old(order) else old(order) + [key]
    {
      if key !in messages {
        order := order + [key];
      }
      messages := messages[key := value];
    }

    /** `errorHandler`: record the failure under the normalised response URL. */
    method OnFailure(sources: seq<EventSource>, responseUrl: Url, message: string)
      requires Valid()
      modifies this
      ensures Valid()
      ensures messages == old(messages)[Normalize(responseUrl) :=
                Some(FailureMessage(FindId(sources, Normalize(responseUrl)), message))]
      ensures order == if Normalize(responseUrl) in old(messages) then old(order)
                       else old(order) + [Normalize(responseUrl)]
    {
      var key := Normalize(responseUrl);
      var calendarId := FindId(sources, key);
      Set(key, Some(FailureMessage(calendarId, message)));
    }

    /** `successHandler`: clear the entry of the normalised response URL; no response, no change. */
    method OnSuccess(response: Option<Url>)
      requires Valid()
      modifies this
      ensures Valid()
      ensures response.None? ==> messages == old(messages) && order == old(order)
      ensures response.Some? ==> messages == old(messages)[Normalize(response.value) := None]
      ensures response.Some? ==>
                order == if Normalize(response.value) in old(messages) then old(order)
                         else old(order) + [Normalize(response.value)]
    {
      if response.Some? {
        var key := Normalize(response.value);
        if key !in messages || messages[key] != None {
          Set(key, None);
        }
      }
    }

    /** `errorMessageCount`: the loop over the map's values counting those that are not null. */
    method Count() returns (count: nat)
      requires Valid()
      ensures count == |NonNull(ValuesOf(order, messages))|
      ensures count == |NonNullKeys(messages)|
    {
      var vs := ValuesOf(order, messages);
      count := 0;
      var i := 0;
      while i < |order|
        invariant 0 <= i <= |order|
        invariant count == |NonNull(vs[..i])|
      {
        assert vs[..i + 1] == vs[..i] + [vs[i]];
        if messages[order[i]] != None {
          count := count + 1;
        }
        i := i + 1;
      }
      assert vs[..i] == vs;
      NonNullCountIsKeyCount(order, messages);
      assert KeysWithMessage(order, messages) == NonNullKeys(messages) by {
        forall k | k in NonNullKeys(messages) ensures k in KeysWithMessage(order, messages) {
          var i :| 0 <= i < |order| && order[i] == k;
        }
      }
    }
  }

  // ---------------------------------------------------------------------------------
  // What is shown

  datatype Status = Loading | UpToDate | Errors

  /** The three banners with the guards the page puts on each. */
  function ShownBanners(count: nat, loading: bool): set<Status> {
    (if count == 0 && loading then {Loading} else {}) +
    (if count == 0 && !loading then {UpToDate} else {}) +
    (if count > 0 then {Errors} else {})
  }

  /** The one banner shown: errors win over loading, loading over "Up to date". */
  function StatusBanner(count: nat, loading: bool): (s: Status)
    ensures ShownBanners(count, loading) == {s}
    ensures s == Errors <==> count > 0
    ensures s == Loading <==> count == 0 && loading
  {
    if count > 0 then Errors else if loading then Loading else UpToDate
  }

  /** `ErrorList`: nothing, one message inline, or a bulleted list of several. */
  datatype ErrorListView = NoMessages | Inline(message: string) | Bulleted(messages: seq<string>)

  function ErrorList(values: seq<Option<string>>): (v: ErrorListView)
    ensures v.NoMessages? <==> forall i | 0 <= i < |values| :: values[i].None?
    ensures v.Inline? ==> NonNull(values) == [v.message]
    ensures v.Bulleted? ==> v.messages == NonNull(values) && |v.messages| >= 2
  {
    var messages := NonNull(values);
    NonNullMembers(values);
    if |messages| == 0 then
      NoMessages
    else
      assert Some(messages[0]) in values;
      if |messages| == 1 then Inline(messages[0])
    else Bulleted(messages)
  }

  /** On a freshly built map the page shows "Loading..." or "Up to date", never an error. */
  method InitialStatus(sources: seq<EventSource>, loading: bool) returns (s: Status)
    ensures s == (if loading then Loading else UpToDate)
  {
    var errors := new SourceErrors(sources);
    var count := errors.Count();
    AllNullNoMessages(errors.order, errors.messages);
    s := StatusBanner(count, loading);
  }

  /** A source that fails and then succeeds has no error recorded. */
  method FailureThenSuccess(sources: seq<EventSource>, url: Url, message: string)
    returns (entry: Option<string>, count: nat)
    ensures entry == None
    ensures count == 0
  {
    var errors := new SourceErrors(sources);
    errors.OnFailure(sources, url, message);
    errors.OnSuccess(Some(url));
    entry := errors.messages[Normalize(url)];
    count := errors.Count();
    assert NonNullKeys(errors.messages) == {};
  }
}
