# bigboard client core, modelled in Dafny

bigboard shows several remote iCalendar (ICS) feeds as one month calendar. The page URL is
its only configuration store: repeated `id` and `ics` query parameters name the feeds, and
`monthOffset` picks the month. This project models the client-side logic that sits between
that URL and the calendar component:

- **Source registry** (`client/src/App.tsx`): lodash `zipObject` pairs the `id` and `ics`
  lists into an object keyed by id, and one event source is built per property. Each source
  is fetched from the aggregation endpoint `http://<host>:8000/parse` with `source=<ics>`
  as its only query pair.
- **Response normalisation and error tracker** (`client/src/App.tsx`): a response URL is cut
  back to its `source` pair so that it finds its source's entry. The entry lives in a `Map`
  from fetch URL to an optional message. Failure writes `"<id or Unknown Source>: <message>"`,
  success writes null, and a counting loop chooses between the Loading, Up to date and
  error banners.
- **Configuration dialog** (`client/src/ConfigureDialog.tsx`): a row list seeded from the
  sources, with edit, remove and add-blank operations, a month offset with a NaN guard,
  and the loop that writes the "Save & Reload" query string.

URLs are values `Url(base, query)`. The base is an opaque string (scheme, host, path,
fragment). The query is an ordered list of `(key, value)` pairs. Percent-encoding is not
modelled. Mutable state takes the source's own form. The error `Map` is the class
`ErrorTracker.SourceErrors`: its insertion order is a `seq` and its contents a `map`. The
dialog is the class `Configure.ConfigureDialog`, which holds its rows as a `seq`. The loops
of the source (registry builder, error counter, row seeding, save-URL builder) are
`method`s with loop invariants. Each is proved against a specification function, and
lemmas about that function state what the source promises.

Files: `wrappers.dfy` (Option, `Distinct`, `Project`, `Dedup`), `urls.dfy` (query pairs, `get`/`getAll`),
`numbers.dfy` (`parseInt` and `toString` on integers), `registry.dfy`, `errors.dfy`,
`configure.dfy`, `roundtrip.dfy` (save, then reload).

Where the design description and the code differ, the model follows the code:

- With `id` and `ics` lists of different lengths, the design says the lists are truncated to
  the shorter one. The code (`zipObject`) keeps every id. An id with no `ics` value gets
  `undefined`, which is fetched as `source=undefined`. Surplus `ics` values are dropped.
  A repeated id keeps its first position and takes its last value.
- The design says saved colours are carried in the URL. The page, as written, never reads
  the `color` parameter. It always uses the id's hash colour (`SaveReloadRows` states this).

## Model

| member | source | states |
|---|---|---|
| `Urls.Get` | client/src/App.tsx:214 | `searchParams.get`: absent exactly when no pair has the key, otherwise the value of the first such pair |
| `Urls.GetAllMembers` | client/src/App.tsx:33 | `searchParams.getAll` returns exactly the values stored under the key |
| `Urls.GetIsFirstOfGetAll` | client/src/App.tsx:214 | `get` is the first element of `getAll`, or absent when that is empty |
| `Registry.FetchUrl` | client/src/App.tsx:37-41 | a fetch URL has the endpoint as base, exactly one query pair, and that pair is `source` with the ICS address (`"undefined"` when missing) |
| `Registry.SourceOfFetchUrl` | client/src/ConfigureDialog.tsx:42-46 | unwrapping the `source` parameter of a fetch URL gives back the ICS address |
| `Registry.Normalize` | client/src/App.tsx:211-218 | the base is kept and exactly one pair remains, `source`, with the response's first `source` value (`"null"` when absent) |
| `Registry.NormalizeIdempotent` | client/src/App.tsx:211-218 | normalising twice is normalising once |
| `Registry.NormalizeEqualIff` | client/src/App.tsx:203-218 | two URLs normalise equal if and only if they have the same base and the same `source` value, whatever their other pairs |
| `Registry.NormalizeRecoversFetchUrl` | client/src/App.tsx:203-218 | any pairs appended to a fetch URL by the calendar component are removed again, giving back the fetch URL |
| `Registry.Assign` | client/src/App.tsx:33 | property assignment: an existing id keeps its place and takes the new value, a new id goes last, keys stay distinct |
| `Registry.ZipObject` | client/src/App.tsx:33 | the object built by `zipObject` has distinct keys, and its keys are exactly the ids |
| `Registry.ZipObjectValues` | client/src/App.tsx:33 | each id carries the `ics` value at its last occurrence, or undefined past the end of `ics` |
| `Registry.ZipObjectOrder` | client/src/App.tsx:33-35 | properties are listed in the order of each id's first occurrence |
| `Registry.ZipObjectOfDistinct` | client/src/App.tsx:33 | with distinct ids the object is the positional zip, padded with undefined |
| `Registry.SourcesOf` | client/src/App.tsx:35-56 | one source per property, in order, with the property's id, its fetch URL and its hash colour |
| `Registry.BuildEventSources` | client/src/App.tsx:31-62 | the builder loop yields exactly those sources; their ids are distinct and are exactly the page's ids; every URL is the endpoint with the single `source` pair |
| `Registry.StartMonthOffset` | client/src/App.tsx:90-96 | the month offset is 0 when the parameter is absent or parses to NaN, and otherwise the parsed integer |
| `Numbers.NumberRoundTrip` | client/src/ConfigureDialog.tsx:75 | below 10^21 in magnitude, `parseInt` of the written `monthOffset.toString()` gives the same number back, NaN included |
| `Numbers.ExponentNotationLosesValue` | client/src/ConfigureDialog.tsx:75 | from 10^21 in magnitude on, `toString` writes exponent notation and `parseInt` reads back only its first digit, a number between -9 and 9 that differs from the one written |
| `Numbers.DigitPrefixIsLongest` | client/src/App.tsx:93 | `parseInt` reads the longest run of leading digits and stops at the first character that is not a digit |
| `Numbers.ParseIntNoDigits` | client/src/App.tsx:93-96 | text with no digit, the empty string included, parses to NaN |
| `ErrorTracker.FindId` | client/src/App.tsx:127-130 | the id of the first source whose URL equals the normalised response URL, and absent exactly when no source has that URL |
| `ErrorTracker.SourceErrors.constructor` | client/src/App.tsx:66 | the map starts with one entry per distinct source URL, its keys in the order of each URL's first occurrence among the sources (`Seqs.Dedup`), and every entry is null |
| `ErrorTracker.SourceErrors.Set` | client/src/App.tsx:132 | `Map.set`: the key takes the value and nothing else changes; a new key goes last in iteration order |
| `ErrorTracker.SourceErrors.OnFailure` | client/src/App.tsx:125-134 | the entry of the normalised response URL becomes `"<id or Unknown Source>: <message>"`, and every other entry is unchanged |
| `ErrorTracker.SourceErrors.OnSuccess` | client/src/App.tsx:137-145 | with a response, the entry of its normalised URL becomes null and every other entry is unchanged; with no response, nothing changes |
| `ErrorTracker.SourceErrors.Count` | client/src/App.tsx:147-155 | the counting loop returns the number of non-null values, which equals the number of keys holding a message |
| `ErrorTracker.NonNullMembers` | client/src/App.tsx:186 | the filtered list holds exactly the messages present among the map's values |
| `ErrorTracker.NonNullCountIsKeyCount` | client/src/App.tsx:147-155 | counting non-null values in insertion order counts the distinct keys that hold a message |
| `ErrorTracker.AllNullNoMessages` | client/src/App.tsx:66 | a map holding only nulls yields no messages |
| `ErrorTracker.FailureCount` | client/src/App.tsx:126-133 | a failure adds its key to the keys with a message, so the count rises by one unless that key already held a message |
| `ErrorTracker.SuccessCount` | client/src/App.tsx:137-145 | a success removes its key from the keys with a message, so the count falls by one if that key held a message |
| `ErrorTracker.StatusBanner` | client/src/App.tsx:172-180 | of the three guarded banners exactly one is shown: errors when the count is positive, whether or not loading; otherwise Loading when loading; otherwise Up to date |
| `ErrorTracker.ErrorList` | client/src/App.tsx:185-201 | nothing when all values are null, the one message inline, or a list of every message in map order when there are two or more |
| `ErrorTracker.InitialStatus` | client/src/App.tsx:172-177 | a fresh error map shows "Loading..." or "Up to date", never an error |
| `ErrorTracker.FailureThenSuccess` | client/src/App.tsx:125-145 | on a freshly built map, a failure followed by a success for the same URL leaves that entry null and the count at 0 |
| `Configure.WithField` | client/src/ConfigureDialog.tsx:55 | the chosen field takes the new value, and the other two fields are unchanged |
| `Configure.SeedRows` | client/src/ConfigureDialog.tsx:40-51 | one row per source, in order: the id, the source URL's `source` parameter, and the colour |
| `Configure.WithBlankRow` | client/src/ConfigureDialog.tsx:63-71 | afterwards a blank row is present; the old rows are a prefix of the result; the rows are unchanged exactly when a blank row was already there |
| `Configure.AddBlankIdempotent` | client/src/ConfigureDialog.tsx:63-71 | adding a blank row twice is the same as adding it once; it grows the list by one only when no blank row exists |
| `Configure.CompleteRows` | client/src/ConfigureDialog.tsx:77-80 | the rows kept for saving are exactly the rows with a non-empty id and url |
| `Configure.CompleteRowsAppend` | client/src/ConfigureDialog.tsx:76-80 | the filter keeps row order: the complete rows of two lists joined are the complete rows of the first followed by those of the second |
| `Configure.RowsParamsAreCompleteTriples` | client/src/ConfigureDialog.tsx:76-84 | the pairs after `monthOffset` are the `id`, `ics`, `color` triples of the complete rows, in row order |
| `Configure.GetAllTriples` | client/src/ConfigureDialog.tsx:81-83 | reading those triples back by key gives the id, address and colour columns in row order |
| `Configure.SaveParamsLayout` | client/src/ConfigureDialog.tsx:74-85 | the save query starts with `monthOffset`, which occurs once; its `id`, `ics` and `color` values are those of the complete rows, in order; it has 1 + 3 pairs per complete row |
| `Configure.RowsParamsFromCompleteRows` | client/src/ConfigureDialog.tsx:76-84 | every pair after `monthOffset` belongs to the triple of some row with a non-empty id and url |
| `Configure.ConfigureDialog.constructor` | client/src/ConfigureDialog.tsx:25-52 | the dialog opens with `parseInt` of the page's `monthOffset` (no NaN guard) and with the seeded rows |
| `Configure.ConfigureDialog.OnChangeMonthOffset` | client/src/ConfigureDialog.tsx:26-31 | an edit that parses to NaN leaves the month offset unchanged, and any other edit sets it; the rows are unchanged |
| `Configure.ConfigureDialog.UpdateSource` | client/src/ConfigureDialog.tsx:53-57 | only the chosen field of the chosen row changes; the length, the other rows and the month offset are unchanged |
| `Configure.ConfigureDialog.RemoveSource` | client/src/ConfigureDialog.tsx:58-62 | a valid index removes exactly that row, the others keeping their order, and the length drops by one; an index past the end changes nothing |
| `Configure.ConfigureDialog.AddSource` | client/src/ConfigureDialog.tsx:63-71 | the rows become `WithBlankRow` of the old rows; the month offset is unchanged |
| `Configure.ConfigureDialog.SaveUrl` | client/src/ConfigureDialog.tsx:73-85 | the save loop produces the page's base with the save query described by `SaveParamsLayout` |
| `RoundTrip.MonthOffsetRoundTrip` | client/src/ConfigureDialog.tsx:75 | for an offset below 10^21 in magnitude, after a save, the page reads back the saved month offset (a NaN one as 0), and the reopened dialog shows the value that was saved |
| `RoundTrip.SaveReloadRows` | client/src/ConfigureDialog.tsx:74-85 | after a save and reload, with distinct ids, the dialog's rows are the complete rows in order with the same ids and addresses; their colour is the hash colour again |
| `RoundTrip.UneditedSaveKeepsSources` | client/src/ConfigureDialog.tsx:39-52 | opening the dialog and saving with no edits writes back the page's own `id` and `ics` lists, when the ids are distinct and none is empty |
| `RoundTrip.ResponseFindsItsEntry` | client/src/App.tsx:125-133 | a response for a source's fetch URL, with any appended pairs, normalises to a key the fresh error map holds, and the handler finds a source id for it |

## Left out

- The colour hash (`crc32`, golden-ratio hue, `color-convert`, `client/src/calcStringColor.ts`) is floating-point maths over external libraries. It is the parameter `colorFor: string -> string`.
- The server (`server/src/Controller/IcalController.php`): an HTTP fetch plus library ICS parsing and recurrence expansion.
- The polling timer, the calendar component's `loading` callback and the loading flag's aggregation are timer and event-loop behaviour of a foreign component. `loading` is an input to `StatusBanner`.
- `Date` arithmetic on the month offset, and locale formatting of the visible month.
- React rendering, `useMemo`/`useState` identity semantics, JSX, `useId`, and the modal and form components.
- `SourceErrors.Count`: in the source, `errorMessageCount` is memoised on the identity of the error `Map` (client/src/App.tsx:147-155), and the handlers only mutate that one `Map` in place before passing it back to `setErrorMessages` (client/src/App.tsx:132-133, 141-142). The memo is never recomputed, so the count stays 0 and the error banner (client/src/App.tsx:178-180) never appears. The model computes the count from the current map, as the design intends.
- `NumberToString`: exponent notation is written with every significant digit of the exact integer, whereas JavaScript writes the shortest digits that identify the nearest double; integers above 2^53 are not exact doubles. `NumberRoundTrip` and `MonthOffsetRoundTrip` are promised only below 10^21 in magnitude, because from there on `parseInt("1e+21")` is 1 (`ExponentNotationLosesValue`).
- `NumberRoundTrip`: requires a magnitude below 10^21; above it the written text does not parse back (see `NumberToString`).
- `MonthOffsetRoundTrip`: requires a saved offset below 10^21 in magnitude, for the same reason.
- WHATWG URL parsing, serialisation and percent-encoding. A URL is a base plus a pair list, and two URLs are the same key when these values are equal.
- `ParseInt` reads decimal text only: optional leading white space (space, tab, newline, carriage return), an optional sign, then digits. The `0x` hexadecimal prefix, other Unicode white space and the precision limits of very long digit strings are not modelled.
- `Object.entries` lists integer-like keys (such as `"12"`) first, in numeric order. The model keeps insertion order for every id.
- `FindId` assumes that the calendar component's `getEventSources()` lists the sources in the order they were given.
- `UpdateSource` requires an existing row index. The table only calls it with the index of a rendered row, and the source would fail with a TypeError on any other index.
