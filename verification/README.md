# Geocoding cache-aside resolution, modelled in Dafny

This project models the lookup handler of a small geocoding service
(`location/location.ts`). A request carries a free-form place name. The
handler cleans it into a key, rejects keys that are too short, and looks the
key up in a database cache. On a miss it asks the Google geocoding API,
writes the answer back to the cache, and returns either a record
(`location`, `full_address`, `latitude`, `longitude`, `status`) or an error.

The model is pure and sequential:

- the `locations` table is a `map<string, Row>` from cleaned key to row;
- every database call gets a boolean saying whether it fails;
- the provider's answer is a `Response` value (`FetchFailed`, or a JSON body
  whose `results` may be missing, empty, or lack `geometry.location`);
- coordinates are only copied, and 0/0 is written as the not-found row; the
  model never compares them.

`Resolver.Resolve(raw, cache, env)` returns the outcome (`Ok(record)`,
`InvalidArgument` or `NotFoundError`), the cache afterwards and the number of
provider calls.

Modules, one per part of the handler:

- `Clean` covers `cleanLocation` (trim, then lowercase) and the JavaScript
  `.length` used for the length check, counted in UTF-16 code units.
- `Records` covers `ReturnLatLon`, the table row and the not-found record.
- `Store` covers `getFromDB` and `witeToDB`.
- `Upstream` covers the response parsing of `getFromAPI`.
- `Resolver` covers the handler body of `resolveLocation`.
- `Scenarios` states what the model answers for concrete requests.
- `Wrappers` holds `Option`.

## Behaviour of the code worth knowing

The model follows what `location/location.ts` does, including these points:

- **The negative-cache branch cannot run.** Lines 41-46 answer 404 for a
  cached `not_found` record. But the insert at lines 123-125 writes no
  `status` column, the select at line 104 reads none, and `getFromDB` labels
  every row it finds `found` (`Resolver.NegativeCacheUnreachable`). A stored
  not-found row is served as a 200 answer with an empty address at 0/0
  (`Resolver.NegativeRowServedAsFound`).
- **Failed fetches are cached.** At lines 79-98, a network failure or an
  unparsable body makes `getFromAPI` return `null`, just like an empty
  `results`. The 0/0 row is then written, and later lookups are served from
  it even after the provider recovers (`Resolver.FailedFetchIsCached`).
- **Insert only.** The write at lines 123-125 is a plain INSERT. Writing a key
  that is already stored fails and changes nothing (`Store.InsertOnly`). When
  a read fails on a stored key, the fresh answer is returned but never stored
  (`Resolver.ReadFailureKeepsOldRow`).
- **No delete.** The file has no operation that removes a row.
- **Length in UTF-16 units.** The minimum-length check at line 29 counts
  UTF-16 code units, so one character outside the Basic Multilingual Plane
  passes it (`Scenarios.AstralCharacterAccepted`).

## Model

| member | source | states |
|---|---|---|
| `Clean.CleanSpec` | location/location.ts:136-140 | The cleaned key is a whitespace-trimmed form of the input, lowercased. It has no whitespace at either end and no upper-case letter. |
| `Clean.CleanCharacterized` | location/location.ts:138-140 | Any way of writing the input as whitespace, a core with non-space ends, and whitespace gives the key: that core, lowercased. |
| `Clean.TrimSpec` | location/location.ts:139 | `trim` keeps a contiguous part of the input with only whitespace before and after it and no whitespace at its ends. |
| `Clean.TrimStartSpec` | location/location.ts:139 | Dropping leading whitespace leaves a suffix that starts with a non-space, and everything dropped is whitespace. |
| `Clean.TrimEndSpec` | location/location.ts:139 | Dropping trailing whitespace leaves a prefix that ends with a non-space, and everything dropped is whitespace. |
| `Clean.TrimCharacterized` | location/location.ts:139 | The trim is unique: any whitespace-padded decomposition of the input determines it. |
| `Clean.TrimPadding` | location/location.ts:139 | Adding whitespace around a string does not change its trim. |
| `Clean.LowerTrimCommutes` | location/location.ts:139 | Trimming then lowercasing equals lowercasing then trimming. |
| `Clean.CleanIdempotent` | location/location.ts:102 | Cleaning an already cleaned key returns it unchanged, which the re-cleaning inside `getFromDB` relies on. |
| `Clean.CleanIgnoresPaddingAndCase` | location/location.ts:136-140 | Inputs that differ only in surrounding whitespace and letter case map to the same cache key. |
| `Clean.Utf16Length` | location/location.ts:29 | The length used by the minimum-length check lies between the number of characters and twice that number. It equals the character count exactly when every character is in the Basic Multilingual Plane, and twice it exactly when none is. |
| `Store.GetFromDB` | location/location.ts:100-119 | A read returns a record exactly when it succeeds and the re-cleaned key has a row. That record carries the key as passed, the row's columns and always status `found`. A failed read is a miss. |
| `Store.WriteToDB` | location/location.ts:121-134 | The insert adds the record's address and coordinates at its key only if the key is new and the call succeeds. Existing rows never change, no other key appears, and `true` is reported only for an actual insert. |
| `Store.WriteThenRead` | location/location.ts:103-125 | A successful insert followed by a read of any key that cleans to it returns the written record, relabelled `found`. |
| `Store.InsertOnly` | location/location.ts:123-125 | Writing a key that is already stored fails and leaves the cache unchanged. |
| `Upstream.GetFromAPI` | location/location.ts:68-99 | `null` exactly for a failed fetch, a missing or empty `results`, or a first result without `geometry.location`. Otherwise the answer is a `found` record for the query key with the first result's address and coordinates. |
| `Upstream.OnlyFirstResultMatters` | location/location.ts:83-90 | Two responses whose first results agree parse to the same record. |
| `Resolver.CacheAnswer` | location/location.ts:37-47 | A cached `found` record is answered with `Ok` and that very record. A cached `not_found` record answers NotFound. No record, or one with any other status, goes on to the provider. |
| `Resolver.NegativeCacheUnreachable` | location/location.ts:41-46 | No read result can make the cache checks answer NotFound, because `getFromDB` only yields `found` records. |
| `Resolver.Resolve` | location/location.ts:22-65 | A short key is InvalidArgument, whatever the cache and provider would do, and leaves the cache unchanged. A hit is answered from the row as `found` with no provider call. A miss makes exactly one provider call, returns its record and inserts it, or else inserts the 0/0 row and answers NotFound. NotFound always cost a provider call, and existing rows never change. |
| `Resolver.OutcomeIgnoresWrite` | location/location.ts:48-64 | The answer is the same whether the write-back succeeds, fails or reports anything. |
| `Resolver.SameKeySameResolution` | location/location.ts:23-37 | Inputs that clean to the same key get the same answer, cache and call count. |
| `Resolver.SecondLookupFromCache` | location/location.ts:36-51 | After a successful first lookup of a new key whose row was written, a second lookup returns the same record from the cache without calling the provider. |
| `Resolver.NegativeRowServedAsFound` | location/location.ts:52-64 | After a NotFound lookup of a new key whose 0/0 row was written, the next lookup answers 200 with an empty address at 0/0 and status `found`, without calling the provider. |
| `Resolver.FailedFetchIsCached` | location/location.ts:79-98 | A failed fetch answers NotFound and stores the 0/0 row, and a later lookup is served that row even when the provider now has a result. |
| `Resolver.ReadFailureKeepsOldRow` | location/location.ts:115-134 | When the read fails on a stored key, the fresh provider record (its address and coordinates, under the cleaned key, `found`) is returned, the insert fails on the existing key, and the cache keeps the old row. |
| `Scenarios.CleanExample` | location/location.ts:138-140 | `"  7th West, Oakland, CA  "` cleans to `"7th west, oakland, ca"`. |
| `Scenarios.ShortKeyRejected` | location/location.ts:29-32 | A padded one-letter input is InvalidArgument and leaves the cache untouched. |
| `Scenarios.AstralCharacterAccepted` | location/location.ts:29 | A single character outside the Basic Multilingual Plane passes the minimum-length check. |
| `Scenarios.FreshLookupExample` | location/location.ts:48-51 | A new street address is answered with the provider's first result under the cleaned key, after one provider call. |

## Left out

- The Encore `api(...)` wrapper, routing, and the mapping of `APIError` to HTTP 400/404. They are framework code; the outcomes are the abstract `InvalidArgument` and `NotFoundError`.
- `console.log` and `console.error` output. It is logging only.
- The `GOOGLE_MAPS_API_KEY` lookup, URL building and `fetch`. They are environment and network access. The provider's answer is a parameter, and a rejected `fetch` and a non-JSON body are both `FetchFailed`.
- The SQL text, the effect of the tagged-template placeholders written inside quotes, migrations and the connection. They are foreign I/O. The table is an abstract map that is assumed to have a unique `location` key, and every failure is one boolean per call.
- `Store.WriteToDB`: the result type of Encore's `db.exec` is not defined in `location/location.ts`, so the outcome of the `row != null` test at line 126 is the parameter `execResult`. Nothing reads the reported flag.
- Numeric coordinate values. They are JavaScript floats, modelled as `real`. They are only copied, and 0/0 is written for the not-found row.
- `Clean.CleanSpec`: lowercases ASCII letters only. Full Unicode `toLowerCase`, which can change the length of a string, is not modelled.
- `Upstream.GetFromAPI`: a first result without `formatted_address`, or a `geometry.location` without `lat`/`lng`, yields `undefined` fields in the source. The model gives these fields plain values.
- A `results` field that is not an array. The model assumes the body's `results` is an array when present.
- Concurrent requests racing on the same key. Each request is modelled on its own.
- location/location.test.ts. It is a live call to the Google API, with nothing to model.
