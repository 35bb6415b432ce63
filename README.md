# EHR resource dashboard — a Dafny model

This project models the logic of a small dashboard for electronic health
record (EHR) resources, in Dafny. Each record is a `ResourceWrapper`. It
carries a processing state, timestamps, an identifier with a patient id, a
FHIR resource type and version, a description, and an optional AI summary.

The model covers six parts of the dashboard:

- **Resource table.** Its free-text search keeps the records whose patient
  id, resource type, raw state string, description or summary contains the
  trimmed, lower-cased query. The table also has status labels, a
  48-character truncation rule and placeholders for missing fields. Finally,
  it chooses between the error card, the loading skeleton, the rows and the
  "no data" row.
- **Data hook.** It is a class with the five state cells `data`,
  `loading`, `error`, `progress` and `currentCount`. Its fetch method takes
  the service call's outcome as a parameter. A run of fetches is replayed
  by a specification function.
- **Mock-record route.** It parses and clamps the `count` parameter, and
  generates records whose random draws are inputs.
- **API service.** It normalises errors around one HTTP exchange. It also
  turns the first ten placeholder posts into records, choosing pool entries
  by `index % 10`.
- **Dashboard page.** It computes the per-state counts, the
  unique-patient count, the total and the success rate.
- **Progress bar.** It clamps its value to the range 0 to 100.

The model is organised in these modules:

- **One module per source file:** `ResourceTable`, `UseResourceData`,
  `MockRoute`, `Api`, `Dashboard` and `Progress`.
- **Shared modules:**
  - `Resource` holds the record types.
  - `Text` holds the JavaScript string built-ins the code relies on:
    `trim`, `toLowerCase`, `includes`, `length` and `slice` (counted in
    UTF-16 code units), `parseInt` and number formatting. Its `IsPrefix` is
    a specification helper used to state facts about these.
  - `Random` turns each `Math.random()` or faker draw into an input of type
    `Unit`, a real in [0, 1).
  - `Pools` holds the fixed description, summary, state and type lists.
  - `SampleData` holds the five fixture records.
  - `Wrappers` holds `Option` and `Result`.

## Model

| member | source | states |
|---|---|---|
| Resource.StateName | src/types/resource.ts:7-13 | Every state string starts with "PROCESSING_STATE_", followed by the state's own suffix. |
| Resource.StateNameInjective | src/types/resource.ts:8-12 | Distinct states have distinct strings. |
| Resource.PatientIdReadsBack | src/app/api/resources/route.ts:69 | The number in "patient-k" reads back as k. |
| Random.Pick | src/app/api/resources/route.ts:55 | `Math.floor(u * n)` is a valid index into a list of length n. |
| Random.FakerInt | src/app/api/resources/route.ts:69 | `faker.number.int({min, max})` lies between min and max. |
| Random.ArrayElement | src/app/api/resources/route.ts:74 | `faker.helpers.arrayElement` returns a member of the pool. |
| Progress.Clamp | src/components/ui/progress.tsx:9 | The width is in [0, 100]. An in-range value is unchanged, a negative value gives 0, and a value above 100 gives 100. |
| Progress.ClampIdempotent | src/components/ui/progress.tsx:9 | Clamping twice is clamping once. |
| Progress.ClampMonotone | src/components/ui/progress.tsx:9 | A larger value never gives a narrower bar. |
| Progress.ClampExamples | src/__tests__/ProgressBar.test.tsx:19-35 | 42 gives 42, -10 gives 0, and 150 gives 100. |
| Text.TrimEmptyIffBlank | src/components/ResourceTable.tsx:144 | `trim()` is empty exactly when the query is all whitespace. |
| Text.TrimIsSlice | src/components/ResourceTable.tsx:145 | `trim()` is a slice of its input with only whitespace cut on either side. |
| Text.TrimIgnoresPadding | src/components/ResourceTable.tsx:145 | Whitespace added around a query does not change its trimmed form. |
| Text.TrimLowerCommute | src/components/ResourceTable.tsx:145 | Trimming and lower-casing commute. |
| Text.LowerIdempotent | src/components/ResourceTable.tsx:145 | Lower-casing twice is lower-casing once, and leaves no upper-case letter. |
| Text.Trim | src/components/ResourceTable.tsx:144-145 | `trim()` starts and ends with a non-whitespace character, unless it is empty. |
| Text.Lower | src/components/ResourceTable.tsx:144-145 | `toLowerCase()` keeps the length, leaves no upper-case letter, and keeps whitespace where it was. |
| Text.Contains | src/components/ResourceTable.tsx:152-156 | `includes` holds only for a query no longer than the text. |
| Text.ParseInt | src/app/api/resources/route.ts:87 | `parseInt` gives `NaN` exactly when no digit follows the leading whitespace and optional sign. |
| Text.IntToString | src/app/api/resources/route.ts:69 | `${n}` is non-empty, and starts with a minus sign exactly for a negative n. |
| Text.Utf16 | src/components/ResourceTable.tsx:120 | A string's `length` is its character count plus one for each character beyond the Basic Multilingual Plane. |
| Text.Utf16OfPlainText | src/components/ResourceTable.tsx:120 | For text within the Basic Multilingual Plane, `length` is the character count and each code unit is its character. |
| Text.PairRulesOut | src/components/ResourceTable.tsx:152-156 | A query holding a letter pair absent from the lower-cased text does not occur in it. |
| Text.ParseIntOfIntToString | src/app/api/resources/route.ts:87 | `parseInt` reads back the decimal form of any integer, whatever non-digit text follows it. |
| Text.LeadingDigits | src/app/api/resources/route.ts:87 | `parseInt` reads the longest run of digits at the head of the text. |
| ResourceTable.StateLabel | src/components/ResourceTable.tsx:51-89 | The badge reads "Unknown" exactly for the unspecified state. |
| ResourceTable.StateLabelInjective | src/components/ResourceTable.tsx:51-89 | No two states share a badge. |
| ResourceTable.TruncatedCell | src/components/ResourceTable.tsx:117-127 | Text of at most 48 UTF-16 code units is shown whole. Longer text shows its first 48 code units plus "…" (49 in all), with the full text in the tooltip. |
| ResourceTable.PlainTextTruncation | src/components/ResourceTable.tsx:117-127 | For text within the Basic Multilingual Plane, the limit is 48 characters and the cut keeps the first 48 characters. |
| ResourceTable.EmojiTextTruncated | src/components/ResourceTable.tsx:120-127 | Thirty emoji are 60 code units, so they are cut to 24 emoji plus "…". |
| ResourceTable.CutSplitsSurrogatePair | src/components/ResourceTable.tsx:127 | When "a" is followed by 24 emoji, the cut at 48 code units leaves a lone high surrogate before the "…". |
| ResourceTable.RenderRow | src/components/ResourceTable.tsx:286-321 | "Pending" appears exactly when the processed time is missing or empty. "No summary available" appears exactly when the summary is missing or empty. The description and summary are truncated, and the status is the state's badge. |
| ResourceTable.NormalizeQuery | src/components/ResourceTable.tsx:145 | The query as matched is empty exactly when the typed query is all whitespace. It is no longer than the typed query and holds no upper-case letter. |
| ResourceTable.Matches | src/components/ResourceTable.tsx:151-157 | The empty query matches every record. |
| ResourceTable.KeepMatching | src/components/ResourceTable.tsx:146 | The `filter` keeps at most the records it is given, and each one it keeps is in the data and matches. |
| ResourceTable.FilteredData | src/components/ResourceTable.tsx:142-161 | The search shows at most the records it is given, and each one it shows is in the data and survives the query. |
| ResourceTable.KeepMatchingIsSubsequence | src/components/ResourceTable.tsx:146 | The `filter` keeps a subsequence of its input. |
| ResourceTable.FilterIsSubsequence | src/components/ResourceTable.tsx:142-161 | The search only drops records, and keeps their order. |
| ResourceTable.KeepMatchingCounts | src/components/ResourceTable.tsx:146-158 | A matching record keeps all of its occurrences, and any other record keeps none. |
| ResourceTable.FilterKeepsExactlyTheMatches | src/components/ResourceTable.tsx:143-158 | A record survives exactly when the query is blank or its normalised form occurs in one of the five lower-cased fields. |
| ResourceTable.BlankQueryKeepsAll | src/components/ResourceTable.tsx:143-144 | An empty or all-whitespace query returns the data unchanged. |
| ResourceTable.FilterIgnoresCase | src/components/ResourceTable.tsx:145 | Queries that lower-case alike give the same result. |
| ResourceTable.FilterIgnoresPadding | src/components/ResourceTable.tsx:144-145 | Whitespace around the query does not change the result. |
| ResourceTable.KeepMatchingAll | src/components/ResourceTable.tsx:146-158 | When every record matches, the data is kept unchanged. |
| ResourceTable.StatePrefixQueryKeepsAll | src/components/ResourceTable.tsx:154 | Any query found in "processing_state_" keeps every record, because the state is matched on its raw string. |
| ResourceTable.CountLabel | src/components/ResourceTable.tsx:372 | While loading the line reads "Loading resource data...". Otherwise it is the numeral of the count followed by " resources found". |
| ResourceTable.CountLabelReadsBack | src/components/ResourceTable.tsx:372 | The number at the head of the loaded count line reads back as the count. |
| ResourceTable.Render | src/components/ResourceTable.tsx:337-454 | A non-empty error shows the error card, with a retry button exactly when a refresh callback exists. Otherwise the caption counts the filtered records, and loading shows the skeleton. Without loading, the body shows one row per filtered record, or the "no data" row when none is left. |
| ResourceTable.EmptyDataShowsNoDataRow | src/components/ResourceTable.tsx:428-454 | Empty data, not loading and with no error, reads "0 resources found" above the "no data" row. |
| ResourceTable.NoLoRulesOutBlood | src/components/ResourceTable.tsx:152-156 | A record with no "lo" pair in any searchable field does not match "blood". |
| ResourceTable.SampleRecordsLackLo | src/data/sampleData.ts:23-92 | The second, third and fifth sample records hold no "lo" pair in any searchable field. |
| ResourceTable.SampleBloodMatches | src/data/sampleData.ts:19-71 | The first and fourth sample records match "blood" through their descriptions. |
| ResourceTable.SampleBloodSearch | src/__tests__/ResourceTable.interactions.test.tsx:19-24 | On the five sample records, "blood" keeps exactly the first and the fourth. |
| ResourceTable.SampleQueryVariants | src/components/ResourceTable.tsx:144-145 | On the sample records, "BLOOD" and "  blood " find what "blood" finds. |
| ResourceTable.SampleBloodCaption | src/components/ResourceTable.tsx:372 | After the search for "blood" the count line reads "2 resources found". |
| UseResourceData.Initial | src/hooks/useResourceData.ts:20-25 | The first render has no data, is loading, has no error, has progress 0, and has the initial count. |
| UseResourceData.Started | src/hooks/useResourceData.ts:30-32 | A fetch starts with loading on, the error cleared and progress 0, leaving data and count alone. |
| UseResourceData.ErrorMessage | src/hooks/useResourceData.ts:43 | The stored error is never empty. It is the error's own message, or "Failed to fetch resource data" when that message is empty. |
| UseResourceData.ResolveCount | src/hooks/useResourceData.ts:28 | The count a call uses is its argument, or the current count when it has none. |
| UseResourceData.Settled | src/hooks/useResourceData.ts:37-47 | After the `try`/`catch`/`finally`, loading is off and progress is 100. A success stores the response's data and the count. A failure keeps data and count, and stores the message. |
| UseResourceData.AfterFetch | src/hooks/useResourceData.ts:27-51 | After one fetch the hook is idle. The error is present exactly on failure. Data and count are replaced on success and kept on failure. |
| UseResourceData.Replay | src/hooks/useResourceData.ts:27-51 | No calls leave the state as it is, and any call leaves the hook idle. A run of only failures keeps the data and the count. |
| UseResourceData.FetchSettles | src/hooks/useResourceData.ts:45-47 | After any completed fetch, loading is off and progress is 100, a value the progress bar would show unchanged. |
| UseResourceData.ErrorIffFailed | src/hooks/useResourceData.ts:31-43 | After a fetch the error is present exactly when that fetch failed. |
| UseResourceData.SuccessReplacesData | src/hooks/useResourceData.ts:37-40 | A success replaces the data with the response's, and stores the count used. |
| UseResourceData.FailureKeepsData | src/hooks/useResourceData.ts:41-43 | A failure keeps the data and the count, and stores the message. |
| UseResourceData.FailedFetchShowsErrorCard | src/hooks/useResourceData.ts:41-47 | After a fetch the table shows the error card exactly when the fetch failed, with the stored message. |
| UseResourceData.ReplaySnoc | src/hooks/useResourceData.ts:27-51 | Replaying a run is replaying its prefix, then its last call. |
| UseResourceData.ReplayKeepsLastSuccess | src/hooks/useResourceData.ts:13-16 | After any run of fetches, the count is the last successful call's count (its own argument, or the count before it). The data is the last successful response's. |
| UseResourceData.ReplayIdle | src/hooks/useResourceData.ts:41-47 | After a non-empty run the hook is idle. Its error is present exactly when the last call failed. |
| UseResourceData.ResourceDataHook.constructor | src/hooks/useResourceData.ts:20-25 | The five cells start as the initial state, with count 100 by default. |
| UseResourceData.ResourceDataHook.FetchData | src/hooks/useResourceData.ts:27-51 | The new cells are the old cells after one whole fetch. An omitted count falls back to the current count. |
| MockRoute.MaxPatientId | src/app/api/resources/route.ts:52 | The patient pool is at least 100000 and at least half the count. |
| MockRoute.WellFormedMock | src/app/api/resources/route.ts:55-77 | A well-formed record has a pool of at least one patient, and a state and version that are never unspecified. |
| MockRoute.MockResource | src/app/api/resources/route.ts:55-77 | The generated record is well formed. Its processed time is present exactly for completed records, its patient is between 1 and the pool size, and the description, summary and type come from their pools. The state is never unspecified, and the summary is present exactly when the draw is below 0.6. |
| MockRoute.GenerateMockResources | src/app/api/resources/route.ts:54 | A non-negative count gives exactly that many records, and a negative one gives none. Record i is built from draw i. |
| MockRoute.GeneratedRecordsWellFormed | src/app/api/resources/route.ts:52-78 | Every generated record is well formed and none is unspecified. |
| MockRoute.EffectiveCount | src/app/api/resources/route.ts:87 | The count is never above 1000000. |
| MockRoute.Get | src/app/api/resources/route.ts:83-90 | The response holds at most 1000000 records, each built for the effective count. |
| MockRoute.MissingCountIsMax | src/app/api/resources/route.ts:87 | A missing or empty parameter gives 1000000. |
| MockRoute.UnreadableCountIsMax | src/app/api/resources/route.ts:87 | A parameter that reads as `NaN` or 0 gives 1000000. |
| MockRoute.LeadingIntegerIsCount | src/app/api/resources/route.ts:87 | The leading integer of the parameter is the count, clamped to 1000000, whatever follows it. |
| MockRoute.NegativeCountYieldsNothing | src/app/api/resources/route.ts:54 | A negative count is kept and gives no records. |
| MockRoute.MissingCountGeneratesMax | src/app/api/resources/route.ts:86-90 | A missing parameter generates exactly one million records. |
| MockRoute.TrailingTextIgnored | src/app/api/resources/route.ts:87 | "250abc" asks for 250 records. |
| Api.NormalizeError | src/lib/api.ts:72-76 | An `Error` keeps its message, and its own status or 500. Any other value becomes "An unknown error occurred" with status 500. |
| Api.NormalizeErrorStable | src/lib/api.ts:72-76 | Normalising a normalised error again changes nothing. |
| Api.FetchWithErrorHandling | src/lib/api.ts:52-78 | Success comes exactly from an ok response with a readable body, and carries that body and status. A rejected request, a non-ok response or an unreadable body each fail with the normalised error. |
| Api.HttpError | src/lib/api.ts:62-63 | The thrown `Error` has no `status` property, and its message is "HTTP error! status: " followed by the status, which reads back. |
| Api.HttpErrorNamesStatus | src/lib/api.ts:62-63 | A non-ok response fails with "HTTP error! status: N", from which N reads back. The reported status is 500. |
| Api.RandomProcessingState | src/lib/api.ts:126-134 | The state is one of the four generated states, never unspecified. |
| Api.RandomResourceType | src/lib/api.ts:136-148 | The type is one of the eight listed. |
| Api.RandomFhirVersion | src/lib/api.ts:150-152 | The version is R4 or R4B. |
| Api.PostResource | src/lib/api.ts:87-105 | Record i has description i mod 10. Its summary is absent exactly when the draw is at most 0.3, and is otherwise summary i mod 10. The processed time is present exactly when its draw exceeds 0.3. The key starts "resource-<id>-", the patient is between 1 and 100, and neither state nor version is unspecified. |
| Api.Transform | src/lib/api.ts:87 | There are min(10, number of posts) records, record i built from post i. |
| Api.TransformFollowsPosts | src/lib/api.ts:87-105 | Every transformed record follows its post: the key prefix, the i-th description, the i-th summary or none, a specified state, and a patient between 1 and 100. |
| Api.GetResourceWrappers | src/lib/api.ts:81-115 | Success exactly when the request succeeds, giving the transformed posts, the response status and the success message. Otherwise the request's error is passed on. |
| Api.ResourcesResponseBounds | src/lib/api.ts:81-115 | A successful call reports an ok status and at most ten records. |
| Dashboard.CountState | src/app/page.tsx:23-26 | A per-state count never exceeds the number of records. |
| Dashboard.GetStatusCounts | src/app/page.tsx:21-28 | Each card counts the records in exactly its state. |
| Dashboard.CountStateAppend | src/app/page.tsx:23-26 | Counting over a concatenation adds the counts of the parts. |
| Dashboard.EveryRecordCountedOnce | src/app/page.tsx:23-26 | The four cards plus the unspecified records add up to the number of records. |
| Dashboard.StatusCardsCoverData | src/app/page.tsx:21-28 | The four cards sum to at most the number of records, with equality exactly when no record is unspecified. |
| Dashboard.CountStatePermutation | src/app/page.tsx:23-26 | Reordering the records changes no count. |
| Dashboard.PatientIds | src/app/page.tsx:118 | The set has at most as many ids as there are records, and holds every record's patient id. |
| Dashboard.PatientIdsAreTheIdsInData | src/app/page.tsx:118 | The set holds exactly the patient ids that occur in the data. |
| Dashboard.UniquePatientsBounds | src/app/page.tsx:118 | The unique-patient count is at most the record count, and at least 1 for non-empty data. |
| Dashboard.UniquePatientsPermutation | src/app/page.tsx:118 | Reordering does not change the set of patients. |
| Dashboard.Round | src/app/page.tsx:122 | `Math.round` of a non-negative value is the nearest integer, with halves rounded up. |
| Dashboard.SuccessRate | src/app/page.tsx:122 | The rate is in [0, 100]. Empty data gives 0 without a division by zero, all completed gives 100, and none completed gives 0. |
| Dashboard.SuccessRatePermutation | src/app/page.tsx:122 | Reordering does not change the rate. |
| Dashboard.GetQuickStats | src/app/page.tsx:114-122 | The total is the record count, the patients badge is the number of distinct ids, and the rate is the success rate. |
| Dashboard.DashboardFiguresOrderFree | src/app/page.tsx:21-28 | Every card and badge is independent of the order of the records. |

## Left out

- Sorting is done by the TanStack table library, whose code is not part of
  this model. Rows appear in the order the search leaves them, as with an
  empty sort state.
- Markup, styling, icons, the skeleton's shape, tooltips and `formatDate`
  are not modelled. A timestamp stands for its formatted display.
- Network and I/O are inputs, not models:
  - `fetch` and `response.json()` appear only as their outcome, `HttpExchange`.
  - `NextResponse.json` and the cache header are not modelled.
  - The 500 ms `setTimeout` delay is not modelled.
- The hook's asynchrony is not modelled. Each fetch is one atomic call, so
  overlapping refetches are not.
- The progress callback the hook passes to `getResourceWrappers` is not
  modelled. It is never called, and the service also ignores the count
  passed to it. Only the hook's writes of 0 and 100 are modelled.
- The mount effect is modelled as one `FetchData` call with the initial
  count, made by the caller after the constructor.
- `createResourceWrapper` (src/lib/api.ts:117-123) is not modelled. Nothing
  in the dashboard calls it.
- Randomness is an input:
  - every `Math.random()` and faker draw is a `Unit` value;
  - the uuid key, the 12-character uid, the uid suffix and every timestamp
    are given strings;
  - no claim is made about probabilities or dates.
- Numbers are mathematical reals, not IEEE doubles. `Math.round` is
  modelled for non-negative values only, which is all the success rate
  needs.
- UseResourceData.ResourceDataHook.FetchData and ResourceTable.Render
  cover only a count that is an integer or omitted. The Refresh and Retry
  buttons (src/components/ResourceTable.tsx:349, 388) call `onRefresh`,
  which is `refetch` (src/app/page.tsx:131), with the click event. That
  event becomes `count`, the `currentCount` default never applies, and a
  success stores the event as the count. This is harmless in practice,
  because `getResourceWrappers` ignores the count. `Option<int>` cannot
  hold such a value, so UseResourceData.ReplayKeepsLastSuccess says nothing
  about the button path.
- `toLowerCase` is modelled as ASCII lower-casing. `trim` and `parseInt`
  skip a fixed set of ten whitespace characters. Unicode case folding and
  the full JavaScript whitespace class are not modelled.
- MockRoute.GenerateMockResources requires a count of at most 4294967295,
  because `Array.from` throws a `RangeError` for longer lengths. The route
  never gets there, since it clamps to 1000000 first.
- The service normalises a non-ok response to status 500, not to the HTTP
  status. The thrown `Error` carries no `status` property, so the status is
  visible only inside the message. The model follows the code here.
- A failed request surfaces as the hook's error. No locally generated data
  is shown in its place, and the model follows the code here.
- The comment in src/__tests__/ResourceTable.interactions.test.tsx:19 says
  "blood" matches one record, but the expectation on line 24 is two. The
  model proves two: the first and fourth sample records both mention blood.
