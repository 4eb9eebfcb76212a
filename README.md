# PosterMaps core, modelled in Dafny

PosterMaps shows election poster boards on a map and tracks how many have been
pasted. A serverless handler reads two Google Sheets ranges. The master range
holds one row per board; the progress range holds one row per city and ward.
The handler returns each range as JSON. The client then does four things:

- It filters and renames the board rows into markers.
- It keeps the latest board of each area number.
- It counts the boards per area and overall.
- It draws one pin per coordinate, with a popup listing the boards at that spot.

A summary page joins the progress rows to the list of areas, filters them by
region, sorts them by progress and adds up the totals.

The model is split into these modules:

- `SheetsApi` (`sheets_api.dfy`): how the handler shapes rows into board objects and typed progress records.
- `SheetsService` (`sheets_service.dfy`): `fetchMarkers`, `fetchAreaData` and `fetchProgressData`, on the handler's rows.
- `SheetsData` (`sheets_data.dfy`): the data hook, with last-wins dedup, recounting, and the loading/error state (a class).
- `MarkerLayer` (`marker_layer.dfy`): status presentation, the form link, grouping by coordinate, pin keys and the popup slot (a class).
- `ProgressSummary` (`progress_summary.dfy`): regions, the region filter (a class), the city/ward join, the sort and the totals.

Some JavaScript behaviour is modelled on its own, in small modules:

- `JsText`: `trim`, `Number`, `parseFloat`, `endsWith`, `replace` and number-to-text.
- `JsObject`: the key order of `Object.keys`, `Object.values` and `Object.entries`, following section 10.1.11.1 of ECMA-262.
- `UriComponent`: `encodeURIComponent` (it leaves letters, digits and the unreserved marks of RFC 2396, `- _ . ! ~ * ' ( )`, as they are; everything else becomes upper-case `%XX` of its UTF-8 bytes) and its inverse.
- `Percent`: `Math.round` on the two percentage formulas.
- `Seqs`: `new Set` order and distinctness.

The five loops of the source are imperative here: the handler's column
loop and row mapping (`SheetsApi.BoardObject`, `SheetsApi.BoardSheet`), the
hook's dedup loop (`SheetsData.LatestMarkers`), the per-area count loop
(`SheetsService.CountAreas`) and the coordinate grouping loop
(`MarkerLayer.CollectGroups`). Each is a method with loop invariants, proved
against a specification function. React state
cells become fields of a class, and their setters become methods.

## Model

| member | source | states |
|---|---|---|
| SheetsApi.BoardColumnsDistinct | api/sheets-api.js:53 | There are nine board columns and no two share a name, so each column keeps its own cell. |
| SheetsApi.BoardObject | api/sheets-api.js:55-59 | The object has exactly the nine column names. Name i holds cell i, or `''` when the row is shorter. Cells past the ninth are ignored. |
| SheetsApi.BoardSheet | api/sheets-api.js:52-60 | A missing `values` gives an empty list. Otherwise there is one object per row, in row order, each keyed as above. |
| SheetsApi.CountCell | api/sheets-api.js:35-36 | A cell whose trimmed text is all digits reads as that number. Any other text, the empty cell included, reads as 0. |
| SheetsApi.ProgressSheet | api/sheets-api.js:21-39 | A missing `values` gives an empty list. Otherwise there is one record per row. The text fields are cells 0-4 as they stand (a missing cell is `''`), the counts come from cells 5 and 6, and the progress from cell 7. |
| SheetsApi.ProgressCell | api/sheets-api.js:25-37 | A cell without a trailing `%` reads exactly as a count cell does (`Number`, then 0 for NaN). |
| SheetsApi.ProgressCellDigits | api/sheets-api.js:25-37 | Digits followed by `%` and the same digits without it both read as their value. An empty cell reads as 0. |
| SheetsApi.ProgressCellNoDigits | api/sheets-api.js:25-37 | A cell with no digit reads as 0: the NaN from `parseFloat` or `Number` is replaced by 0. |
| SheetsApi.ProgressCellTextExamples | api/sheets-api.js:25-37 | `''` and `abc` read as 0. |
| JsText.Trim | src/components/ProgressSummary.jsx:65-66 | The result is a slice of the input with only whitespace cut from either end, and it neither starts nor ends with whitespace. |
| JsText.TrimIdempotent | src/components/ProgressSummary.jsx:65-66 | Trimming twice is trimming once. |
| JsText.ToNumber | api/sheets-api.js:35-36 | `Number(text)`: whitespace-only text is 0. Trimmed digits are their value. The result is NaN exactly when the trimmed text is non-empty and not all digits. |
| JsText.ParseFloat | api/sheets-api.js:27 | `parseFloat(text)`: it reads the digits right after the leading whitespace. It is NaN exactly when there are none. |
| JsText.OrZero | api/sheets-api.js:35-37 | NaN becomes 0 and any number is kept. |
| JsText.FirstIndex | src/components/Map/MarkerLayer.jsx:81 | The first position holding the character, or the length when there is none. No earlier position holds it. |
| JsText.DigitsValueNatToString | src/components/Map/MarkerLayer.jsx:88 | The decimal text of a whole number reads back as that number. |
| Percent.RoundedPercent | src/services/googleSheetsService.js:57 | `Math.round(done / total * 100)`, bounded by the exact rounding inequalities. It is 0 when total is 0. |
| Percent.RoundedPercentBounds | src/services/googleSheetsService.js:57 | When done ≤ total the percentage is at most 100. It is 0 for nothing done and 100 for all done. |
| Percent.RoundedPercentTenths | src/services/googleSheetsService.js:66 | `Math.round(completed / total * 1000) / 10`, kept in tenths, bounded by the exact rounding inequalities. It is 0 when total is 0. |
| Percent.RoundedPercentTenthsBounds | src/services/googleSheetsService.js:66 | When completed ≤ total the figure is at most 1000 tenths. It is 0 for nothing done and 1000 for all done. |
| Seqs.Dedupe | src/components/ProgressSummary.jsx:55 | `[...new Set(xs)]` holds exactly the elements of `xs` and is no longer than it. |
| Seqs.DedupeSnoc | src/components/ProgressSummary.jsx:55 | Adding an element already in the set changes nothing. A new one is appended at the end. |
| Seqs.DedupeDistinct | src/components/ProgressSummary.jsx:55 | The set's listing has no repeats. |
| Seqs.DedupeFirstOccurrenceOrder | src/components/ProgressSummary.jsx:55 | An element listed earlier first occurs earlier in the input. |
| JsObject.OwnKeys | src/hooks/useGoogleSheetsData.js:27 | The listing is a permutation of the keys in the order they were added, of the same length. |
| JsObject.OwnKeysOrder | src/hooks/useGoogleSheetsData.js:27 | Array-index keys come first, in ascending numeric order. Then the other keys follow in insertion order. |
| JsObject.OwnKeysDistinct | src/hooks/useGoogleSheetsData.js:27 | Keys added without repeats are listed without repeats. |
| JsObject.OwnKeysNoIndex | src/services/googleSheetsService.js:51 | An object without array-index keys lists them in insertion order. |
| JsObject.OwnKeysExample | src/services/googleSheetsService.js:51 | Keys added as `b, 10, a, 9` are listed as `9, 10, b, a`. |
| UriComponent.Encode | src/components/Map/MarkerLayer.jsx:13 | Every output character is unreserved or `%`. Text of unreserved characters is unchanged. The output is never shorter than the input. |
| UriComponent.PercentDecodeEncode | src/components/Map/MarkerLayer.jsx:13 | Percent-decoding the encoding gives back the UTF-8 bytes of the text. |
| UriComponent.Utf8DecodeUtf8String | src/components/Map/MarkerLayer.jsx:13 | Decoding the UTF-8 bytes of a text gives back the text. |
| UriComponent.DecodeEncode | src/components/Map/MarkerLayer.jsx:13 | `decodeURIComponent(encodeURIComponent(s)) == s` for every text. |
| SheetsService.KeptRows | src/services/googleSheetsService.js:26 | The kept rows are exactly the input rows that have an area number, a latitude and a longitude. |
| SheetsService.KeptRowsAppend | src/services/googleSheetsService.js:26 | Filtering a concatenation filters each part, so kept rows keep their order. |
| SheetsService.FetchMarkers | src/services/googleSheetsService.js:25-38 | There is one marker per kept row, numbered 1, 2, … after filtering. Columns are renamed (`adress` to `address`, `long` to `lng`). Every marker has an area number and both coordinates. |
| SheetsService.TallyOfSnoc | src/services/googleSheetsService.js:47-49 | One more marker adds one to its own area's total, and one to its done count when its status is `'1'`. Other areas are unchanged. |
| SheetsService.TallyOfCounts | src/services/googleSheetsService.js:44-50 | An area's total is how many markers carry it, and its done count is how many of those have status `'1'`, so done ≤ total. |
| SheetsService.CountMarker | src/services/googleSheetsService.js:46-49 | An unseen area is added with zero counts and appended to the key order. Then its total goes up by one, and its done count too for status `'1'`. Other areas are unchanged. |
| SheetsService.CountStep | src/services/googleSheetsService.js:45-50 | One pass of the count loop keeps the object and its key order in step with the markers seen. |
| SheetsService.CountStepTallies | src/services/googleSheetsService.js:47-49 | In one pass only the marker's own area changes its counts, exactly as one more marker of that area would. |
| SheetsService.CountAreas | src/services/googleSheetsService.js:44-50 | The loop's object has one key per area number. Each key holds the counts above. Keys are in first-met order. |
| SheetsService.AreaOrder | src/services/googleSheetsService.js:51 | `Object.entries` lists each area number once, and only area numbers of the markers. |
| SheetsService.AreaEntries | src/services/googleSheetsService.js:51-58 | Entry i is numbered i + 1 and carries its area's counts and rounded percentage. |
| SheetsService.AreaTable | src/services/googleSheetsService.js:44-58 | The table has one row per distinct area number of the markers. |
| SheetsService.AreaTableCounts | src/services/googleSheetsService.js:44-58 | Each table row counts how many markers carry its area and how many of those are done. Its done ≤ total and its progress ≤ 100. |
| SheetsService.AreaTableRows | src/services/googleSheetsService.js:44-58 | Every area number of the markers has a row, and no area has two. |
| SheetsService.AreaTableSum | src/services/googleSheetsService.js:44-58 | The table's totals add up to the number of markers. |
| SheetsService.AreaData | src/services/googleSheetsService.js:44-58 | The count loop and the entries mapping produce the markers' table. |
| SheetsService.FetchAreaData | src/services/googleSheetsService.js:42-59 | The result is the table of the fetched markers. |
| SheetsService.CountDone | src/services/googleSheetsService.js:65 | The done markers are never more than the markers. |
| SheetsService.Totals | src/services/googleSheetsService.js:64-67 | Total is the marker count and completed is the done count, with completed ≤ total. The percentage is at most 100.0 and 0 with no markers. |
| SheetsService.FetchProgressData | src/services/googleSheetsService.js:62-68 | Total is the number of kept rows. Completed ≤ total and the percentage is at most 100.0. |
| SheetsData.LastWins | src/hooks/useGoogleSheetsData.js:23-26 | The map's keys are exactly the area numbers, and each key holds a marker of that area. |
| SheetsData.LastWinsSnoc | src/hooks/useGoogleSheetsData.js:25 | A later marker overwrites its own area's entry and leaves the others alone. |
| SheetsData.LastWinsAt | src/hooks/useGoogleSheetsData.js:23-26 | For an area of the list, the kept marker is the one at the area's last position. |
| SheetsData.LastIndexIsLast | src/hooks/useGoogleSheetsData.js:23-26 | No marker after that position has the area. |
| SheetsData.LastWinsIsLast | src/hooks/useGoogleSheetsData.js:23-26 | The marker kept for an area is an input marker that no later input marker of the same area follows. |
| SheetsData.PickAll | src/hooks/useGoogleSheetsData.js:27 | When the object holds every listed key, `Object.values` gives one value per key, position by position. |
| SheetsData.Latest | src/hooks/useGoogleSheetsData.js:23-27 | The kept markers' area numbers are the object's keys in its listing order: one kept marker per area. |
| SheetsData.LatestMarkers | src/hooks/useGoogleSheetsData.js:23-27 | The dedup loop with its object's insertion order produces the kept markers in the object's listing order. |
| SheetsData.LatestAreaNumbers | src/hooks/useGoogleSheetsData.js:23-27 | The kept markers carry every input area number exactly once, in listing order. |
| SheetsData.LatestAreLast | src/hooks/useGoogleSheetsData.js:23-27 | Every kept marker is the last input marker of its area. |
| SheetsData.LatestAreaTable | src/hooks/useGoogleSheetsData.js:32-46 | After the dedup, each area's row has total 1 and progress 0 or 100. |
| SheetsData.Recompute | src/hooks/useGoogleSheetsData.js:21-51 | The hook's markers, table and figures are those of the deduplicated markers, and the markers' area numbers are distinct. |
| SheetsData.SheetsDataHook.constructor | src/hooks/useGoogleSheetsData.js:9-14 | The hook starts empty, with zero figures, loading, no error, and consistent. |
| SheetsData.SheetsDataHook.BeginFetch | src/hooks/useGoogleSheetsData.js:18-19 | While the fetches are pending, loading is on and the error is cleared, and the data cells keep their values. |
| SheetsData.SheetsDataHook.FinishFetch | src/hooks/useGoogleSheetsData.js:20-61 | From the pending state: a failed board fetch sets only the error. Otherwise the markers, table and figures are recomputed, and a failed progress fetch keeps the old progress sheet and sets the error. Loading ends off, and consistency is kept. |
| SheetsData.SheetsDataHook.FetchAllData | src/hooks/useGoogleSheetsData.js:16-61 | The pending step, then the finishing step. A failed board fetch sets only the error. Otherwise the markers, table and figures are recomputed, and a failed progress fetch keeps the old progress sheet and sets the error. Loading always ends off, and consistency is kept. |
| SheetsData.SheetsDataHook.ShowBoard | src/hooks/useGoogleSheetsData.js:29-59 | The recomputed values are stored, then the progress sheet or the progress fetch's error. Loading ends. |
| SheetsData.DedupExample | src/hooks/useGoogleSheetsData.js:23-51 | With two `A1` boards and one damaged `B2` board (status `'2'`), the later `A1` replaces the earlier, and one done of two gives 50.0%. |
| SheetsData.ExampleOrder | src/hooks/useGoogleSheetsData.js:27 | `A1` and `B2` are not array indices, so they are listed in first-seen order. |
| SheetsData.ExampleLastWins | src/hooks/useGoogleSheetsData.js:25 | The later `A1` marker overwrites the earlier one. |
| MarkerLayer.MarkerColor | src/components/Map/MarkerLayer.jsx:15-22 | Red exactly for `'0'`, blue exactly for `'1'`, orange exactly for `'2'`, grey exactly for any other status. |
| MarkerLayer.StatusText | src/components/Map/MarkerLayer.jsx:24-30 | The pasted label exactly for `'1'`, the damaged label exactly for `'2'`, the not-done label exactly for every other status. |
| MarkerLayer.MarkerIcon | src/components/Map/MarkerLayer.jsx:48-55 | The pasted pin exactly for `'1'`, the damaged pin exactly for `'2'`, the not-done pin exactly for every other status, `'0'` included. |
| MarkerLayer.PresentationAgrees | src/components/Map/MarkerLayer.jsx:15-55 | Pin, colour and label agree. Pasted means status `'1'`, which means counted as done. Damaged means status `'2'`. Only a status other than `'0'`, `'1'` and `'2'` is grey. |
| MarkerLayer.FormUrl | src/components/Map/MarkerLayer.jsx:12-13 | The link starts with base, `?usp=pp_url&`, entry id and `=`. The value after that decodes back to exactly the area number. |
| MarkerLayer.FormUrlCarriesArea | src/components/Map/MarkerLayer.jsx:12-13 | The link is base, `?usp=pp_url&`, entry id and `=`, then a value holding no `&`, `=`, `?` or `#` that decodes back to exactly the area number. |
| MarkerLayer.SplitCoordKeyOf | src/components/Map/MarkerLayer.jsx:81 | Splitting a group key at commas gives back the board's latitude and longitude when neither holds a comma. |
| MarkerLayer.CollectGroups | src/components/Map/MarkerLayer.jsx:58-63 | The grouping loop keys exactly the coordinates met, in first-met order, and each key holds its boards in input order. |
| MarkerLayer.CollectStep | src/components/Map/MarkerLayer.jsx:59-63 | One iteration (create the list if absent, push the board) keeps that invariant. |
| MarkerLayer.GroupMarkers | src/components/Map/MarkerLayer.jsx:58-64 | The loop followed by `Object.entries` yields the specified grouping. |
| MarkerLayer.EntriesOfCollected | src/components/Map/MarkerLayer.jsx:64 | `Object.entries` of the grouping object lists the groups in first-met order. |
| MarkerLayer.CoordKeysAreNotIndices | src/components/Map/MarkerLayer.jsx:64 | A key containing a comma is never an array index, so no key is reordered. |
| MarkerLayer.NewKeyHasNoMembers | src/components/Map/MarkerLayer.jsx:61 | A coordinate not met yet has no boards. |
| MarkerLayer.MembersCount | src/components/Map/MarkerLayer.jsx:59-63 | A group holds as many boards as there are boards at that coordinate. |
| MarkerLayer.MembersShareKey | src/components/Map/MarkerLayer.jsx:59-63 | Every board of a group is an input board at the group's coordinate. |
| MarkerLayer.MembersHas | src/components/Map/MarkerLayer.jsx:59-63 | Every board is in the group of its own coordinate. |
| MarkerLayer.GroupedSizes | src/components/Map/MarkerLayer.jsx:58-64 | The group sizes add up to the number of boards. |
| MarkerLayer.GroupedKeys | src/components/Map/MarkerLayer.jsx:58-64 | No two groups share a coordinate, and every board's coordinate has a group. |
| MarkerLayer.GroupedMembers | src/components/Map/MarkerLayer.jsx:58-64 | Groups are non-empty. A board is in a group exactly when it has the group's coordinate. |
| MarkerLayer.GroupedFirstOccurrence | src/components/Map/MarkerLayer.jsx:58-64 | A group listed earlier has its first board before any board of a later group. |
| MarkerLayer.MarkerKey | src/components/Map/MarkerLayer.jsx:88 | Whatever the coordinates and area numbers hold, the last comma-separated field of a pin key is the decimal group index. |
| MarkerLayer.PinKeysUnique | src/components/Map/MarkerLayer.jsx:88 | No two pins share a React key. |
| MarkerLayer.PinIconAgrees | src/components/Map/MarkerLayer.jsx:93 | A pin's icon matches the popup label of its first board. |
| MarkerLayer.PinPosition | src/components/Map/MarkerLayer.jsx:81-92 | A pin lists its group's boards in order and sits at each of their coordinates. |
| MarkerLayer.PinsOfBoards | src/components/Map/MarkerLayer.jsx:80-93 | Pin g of the rendered layer holds the boards of group g, at their coordinates. |
| MarkerLayer.Render | src/components/Map/MarkerLayer.jsx:80-104 | There is one pin per group. |
| MarkerLayer.MarkerPopup.constructor | src/components/Map/MarkerLayer.jsx:41 | No popup is open at first. |
| MarkerLayer.MarkerPopup.Click | src/components/Map/MarkerLayer.jsx:95-100 | Clicking a pin opens its group's popup at its position. |
| MarkerLayer.MarkerPopup.Close | src/components/Map/MarkerLayer.jsx:123 | The close button clears the popup. |
| MarkerLayer.BannerMeansSharedSite | src/components/Map/MarkerLayer.jsx:136 | The several-boards banner shows exactly when more than one board shares the coordinate. |
| ProgressSummary.Regions | src/components/ProgressSummary.jsx:55 | The buttons list each region of the area list once, and no other region. |
| ProgressSummary.RegionsListed | src/components/ProgressSummary.jsx:55 | Each region of the area list gets exactly one button, only such regions do, and they come in first-appearance order. |
| ProgressSummary.FilteredAreas | src/components/ProgressSummary.jsx:57-60 | `すべて` shows the whole area list. Any other selection shows exactly the areas of that region. |
| ProgressSummary.InRegionExactly | src/components/ProgressSummary.jsx:58-60 | The filter keeps exactly the areas of the selected region. |
| ProgressSummary.InRegionAppend | src/components/ProgressSummary.jsx:60 | Filtering a concatenation filters each part, so kept areas keep their order. |
| ProgressSummary.RegionFilter.constructor | src/components/ProgressSummary.jsx:52 | The selection starts at `すべて`. |
| ProgressSummary.RegionFilter.Select | src/components/ProgressSummary.jsx:103-112 | A region button sets the selection to that region. |
| ProgressSummary.MatchesIgnoresPadding | src/components/ProgressSummary.jsx:64-67 | Whitespace around a city or ward, on either side, does not change which rows match. |
| ProgressSummary.FindRow | src/components/ProgressSummary.jsx:64-67 | `find` returns the first matching row. No earlier row matches. |
| ProgressSummary.SummaryOf | src/components/ProgressSummary.jsx:63-77 | An area without a matching row shows zeros. Otherwise it shows the first matching row's total, done and progress. |
| ProgressSummary.Summaries | src/components/ProgressSummary.jsx:63-77 | There is one summary per shown area, in order. |
| ProgressSummary.InsertByProgressMultiset | src/components/ProgressSummary.jsx:79 | Inserting adds exactly the one row. |
| ProgressSummary.InsertByProgressStable | src/components/ProgressSummary.jsx:79 | Rows of equal progress keep their order, the inserted one going first. |
| ProgressSummary.InsertByProgressDescending | src/components/ProgressSummary.jsx:79 | Inserting into a descending list keeps it descending. |
| ProgressSummary.SortByProgress | src/components/ProgressSummary.jsx:79 | Sorting keeps the number of rows. |
| ProgressSummary.SortByProgressMultiset | src/components/ProgressSummary.jsx:79 | Sorting is a permutation. |
| ProgressSummary.SortByProgressDescending | src/components/ProgressSummary.jsx:79 | The sorted rows are in descending progress. |
| ProgressSummary.SortByProgressStable | src/components/ProgressSummary.jsx:79 | Rows of equal progress keep their relative order (the sort is stable). |
| ProgressSummary.SortByProgressCorrect | src/components/ProgressSummary.jsx:79 | The sort is a stable descending permutation. |
| ProgressSummary.SumsInsert | src/components/ProgressSummary.jsx:82-83 | Inserting a row adds its total and completed to the sums. |
| ProgressSummary.SumsSort | src/components/ProgressSummary.jsx:82-83 | The sums do not depend on the sort. |
| ProgressSummary.Summarize | src/components/ProgressSummary.jsx:55-84 | One row per shown area. The gauge is 0 when no board is counted. |
| ProgressSummary.SummarizeCorrect | src/components/ProgressSummary.jsx:55-84 | The rows are the shown areas' summaries, sorted. The figures are their sums. The gauge is 0 with no boards, and at most 100.0% when no sheet row has done > total. |
| ProgressSummary.CompletedAtMostTotal | src/components/ProgressSummary.jsx:82-84 | When no sheet row has done > total, the completed sum is at most the total sum. |

## Left out

- Network and credentials. The Google Sheets client, `fetch`, the environment variables and the HTTP status replies are outside the model. The handler's functions take the fetched `values`. The hook takes each fetch's outcome as a `Result`. The form's base address and entry id are parameters.
- The handler's 500 reply (`{ error }`) is not modelled as its own path.
  - A failed board fetch is the hook's `Err` case.
  - The model treats a failed progress fetch as throwing. The source stores a 500 reply's JSON object as the progress sheet without setting an error; that path is not modelled.
- Numbers are whole numbers written in decimal digits.
  - `Number` and `parseFloat` are modelled on digits only. Fractions, signs, exponents, hexadecimal and `Infinity` are outside the model.
  - Counts and percentages are unbounded integers, and rounding is exact integer arithmetic. Floating-point error of JavaScript doubles is not modelled.
- SheetsApi.ProgressSheet: a fractional progress cell is not read as its JavaScript value. With a `%` (`42.5%`) the model reads the whole part, 42; the source gives 42.5. Without a `%` (`42.5`) the model reads 0, as it does any text `Number` would read as a fraction, a signed number or an exponent; the source gives 42.5. Such an area shows progress 0 and sorts after every area with progress.
- SheetsApi.CountCell: any cell that JavaScript's `Number` reads as a fraction, a signed number or an exponent (`12.0`, `-3`, `1e3`) reads as 0 in the model. The source gives its numeric value (12, -3, 1000).
- ProgressSummary.SummaryOf: `Math.round(progress * 10) / 10` is the identity on whole-number progress, so it is not written out.
- SheetsService.FetchMarkers: `lat` and `lng` are kept as the sheet's text, not as `parseFloat` results.
  - Group keys and pin keys are built from that text. The source's `Number(String(x))` normalisation (for example `35.10` shown as `35.1`) is not modelled. Two boards whose coordinates differ only in such spelling fall into separate groups in the model.
- SheetsService.FetchMarkers: `String(row.status)` is taken as the status text itself. The handler always emits the `status` key as text, so a missing key is read as `''`, not `"undefined"`.
- Object keys `__proto__` and inherited names are not special in the model.
  - Coordinate keys always contain a comma, so they cannot clash.
  - An area number spelled like an inherited property name is outside the model.
- Lone UTF-16 surrogates cannot occur in Dafny strings, so the `URIError` of `encodeURIComponent` is not modelled.
- `getScreenPosition`, the popup's `screenPos` and the popup's CSS placement are left out. They depend on the Leaflet map projection.
- Console logging is left out, and so is the `useEffect` that logs `activePopup`.
- `refreshData` and the `useEffect` that fetches on mount are left out. They only call `fetchAllData`, which is modelled. Concurrent, overlapping fetches are not modelled.
- `CircularProgress` and the rest of the summary page's rendering are drawing code and are left out.
- `fetchSheetData`, `fetchVoteVenues`, `getFallbackData` and the other components are outside the core, and so are the proxy servers.
- `src/data/areaMaster.js` is not part of this model. The area list is a parameter of `ProgressSummary.Summarize`.
- `getMarkerColor` is modelled (`MarkerLayer.MarkerColor`), although the layer draws SVG icons and never calls it.
