# ParkingPal in Dafny

ParkingPal reports how full the parking lots of a university campus are. A FastAPI backend
keeps the lots in a PostgreSQL `lots` table. It counts vehicles entering and leaving, randomises
occupancy for demonstrations, stores user-dropped pins that expire after 30 minutes, and serves
`GET /lots`. That endpoint filters the lots by category and search text, sorts them by percent
full or by name, and reports each lot with its crowd state (EMPTY, LIGHT, MEDIUM, HEAVY, FULL).
The React Native frontend has four pieces modelled here:

- a fixed catalog of lot rectangles drawn over a campus map image;
- a web map component that places markers with hover tooltips;
- a small HTTP client;
- a global language setting.

This project models that core and proves what each piece promises.

| module | file | models |
|---|---|---|
| `Wrappers`, `Seqs`, `PyText` | wrappers.dfy, seqs.dfy, pytext.dfy | Option/Result; ordered filtering and first-match search; the Python string operations the backend uses (`lower`, `isdigit`, `int`, `in`, `lstrip`, `startswith`, `<`) |
| `LotModel` | lot_model.dfy | `Lot`, `LotSummary` and `lot_dict` of api/lot_helper.py |
| `LotDatabase` | lot_database.dfy | api/lot_database.py: the `lots` table as a class, row to `Lot` mapping, lookups, randomisation |
| `LotCounter` | lot_counter.dfy | `update_lots_current` of api/lot_helper.py |
| `Occupancy` | occupancy.dfy | `full_type` and `to_summary` of api/main.py |
| `LotSort` | lot_sort.dfy | the stable `sort` of `list_lots` |
| `ParkingApi` | parking_api.dfy | `list_lots` of api/main.py |
| `PinDatabase` | pin_database.dfy | api/pin_database.py: the `pins` table as a class |
| `CampusLots` | campus_lots.dfy | frontend/src/ui/data/campusLots.ts and the lookup by id of the details screen |
| `MapScreen` | map_screen.dfy | the region layout of frontend/src/ui/screens/MapScreen.tsx |
| `MapboxWeb` | mapbox_view.dfy | frontend/src/ui/MapboxView.web.tsx |
| `HttpClient` | http_client.dfy | frontend/src/api/httpClient.ts |
| `LangSave` | lang_save.dfy | frontend/src/langSave.ts |

The backend's database calls become classes that hold the table's rows. Python's `random()`
becomes a sequence of draws in [0, 1), passed as a parameter. The clock becomes a parameter
`now`, in whole seconds. React effects become methods, which the caller invokes in the order
React runs them.

## Model

| member | source | states |
|---|---|---|
| LotModel.LotDict | api/lot_helper.py:31-33 | the table's keys are exactly the ids 0 to 11 |
| LotModel.LotDictNames | api/lot_helper.py:32 | ids 0..11 name P1, P2, P3, P5, P6, P9, P10, P11, P13, P15, P20, P27 in that order |
| LotModel.LotDictSize | api/lot_helper.py:32 | the table has exactly 12 entries |
| LotDatabase.RowToLot | api/lot_database.py:39-47 | a fetched row becomes the `Lot` whose column order gives back exactly that row |
| LotDatabase.RowLotRoundTrip | api/lot_database.py:66-73 | a row's positions 0..5 become lot_id, lot_name, total_capacity, current, type, hours, and the mapping loses nothing in either direction |
| LotDatabase.Trunc | api/lot_database.py:103 | Python's `int()` on a float truncates toward zero: the result lies within 1 of the argument, on the side of 0 |
| LotDatabase.Scaled | api/lot_database.py:106 | `random() * k` for a draw in [0, 1) lies between 0 (included) and k (excluded), on k's side of 0 |
| LotDatabase.RandCapacity | api/lot_database.py:102-103 | for a draw in [0, 1) the capacity lies in [50, 549] |
| LotDatabase.RandCurrent | api/lot_database.py:105-106 | for a draw in [0, 1) the occupancy lies in [0, capacity - 1] when capacity >= 1; it is 0 for capacity 0 and lies in (capacity, 0] for a negative capacity |
| LotDatabase.RandomizedRow | api/lot_database.py:118-123 | a randomised row keeps its id, name, type and hours and gets a capacity in [50, 549] with an occupancy below it |
| LotDatabase.RandomizedProperties | api/lot_database.py:109-130 | randomising never changes ids, names, types or hours; with `all_lots` every row is rewritten within bounds; otherwise only rows with the given id change |
| LotDatabase.RandomizedAllInBounds | api/lot_database.py:113-123 | after randomising all lots, every lot has 0 <= current <= total_capacity |
| LotDatabase.LotsTable.FetchAllLots | api/lot_database.py:16-50 | one `Lot` per row, mapped by position, in table order, which is ascending `lot_id` |
| LotDatabase.LotsTable.FetchLotById | api/lot_database.py:52-75 | None exactly when no row has the id; otherwise the lot of the one row with that id |
| LotDatabase.LotsTable.FetchLotByName | api/lot_database.py:77-100 | None exactly when no row has the name; otherwise the lot of a row with that name, the first one in stored order (the query has no ORDER BY; see Left out) |
| LotDatabase.LotsTable.RandomizeLotData | api/lot_database.py:109-135 | `all_lots` defaults to false; the new table is `Randomized` of the old one, with draws 2i and 2i+1 for row i, or draws 0 and 1 for a single lot; ids keep the strictly ascending order the model assumes of `lot_id` as primary key (see Left out) |
| LotCounter.Guard | api/lot_helper.py:44-49 | an entry is rejected exactly when current + 1 > total_capacity; an exit is rejected exactly when current - 1 < 0 |
| LotCounter.ApplyEventEffect | api/lot_helper.py:41-54 | a missing lot happens exactly when no row has the id; rejections leave the table unchanged; an accepted event moves only the target's `current` by 1 in its direction, and every other field and every other lot stays as it was |
| LotCounter.ApplyEventKeepsBounds | api/lot_helper.py:44-54 | starting from 0 <= current <= total_capacity everywhere, every event keeps that invariant |
| LotCounter.EnterThenExit | api/lot_helper.py:44-54 | in a table within bounds, the opposite event undoes an accepted event exactly |
| LotCounter.UpdateLotsCurrent | api/lot_helper.py:35-59 | the outcome and the new table are `ApplyEvent` of the old table; the occupancy bounds, and the strictly ascending ids the model assumes of `lot_id` as primary key (see Left out), are preserved |
| Occupancy.TruncDiv | api/main.py:25 | the quotient truncated toward zero, for every sign of dividend and divisor; equal to floor division for a non-negative dividend and a positive divisor |
| Occupancy.PercentFull | api/main.py:25 | for a positive capacity and a non-negative current, p is the largest integer with p * capacity <= current * 100; it lies in [0, 100] when 0 <= current <= capacity |
| Occupancy.FullType | api/main.py:16-21 | EMPTY iff p = 0; LIGHT iff p != 0 and p < 40 (negatives included); MEDIUM iff 40 <= p < 70; HEAVY iff 70 <= p < 90; FULL iff p >= 90 |
| Occupancy.FullTypeMonotone | api/main.py:16-21 | for 0 <= p <= q the state of q is never lighter than the state of p |
| Occupancy.ToSummary | api/main.py:24-35 | the summary copies id, name, capacity, current, type and hours unchanged, carries `PercentFull`, and sets state = full_type(percent_full); a zero capacity is excluded by type, since the source raises there |
| Occupancy.EmptyMeansUnderOnePercent | api/main.py:16-25 | a lot is reported EMPTY exactly when it is less than 1% occupied |
| Occupancy.FullMeansNinetyPercent | api/main.py:16-25 | a lot is reported FULL exactly when at least 90% of its capacity is taken |
| PyText.Lower | api/main.py:65 | same length; each ASCII capital becomes lower case and every other character is unchanged |
| PyText.LowerIdempotent | api/main.py:65 | lower-casing twice is lower-casing once |
| PyText.DigitsRoundTrip | api/main.py:68 | `int()` of the decimal digits of n is n |
| PyText.LStrip | api/main.py:80 | the result is a suffix that does not start with the character, and everything removed is that character |
| LotSort.SortKeyOf | api/main.py:83-87 | the key is a percentage exactly when sorting by percent_full, then the lot's `PercentFull`; otherwise the lower-cased name |
| LotSort.SortLots | api/main.py:89 | the sorted list has as many lots as the input (its other properties are the three lemmas below) |
| LotSort.SortLotsSorted | api/main.py:83-89 | the sorted list never has a lot followed by one whose key should come strictly before it (ascending, or descending with `reverse`) |
| LotSort.SortLotsPermutation | api/main.py:89 | sorting is a permutation of its input |
| LotSort.SortLotsStable | api/main.py:89 | lots with equal keys keep their relative order, as Python's stable sort does with or without `reverse` |
| ParkingApi.LotMatches | api/main.py:64-72 | `lot_matches` raises ValueError exactly when the category passes and the search is all digits, more than 4300 of them; otherwise a lot matches iff the category is absent or equal ignoring case, and the search is absent, or is all digits naming the lot's id, or occurs in the name ignoring case |
| ParkingApi.NoFilterKeepsAll | api/main.py:64-77 | with neither category nor search, every lot is listed |
| ParkingApi.SearchByIdFindsLot | api/main.py:68-69 | searching for the lot's id in decimal finds it whatever its name, unless the id has more than 4300 digits, when `int()` raises ValueError |
| ParkingApi.SearchByName | api/main.py:65-71 | a search that is neither the id nor too many digits for `int()` matches iff it occurs in the name ignoring case; a category mismatch rejects the lot even when the search names its id |
| ParkingApi.SortField | api/main.py:80 | the field does not start with '-', and the option is a run of '-' followed by the field |
| ParkingApi.Descending | api/main.py:81 | descending exactly when stripping the leading '-' removed something |
| ParkingApi.SortOptions | api/main.py:61-87 | "percent_full" and "-percent_full" sort by percentage, "lot_name" and "-lot_name" by name, descending exactly for the '-' forms; "--percent_full" is descending by percentage |
| ParkingApi.Summaries | api/main.py:91-94 | one `to_summary` per lot, in order |
| ParkingApi.ListLotsSorts | api/main.py:74-96 | when the filter raises nothing and no matching lot has capacity 0, the response is the stable sort of the matching lots, summarised |
| ParkingApi.ListLotsErrors | api/main.py:64-96 | the endpoint fails with ValueError exactly when the search is more than 4300 digits and some lot passes the category (whatever the capacities); otherwise with ZeroDivisionError exactly when a matching lot has capacity 0; otherwise it answers |
| ParkingApi.ListLotsContents | api/main.py:74-96 | a successful response is one summary per matching lot, as a permutation of exactly those lots, each with its percent-full and that percentage's state |
| ParkingApi.ListLotsOrdered | api/main.py:80-89 | the response is ordered by percent_full when the option, with every leading '-' stripped, is "percent_full", and by lower-cased name otherwise; it is descending exactly when the option starts with '-' |
| ParkingApi.ListLotsStable | api/main.py:89 | lots with equal keys appear in table order |
| ParkingApi.ListLots | api/main.py:57-96 | with the endpoint's defaults (no search, no category, "percent_full"), the filter loop, the zero check, the sort and the summary loop compute `ListLotsSpec` |
| ParkingApi.MatchingLots | api/main.py:74-77 | the filter loop raises ValueError when `lot_matches` raises for some lot, and otherwise keeps exactly the matching lots, in table order |
| ParkingApi.AnyZeroCapacity | api/main.py:85 | true exactly when some matching lot has capacity 0, where the sort key (and then `to_summary`) would raise ZeroDivisionError |
| ParkingApi.SummarizeLots | api/main.py:91-94 | the summary loop appends one `to_summary` per sorted lot, in order |
| PinDatabase.CreatePinObject | api/pin_database.py:49-54 | the pin carries the given (or default -1, 0.0, 0.0) lot id and location, stamped with the current time |
| PinDatabase.InsertEffect | api/pin_database.py:31-47 | an insert is accepted exactly for lot ids 0..11; then it adds exactly that pin once at the end; otherwise nothing changes |
| PinDatabase.DefaultPinRejected | api/pin_database.py:49-54 | a pin made with the defaults names lot -1 at (0.0, 0.0), and inserting it changes nothing |
| PinDatabase.UnexpiredMembership | api/pin_database.py:17-20 | a pin survives the delete exactly when it was stored and is at most 30 minutes old; survivors keep their multiplicity |
| PinDatabase.ExpiryComposes | api/pin_database.py:17-20 | deleting twice at one moment equals deleting once; deleting at `now` and then at a later time equals deleting once at the later time |
| PinDatabase.PinRecordFields | api/pin_database.py:66-73 | a fetched record has exactly the keys lot_id, loc_x, loc_y and time_alive, holding row positions 0..3, and the pin can be read back from it |
| PinDatabase.PinTable.InsertPin | api/pin_database.py:31-47 | the table becomes `Inserted(old, pin)`; the result says whether the lot id was valid; every stored pin keeps naming a known lot |
| PinDatabase.PinTable.DeleteOldPins | api/pin_database.py:13-26 | the table becomes its unexpired pins, in order |
| PinDatabase.PinTable.FetchAllPins | api/pin_database.py:56-75 | one record per row, each built from the row's first four positions, rows in stored order (the query has no ORDER BY; see Left out) |
| CampusLots.CatalogInvariants | frontend/src/ui/data/campusLots.ts:11-31 | ten blocks with strictly ascending ids; every rectangle lies in the unit square with positive size; each (id, name) is the backend's `lot_dict` entry; only lot 10 (P20) has a map anchor |
| CampusLots.FindLot | frontend/src/ui/screens/LotDetailsScreen.tsx:15 | a catalog block with that id, or None exactly when no block has it |
| CampusLots.FindLotCatalog | frontend/src/ui/screens/LotDetailsScreen.tsx:15-26 | exactly the ids 0-5, 7, 9, 10 and 11 are found, with the backend's name; 6 and 8 give "Lot not found" |
| MapScreen.RegionOf | frontend/src/ui/screens/MapScreen.tsx:22-32 | a region is keyed by the id, labelled by the name, at left/top/width/height = 100·x, 100·y, 100·w, 100·h percent |
| MapScreen.Regions | frontend/src/ui/screens/MapScreen.tsx:20-22 | one region per block, in catalog order |
| MapScreen.OnPress | frontend/src/ui/screens/MapScreen.tsx:23 | pressing navigates to "LotDetails" with the region's id |
| MapScreen.MapRegions | frontend/src/ui/screens/MapScreen.tsx:20-24 | the map renders one region per catalog lot, with distinct keys in ascending order, each labelled with its name and opening its own lot |
| MapScreen.FrameHeight | frontend/src/ui/screens/MapScreen.tsx:44 | the frame's width over its height is 1692/1306 |
| MapScreen.PixelsAreFractions | frontend/src/ui/screens/MapScreen.tsx:27-32 | a region's pixel box is its normalised rectangle times the frame's width and height |
| MapScreen.PixelsScale | frontend/src/ui/screens/MapScreen.tsx:44 | resizing the frame by k scales every pixel box by k |
| MapScreen.RegionInsideFrame | frontend/src/ui/screens/MapScreen.tsx:28-31 | a valid rectangle's box lies inside the frame |
| MapScreen.AllRegionsInsideFrame | frontend/src/ui/screens/MapScreen.tsx:20-32 | every catalog region lies inside the frame, whatever its width |
| MapboxWeb.ResolveToken | frontend/src/ui/MapboxView.web.tsx:37-39 | the access token is the first variable when set, even if empty, and the fallback only when it is unset |
| MapboxWeb.EmptyTokenShadowsFallback | frontend/src/ui/MapboxView.web.tsx:37-39 | an empty first variable yields a falsy token however good the fallback is; an unset one lets a usable fallback through |
| MapboxWeb.Show | frontend/src/ui/MapboxView.web.tsx:161-164 | the shown style (opacity 1, offset 0), which is not the hidden one; the text is kept |
| MapboxWeb.Hide | frontend/src/ui/MapboxView.web.tsx:165-168 | the hidden style (opacity 0, offset 6px), which is not the shown one; the text is kept |
| MapboxWeb.OnEvent | frontend/src/ui/MapboxView.web.tsx:161-173 | mouseenter and focusin show the tooltip (opacity 1, offset 0); mouseleave and focusout hide it (opacity 0, offset 6px); the text is kept |
| MapboxWeb.LastEventWins | frontend/src/ui/MapboxView.web.tsx:161-173 | a tooltip's style depends only on the last event |
| MapboxWeb.Place | frontend/src/ui/MapboxView.web.tsx:110-181 | a placed marker keeps the input's id, is labelled by its name and sits at its coordinate; its tooltip reads the name and the detail, or "Loading…" without one, and starts hidden |
| MapboxWeb.PlaceAll | frontend/src/ui/MapboxView.web.tsx:105-110 | no input gives no markers; otherwise exactly one placed marker per entry, in input order |
| MapboxWeb.PlaceAllFresh | frontend/src/ui/MapboxView.web.tsx:145 | after a sync every tooltip is hidden and the markers carry the input's ids in order |
| MapboxWeb.MapboxView.constructor | frontend/src/ui/MapboxView.web.tsx:47-64 | the props are stored, with `bounds` absent and `interactive` false by default; no map and no markers, `mapReady` false |
| MapboxWeb.MapboxView.ResetTarget | frontend/src/ui/MapboxView.web.tsx:68-74 | reset targets the configured center and zoom with bearing 0, pitch 0 and 300 ms, the same target on every call |
| MapboxWeb.MapboxView.Reset | frontend/src/ui/MapboxView.web.tsx:66-76 | nothing happens before the map exists; otherwise the last camera request is `ResetTarget()`; nothing else changes |
| MapboxWeb.MapboxView.Mount | frontend/src/ui/MapboxView.web.tsx:78-94 | a map is made exactly when there is a container and a truthy token; then it is ready, created with the configured center, zoom and `interactive` flag, with max bounds [sw, ne] if bounds were given and none otherwise |
| MapboxWeb.MapboxView.Unmount | frontend/src/ui/MapboxView.web.tsx:96-100 | the map is gone and `mapReady` is false |
| MapboxWeb.MapboxView.SyncMarkers | frontend/src/ui/MapboxView.web.tsx:103-110 | nothing changes unless the map is ready and exists; otherwise the markers become exactly `PlaceAll(input)` |
| MapboxWeb.MapboxView.CleanupMarkers | frontend/src/ui/MapboxView.web.tsx:183-186 | the marker list is emptied |
| MapboxWeb.MapboxView.HandleWrapperEvent | frontend/src/ui/MapboxView.web.tsx:161-173 | only the tooltip of that marker is restyled; every tooltip stays either shown or hidden |
| MapboxWeb.MapboxView.Click | frontend/src/ui/MapboxView.web.tsx:130 | a click reports that marker's id to the handler when one is given and changes nothing |
| HttpClient.StripTrailingSlashes | frontend/src/api/httpClient.ts:11 | the result is a prefix that does not end with '/', and everything removed is '/' |
| HttpClient.StripIdempotent | frontend/src/api/httpClient.ts:11 | stripping twice is stripping once; a URL not ending in '/' is unchanged |
| HttpClient.StripAfterSlashes | frontend/src/api/httpClient.ts:11 | appending any number of '/' does not change the stripped result |
| HttpClient.JsString | frontend/src/api/httpClient.ts:23 | `String(value)`; a non-negative integer becomes decimal digits whose value is the number, as JavaScript renders integers below 2^53 (see Left out) |
| HttpClient.QueryParamsKeepsPresent | frontend/src/api/httpClient.ts:20-25 | undefined and null values are skipped, and every other entry is appended once, in entry order, as (key, String(value)) |
| HttpClient.QueryParamsAppend | frontend/src/api/httpClient.ts:21-25 | the parameters of concatenated entries are the parameters of each, in order |
| HttpClient.QueryParamsAllAbsent | frontend/src/api/httpClient.ts:21-25 | entries that are all undefined or null add no parameters |
| HttpClient.ApiBaseUrl | frontend/src/api/httpClient.ts:45-47 | the shared client's base is the environment's URL when set, else http://127.0.0.1:8000 |
| HttpClient.HttpClient.constructor | frontend/src/api/httpClient.ts:10-12 | the stored base URL is the configured one with its trailing '/' run stripped, so it never ends with '/' |
| HttpClient.HttpClient.Get | frontend/src/api/httpClient.ts:14-26 | the query is optional, and no query gives no parameters; otherwise the parameters are `QueryParams` of the entries; base and path are passed on, and the base never ends with '/' |
| LangSave.LangHolder.constructor | frontend/src/langSave.ts:2 | the initial language is "en" |
| LangSave.LangHolder.GetLang | frontend/src/langSave.ts:4-6 | the stored language, always "en" or "es" |
| LangSave.LangHolder.SetLang | frontend/src/langSave.ts:8-10 | afterwards `GetLang()` is the language set, whatever was stored before, so the last call wins and setting a value twice is setting it once |

## Left out

- PercentFull: it computes `int((current / total_capacity) * 100)` (api/main.py:25, 85) exactly, as truncated integer division of current·100 by the capacity. The source's floating-point result can be 1 lower; for example 29/100 gives 28.
- Floating point in general: `loc_x`, `loc_y`, the map coordinates, zoom and the catalog fractions are exact reals, and the style percentages `${x * 100}%` are exact products, not JavaScript doubles or their string forms.
- HttpClient.JsString: numbers are integers only, so `String()` of a fractional or non-finite JavaScript number is not modelled. Every integer renders as its exact digits; JavaScript rounds integers above 2^53 to a double first, and renders 10^21 and above in exponent notation (`"1e+21"`).
- PyText.Lower: it folds ASCII capitals only, and `isdigit` accepts ASCII digits only. Python's Unicode case mapping and Unicode digits are not modelled.
- SQL and psycopg2 I/O, connections and commits, FastAPI routing, CORS and `printTableContents` are not modelled; tables are in-memory classes. The unordered `SELECT * FROM lots` of `randomize_Lot_Data` is taken to return rows in table order.
- LotDatabase.IdsAscending / LotsTable.Valid: `lot_id` is assumed to be the `lots` table's primary key, since the schema is not part of this model, and the rows are kept in ascending id order. With duplicate ids the source's `UPDATE … WHERE lot_id = …` statements change every duplicate and `fetch_lot_by_id` may return any of them; that behaviour is not modelled.
- LotDatabase.LotsTable.FetchLotByName: `SELECT * FROM lots WHERE lot_name = %s` has no ORDER BY, so when several rows share a name PostgreSQL's `fetchone()` may return any of them; the model returns the first in stored order.
- PinDatabase.PinTable.FetchAllPins: `SELECT * FROM pins` has no ORDER BY, so PostgreSQL may return the rows in any order (after updates heap order need not be insertion order); the model returns them in stored order.
- ParkingApi.LotMatches: the 4300-digit limit of `int()` is Python's default from 3.11 on. A limit changed through `PYTHONINTMAXSTRDIGITS` or `sys.set_int_max_str_digits`, and older Pythons without a limit, are not modelled.
- LotCounter.UpdateLotsCurrent: the model runs one call at a time. In the source the guard reads through `fetch_lot_by_id` on a connection of its own and the relative `UPDATE … current = current + 1` runs later without a lock, so two concurrent entries into a lot with one free space both pass the guard and leave current = capacity + 1.
- LotCounter.ApplyEventKeepsBounds: the bounds hold for events applied one at a time only; concurrent `update_lots_current` calls can break them, as the line above describes.
- `random()` becomes a parameter sequence of draws in [0, 1), and `datetime.now()`/`NOW()` becomes a parameter `now` in whole seconds.
- The pin timestamp column: `insert_pin` writes a column named `time_created` (api/pin_database.py:39) while `delete_old_pins` filters on `time_alive` (api/pin_database.py:19). The model keeps one logical timestamp per pin, read by both.
- `checkValidPinLoc` (api/pin_database.py:28-29) has an empty body and is not modelled.
- The rest of api/main.py (`random_lot_event`, the other endpoints), api/detection_database.py, api/test_components.py and the root-level duplicates of the backend files are not part of this model.
- `update_lots_current` prints a message on a rejected event and raises AttributeError on a missing lot. Both become values of `UpdateOutcome`.
- mapbox-gl is opaque. Only whether a map exists, its last max bounds and its last camera request are recorded: no projection, animation, bound clamping or resize. The resize effect (frontend/src/ui/MapboxView.web.tsx:189-200), the DOM styling of the marker elements and the module-level console warning are not modelled.
- MapboxWeb.MapboxView: the props are fixed for a view's lifetime, so re-running effects when `centerCoordinate`, `zoomLevel`, `markers` or `onMarkerPress` change is up to the caller's sequence of calls.
- frontend/src/ui/MapboxView.tsx, frontend/src/ui/mapbox.ts, frontend/src/api/lotApi.ts, the screens' rendering and navigation scaffolding, App.tsx and parking-map are not part of this model.
- HttpClient.HttpClient.Get: `new URL` resolution, `fetch`, the logging and the error path for a non-OK response are not modelled. `Get` returns the base, path and search parameters it would use.
