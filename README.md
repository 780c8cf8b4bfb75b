# Pilotage status tables — a Dafny model

This project models the front end of a vessel-pilotage tracker. The tracker
takes snapshot rows of a pilotage feed, one per capture of a vessel's
pilotage lifecycle, and shows them in a table with a human-readable status
per row. It also validates the IMO number a user searches for. Two versions
of the table exist in the repository, and both are modelled:

- **The current table** (`src/components/Table.tsx`) works in four steps.
  - It keeps the eight newest snapshots of each vessel, with vessels in
    first-seen order and each vessel's rows newest first.
  - It marks the latest row of each vessel.
  - It classifies each row's journey direction from its two location codes:
    arriving, leaving, or moving between anchorages.
  - It selects a phase from which of the four optional timestamps are
    present: arrival, onboard, start and end. From the phase it renders an
    English and a Chinese message from a fixed template table. Estimated
    times are a fixed offset after an anchor timestamp.
- **The earlier table** (`my-app/src/components/Table.tsx`) keeps only the
  newest snapshot per vessel. Its messages are English only and rendered in
  the host's time zone. For an arrival requested more than a day ahead, it
  offers an arrival window. A vessel moving between anchorages gets no case.
- **The search bar** (`src/components/SearchBar.tsx`) accepts an IMO number
  only when it is seven digits whose last digit is the check digit. The
  check digit is the sum of the first six digits weighted 7 down to 2,
  modulo 10. Only a valid number is handed on to the search.

## Design

Modules, in dependency order:

- `PilotageData`: the snapshot record. Timestamps stay raw strings, and a
  timestamp is present when it is non-null and non-empty. The module also
  holds `Host`, the JavaScript `Date` services the code calls. These are
  `parse` (`new Date(s).getTime()`), `showSingapore` and `showLocal`
  (`toLocaleString`, with or without `timeZone: 'Asia/Singapore'`) and
  `toIso` (`toISOString`). They are passed in as a parameter.
- `TimeFormat`: `trim`, the appended `Z`, `formatDateTime`, and estimates.
- `RuleTable`: an ordered first-match rule table over the presence pattern.
- `StatusMessages`: the bilingual template table.
- `VesselStatus`: the current table's status functions. Each is written as
  the source's `if` chain and proved equal to its rule table.
- `VesselGroups`: per-vessel filtering, the `Map` key order, and `isLatestSnapshot`.
- `RecentSnapshots` and `LatestSnapshot`: the two per-vessel windows. Each
  is a method with the source's loop, proved against a specification function.
- `LegacyStatus`: the earlier table's statuses.
- `SearchBar`: the IMO check and the search bar state as a class.

Two behaviours of the code are worth stating plainly:

- **Which row is marked latest.** `isLatestSnapshot` marks only the first
  row of a vessel in the shown list; other rows with the same newest
  capture time are not marked. The marked row is a newest one
  (`RecentSnapshots.LatestIsNewest`), and it is the only row of its vessel
  with no earlier row of that vessel (`VesselGroups.LatestIsFirstOfVessel`).
- **The anchor of an estimate.** The estimate is anchored on
  `new Date(raw)` of the raw string. Displayed timestamps get a `Z`
  appended first; this anchor does not. A zone-less anchor is therefore
  read in the host's zone, not as UTC. The model keeps this: `Eta` holds
  the raw anchor, and `EtaInstant` parses it as it is.

## Model

| member | source | states |
|---|---|---|
| TimeFormat.TrimStart | src/components/Table.tsx:54 | the result is a suffix of the input and does not start with a JavaScript white-space character |
| TimeFormat.TrimStartDropsOnlySpace | src/components/Table.tsx:54 | every character that leading trimming drops is white space |
| TimeFormat.TrimEnd | src/components/Table.tsx:54 | the result is a prefix of the input and does not end with white space |
| TimeFormat.TrimEndDropsOnlySpace | src/components/Table.tsx:54 | every character that trailing trimming drops is white space |
| TimeFormat.Trim | src/components/Table.tsx:54 | `trim()` returns a stretch of the input with no white space at either end, and everything it drops before or after that stretch is white space |
| TimeFormat.TrimFixesTrimmed | src/components/Table.tsx:54 | a string without white space at its ends is left unchanged by `trim()` |
| TimeFormat.TrimIdempotent | src/components/Table.tsx:54 | trimming twice is trimming once |
| TimeFormat.ZoneNormalized | src/components/Table.tsx:54-57 | the string handed to `new Date` ends with `Z`; it is the trimmed input exactly when that already ends with `Z`, and the trimmed input plus `Z` otherwise |
| TimeFormat.ZoneNormalizedIdempotent | src/components/Table.tsx:54-57 | normalising a normalised string changes nothing, so at most one `Z` is ever added |
| TimeFormat.ConvertToSingaporeTime | src/components/Table.tsx:52-59 | null exactly for a null or empty input; otherwise the trimmed input with `Z` appended unless present, a `Z`-terminated string that is its own normal form |
| TimeFormat.FormatDateTime | src/components/Table.tsx:61-72 | "N/A" for an absent timestamp, otherwise the Singapore rendering of the instant the normalised string denotes |
| TimeFormat.EtaInstant | src/components/Table.tsx:118-120 | an estimate lies its offset in minutes, as milliseconds, after its raw anchor parsed as it is, and never before the anchor for a non-negative offset |
| TimeFormat.Estimated | src/components/Table.tsx:145-147 | an estimate is shown as "N/A" when its ISO string is empty, otherwise as the Singapore rendering of the normalised ISO string of its instant |
| TimeFormat.FormatInstant | src/components/Table.tsx:118-120 | an instant rendered through `toISOString` and `formatDateTime` is shown as the Singapore rendering of the normalised ISO string |
| StatusMessages.English | src/components/Table.tsx:9-50 | the English templates; the text is "Unknown status." exactly for the unknown entry, since every other template opens with another letter |
| StatusMessages.Chinese | src/components/Table.tsx:9-50 | the Chinese templates; the text is "未知状态。" exactly for the unknown entry |
| StatusMessages.Message | src/components/Table.tsx:9-50 | both halves of a message come from the same entry with the same arguments |
| StatusMessages.UnknownMessageOnlyFromUnknown | src/components/Table.tsx:9-50 | a rendered message is the unknown pair if and only if the status is unknown |
| VesselStatus.DirectionOf | src/components/Table.tsx:300-319 | moving between anchorages iff both codes start with `A`; arriving iff from `P` to `A`; leaving iff from `A` to `P` |
| VesselStatus.DirectionByLeadingLetters | src/components/Table.tsx:300-307 | the direction depends only on the first character of each code; an empty code gives no known direction |
| VesselStatus.TablesAreExclusive | src/components/Table.tsx:94-298 | within each direction's phase table no presence pattern matches two rows |
| VesselStatus.MatchingRowDecidesPhase | src/components/Table.tsx:94-298 | since the tables are exclusive, any row a presence pattern matches decides the phase, whatever its position in the table |
| VesselStatus.ArrivingFollowsTable | src/components/Table.tsx:94-173 | the arriving `if` chain selects the same phase as the first matching row of the arriving table |
| VesselStatus.LeavingFollowsTable | src/components/Table.tsx:176-202 | the leaving `if` chain equals the first match in the leaving table |
| VesselStatus.MovingFollowsTable | src/components/Table.tsx:204-298 | the moving-between-anchorages `if` chain equals the first match in its table |
| VesselStatus.ArrivingStatus | src/components/Table.tsx:94-173 | the entry is the arriving table's phase; each entry carries the source's arguments, with estimates of request + 2 h, onboard + 2 h and start + 90 min |
| VesselStatus.LeavingStatus | src/components/Table.tsx:176-202 | the entry is the leaving table's phase; "left anchorage" is narrated with the arrival time, and "at anchorage" with the request time |
| VesselStatus.MovingBetweenAnchorsStatus | src/components/Table.tsx:204-298 | the entry is the moving table's phase, with its stage label and an estimate of arrival + 90, onboard + 60 or start + 30 minutes; all four timestamps reuse the arrived-at-anchorage entry |
| VesselStatus.StatusOf | src/components/Table.tsx:300-319 | the entry is the direction's status function applied to the row (moving between anchors, arriving or leaving), or the unknown entry for an undetermined direction; its phase is the table lookup for the direction and presence pattern |
| VesselStatus.GetVesselStatus | src/components/Table.tsx:300-319 | the bilingual message is the unknown pair exactly when the direction and pattern match no table row |
| VesselStatus.PhaseDependsOnlyOnDirectionAndPattern | src/components/Table.tsx:300-319 | two rows with the same direction and presence pattern get the same phase |
| VesselGroups.RowsOf | src/components/Table.tsx:325 | the filter keeps only feed rows of the given vessel and never lengthens the list |
| VesselGroups.ImosMembers | src/components/Table.tsx:77-81 | a vessel is a key of the grouping map exactly when it has a row |
| VesselGroups.ImosDistinct | src/components/Table.tsx:77-81 | no vessel appears twice among the map's keys |
| VesselGroups.IndexOf | src/components/Table.tsx:328 | `indexOf` finds the first position holding the row, or -1 exactly when the row is absent |
| VesselGroups.IsLatestSnapshot | src/components/Table.tsx:324-329 | a marked row stands at a valid position and belongs to the vessel being asked about |
| VesselGroups.LatestIsFirstOfVessel | src/components/Table.tsx:324-329 | a shown row is marked latest iff it is its vessel's first row, that is, iff no earlier row has its IMO number |
| RecentSnapshots.Insert | src/components/Table.tsx:85-87 | insertion keeps the rows newest first and adds exactly the inserted row to the multiset |
| RecentSnapshots.SortNewestFirst | src/components/Table.tsx:85-87 | the sort orders rows by descending capture time and is a permutation of its input |
| RecentSnapshots.SortIsStable | src/components/Table.tsx:85-87 | rows with equal capture time keep their feed order |
| RecentSnapshots.SliceFromStart | src/components/Table.tsx:88 | `slice(0, count)` is a prefix of length `min(count, n)`, or `max(n + count, 0)` for a negative count |
| RecentSnapshots.GroupByVessel | src/components/Table.tsx:75-81 | the map's keys are the vessels in first-seen order, and each holds exactly that vessel's rows in feed order |
| RecentSnapshots.GetRecentSnapshots | src/components/Table.tsx:74-92 | the result is each vessel's sorted, sliced rows, vessel after vessel in key order |
| RecentSnapshots.RecentPerVessel | src/components/Table.tsx:74-92 | per vessel, the result holds that vessel's rows sorted newest first, cut to `min(count, rows)` for a non-negative count |
| RecentSnapshots.RecentRowsComeFromData | src/components/Table.tsx:74-92 | every row in the result is a feed row |
| RecentSnapshots.RecentKeepsVesselOrder | src/components/Table.tsx:74-92 | with a positive count the result lists every vessel, once, in first-seen order |
| RecentSnapshots.TableShowsEightPerVessel | src/components/Table.tsx:322 | with the table's count of 8, a vessel is shown at most 8 times, and in full when it has at most 8 rows |
| RecentSnapshots.SortedHeadIsNewest | src/components/Table.tsx:85-87 | the first sorted row is at least as new as every row of the group |
| RecentSnapshots.LatestIsNewest | src/components/Table.tsx:324-329 | the row marked latest is at least as new as every feed row of its vessel |
| LatestSnapshot.NewestIndexIsEarliestNewest | my-app/src/components/Table.tsx:28-33 | the row the scan keeps is a newest row, and every row before it is strictly older |
| LatestSnapshot.NewestSnoc | my-app/src/components/Table.tsx:29-31 | a new row replaces the kept one only when it is strictly newer |
| LatestSnapshot.TrackStep | my-app/src/components/Table.tsx:28-33 | one `forEach` step keeps the keys as the first-seen vessels, and each key's value as the newest row of that vessel so far |
| LatestSnapshot.TrackNewest | my-app/src/components/Table.tsx:26-33 | after the pass, the keys are the vessels in first-seen order and each holds that vessel's newest row |
| LatestSnapshot.ListedValues | my-app/src/components/Table.tsx:34 | the map's values in key order are the newest row of each vessel in first-seen order |
| LatestSnapshot.GetLatestSnapshot | my-app/src/components/Table.tsx:25-35 | the result is the newest row per vessel, with vessels in first-seen order |
| LatestSnapshot.LatestPerVesselShape | my-app/src/components/Table.tsx:25-35 | one row per vessel, in first-seen order; each is a feed row of its vessel, and no row of that vessel is newer |
| LatestSnapshot.SortHeadIsScanResult | my-app/src/components/Table.tsx:29-31 | the stable newest-first sort puts first exactly the row the earlier table's scan keeps |
| LatestSnapshot.TablesAgreeOnLatest | src/components/Table.tsx:324-329 | with a positive count, the row the current table marks latest is the row the earlier table shows for that vessel |
| LegacyStatus.LegacyFormat | my-app/src/components/Table.tsx:10-22 | "N/A" for a null or empty timestamp on any host; otherwise the host-zone rendering of the trimmed string, with no `Z` appended |
| LegacyStatus.FormatsAgreeOnUtc | my-app/src/components/Table.tsx:10-22 | for `Z`-terminated timestamps, when the host zone renders as Singapore does, the earlier formatting equals the current one; absent timestamps give "N/A" |
| LegacyStatus.Text | my-app/src/components/Table.tsx:42-121 | the earlier table's templates; the text is "Status unknown." if and only if the status is unknown |
| LegacyStatus.FarAhead | my-app/src/components/Table.tsx:46-50 | the hours-ahead quotient exceeds 24 exactly when the request is more than 24 h after now |
| LegacyStatus.ArrivingFollowsTable | my-app/src/components/Table.tsx:38-75 | after the end test and the window test, the arriving chain is the first match of its table |
| LegacyStatus.LeavingFollowsTable | my-app/src/components/Table.tsx:78-122 | the leaving chain, end test included, is the first match of its table |
| LegacyStatus.ArrivingStatus | my-app/src/components/Table.tsx:38-75 | arrived at anchor when an end time is set; else a one-hour window opening one hour after the request when the request is more than a day ahead; else by the timestamps. Unknown iff no end time, not far ahead, and no arrival or a start without onboard |
| LegacyStatus.WindowOpensAfterADay | my-app/src/components/Table.tsx:50-54 | the window opens more than 25 h after now and lasts one hour |
| LegacyStatus.LeavingStatus | my-app/src/components/Table.tsx:78-122 | left Singapore when an end time is set, otherwise by the timestamps. Unknown iff no end time, arrival or start set, and not both onboard and start |
| LegacyStatus.StatusOf | my-app/src/components/Table.tsx:125-142 | arriving rows use the arriving status and leaving rows the leaving status; moves between anchorages and unclassified rows are unknown |
| LegacyStatus.GetVesselStatus | my-app/src/components/Table.tsx:125-142 | the text is the unknown literal exactly when the status is unknown |
| LegacyStatus.BothTablesReportArrivalAtAnchorage | my-app/src/components/Table.tsx:40-43 | an arriving row with all four timestamps is "arrived at anchor" in both tables, with the same location and end time |
| LegacyStatus.BothTablesAgreeOnWaitingAtAnchor | my-app/src/components/Table.tsx:88-92 | a leaving row is "at anchor until the request time" in the earlier table iff it is in the current one, iff none of the four timestamps is present |
| SearchBar.PartialSumIsWeighted | src/components/SearchBar.tsx:12-17 | the six loop steps sum the first six digits with weights 7, 6, 5, 4, 3, 2 |
| SearchBar.IsValidImo | src/components/SearchBar.tsx:4-20 | true iff the input is exactly seven ASCII digits and the weighted sum of the first six, modulo 10, is the seventh |
| SearchBar.CheckDigitIsUnique | src/components/SearchBar.tsx:18-19 | any six digits have exactly one valid seventh digit |
| SearchBar.CheckDigitChangeDetected | src/components/SearchBar.tsx:18-19 | changing the check digit of a valid number makes it invalid |
| SearchBar.EvenWeightsMissAChangeOfFive | src/components/SearchBar.tsx:12-19 | `9074729` and `9574729` are both valid, so a change of 5 in a digit of weight 6 is not detected |
| SearchBar.WrongCheckDigitRejected | src/components/SearchBar.tsx:4-20 | `9074728` has seven digits but is rejected |
| SearchBar.SearchBarState.ValidImoEnablesEnter | src/components/SearchBar.tsx:48 | a valid number has nothing to trim, so the Enter button, which triggers the search, is enabled for it |
| SearchBar.SearchBarState.constructor | src/components/SearchBar.tsx:27-28 | the component starts with empty input, no error and no searches |
| SearchBar.SearchBarState.SetImo | src/components/SearchBar.tsx:46 | typing replaces the input and nothing else |
| SearchBar.SearchBarState.HandleSearch | src/components/SearchBar.tsx:30-38 | an invalid number sets the error "Invalid IMO number" and searches nothing; a valid one clears the error and is searched; only valid numbers are ever searched |

## Left out

- JavaScript `Date` is left out. Parsing, `toLocaleString` in both zones and
  `toISOString` are fields of `Host`, passed in as parameters. Their results
  are arbitrary, so nothing depends on a particular calendar or locale
  format. No round trip between `parse` and `toIso` is assumed.
- Invalid dates are left out: `NaN` from an unparsable timestamp, the
  "Invalid Date" rendering, and the `RangeError` of `toISOString`. `parse`
  always returns an integer.
- The wall clock (`new Date()` in the earlier `getVesselStatus`) is the
  parameter `now`.
- LegacyStatus.FarAhead divides exactly over the reals. It does not model
  floating-point rounding. On whole-millisecond differences of the size that
  occur, the double quotient compares with 24 the same way.
- The `count` of `getRecentSnapshots` is an integer. A fractional count, and
  the parameter default of 8, are not modelled. The table passes 8 explicitly.
- The engine's `Array.prototype.sort` is specified as stable. It is modelled
  by the stable insertion-sort function `RecentSnapshots.SortNewestFirst`,
  not by the engine's algorithm. The sort also rearranges the arrays held in
  the map in place; nothing reads them afterwards, so the model sorts a copy.
- `RecentSnapshots.GetRecentSnapshots` and `LatestSnapshot.GetLatestSnapshot`
  do not model JavaScript `Map` identity and aliasing. The map is a Dafny
  `map` together with the sequence of its keys in insertion order.
- `indexOf` compares rows by value, not by object identity. Feed rows that
  are equal in every field are therefore treated as the same row.
- `onSearch` is a foreign call. The model records the numbers handed to it
  in `searched`.
- React rendering and the App component are left out. This covers the table
  markup, the CSS class of the latest row, the search bar's markup, and the
  error paragraph's display.
- The data fetch in `my-app/src/services/api.ts` and the error component are
  not part of this model.
- `console.log` output is not part of this model.
