# Golf shot tracker: shot ledger, session state and view rules

This project models the bookkeeping core of a GPS golf shot tracker in Dafny and proves properties of it.

- **The shot ledger** is the `useShotManagement` hook. It holds an ordered list of shots and a current-hole selector. Shots are loaded, created, deleted by id, replaced wholesale or cleared, and the current hole can be set. It answers "last shot" and "last shot distance". Creating, deleting, replacing and clearing each issue a write to the key-value store. Loading and setting the hole issue none.
- **The map screen's session state** covers the club-selection modes `record | add | edit`, the pending shot, the id being edited, the editor and selector flags, and the two toggles. It also covers the id-targeted club and location edits and the marker data with its next-shot-in-hole lookup.
- **The location arbiter** is `handleLocationUpdate`. It keeps the most accurate reading seen so far (a missing or zero accuracy counts as 100). It saves a reading exactly when it keeps it.
- **The derived views** are the path segments between consecutive shots, marker pin colours and texts, the hole buttons and shot counter, the GPS quality bands, and the centre-dot target (both versions of the component).

Module layout, one file each: `Wrappers` (Option) and `Seqs` (`filter`, `find`, `map` over sequences, with their lemmas); `Geo` (coordinates, readings, the symbolic yard distance); `ShotLedger`; `MapScreen`; `LocationTracking`; `ShotPath`; `ShotMarker`; `HoleSelector`; `GpsQuality`; `CenterDot`; `MobileCenterDot`.

State that the source changes in place is a class with methods:
- `ShotLedger.Ledger` for the hook's `shots`, `currentHole` and issued storage writes;
- `MapScreen.Session` for the screen's `useState` fields;
- `LocationTracking.Arbiter` for `userLocation` and the saved locations.

Everything else is a function, except `ShotPath.PathSegments`, which keeps the source's `for` loop.

Distances are kept symbolic. `Geo.Yards(from, to)` stands for the great-circle distance from `from` to `to`, converted to yards and rounded, so the model says which two points a displayed distance measures, not the number. Shot ids and timestamps come from the clock in the app. Here they are parameters, and nothing assumes ids or shot numbers are unique.

On these points the code behaves as follows, and so does the model:
- The code's `createShot` returns nothing.
- Club and location edits live in the map screen, not in the ledger.
- `setCurrentHole` accepts any integer.
- `nextShotInHole` is the FIRST matching shot of the whole list.
- A reading's accuracy defaults to 100 when it is missing or zero.
- JavaScript truthiness is kept: an empty-string id does not start or carry an edit, and an empty club shows as `Not entered`.

## Model

| member | source | states |
|---|---|---|
| ShotLedger.Ledger.constructor | mobile-app/hooks/useShotManagement.ts:8-9 | the ledger starts with no shots, on hole 1, with no storage writes |
| ShotLedger.Ledger.LoadShots | mobile-app/hooks/useShotManagement.ts:11-14 | the loaded list replaces the list; the hole and the writes are unchanged |
| ShotLedger.Ledger.CreateShot | mobile-app/hooks/useShotManagement.ts:20-39 | the list grows by exactly one shot, appended after the unchanged old list; the shot is on the current hole, numbered one past that hole's shot count, takes the location's latitude and longitude (accuracy dropped), the club string as given, and the supplied id and timestamp; the hole is unchanged and one save of the new list is issued |
| ShotLedger.Ledger.DeleteShot | mobile-app/hooks/useShotManagement.ts:41-47 | the list becomes the shots whose id differs (no renumbering); the hole is unchanged and the new list is saved |
| ShotLedger.Ledger.ClearShots | mobile-app/hooks/useShotManagement.ts:49-53 | no shots, current hole 1, and a clear-all write after which the store holds no shots |
| ShotLedger.Ledger.UpdateShots | mobile-app/hooks/useShotManagement.ts:66-71 | the list is replaced wholesale, the hole is unchanged, and the given list is saved |
| ShotLedger.Ledger.SetCurrentHole | mobile-app/hooks/useShotManagement.ts:9 | only the current hole changes; shots and storage are untouched |
| ShotLedger.OnHole | mobile-app/hooks/useShotManagement.ts:21 | the hole's shots are exactly the list's shots with that hole number, never more than the list |
| ShotLedger.WithoutId | mobile-app/hooks/useShotManagement.ts:42 | the remaining shots are exactly the list's shots with another id |
| ShotLedger.LastShot | mobile-app/hooks/useShotManagement.ts:82 | the final shot of the whole list whatever its hole, or none exactly when the list is empty |
| ShotLedger.NewShot | mobile-app/hooks/useShotManagement.ts:21-32 | the shot built for a creation: on the given hole, numbered one past that hole's shot count, at the location's latitude and longitude, with the given club, id and timestamp |
| ShotLedger.LastShotDistance | mobile-app/hooks/useShotManagement.ts:55-64 | empty exactly when fewer than two shots are on the hole; otherwise it measures from the hole's second-to-last to its last shot in list order |
| ShotLedger.LastStored | services/storageService.ts:11-71 | what the shots key holds after the issued writes: nothing known before any write, the list of the last save, or no shots after a clear |
| ShotLedger.CreateOnHole | mobile-app/hooks/useShotManagement.ts:21-34 | creating appends the new shot to its own hole's shots and leaves every other hole's shots as they were |
| ShotLedger.CreateKeepsNumbering | mobile-app/hooks/useShotManagement.ts:29-30 | if every hole is numbered 1..n in insertion order, it still is after a creation |
| ShotLedger.DeleteCount | mobile-app/hooks/useShotManagement.ts:42 | deletion keeps every copy of a shot with another id, unchanged, and no shot with the id |
| ShotLedger.DeleteConcat | mobile-app/hooks/useShotManagement.ts:42 | deletion keeps the order of the remaining shots (it distributes over concatenation) |
| ShotLedger.DeleteAbsent | mobile-app/hooks/useShotManagement.ts:42 | deleting an id no shot carries leaves the list unchanged |
| ShotLedger.NumberRepeatsAfterDelete | mobile-app/hooks/useShotManagement.ts:21-42 | with shots 1, 2, 3 on hole 1, deleting shot 2 and creating again gives a second shot number 3 |
| ShotLedger.LastShotDistancePair | mobile-app/hooks/useShotManagement.ts:55-61 | a shown last-shot distance measures between two shots of the list, at indices i < j on the hole, with no other shot of the hole after i: the hole's second-to-last and last in insertion order, whatever their shot numbers |
| ShotLedger.LastShotDistanceEmpty | mobile-app/hooks/useShotManagement.ts:56-57 | the distance is empty exactly when no two shots of the list are on the current hole |
| ShotLedger.LastShotDistanceOtherHole | mobile-app/hooks/useShotManagement.ts:56 | a shot on another hole does not change the current hole's last-shot distance |
| ShotLedger.CreateThenQuery | mobile-app/hooks/useShotManagement.ts:55-82 | after a creation the last shot is the new shot; the distance then runs from the hole's previous shot to the new one, or is empty if the hole had none |
| MapScreen.EditClub | mobile-app/components/MapScreen.tsx:191-197 | same length and order; only the club of shots with that id changes; every other field and shot is unchanged |
| MapScreen.EditLocation | mobile-app/components/MapScreen.tsx:199-204 | same length and order; only the coordinate of shots with that id changes; every other field and shot is unchanged |
| MapScreen.EditClubAbsent | mobile-app/components/MapScreen.tsx:193-195 | a club edit for an absent id changes nothing |
| MapScreen.EditLocationAbsent | mobile-app/components/MapScreen.tsx:200-202 | a location edit for an absent id changes nothing |
| MapScreen.EditClubOnHole | mobile-app/components/MapScreen.tsx:191-197 | a club edit keeps each hole's shots in place, so their count, their numbering and the last-shot distance do not change |
| MapScreen.EditLocationOnHole | mobile-app/components/MapScreen.tsx:199-204 | a location edit keeps each hole's shots in place, with the same count and numbering |
| MapScreen.NextShotInHole | mobile-app/components/MapScreen.tsx:215-218 | the first shot of the whole list on the same hole with shot number + 1, or none exactly when no shot matches |
| MapScreen.MarkerOf | mobile-app/components/MapScreen.tsx:213-225 | the entry built for a shot carries that shot, and a next-shot position exactly when the shot has a next shot in the whole list, namely that shot's coordinate |
| MapScreen.VisibleShots | mobile-app/components/MapScreen.tsx:209-211 | never more shots than the list; all of them when previous holes are shown; otherwise exactly the list's shots on the current hole |
| MapScreen.MarkersData | mobile-app/components/MapScreen.tsx:207-227 | one marker per visible shot, in order, whose next-shot coordinate is that of the shot's next shot in the whole list |
| MapScreen.MarkersVisible | mobile-app/components/MapScreen.tsx:209-211 | showing previous holes gives a marker for every shot; hiding them gives markers for exactly the current hole's shots |
| MapScreen.MarkerNextIgnoresFilter | mobile-app/components/MapScreen.tsx:213-218 | hiding previous holes never changes the marker entry of a shot that stays visible |
| MapScreen.Session.constructor | mobile-app/components/MapScreen.tsx:42-50 | record mode, nothing pending or edited, selector and editor closed, dot and previous holes shown |
| MapScreen.Session.HandleRecordShot | mobile-app/components/MapScreen.tsx:84-95 | with a camera centre: pending is that centre, mode is record, and the selector opens; without one nothing changes |
| MapScreen.Session.HandleRequestClubSelection | mobile-app/components/MapScreen.tsx:97-120 | the editor always closes; add with a location sets pending, clears editing and opens in add mode; edit with a non-empty id clears pending, sets editing and opens in edit mode; otherwise nothing else changes |
| MapScreen.Session.HandleClubSelect | mobile-app/components/MapScreen.tsx:122-148 | record or add mode with a pending shot creates one shot there (accuracy 1); edit mode with a non-empty id edits that club; otherwise the ledger is unchanged; afterwards the mode is record and nothing is pending or edited |
| MapScreen.Session.HandleCancel | mobile-app/components/MapScreen.tsx:358-364 | record mode, nothing pending or edited, selector closed, ledger untouched |
| MapScreen.Session.HandleEditClub | mobile-app/components/MapScreen.tsx:191-197 | saves the club-edited list through the ledger; the hole is unchanged |
| MapScreen.Session.HandleEditLocation | mobile-app/components/MapScreen.tsx:199-204 | saves the location-edited list through the ledger; the hole is unchanged |
| MapScreen.Session.HandleMarkerPress | mobile-app/components/MapScreen.tsx:150-156 | opens the editor on the first shot with the id only if one exists; otherwise nothing changes |
| MapScreen.Session.HandleDotToggle | mobile-app/components/MapScreen.tsx:182-185 | the dot flag flips; nothing else changes |
| MapScreen.Session.HandlePreviousHolesToggle | mobile-app/components/MapScreen.tsx:187-189 | the previous-holes flag flips; nothing else changes |
| MapScreen.Session.Markers | mobile-app/components/MapScreen.tsx:207-227 | the screen's markers in its current state: never more than the ledger's shots, each for a ledger shot that is on the current hole unless previous holes are shown |
| LocationTracking.AccuracyOf | hooks/useLocationTracking.ts:15 | a non-zero reported accuracy is kept and a missing or zero one becomes 100 |
| LocationTracking.Reading | hooks/useLocationTracking.ts:15-20 | the reading keeps the sample's latitude and longitude and takes the defaulted accuracy, which is never zero |
| LocationTracking.Accepts | hooks/useLocationTracking.ts:25 | with no reading every sample is accepted; otherwise only a strictly smaller accuracy is, so ties and worse readings are rejected |
| LocationTracking.Step | hooks/useLocationTracking.ts:23-30 | a reading replaces the best one if and only if there is none or it is strictly more accurate; otherwise the best is kept; afterwards a best reading exists and is never less accurate than before |
| LocationTracking.Run | hooks/useLocationTracking.ts:14-31 | after at least one sample, or from an existing best, there is a best reading |
| LocationTracking.Saves | hooks/useLocationTracking.ts:25-27 | at most one save per sample, each save being the reading of one of the samples |
| LocationTracking.RunMonotone | hooks/useLocationTracking.ts:23-30 | over any sample sequence, a best reading once present stays present and its accuracy never increases |
| LocationTracking.RunPrefixMonotone | hooks/useLocationTracking.ts:23-30 | along a sample sequence the best accuracy is non-increasing from any point to any later point |
| LocationTracking.RunFindsFirstMinimum | hooks/useLocationTracking.ts:25-29 | from no reading, the best is the first sample with the smallest accuracy; later ties are rejected |
| LocationTracking.SavesEndWithBest | hooks/useLocationTracking.ts:25-27 | at most one save per sample, and the last saved reading is the current best |
| LocationTracking.ThirtyAfterTwentyRejected | hooks/useLocationTracking.ts:25-29 | readings of 50, 20 and 30 metres leave the 20-metre reading as the best |
| LocationTracking.Arbiter.constructor | hooks/useLocationTracking.ts:10 | no reading and nothing saved |
| LocationTracking.Arbiter.HandleLocationUpdate | hooks/useLocationTracking.ts:14-31 | the best reading becomes Step of the old one; a save of the new reading is issued exactly when it is accepted; the last saved reading stays equal to the best |
| LocationTracking.Arbiter.StartLocationTracking | hooks/useLocationTracking.ts:40-45 | the quick initial fix, when present, goes through the same acceptance rule and is saved exactly when accepted; without one nothing changes |
| ShotPath.PathSegments | components/ShotPath.tsx:21-35 | no segments with fewer than two coordinates; otherwise one fewer segment than shots, segment i joining shot i to shot i+1, flagged as crossing holes if and only if their hole numbers differ |
| ShotPath.StrokeOf | components/ShotPath.tsx:43-45 | dash [3, 3] and the dimmer colour if and only if the segment crosses holes, otherwise dash [1] and the brighter colour; width 4 |
| ShotMarker.PinColor | components/ShotMarker.tsx:32-45 | green if and only if shot number 1, even on the last marker; red if and only if the last index and not a first shot; orange otherwise |
| ShotMarker.ClubText | components/ShotMarker.tsx:40 | the club, or `Not entered` when it is missing or empty |
| ShotMarker.DescriptionOf | components/ShotMarker.tsx:31-44 | the club text, plus a distance to the next shot if and only if it exists and is on the same hole |
| ShotMarker.TitleDeterminesNumbers | components/ShotMarker.tsx:39 | `Hole {h} - Shot {s}` titles are equal only for equal hole and shot numbers |
| ShotMarker.Title | components/ShotMarker.tsx:39 | the title is `Hole `, the hole number's decimal text, ` - Shot `, then the shot number's decimal text, with those lengths |
| ShotMarker.IntToString | components/ShotMarker.tsx:39 | the decimal text of a number is non-empty, starts with `-` exactly for a negative number, and is digits after that sign |
| HoleSelector.Holes | components/HoleSelector.tsx:26 | exactly 18 holes, entry i is i+1, strictly ascending |
| HoleSelector.Buttons | components/HoleSelector.tsx:26-37 | button i is hole i+1 and is active if and only if that hole is the current one |
| HoleSelector.Pressed | components/HoleSelector.tsx:33 | a press reports the button's hole, which on the selector's buttons is hole i+1 for button i |
| HoleSelector.CurrentShot | components/HoleSelector.tsx:17 | the counter is at most the number of shots, and zero exactly when no shot is on the current hole |
| HoleSelector.ActiveCount | components/HoleSelector.tsx:31-37 | exactly one active button when the current hole is in 1..18, none otherwise |
| HoleSelector.PressSelects | components/HoleSelector.tsx:33 | pressing button i reports hole i+1, whose button alone is then active |
| HoleSelector.CounterShowsNewShot | components/HoleSelector.tsx:17 | after a shot is recorded the counter equals that shot's number |
| GpsQuality.BandOf | components/GPSQualityIndicator.tsx:10-17 | no accuracy gives no signal; inclusive bounds 3, 5, 10 and 20 metres give the bands, above 20 is poor, each if and only if |
| GpsQuality.QualityColor | components/GPSQualityIndicator.tsx:10-17 | grey if and only if there is no accuracy; green, light green, amber, orange and red if and only if the accuracy is at most 3, 5, 10 or 20 metres or above 20, bounds inclusive |
| GpsQuality.ColorsDistinct | components/GPSQualityIndicator.tsx:11-16 | the six bands have six different colours |
| GpsQuality.BandMonotone | components/GPSQualityIndicator.tsx:12-16 | a larger accuracy never gets a better band |
| GpsQuality.Status | components/GPSQualityIndicator.tsx:27-30 | the text is `Searching...` if and only if there is no accuracy |
| GpsQuality.IndicatorAccuracy | mobile-app/components/MapScreen.tsx:291 | the indicator gets no accuracy exactly when the screen has no reading, and otherwise the best reading's accuracy |
| GpsQuality.IndicatorNeverWorsens | components/GPSQualityIndicator.tsx:10-17 | fed by the arbiter's best reading (through `IndicatorAccuracy`), the indicator leaves `Searching...` after the first reading and never shows a worse band later |
| CenterDot.Distance | components/CenterDot.tsx:20-34 | the last shot takes priority over the GPS fix (the latter with `from GPS`); no label if and only if neither exists |
| CenterDot.LineCoordinates | components/CenterDot.tsx:36-44 | centre to last shot, else centre to GPS fix, else no line |
| CenterDot.RendersPolyline | components/CenterDot.tsx:51 | the polyline is drawn exactly when a renderer is given and the line is non-empty |
| CenterDot.LineMatchesDistance | components/CenterDot.tsx:20-47 | the line exists if and only if the label does, and joins the centre to the label's target |
| CenterDot.PolylineWithDistance | components/CenterDot.tsx:51 | a polyline is drawn only with a renderer; then it is drawn exactly when a distance is shown |
| MobileCenterDot.Distance | mobile-app/components/CenterDot.tsx:17-31 | the last shot takes priority over the GPS fix (the latter with `from GPS`); no label if and only if neither exists |
| MobileCenterDot.SameAsEarlierVersion | mobile-app/components/CenterDot.tsx:17-31 | both versions of the component choose the same target and label |

## Left out

- Great-circle distance (`utils/geo.ts`) and the conversion to rounded yards are floating point. Every displayed distance is the symbol `Geo.Yards(from, to)`, so no property of the number is stated or proved.
- CenterDot.Distance, MobileCenterDot.Distance, ShotMarker.DescriptionOf: each states which points are measured, not the rounded yard figure.
- ShotMarker.DescriptionOf: the marker measures with a `calculateDistance` prop that takes the two shots (components/ShotMarker.tsx:21 and 42). The only screen that renders this marker does not pass that prop (components/MapScreen.tsx:581-589). The model assumes the prop measures between the two shots' coordinates, written `Yards(shot.coordinate, next.coordinate)`.
- `clearAllData` also removes the last-known-location key (services/storageService.ts:69-71). The model's clear-all write covers only the shots key. `Arbiter.saved` is a separate log, so after `ClearShots` the model still ends with the best reading, and the location key being emptied is not modelled.
- GpsQuality.Status: it states which accuracy is shown as `±… yards`, not the rounded half-accuracy figure.
- Persistence (`services/storageService.ts`) is AsyncStorage and JSON, whose errors are swallowed. The model records the writes the ledger and the arbiter issue: `ShotLedger.StorageWrite` and `Arbiter.saved`. `ShotLedger.LastStored` states what the shots key holds once they land. Serialisation, failure and the load round trip are not modelled.
- Ids and timestamps from `Date.now()` / `new Date()` are parameters, because they come from the clock.
- Map camera moves, `Alert` dialogs and `console` logging are effects on the device UI. `handleRecordShot` receives the camera centre as an optional argument.
- Screen handlers that only touch view state are UI wiring: `handleMarkerCalloutPress`, `handleMarkerDeselect`, `handleMapPress`, `handleCenterMap`, the initial map-centring effect, the `mapCenter` and `isCalloutVisible` fields, and the shot editor's `onClose`.
- The `isAcquiring` prop is computed by the screen but not read by the indicator.
- The rest of `useLocationTracking` (permissions, the device subscription, cleanup) is a device API. The stream of readings is the `samples` argument of `LocationTracking.Run`. The class handles one reading per call, as the subscription callback does.
- JavaScript `NaN` accuracies (falsy, so replaced by 100) do not exist in Dafny's `real`.
- The screen imports `./ShotPath`, `./ShotMarker`, `./HoleSelector` and `./GPSQualityIndicator` from the mobile app's own component folder, and those files are not part of this model. ShotPath, ShotMarker, HoleSelector and the GPS quality indicator are modelled from the copies beside the earlier map screen, with those props.
- The shot editor's debounce, the club selector, the clear-data button, the map controls, the scorecard and the web frontend are UI, timers or network code.
