# HomeOverview card, modelled in Dafny

`HomeOverview` is a dashboard card for a home-automation front end. It shows a
rows × columns grid of cells. Each cell is bound to up to four entities: a
light, a climate device, a media player and a sensor. From the card
configuration and the host's entity snapshot (`hass.states`), each cell gets:

- a background colour,
- an optional media-artwork overlay,
- up to three lines of text.

Taps, holds and double taps on a cell dispatch a configured action.

The repository holds two revisions of the card:

- `dist/home_overview.js`, the later one. It builds the grid once per
  configuration and patches the stored nodes on each render. `setConfig`
  renders at once; snapshot updates are coalesced into one render per
  animation frame.
- `src/home_overview.js`, the earlier one. It empties the shadow root and
  rebuilds the whole card on every snapshot.

Both are modelled, each in its own modules:

- `Js`: the JavaScript value semantics the decisions depend on. Values are
  undefined, null or a string; the model covers truthiness, template-string
  and property-key conversion, and `for`-loop extents. `toLowerCase` is
  modelled for the `"none"` test. `split` and `join` on one separator come
  with round-trip lemmas in both directions.
- `Config`: configuration and snapshot datatypes, the configuration check of
  each revision, and the row-major table of cell configurations. A position
  with no entry in `cells` gets `{}`.
- `View`: the presentation values, which are background, overlay and text line.
- `Entities`: reading a cell's climate, media and sensor entities out of the
  snapshot. Both revisions share this code, and the media-overlay decision
  too.
- `Actions`: `handleAction` of both revisions, mapping an action
  configuration to one host effect (an `Effect` value).
- `DistCell`, `SrcCell`: the per-cell background, overlay and line rules of
  each revision, as pure functions of a cell configuration and a snapshot.
- `DistCard`: the later card as a class.
  - `cells` is a 2-D array of records standing for each cell's DOM handles.
  - `render` writes each record in place in nested loops.
  - `setConfig` validates the configuration, then builds the grid and renders.
  - The `hass` setter's `_renderScheduled` flag is a field. Two ghost
    counters of requested and fired frame callbacks show that at most one
    render is ever pending.
- `SrcCard`: the earlier card as a class whose shadow-root children are a
  sequence. Each render clears them in a loop and appends one rebuilt card.
  The cells come from nested loops, in row-major order.
- `Revisions`: lemmas on where the two revisions decide a cell differently and
  where they agree.

Three facts about the code shape the model:

- `setConfig` checks only that `rows` and `columns` are truthy, not that they
  are positive. A negative count gives an empty grid (`Js.Extent`).
- The later revision's fallback cell colour is the constant
  `rgba(200,200,200,0.2)`, not a card-wide setting.
- The earlier revision's `setConfig` does not check `cells`, and its render
  has no `{}` default. Its render throws at the first grid position whose
  entry is missing, so a grid with no position renders without `cells`.

## Model

| member | source | states |
|---|---|---|
| `Js.IsNoneLetters` | dist/home_overview.js:272 | a string lower-cases to "none" iff it is the four letters n, o, n, e in any mix of cases |
| `Js.Lower` | dist/home_overview.js:272 | `toLowerCase` keeps the length and maps each ASCII capital to its small letter; pinned down for the "none" test by `Js.IsNoneLetters` |
| `Js.IsNone` | src/home_overview.js:103 | `s.toLowerCase() === "none"`; `Js.IsNoneLetters` shows it holds exactly for the four letters n, o, n, e in any case |
| `Js.Split` | dist/home_overview.js:92 | `split` gives at least one piece and no piece contains the separator |
| `Js.JoinSplit` | dist/home_overview.js:92 | joining the pieces of a split with the separator gives back the original string |
| `Js.SplitWithoutSeparator` | src/home_overview.js:28 | a string without the separator splits into itself alone |
| `Js.SplitAtFirst` | src/home_overview.js:28 | splitting `a + sep + b`, where `a` has no separator, gives `a` followed by the pieces of `b` |
| `Js.SplitJoin` | dist/home_overview.js:92 | splitting a join of separator-free pieces gives back exactly those pieces |
| `Config.DistAccepts` | dist/home_overview.js:48-50 | the later check: rows, columns and cells all truthy; `DistCard.HomeOverview.SetConfig` accepts exactly these and rejects the rest with its message |
| `Config.SrcAccepts` | src/home_overview.js:8-10 | the earlier check: rows and columns truthy, cells unchecked; `SrcCard.HomeOverview.SetConfig` accepts exactly these |
| `Config.AcceptanceRelation` | src/home_overview.js:8-10 | the later check accepts only configs the earlier accepts; they differ exactly when `cells` is missing |
| `Config.ConfigTable` | dist/home_overview.js:129-138 | the cell-config table has `rows` rows of `columns` entries each |
| `Config.ConfigTableEntries` | dist/home_overview.js:132-138 | table entry (i, j) is the configured cell at (i, j), or `{}` where the configuration has none |
| `Entities.MediaOverlay` | dist/home_overview.js:285-291 | overlay shown iff the bound media player is present, "playing" and has a non-empty picture; then its image is that picture |
| `Actions.ServiceTarget` | dist/home_overview.js:92 | domain and service of a call contain no "." |
| `Actions.ServiceTargetPieces` | src/home_overview.js:28 | "d.s" targets domain d and service s; "d.s.x" also targets d and s; "d" alone has an undefined service |
| `Actions.ServiceTargetDomainIsPrefix` | dist/home_overview.js:92 | the domain is a prefix of the service string; a service part exists only if the string contains "." |
| `Actions.DistHandleAction` | dist/home_overview.js:84-110 | call-service iff action is "call-service", with split target and `service_data` passed through; more-info carries the entity; navigate iff a path is set; error log iff navigate has no path |
| `Actions.DistIgnoresUnknown` | dist/home_overview.js:85-87 | no effect iff there is no action object or its action is none of the three known kinds |
| `Actions.SrcHandleAction` | src/home_overview.js:21-37 | call-service and more-info as in the later revision; never a navigation or an error log |
| `Actions.SrcIsDistWithoutNavigate` | src/home_overview.js:26-36 | the earlier handler equals the later one on every action except navigate, where it does nothing |
| `Actions.ToggleLight` | dist/home_overview.js:91-97 | `{action: "call-service", service: "light.toggle", service_data: d}` calls `light`/`toggle` with `d` |
| `DistCell.TitleNoneMeansNone` | dist/home_overview.js:243 | `(title or "none")` is "none" case-insensitively iff the title is missing, empty or "none" in any case |
| `DistCell.CellBackground` | dist/home_overview.js:271-283 | transparent iff the title is unused and no light is bound; primary iff the bound, present light's state is "on"; otherwise the cell colour or default |
| `DistCell.TitleLine` | dist/home_overview.js:301-308 | title line visible iff the title is not unused, then it shows the title; hidden lines are empty |
| `DistCell.ClimateLine` | dist/home_overview.js:310-317 | readout visible iff a non-"none" climate id is bound and present with a temperature that is neither null nor undefined; it shows the value and "°"; hidden lines are empty |
| `DistCell.SensorLine` | dist/home_overview.js:319-326 | sensor line visible iff the sensor is present with a non-null, defined state, which it shows; hidden lines are empty |
| `DistCell.Present` | dist/home_overview.js:239-326 | one cell's background, overlay and three lines; pinned down by `CellBackground`, `Entities.MediaOverlay`, the three line rules and `EmptyCellIsBlank` |
| `DistCell.HiddenLinesAreBlank` | dist/home_overview.js:302-326 | every hidden line of a cell carries empty text |
| `DistCell.MissingEntitiesDegrade` | dist/home_overview.js:246-269 | ids missing from the snapshot: light "Unavailable", never primary, overlay hidden, readouts hidden |
| `DistCell.EmptyCellIsBlank` | dist/home_overview.js:239-326 | a `{}` cell is transparent, without overlay, with all three lines hidden and empty, for every snapshot |
| `DistCell.NoneTitleLitLight` | dist/home_overview.js:272-275 | a "none" title with a bound light that is "on" gives the primary colour |
| `DistCell.PausedMediaHasNoOverlay` | dist/home_overview.js:286-290 | a "paused" media player shows no overlay |
| `DistCard.NewNodes` | dist/home_overview.js:175-206 | a new cell has hidden overlay and no background yet; it has a listener for each gesture iff that action is configured |
| `DistCard.Apply` | dist/home_overview.js:274-325 | writes a presentation into a cell's nodes in place; `ApplyDisplays` shows the nodes then display exactly it and keep their listeners, `ApplyIdempotent` that a second write changes nothing |
| `DistCard.ApplyDisplays` | dist/home_overview.js:274-325 | after a render the nodes display exactly the computed presentation and keep their listeners |
| `DistCard.ApplyIdempotent` | dist/home_overview.js:233-328 | rendering a presentation twice leaves the same nodes as rendering it once |
| `DistCard.OnGesture` | dist/home_overview.js:193-206 | a gesture without a listener has no effect |
| `DistCard.GestureDispatchesConfiguredAction` | dist/home_overview.js:193-206 | after any renders, a gesture dispatches exactly `handleAction` of the action configured for it |
| `DistCard.RenderAllKeepsListeners` | dist/home_overview.js:233-328 | renders never change a cell's listeners |
| `DistCard.HomeOverview.constructor` | dist/home_overview.js:39-44 | starts with no configuration, no snapshot, an empty grid and no render pending |
| `DistCard.HomeOverview.SetConfig` | dist/home_overview.js:47-70 | rejects a config without rows, columns or cells and changes nothing; else stores it, shows the header iff a title is set (with that title), sets the configured card background or the theme default, builds a fresh grid and renders it if a snapshot exists |
| `DistCard.HomeOverview.BuildGrid` | dist/home_overview.js:112-219 | fresh rows × columns nodes and the matching row-major config table, `{}` for unfilled positions |
| `DistCard.HomeOverview.Render` | dist/home_overview.js:221-329 | with config and snapshot, each stored cell gets its computed presentation in place; otherwise nothing changes |
| `DistCard.HomeOverview.RenderRow` | dist/home_overview.js:234-327 | renders every cell of one row and leaves the other rows untouched |
| `DistCard.HomeOverview.SetHass` | dist/home_overview.js:72-82 | stores the snapshot and requests a frame only if none is pending; nothing is rendered |
| `DistCard.HomeOverview.FireFrame` | dist/home_overview.js:78-81 | the frame clears the flag and renders with the latest stored snapshot |
| `DistCard.CoalescedBurst` | dist/home_overview.js:72-82 | two snapshots before a frame give one requested frame and one render, which uses the second snapshot |
| `SrcCell.CellBackground` | src/home_overview.js:103-115 | "none" title: primary iff a light is bound and "on", else transparent; set title: primary iff the light is "on", else the dim colour |
| `SrcCell.DimColor` | src/home_overview.js:112-114 | the dim colour `rgba(20,20,20,t)` of a titled, unlit cell; `Revisions.TitledUnlitFallback` shows where it replaces the later cell colour |
| `SrcCell.ClimateLine` | src/home_overview.js:138-142 | readout visible iff a non-"none" climate id is present with a temperature that is not strictly null; else the hidden placeholder |
| `SrcCell.SensorLine` | src/home_overview.js:143-147 | sensor line visible iff the sensor is present with a state that is not strictly null; else the hidden placeholder |
| `SrcCell.Lines` | src/home_overview.js:134-147 | a title line only when the title is not "none", then always a climate slot and a sensor slot |
| `SrcCell.Present` | src/home_overview.js:86-147 | one cell's background, overlay and lines; pinned down by `CellBackground`, `Lines`, `SlotsAreKept` and `Revisions.SameOverlay` |
| `SrcCell.SlotsAreKept` | src/home_overview.js:138-147 | a cell has at least two lines, and every hidden one is the placeholder |
| `SrcCell.UndefinedTemperatureIsShown` | src/home_overview.js:87 | a climate entity without `current_temperature` shows a visible "undefined°" |
| `SrcCard.CellConfigAt` | src/home_overview.js:79-84 | a drawable configuration has an entry with a title at every grid position |
| `SrcCard.GridRows` | src/home_overview.js:77-79 | rows × columns cell views; view (i, j) is built from `cells[i][j]` |
| `SrcCard.FlattenIndex` | src/home_overview.js:77-78 | rows of c cells flatten to rows × c cells; row i, column j lands at i × c + j |
| `SrcCard.Grid` | src/home_overview.js:77-78 | a rebuilt grid has exactly rows × columns cells |
| `SrcCard.GridCell` | src/home_overview.js:77-148 | grid child i × columns + j is the view of configured cell (i, j) under the current snapshot |
| `SrcCard.EmptyGridNeedsNoCells` | src/home_overview.js:77-79 | a missing, zero or negative count reads no entry, so the card renders an empty grid even without `cells` |
| `SrcCard.BuildCells` | src/home_overview.js:77-148 | the nested loops produce exactly the grid, in row-major order |
| `SrcCard.HomeOverview.constructor` | src/home_overview.js:2-5 | starts with no configuration, no snapshot and an empty shadow root |
| `SrcCard.HomeOverview.SetConfig` | src/home_overview.js:7-14 | rejects a config without rows or columns and changes nothing (cells unchecked); else stores it and renders |
| `SrcCard.HomeOverview.SetHass` | src/home_overview.js:16-19 | stores the snapshot and renders at once |
| `SrcCard.HomeOverview.Render` | src/home_overview.js:39-60 | with config and snapshot, the root's children are replaced by one card from the current config and snapshot only, with a header iff the title is set, showing that title |
| `SrcCard.RerenderIsIdempotent` | src/home_overview.js:16-19 | pushing the same snapshot twice leaves the same card as pushing it once |
| `Revisions.NoneTitleUnlitLight` | dist/home_overview.js:272-278 | "none" title, bound light not on: the later revision shows the cell colour, the earlier (src/home_overview.js:103-108) transparent |
| `Revisions.TitledUnlitFallback` | src/home_overview.js:109-115 | set title, light not on: the earlier revision shows the dim colour, the later (dist/home_overview.js:244) the cell colour or default |
| `Revisions.SameHighlightWhenBound` | src/home_overview.js:104-110 | with a title set and a light bound, both revisions give the primary colour in exactly the same cases |
| `Revisions.UnboundLightKey` | src/home_overview.js:86 | the earlier revision highlights a titled, light-less cell when an entity "undefined" is on; the later never does |
| `Revisions.UnusedTitleLine` | src/home_overview.js:135-137 | an unused title is a hidden empty line in the later revision and no line in the earlier one |
| `Revisions.UndefinedTemperatureDiffers` | src/home_overview.js:138 | an absent temperature hides the later readout but shows "undefined°" in the earlier one |
| `Revisions.TemperatureAgrees` | dist/home_overview.js:311-312 | on a temperature that is a value or null both revisions show the same readout |
| `Revisions.SameOverlay` | src/home_overview.js:117 | both revisions make the same overlay decision |

## Left out

- Shadow DOM creation, CSS text and inline styles are left out, because they
  decide nothing. This covers padding, borders, flex layout, corner radius,
  font size, line height, the `scaleY` vertical correction and the overlay's
  0.35 opacity.
- `requestAnimationFrame` timing is left out. `FireFrame` is the callback
  running; the browser only runs a callback that was requested, which is its
  precondition.
- `callService` runs asynchronously and its `.catch` logs failures. The model
  has only the `CallService` effect; the failure log is not modelled.
- `dispatchEvent`, `history.pushState` and `console.error` are host calls.
  They appear as the `MoreInfo`, `Navigate` and `LogError` effects.
- `customElements.define` and `getCardSize` (the constant 3) are left out.
- `transparency` is an opaque string token, and so are the colour values.
  Nothing computes on them.
- The degree sign is mis-encoded at dist/home_overview.js:312. The model uses
  the constant "°".
- Lines after src/home_overview.js:148 are not part of this model. The model
  assumes that each cell is appended to the grid in loop order and that the
  card is then appended to the shadow root.
- The earlier render throws a TypeError when it reaches a grid position
  whose `cells` row or entry is missing, or whose entry lacks a `title`
  (src/home_overview.js:79-84, 103). A grid with no position reads no entry
  and does not throw (`SrcCard.EmptyGridNeedsNoCells`). The exception itself
  is not modelled. Instead, `SrcCard.Drawable` is a precondition of render,
  `setConfig` and the `hass` setter whenever they would reach the throw.
- A call-service action whose `service` is not a string throws in `split`.
  `Actions.Dispatchable` is the precondition that excludes it.
- A call-service action run before any snapshot arrives throws on
  `this._hass.callService`. This is not modelled, because the effect does
  not consult the snapshot.
- Event-listener wiring is reduced to "a listener exists iff the action is
  configured". The `preventDefault` on `contextmenu` is not modelled.
- The earlier revision inserts text through `innerHTML` without escaping.
  The model treats each line as plain text and leaves out its markup.
- `toLowerCase` is modelled on ASCII letters only. No other character
  lower-cases to one of the letters of "none", so the "none" test is
  unaffected.
- Only string values are modelled for ids, titles and colours, and only
  integers for `rows` and `columns`. Numeric entity values, such as a
  `current_temperature`, are represented by their string rendering. No
  decision of the card depends on the number itself. Numbers given for ids
  or titles, and fractional or string counts, are not modelled.
- `if (!root) return` at src/home_overview.js:45-47 is left out, because the
  constructor always creates the shadow root.
- `_cellConfigs[i][j] || {}` and `if (!refs) continue` at
  dist/home_overview.js:235-237 are left out. They cannot trigger, because the
  grid always matches the stored configuration (`DistCard.HomeOverview.Valid`).
- `DistCard.OnGesture`: its contract covers only the gesture without a
  listener. `DistCard.GestureDispatchesConfiguredAction` states the full
  dispatch.

## Findings

| source | as written | input that shows it | evidently intended | confidence | as-written member | corrected member |
|---|---|---|---|---|---|---|
| src/home_overview.js:138 | `climateState !== null` tests for null only | a climate entity in the snapshot whose attributes lack `current_temperature` | hide the readout when there is no temperature; dist/home_overview.js:311 does this with `!= null` | not executed | `SrcCell.ClimateLine`, `Revisions.UndefinedTemperatureDiffers` | `DistCell.ClimateLine` |

With that input the earlier revision shows a visible "undefined°"
(`SrcCell.UndefinedTemperatureIsShown`). The later revision's
`DistCell.ClimateLine` shows a readout only for a temperature that is a
value. `DistCard.HomeOverview.Render` uses that corrected rule.
