# HomeDashboard logic, modelled in Dafny

The home dashboard of the real-estate app (`src/components/HomeDashboard.jsx`) is a
React page. Most of it is markup over fixed data. The small pieces of behaviour inside it
are modelled here, apart from the rendering:

- **Performance map** (`ZipCodeMap`, `performance_map.dfy`). This covers zoom, the
  fullscreen flag, one selected region, the zip detail panel with its two-way badge, and the
  buybox filter. Zoom is kept in integer tenths: 1 is 10, the step 0.2 is 2, and the bounds
  0.5 and 2 are 5 and 20. The pure `Step` function describes each handler. The class
  `PerformanceMap` holds the same state in fields, and each of its methods is proved to
  perform one `Step`.
- **Distress selection** (`DistressSelection`, `distress_selection.dfy`). The card section
  stores a list of six distresses. Its modal edits a copy of that list:
  - toggling is bounded by six;
  - confirm is enabled only at exactly six;
  - confirming commits the copy, and closing the modal discards it.

  The six cards on screen come from the constant `actionData` (lines 700-707, drawn at
  line 736), not from the stored list. The stored list is read only when the modal is
  mounted (line 744), so a confirm changes where the next Edit starts and no visible card.

  The classes `SelectionModal` and `ImmediateActionSection` are proved against the pure
  `SectionStep`.
- **Buybox accordion** (`BuyboxAccordion`, `buybox_status.dfy`). One `expandedId` is
  toggled by click and by Enter, and Escape collapses only the open row. Each row also
  gets its status pill and its alert panel.
- **Table cell classifiers** (`TableCells`, `table_cells.dfy`). This models both
  `formatCell` helpers. Each regular expression is modelled twice:
  - as the engine's greedy reading (`MatchEnd`, `FirstMatch`);
  - as a declarative token predicate (`IsToken`).

  The two are proved to agree. Then `replace(match, '')` followed by `trim()` is proved to
  cut out exactly the leftmost match. Multipliers are compared with 1 exactly, as the
  fraction their decimal digits denote.
- **Tooltip** (`TooltipVisibility`, `tooltip.dfy`): hover and focus show the tooltip;
  leave, blur and Escape hide it. An empty content is never shown.
- **Missed-deals grouping** (`MissedDealsPatterns`, `missed_deals.dfy`): the lookup of the
  selected grouping, which falls back to the niche list.
- **Hero counter digits** (`HeroBanner`, `hero_banner.dfy`): the counter as one string
  per decimal digit.
- Shared parts: `Options` (an `Option` datatype) and `JsText`. `JsText` holds the
  JavaScript string built-ins the page uses: `trim` with the whitespace set of ECMA-262
  sections 12.2 and 12.3, `indexOf`, `replace` of a string by `''`, and the decimal
  `toString` of a non-negative integer.

Three consequences of the source's own code, which the model follows:

- All six SVG regions of the map carry the `cursor-pointer` class (lines 1217-1248), but
  only the first has an `onClick` (line 1218). Clicking any other region does not move the
  selection (`RegionClickSelects`, `ExampleSession`).
- The buybox filter is read only by the select's own `value` (line 1191). Changing it
  neither filters the map nor clears the selection (`FilterIsIndependent`).
- The detail panel's guard `selectedZip && zipData[selectedZip]` (line 1253) is a
  truthiness test, so an empty zip string shows no panel either (`DetailPanel`).

## Model

| member | source | states |
|---|---|---|
| ZipCodeMap.ZoomedIn | src/components/HomeDashboard.jsx:1166 | zooming in adds the step or stops at the maximum; it never leaves the range and is the identity at the maximum |
| ZipCodeMap.ZoomedOut | src/components/HomeDashboard.jsx:1167 | zooming out subtracts the step or stops at the minimum; it never leaves the range and is the identity at the minimum |
| ZipCodeMap.ZoomInOutInverse | src/components/HomeDashboard.jsx:1166-1167 | away from the bounds, zooming in and then out (or out and then in) returns the same zoom |
| ZipCodeMap.ZoomClampIsNotInvertible | src/components/HomeDashboard.jsx:1166-1167 | next to the bounds the clamp loses information: 1.9 goes to 2 and back to 1.8, and 0.6 goes to 0.5 and back to 0.7 |
| ZipCodeMap.HandleKey | src/components/HomeDashboard.jsx:1165-1169 | `+` or `=` zooms in, `-` zooms out, `f` or `F` flips fullscreen, and any other key leaves the whole state unchanged |
| ZipCodeMap.Step | src/components/HomeDashboard.jsx:1141-1144 | every event keeps zoom in range; only the filter select changes the filter; only a region click or the close button changes the selection; the zoom buttons change only the zoom, by one clamped step |
| ZipCodeMap.ButtonsMatchKeys | src/components/HomeDashboard.jsx:1324-1333 | the zoom-in button does what `+` and `=` do, the zoom-out button what `-` does, and at 2 (zooming in) or 0.5 (zooming out) both leave the state unchanged |
| ZipCodeMap.RunKeepsZoomInRange | src/components/HomeDashboard.jsx:1166-1167 | any sequence of events from a zoom in range ends with zoom in [0.5, 2] |
| ZipCodeMap.ZoomAlwaysInRange | src/components/HomeDashboard.jsx:1144 | from the initial zoom of 1, no sequence of key or button events takes zoom out of [0.5, 2] |
| ZipCodeMap.ViewportEventsKeepSelection | src/components/HomeDashboard.jsx:1165-1169 | any number of key, zoom and fullscreen events keeps the selection and the filter |
| ZipCodeMap.FullscreenFlip | src/components/HomeDashboard.jsx:1339 | the `f`/`F` key and the fullscreen button flip the flag and change nothing else |
| ZipCodeMap.FullscreenTwice | src/components/HomeDashboard.jsx:1168 | two fullscreen toggles, by key or button in any mix, restore the whole state |
| ZipCodeMap.RegionClickSelects | src/components/HomeDashboard.jsx:1213-1249 | a click on the first region selects 99504 whatever was selected before; a click on any other region changes nothing |
| ZipCodeMap.CloseClears | src/components/HomeDashboard.jsx:1259 | close sets the selection to null, and closing again changes nothing |
| ZipCodeMap.FilterIsIndependent | src/components/HomeDashboard.jsx:1190-1198 | changing the filter writes only the filter, and no other event's effect depends on the filter's value |
| ZipCodeMap.BadgeLabel | src/components/HomeDashboard.jsx:1265-1269 | the badge reads Outperforming iff the performance is `outperforming`; otherwise it reads Underperforming |
| ZipCodeMap.NeutralReadsUnderperforming | src/components/HomeDashboard.jsx:1269 | a neutral record is labelled Underperforming |
| ZipCodeMap.DetailPanel | src/components/HomeDashboard.jsx:1253-1290 | a panel is drawn iff the selection is non-null, non-empty and has a record; the panel shows that record, its zip and its badge |
| ZipCodeMap.NoPanelWithoutData | src/components/HomeDashboard.jsx:1253 | a selected zip without a record draws no panel |
| ZipCodeMap.PanelIgnoresViewport | src/components/HomeDashboard.jsx:1253 | events other than a region click and close leave the panel as it was |
| ZipCodeMap.ExampleSession | src/components/HomeDashboard.jsx:1165-1259 | five presses of `+` stop at 2; the first region's click opens an Outperforming panel; the second region's click is ignored; `f` twice ends windowed |
| ZipCodeMap.RunAppend | src/components/HomeDashboard.jsx:1141-1144 | handling two sequences of events one after the other is handling their concatenation |
| ZipCodeMap.FivePressesReachMax | src/components/HomeDashboard.jsx:1166 | from 1, five presses of `+` reach exactly 2 |
| ZipCodeMap.ClicksSelectFirstRegion | src/components/HomeDashboard.jsx:1213-1249 | clicking the first region then the second leaves the first region's zip selected |
| ZipCodeMap.FullscreenKeyTwice | src/components/HomeDashboard.jsx:1168 | pressing `f` twice leaves the whole state as it was |
| ZipCodeMap.PerformanceMap.constructor | src/components/HomeDashboard.jsx:1141-1147 | mounting starts with no selection, filter `all`, not fullscreen and zoom 1 |
| ZipCodeMap.PerformanceMap.ZoomIn | src/components/HomeDashboard.jsx:1325 | the zoom-in button performs the zoom-in step and keeps zoom in range |
| ZipCodeMap.PerformanceMap.ZoomOut | src/components/HomeDashboard.jsx:1332 | the zoom-out button performs the zoom-out step and keeps zoom in range |
| ZipCodeMap.PerformanceMap.ToggleFullscreen | src/components/HomeDashboard.jsx:1339 | the fullscreen button flips only the flag |
| ZipCodeMap.PerformanceMap.HandleKeyDown | src/components/HomeDashboard.jsx:1165-1169 | the key handler performs the key step |
| ZipCodeMap.PerformanceMap.ClickRegion | src/components/HomeDashboard.jsx:1213-1249 | a click on a drawn region performs the region-click step |
| ZipCodeMap.PerformanceMap.CloseDetail | src/components/HomeDashboard.jsx:1259 | the close button clears the selection |
| ZipCodeMap.PerformanceMap.ChangeFilter | src/components/HomeDashboard.jsx:1192 | the select writes the filter and nothing else |
| ZipCodeMap.PerformanceMap.Detail | src/components/HomeDashboard.jsx:1253 | the instance draws a panel iff its selection is non-empty and has a record |
| DistressSelection.Without | src/components/HomeDashboard.jsx:777 | the filter keeps exactly the items different from the removed one and never grows the list |
| DistressSelection.WithoutAt | src/components/HomeDashboard.jsx:777 | on a duplicate-free list, filtering out an item removes its one occurrence and keeps the rest in order |
| DistressSelection.Toggled | src/components/HomeDashboard.jsx:775-781 | a chosen item is removed and the others stay; an unchosen item is appended below six; at six the list is unchanged |
| DistressSelection.ToggleKeepsChoice | src/components/HomeDashboard.jsx:775-781 | from at most six distinct offered items, toggling an offered item leaves at most six distinct offered items |
| DistressSelection.TogglePresent | src/components/HomeDashboard.jsx:776-777 | toggling the item at index i yields the list without index i, the others in order |
| DistressSelection.ToggleAbsentTwice | src/components/HomeDashboard.jsx:778-779 | picking an unchosen item below six and unpicking it restores the list |
| DistressSelection.DisabledCheckboxIsInert | src/components/HomeDashboard.jsx:831 | the checkbox of an unchosen item at six is disabled, and toggling it would change nothing |
| DistressSelection.SectionStep | src/components/HomeDashboard.jsx:744-749 | the section's list changes only on an enabled confirm, which commits the modal's list and closes the modal |
| DistressSelection.InitialSectionStateValid | src/components/HomeDashboard.jsx:695-698 | the page starts with six distinct distresses from the definitions |
| DistressSelection.SectionStepKeepsInvariant | src/components/HomeDashboard.jsx:744-851 | every event keeps the section at six distinct distresses and an open modal at six or fewer |
| DistressSelection.SectionRunKeepsInvariant | src/components/HomeDashboard.jsx:744-851 | the same invariant holds after any sequence of events |
| DistressSelection.EditCopiesList | src/components/HomeDashboard.jsx:762 | Edit opens the modal on a copy of the section's list |
| DistressSelection.ConfirmCommits | src/components/HomeDashboard.jsx:746-749 | at six, confirm commits the local list and closes the modal; otherwise it changes nothing |
| DistressSelection.OnlyConfirmCommits | src/components/HomeDashboard.jsx:744-749 | events without a confirm never change the section's list |
| DistressSelection.CloseDiscards | src/components/HomeDashboard.jsx:745 | after closing, the next Edit starts again from the section's list, not from the discarded edits |
| DistressSelection.SelectionModal.constructor | src/components/HomeDashboard.jsx:762 | the modal's local list starts as the list it is given |
| DistressSelection.SelectionModal.ToggleDistress | src/components/HomeDashboard.jsx:775-781 | the handler replaces the local list by its toggled version |
| DistressSelection.ImmediateActionSection.constructor | src/components/HomeDashboard.jsx:694-698 | the section starts closed with the initial six |
| DistressSelection.ImmediateActionSection.Edit | src/components/HomeDashboard.jsx:726 | Edit mounts a fresh modal on a copy of the list when none is open |
| DistressSelection.ImmediateActionSection.Check | src/components/HomeDashboard.jsx:828-831 | a checkbox toggles the mounted modal's list and keeps the invariant |
| DistressSelection.ImmediateActionSection.Close | src/components/HomeDashboard.jsx:745 | closing unmounts the modal and keeps the section's list |
| DistressSelection.ImmediateActionSection.Confirm | src/components/HomeDashboard.jsx:746-749 | an enabled confirm commits the modal's list and unmounts the modal |
| BuyboxAccordion.Toggled | src/components/HomeDashboard.jsx:956-958 | toggling the open row closes it; toggling any other row opens that one |
| BuyboxAccordion.AfterKey | src/components/HomeDashboard.jsx:960-963 | Enter toggles; Escape closes only the open row; any other key or row is left alone |
| BuyboxAccordion.StatusBadge | src/components/HomeDashboard.jsx:988-996 | an optimized row reads Fully optimized; any other row reads its alert count followed by " alerts", or just " alerts" when it has no count, since React draws an undefined child as nothing |
| BuyboxAccordion.SampleCountsMatchAlerts | src/components/HomeDashboard.jsx:919-954 | in the shipped rows, exactly the non-optimized rows have alerts, and their count equals the number of alerts |
| BuyboxAccordion.ToggleTwice | src/components/HomeDashboard.jsx:956-958 | toggling one row twice restores the state iff nothing or that row was open |
| BuyboxAccordion.ToggleSwitches | src/components/HomeDashboard.jsx:956-958 | toggling a row while another is open moves the expansion to it |
| BuyboxAccordion.AtMostOneExpanded | src/components/HomeDashboard.jsx:980 | with distinct ids, at most one row is drawn expanded, and none when nothing is open |
| BuyboxAccordion.AlertPanelsWithinExpanded | src/components/HomeDashboard.jsx:1005 | only an expanded row can show an alert panel, so there are never more panels than expanded rows |
| BuyboxAccordion.AlertPanelCountPositive | src/components/HomeDashboard.jsx:1005 | some panel is shown iff some row is the expanded one and has alerts |
| BuyboxAccordion.AtMostOneAlertPanel | src/components/HomeDashboard.jsx:1005 | with distinct ids at most one alert panel is on screen, none when nothing is open, and one exactly when the open row has alerts |
| BuyboxAccordion.AlertPanelAfterKey | src/components/HomeDashboard.jsx:956-963 | a click or Enter shows a row's panel iff the row was closed and has alerts; Escape on a row hides its panel |
| BuyboxAccordion.OnlyPhoenixShowsAlerts | src/components/HomeDashboard.jsx:1005 | among the shipped rows, only the second row can show an alert panel |
| BuyboxAccordion.BuyboxStatus.constructor | src/components/HomeDashboard.jsx:917-954 | the accordion starts with nothing open on the shipped rows |
| BuyboxAccordion.BuyboxStatus.HandleToggle | src/components/HomeDashboard.jsx:956-958 | the click handler performs the toggle |
| BuyboxAccordion.BuyboxStatus.HandleKeyDown | src/components/HomeDashboard.jsx:960-963 | the key handler performs the key transition, testing Escape against the state at key time |
| BuyboxAccordion.BuyboxStatus.ShowsAlerts | src/components/HomeDashboard.jsx:1005 | when a row shows its alert panel, no row with another id shows one |
| TableCells.MatchEnd | src/components/HomeDashboard.jsx:1385 | a match found at a start index is at least four characters long and lies inside the cell |
| TableCells.MatchEndSound | src/components/HomeDashboard.jsx:1385 | for each of the three regular expressions (also lines 1479 and 1496), whatever the engine matches is a token of the pattern |
| TableCells.MatchEndComplete | src/components/HomeDashboard.jsx:1385 | every token at a start index is exactly what the engine matches there |
| TableCells.FirstMatch | src/components/HomeDashboard.jsx:1385 | the search returns a match with none further left, or reports that none exists from the start |
| TableCells.FirstMatchIsFirstToken | src/components/HomeDashboard.jsx:1385 | the search returns (p, e) iff the text from p to e is a token and no token starts before p |
| TableCells.FirstMatchNone | src/components/HomeDashboard.jsx:1385 | the search fails iff the cell contains no token |
| TableCells.RemoveMatchedText | src/components/HomeDashboard.jsx:1389 | for each table (also lines 1482 and 1498), replacing the matched text by '' removes it at the match position, since it cannot occur further left |
| TableCells.FormatNicheCell | src/components/HomeDashboard.jsx:1373-1406 | the first column is a link unless it is a summary row label; a delta is a token and is positive iff it starts with `+`; only the dash is muted |
| TableCells.NicheDeltaCell | src/components/HomeDashboard.jsx:1385-1389 | a cell with a leftmost delta token splits into the trimmed remainder and the delta, positive iff signed `+` |
| TableCells.NichePlainCell | src/components/HomeDashboard.jsx:1401-1405 | a cell without a delta token is shown as it is, muted iff it is the dash |
| TableCells.GoodIffWholePartPositive | src/components/HomeDashboard.jsx:1481-1483 | a multiplier is at least 1 iff its whole-number digits contain a non-zero digit |
| TableCells.FormatScoreCell | src/components/HomeDashboard.jsx:1473-1508 | the first column is a label; otherwise the cell holds a multiplier token, a percentage token, or is shown as it is |
| TableCells.ScoreMultiplierCell | src/components/HomeDashboard.jsx:1479-1483 | a leftmost multiplier token wins, whatever percentages the cell holds; the base is the trimmed remainder; good iff at least 1 |
| TableCells.ScorePercentCell | src/components/HomeDashboard.jsx:1496-1498 | without a multiplier, the leftmost percentage token is split off and the rest trimmed |
| TableCells.ScorePlainCell | src/components/HomeDashboard.jsx:1507 | with neither token, the cell is shown as it is |
| TableCells.PositiveDeltaExample | src/components/HomeDashboard.jsx:1360 | `7.7K (+20%)` splits into base `7.7K` and a positive delta `+20%` |
| TableCells.NegativeDeltaExample | src/components/HomeDashboard.jsx:1363 | `9 (-2.0%)` splits into base `9` and a negative delta `-2.0%` |
| TableCells.NicheOtherExamples | src/components/HomeDashboard.jsx:1360-1361 | `800` is plain, the dash is muted, a distress name in the first column is a link, and `Total properties` is a label |
| TableCells.HalfIsBad | src/components/HomeDashboard.jsx:1483 | `0.5x` is not good |
| TableCells.ThreeIsGood | src/components/HomeDashboard.jsx:1483 | `3x` is good |
| TableCells.BadMultiplierExample | src/components/HomeDashboard.jsx:1461 | `2.5% (0.5x)` reads base `2.5%` with the bad multiplier `0.5x`, although `2.5%` is also a percentage |
| TableCells.GoodMultiplierExample | src/components/HomeDashboard.jsx:1462 | `16% (3x)` reads base `16%` with the good multiplier `3x` |
| TableCells.PercentExample | src/components/HomeDashboard.jsx:1461 | `6.5K (10%)` has no multiplier and reads base `6.5K` with the percentage `10%` |
| TableCells.PlainScoreExamples | src/components/HomeDashboard.jsx:1461 | `1.2K` is plain, and the score band in the first column is a label |
| JsText.Trim | src/components/HomeDashboard.jsx:1389 | the result is the slice of the input without trimmable first and last characters, and everything cut off is trimmable |
| JsText.IndexOf | src/components/HomeDashboard.jsx:1389 | the leftmost occurrence at or after the start, or none at all |
| JsText.RemoveFirst | src/components/HomeDashboard.jsx:1389 | `replace(pat, '')` shortens by the pattern's length, or returns the input when the pattern does not occur |
| JsText.RemoveFirstAt | src/components/HomeDashboard.jsx:1389 | when the first occurrence is at p, the result is the text before p followed by the text after the occurrence |
| JsText.DecimalString | src/components/HomeDashboard.jsx:485 | `toString` of a non-negative integer is a non-empty digit string without a leading zero that denotes the number |
| JsText.DecimalStringOfValue | src/components/HomeDashboard.jsx:485 | every canonical digit string is the `toString` of the number it denotes |
| TooltipVisibility.Step | src/components/HomeDashboard.jsx:214-242 | hover and focus show only a non-empty content; leave, blur and Escape hide; other keys do nothing; a new content keeps the flag |
| TooltipVisibility.RunKeepsConsistent | src/components/HomeDashboard.jsx:225-242 | while the content is fixed, the tooltip is visible only with non-empty content, so visible and shown agree |
| TooltipVisibility.EmptyNeverShown | src/components/HomeDashboard.jsx:225-241 | a tooltip with empty content is never shown, whatever the user does |
| TooltipVisibility.ContentChangeKeepsFlag | src/components/HomeDashboard.jsx:225 | emptying the content hides a shown tooltip; restoring it shows the tooltip again with no new hover |
| TooltipVisibility.ShowThenHide | src/components/HomeDashboard.jsx:216-242 | enter then leave, focus then blur, and focus then Escape all end hidden |
| TooltipVisibility.Tooltip.constructor | src/components/HomeDashboard.jsx:210 | a tooltip starts hidden |
| TooltipVisibility.Tooltip.Enter | src/components/HomeDashboard.jsx:239-241 | mouse enter and focus set the flag only for non-empty content |
| TooltipVisibility.Tooltip.Leave | src/components/HomeDashboard.jsx:240-242 | mouse leave and blur clear the flag |
| TooltipVisibility.Tooltip.KeyDown | src/components/HomeDashboard.jsx:214-222 | Escape hides a visible tooltip; other keys do nothing |
| TooltipVisibility.Tooltip.SetContent | src/components/HomeDashboard.jsx:209 | a new content prop replaces the content and keeps the flag |
| MissedDealsPatterns.CurrentRows | src/components/HomeDashboard.jsx:1082 | each selector option shows its own list; any other grouping shows the niche list |
| MissedDealsPatterns.CurrentRowsAreTopPatterns | src/components/HomeDashboard.jsx:1047-1082 | whatever the grouping, six patterns with distinct names are listed by descending count, with widths of at most 100% |
| MissedDealsPatterns.RowByRowIsTop | src/components/HomeDashboard.jsx:1047-1081 | a list checked row against following rows is ordered by count, has distinct names and widths of at most 100% |
| MissedDealsPatterns.FallbackIsNiche | src/components/HomeDashboard.jsx:1082 | an unknown grouping shows the same list as the initial grouping |
| HeroBanner.CounterDigits | src/components/HomeDashboard.jsx:485 | one single-digit string per decimal digit; joined, they read back as the counter, with no leading zero |
| HeroBanner.Split | src/components/HomeDashboard.jsx:485 | `split('')` gives one one-character string per character, and joining them gives the string back |
| HeroBanner.InitialDigits | src/components/HomeDashboard.jsx:485 | the initial counter 232 is drawn as 2, 3, 2 |

## Left out

- JSX, SVG geometry, CSS classes and the Tailwind theme. They are presentation only.
- The one-second intervals that increment the hero counter and the animated counter
  (lines 273-277 and 477-482). They depend on time. `CounterDigits` holds for every
  counter value they could reach.
- JsText.DecimalString: JavaScript writes numbers of 1e21 and above in exponent form and
  loses integer precision above 2^53. The model gives the plain digits of every natural
  number. The counters never get near these values.
- The action cards are drawn from the constant `actionData` and ignore the stored list of
  distresses; the model keeps that list but draws no cards.
- `toLocaleString` in the animated counter (line 281). It depends on the host locale.
- ZipCodeMap.ZoomedIn: floating-point drift of the source's 0.2 steps is not modelled.
  For instance, five presses from 1 give 1.9999999999999998 there rather than 2. Zoom is
  exact tenths here.
- TableCells.IsGood: `parseFloat` rounding is not modelled. The multiplier is compared
  with 1 as the exact fraction its digits denote. A text such as `0.99999999999999999999x`
  rounds to 1 in the source yet is not good here.
- DOM plumbing is left out: the document keydown listeners of the tooltip and the modal as
  listeners, focus management (line 771), `stopPropagation` (line 794) and `tabIndex`.
  The modal's Escape listener, its backdrop, its close icon and Cancel all become the one
  `Close` event.
- The browser's native click after Enter on a button. In a browser, Enter on a buybox row
  may toggle twice; the model has only the `onKeyDown` handler.
- Mouse-hover styling (lines 899-902), the sidebar collapse (line 1567) and the static
  data of the other cards. They are constant literals or one-flag flips.
- `ZipCodeMap.DetailPanel`: the source's `zipData[selectedZip]` also finds keys inherited
  by JavaScript objects (such as `constructor`), so the guard at line 1253 would pass for
  them. The model looks up only the record keys. Only `99504` or null can become selected,
  so this never arises on the page.
- `MissedDealsPatterns.CurrentRows`: keys inherited by JavaScript objects (such as
  `constructor`) would not fall back to the niche list in the source. The model treats
  every key outside the four groupings as unknown.
- JavaScript strings are UTF-16; the model's strings are sequences of code points. All
  literals involved are in the Basic Multilingual Plane.
- `replace` with special replacement patterns (`$&` and similar) is not modelled. The
  page replaces only by the empty string.
- The detail panel's field rows are not modelled. Lines 1274-1286 render the fields of
  the selected record; the model keeps the record itself in the panel.
