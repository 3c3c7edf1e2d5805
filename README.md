# Splitter layout and application menu of the Bot Framework Emulator

This project models two parts of the Bot Framework Emulator.

- **The `Splitter` component** of the client UI. It lays out a row or column of panes with draggable handles between them:
  - It sizes the panes from the optional `initialSizes` prop when the component mounts or the number of children changes. Entries are pixels or percentage strings; the remaining extent is shared evenly.
  - When the container is resized, the secondary panes absorb the change.
  - While a handle is dragged, the two panes on either side of it are resized, bounded by their minimum sizes. An `onSizeChange` observer gets absolute and percentage sizes.
  - Rendering puts a handle after every child whose successor is truthy and caches each pane's size.
- **The `AppMenuBuilder`** of the Electron main process. It builds the application menu template:
  - the File menu with recent bots, the Azure sign-in entry and the theme checkboxes;
  - the Edit, View, Conversation and Help menus;
  - on macOS, the application menu and the Window menu as well.

  The builder also keeps the last template it made. It can place a new File menu into a template. It refreshes the auto-update entry of the Help menu by merging a new item into the old one in place, as `Object.assign` does.

The files:

- `wrappers.dfy` has `Option` and `Result`.
- `decimal.dfy` has JavaScript's `parseInt` and the decimal rendering of a natural number.
- `splitter_geometry.dfy` has the layout arithmetic as functions, with its properties: conservation of the container extent, the drag bounds, and percentages summing to 100.
- `splitter.dfy` has the component as a class whose methods update its fields. Each method is proved against those functions.
- `app_menu.dfy` has the menus as values and the patch performed by `refreshAppUpdateMenu`.
- `app_menu_builder.dfy` has the builder as a class. It holds the template as an array that it shares with callers.

Measurements and events are parameters. These are the bounding boxes of the container, the panes and the handles, and the mouse position. Click handlers are represented by a tag naming the action they perform.

## Model

| member | source | states |
|---|---|---|
| Decimal.ParseIntOfDecimal | packages/app/main/src/appMenuBuilder.ts:340 | `parseInt` reads back any natural number written in decimal, followed by a non-digit suffix such as `%` |
| Decimal.ParseIntSkipsWhitespace | packages/app/client/src/ui/layout/splitter/index.tsx:221-222 | `parseInt` ignores leading whitespace |
| Decimal.ParseIntNoDigits | packages/app/client/src/ui/layout/splitter/index.tsx:221-222 | `parseInt` of a string that does not start with a sign, a space or a digit is NaN |
| Decimal.NatToDecimal | packages/app/main/src/appMenuBuilder.ts:340 | the decimal text of a number is non-empty, all digits, and has no leading zero |
| Decimal.DecimalValue | packages/app/main/src/appMenuBuilder.ts:340 | the digits of the decimal text have the number as their value |
| Decimal.ParseInt | packages/app/client/src/ui/layout/splitter/index.tsx:222 | `parseInt` of the empty string is NaN, and a string that starts with a decimal digit (and no `0x` prefix) reads as the value of its leading run of digits; `ParseIntSkipsWhitespace` (white space), `ParseIntNoDigits` (no digits), `ParseIntOfDecimal` (unsigned decimal), `ParseIntOfNegativeDecimal` (the `-` sign) and `ParseIntOfHex` (the `0x`/`0X` prefix) state the rest |
| Decimal.ParseIntOfNegativeDecimal | packages/app/client/src/ui/layout/splitter/index.tsx:222 | `parseInt` of `-` followed by the decimal text of `k` and a non-digit suffix is `-k`: the sign negates the number read |
| Decimal.ParseIntOfHex | packages/app/client/src/ui/layout/splitter/index.tsx:222 | after a `0x` or `0X` prefix, `parseInt` reads the run of hexadecimal digits as a base-16 number and ignores the text after it |
| SplitterGeometry.ConvertHint | packages/app/client/src/ui/layout/splitter/index.tsx:221-222 | a string that `parseInt` reads as `p` becomes `p / 100 * container` pixels; an unreadable one becomes NaN; numbers, NaN included, are unchanged |
| SplitterGeometry.PercentOfDecimal | packages/app/client/src/ui/layout/splitter/index.tsx:221-222 | for every whole number `k` and container, the string "`k`%" becomes `k / 100 * container` pixels |
| SplitterGeometry.FirstNaN | packages/app/client/src/ui/layout/splitter/index.tsx:224-226 | locates the first NaN entry, the one at which the `forEach` throws; none is found exactly when no entry is NaN |
| SplitterGeometry.Lookup | packages/app/client/src/ui/layout/splitter/index.tsx:236 | `initialSizes[i]` is undefined exactly when no entry has key `i`, and otherwise is the value of the last entry with key `i` |
| SplitterGeometry.DefaultShare | packages/app/client/src/ui/layout/splitter/index.tsx:230-232 | the default pane size is undefined (a division by zero) exactly when no pane is left to take it |
| SplitterGeometry.Fill | packages/app/client/src/ui/layout/splitter/index.tsx:235-241 | every pane gets its explicit non-zero size, or the default size |
| SplitterGeometry.InitialLayout | packages/app/client/src/ui/layout/splitter/index.tsx:215-241 | the layout has one size per pane; without `initialSizes` it always succeeds; it fails with the thrown error exactly when some entry converts to NaN; a division by zero needs as many entries as panes; `InitialLayoutConserves` and `EvenSplit` state the sizes |
| SplitterGeometry.InitialLayoutConserves | packages/app/client/src/ui/layout/splitter/index.tsx:215-241 | with distinct in-range keys, fewer entries than panes and no NaN or zero entry, the layout succeeds and the panes plus the handles fill the container exactly |
| SplitterGeometry.EvenSplit | packages/app/client/src/ui/layout/splitter/index.tsx:231-241 | without `initialSizes`, every pane gets `container / n`, and the sizes add up to the container |
| SplitterGeometry.ZeroSizeTakesShare | packages/app/client/src/ui/layout/splitter/index.tsx:227-239 | an entry of 0 still counts as sized when the share is computed, but its pane gets the default share (0 is falsy) |
| SplitterGeometry.ZeroSizeOvershoots | packages/app/client/src/ui/layout/splitter/index.tsx:227-239 | two panes in 400 with pane 0 given 0 are laid out as 400 and 400 |
| SplitterGeometry.InvalidEntryFails | packages/app/client/src/ui/layout/splitter/index.tsx:224-226 | any entry that converts to NaN makes the calculation fail |
| SplitterGeometry.TwoEvenPanes | packages/app/client/src/ui/layout/splitter/index.tsx:231-241 | two panes in 400 are 200 and 200 |
| SplitterGeometry.OneFixedPane | packages/app/client/src/ui/layout/splitter/index.tsx:215-241 | three panes in 500 with pane 0 at 100 are 100, 200 and 200 |
| SplitterGeometry.QuarterPane | packages/app/client/src/ui/layout/splitter/index.tsx:215-241 | two panes in 400 with pane 0 at "25%" are 100 and 300 |
| SplitterGeometry.ParseQuarter | packages/app/client/src/ui/layout/splitter/index.tsx:222 | `parseInt("25%")` is 25 |
| SplitterGeometry.UnparsablePercentFails | packages/app/client/src/ui/layout/splitter/index.tsx:221-226 | a percentage string `parseInt` cannot read makes the calculation fail |
| SplitterGeometry.Adjustment | packages/app/client/src/ui/layout/splitter/index.tsx:272 | the per-pane adjustment is undefined (infinite) exactly when there is a single pane |
| SplitterGeometry.AddExcept | packages/app/client/src/ui/layout/splitter/index.tsx:276-280 | every pane but the primary one grows by the adjustment |
| SplitterGeometry.Redistribute | packages/app/client/src/ui/layout/splitter/index.tsx:268-282 | the resized sizes keep their number and the primary size; the step is undefined exactly when there is one pane record and some pane other than the primary; `RedistributeConserves` states the total |
| SplitterGeometry.RedistributeConserves | packages/app/client/src/ui/layout/splitter/index.tsx:268-282 | with two or more panes the primary pane keeps its size and the total grows by exactly the change in container extent |
| SplitterGeometry.ResizeKeepsConservation | packages/app/client/src/ui/layout/splitter/index.tsx:254-282 | sizes that filled the old container fill the new one after a resize |
| SplitterGeometry.MinSizeOf | packages/app/client/src/ui/layout/splitter/index.tsx:331-333 | `minSizes[i] \|\| MIN_PANE_SIZE`: the configured minimum when it is present and non-zero, otherwise 0 |
| SplitterGeometry.DragStep | packages/app/client/src/ui/layout/splitter/index.tsx:330-352 | the cached primary size is at least its minimum and the pointer offset; the committed primary size plus the handle never passes the local container; the secondary size is at least its minimum; each bound holds with equality exactly when the other allows it; a pointer inside the free range gives it exactly |
| SplitterGeometry.DragFromBoxes | packages/app/client/src/ui/layout/splitter/index.tsx:320-352 | measured on the boxes: the cached primary size is at least its minimum and the pointer offset; the primary size fits in the two panes; the secondary size is at least its minimum; the pair keeps its extent exactly when the secondary minimum allows it |
| SplitterGeometry.SizeReports | packages/app/client/src/ui/layout/splitter/index.tsx:357-360 | one report per pane, with its absolute size and, for a non-zero container, `size / container * 100` |
| SplitterGeometry.PercentagesAreShares | packages/app/client/src/ui/layout/splitter/index.tsx:359 | the reported percentages add up to the share of the container that the panes fill |
| SplitterGeometry.PercentagesAddUpTo100 | packages/app/client/src/ui/layout/splitter/index.tsx:357-360 | when the panes fill the container, the percentages add up to 100 |
| SplitterGeometry.DragScenario | packages/app/client/src/ui/layout/splitter/index.tsx:320-362 | dragging the handle of two 200-wide panes to x=350 gives 350 and 50, reported as 87.5 % and 12.5 % |
| SplitterGeometry.DragScenarioWithSecondaryMinimum | packages/app/client/src/ui/layout/splitter/index.tsx:330-352 | the same drag with a secondary minimum of 100 gives 350 and 100 |
| SplitterGeometry.CachedSize | packages/app/client/src/ui/layout/splitter/index.tsx:385 | a pane record caches the state's size when it is truthy, and 200 when it is 0 or missing; never 0 |
| SplitterGeometry.RenderItems | packages/app/client/src/ui/layout/splitter/index.tsx:375-409 | rendering `k` children gives one pane per child plus one handle per truthy successor; `RenderAlternates` states the order |
| SplitterGeometry.RenderPrefix | packages/app/client/src/ui/layout/splitter/index.tsx:375-409 | with truthy children, the first `k` children render as `k` pane/handle pairs |
| SplitterGeometry.RenderAlternates | packages/app/client/src/ui/layout/splitter/index.tsx:370-409 | with truthy children, render alternates pane `j` and handle `j`, with one handle fewer than panes |
| SplitterComponent.ConvertedCount | packages/app/client/src/ui/layout/splitter/index.tsx:219-229 | the `forEach` converts at most all the entries |
| SplitterComponent.Overlay | packages/app/client/src/ui/layout/splitter/index.tsx:235-241 | writing sizes over the front of the state's array keeps its length or extends it |
| SplitterComponent.OverlayElements | packages/app/client/src/ui/layout/splitter/index.tsx:235-241 | the new sizes win where written; beyond them the old sizes remain |
| SplitterComponent.SplittersBound | packages/app/client/src/ui/layout/splitter/index.tsx:390-406 | render makes no more handles than children, and fewer whenever there is a child |
| SplitterComponent.NaNStopsConversion | packages/app/client/src/ui/layout/splitter/index.tsx:219-226 | the first entry that converts to NaN is where conversion stops; entries after it are left unconverted |
| SplitterComponent.ObjectKeepsFirstConversion | packages/app/client/src/ui/layout/splitter/index.tsx:221-222 | an object passed as `initialSizes` keeps the pixel values of its first conversion, and a later calculation at another container extent reads them unchanged |
| SplitterComponent.Splitter.constructor | packages/app/client/src/ui/layout/splitter/index.tsx:87-113 | no splitter is active, no records exist, the sizes are empty and no drag is in progress |
| SplitterComponent.Splitter.CalculateInitialPaneSizes | packages/app/client/src/ui/layout/splitter/index.tsx:201-244 | measures the container; the result is the layout function of the prop; on success the layout overwrites the front of the state's sizes, on failure they stay; an object prop keeps its converted values |
| SplitterComponent.Splitter.ConvertInitialSizes | packages/app/client/src/ui/layout/splitter/index.tsx:217-229 | the `forEach` yields the converted entries, the extent they leave and the panes left to size, or fails at the first NaN, having written the converted values up to it |
| SplitterComponent.Splitter.FillPaneSizes | packages/app/client/src/ui/layout/splitter/index.tsx:230-243 | the fill loop writes the layout over the front of the state's sizes, or reports the division by zero |
| SplitterComponent.Splitter.CheckForContainerResize | packages/app/client/src/ui/layout/splitter/index.tsx:254-266 | changes only the measured extent and the sizes: with no primary pane or an unchanged extent nothing changes; otherwise the new extent is recorded and the change is spread over the secondary panes |
| SplitterComponent.Splitter.CalculateSecondaryPaneSizes | packages/app/client/src/ui/layout/splitter/index.tsx:268-282 | the sizes become `Redistribute` of the old ones, or stay and the step is reported divergent for a single pane |
| SplitterComponent.Splitter.OnGrabSplitter | packages/app/client/src/ui/layout/splitter/index.tsx:302-310 | changes only the drag fields: records the handle's box, makes it active, measures the container and starts a drag |
| SplitterComponent.Splitter.CalculatePaneSizes | packages/app/client/src/ui/layout/splitter/index.tsx:320-363 | the two pane records and the two state sizes take the drag step's values, and the observer gets `SizeReports` of the new sizes |
| SplitterComponent.Splitter.OnMouseMove | packages/app/client/src/ui/layout/splitter/index.tsx:312-318 | changes only the extent, the sizes and the pane records; outside a drag nothing changes; during one the resize check first spreads any change in extent over the secondary panes (or reports that it diverged), then the drag step sets both panes of the active handle in the state and in their records, and the observer gets the reports |
| SplitterComponent.Splitter.OnMouseUp | packages/app/client/src/ui/layout/splitter/index.tsx:365-368 | the drag ends |
| SplitterComponent.Splitter.Render | packages/app/client/src/ui/layout/splitter/index.tsx:370-418 | the rendered items are `RenderItems` of the children; every pane record caches its size; the handle records grow to the number of handles |
| SplitterComponent.Splitter.ReceiveChildren | packages/app/client/src/ui/layout/splitter/index.tsx:193-199 | changes only the children, the extent, the prop and the sizes; the layout is recalculated exactly when the number of children changes |
| AppMenu.Titles | packages/app/main/src/appMenuBuilder.ts:72-92 | the title of each menu, in order |
| AppMenu.Present | packages/app/main/src/appMenuBuilder.ts:97 | `filter(bot => !!bot)` keeps exactly the bots that are present, and no more of them than were given |
| AppMenu.RecentBotsList | packages/app/main/src/appMenuBuilder.ts:95-104 | the list has no more items than bots given |
| AppMenu.RecentBotsAppend | packages/app/main/src/appMenuBuilder.ts:95-104 | the list of two runs of bots is the two lists joined |
| AppMenu.RecentBotsArePresent | packages/app/main/src/appMenuBuilder.ts:95-104 | item `i` is labelled with the `i`-th present bot and switches to its path |
| AppMenu.AllBotsListed | packages/app/main/src/appMenuBuilder.ts:95-104 | with every bot present, there is one item per bot |
| AppMenu.RecentBotsNotCapped | packages/app/main/src/appMenuBuilder.ts:96-97 | six bots give six items, despite the comment promising five |
| AppMenu.OpenRecent | packages/app/main/src/appMenuBuilder.ts:124-135 | "Open Recent..." is disabled exactly when there are no recent bots, and has the bots' list as its submenu exactly when there are some |
| AppMenu.AzureItem | packages/app/main/src/appMenuBuilder.ts:156-169 | "Sign out (user)" for a signed-in user and "Sign in with Azure" otherwise; the click signs out exactly when a user is signed in |
| AppMenu.ThemeItems | packages/app/main/src/appMenuBuilder.ts:171-189 | one checkbox per available theme, labelled with its name and checked exactly when it is the current theme |
| AppMenu.CurrentThemeChecked | packages/app/main/src/appMenuBuilder.ts:176-180 | some theme is checked exactly when the current theme is one of the available themes |
| AppMenu.OneThemeChecked | packages/app/main/src/appMenuBuilder.ts:176-180 | with distinct theme names, no two themes are checked |
| AppMenu.FileMenu | packages/app/main/src/appMenuBuilder.ts:107-199 | the File menu has 14 entries, with Open Recent at 3 and quit at 13; `FileMenuLayout` states the rest |
| AppMenu.FileMenuLayout | packages/app/main/src/appMenuBuilder.ts:107-199 | the File menu has 14 items: Open Recent at 3, the Azure item at 9, Themes at 11, quit at 13, separators at 1, 4, 6, 8, 10 and 12 |
| AppMenu.UpdateMenuItem | packages/app/main/src/appMenuBuilder.ts:321-351 | the item always has id `auto-update`, a label and an enabled flag; ready to install: "Restart to Update...", which quits and installs; checking: "Checking for update...", disabled; any other status: "Check for Update...", which checks for updates; enabled exactly when one of those two handlers is set |
| AppMenu.DownloadProgressReadBack | packages/app/main/src/appMenuBuilder.ts:336-342 | while downloading, the label starts with "Update downloading: " and `parseInt` of the rest gives back the progress |
| AppMenu.HelpMenu | packages/app/main/src/appMenuBuilder.ts:257-319 | the help menu has 14 entries with the update item at 11, after no other update item, and About last |
| AppMenu.Insert | packages/app/main/src/appMenuBuilder.ts:81-88 | `unshift` and `splice(i, 0, x)` put `x` at `i` and shift the later menus up by one |
| AppMenu.AppMenuTemplate | packages/app/main/src/appMenuBuilder.ts:72-92 | seven menus on macOS and five elsewhere, the help menu last and no other help menu before it |
| AppMenu.TopLevelOrder | packages/app/main/src/appMenuBuilder.ts:72-92 | the menus are app, File, Edit, View, Window, Conversation, help on macOS, and File, Edit, View, Conversation, help elsewhere |
| AppMenu.FileMenuAtItsIndex | packages/app/main/src/appMenuBuilder.ts:413-420 | the index `setFileMenu` writes on each platform is where the built template holds the File menu |
| AppMenu.FirstIndex | packages/app/main/src/appMenuBuilder.ts:423-424 | `find` returns the first item satisfying the test, or nothing exactly when no item does |
| AppMenu.FirstIndexAfter | packages/app/main/src/appMenuBuilder.ts:423-424 | behind items that fail the test, `find` returns the first item that passes |
| AppMenu.Assign | packages/app/main/src/appMenuBuilder.ts:425 | `Object.assign`: each of the eight fields takes the new item's value when it defines one and keeps the old value otherwise |
| AppMenu.PatchAutoUpdate | packages/app/main/src/appMenuBuilder.ts:422-425 | fails for want of a help menu exactly when there is none; a successful patch keeps the number of menus and every menu that is not a help menu |
| AppMenu.PatchTouchesOnlyUpdateItem | packages/app/main/src/appMenuBuilder.ts:422-425 | a successful refresh changes only the update item of the first help menu; that item takes the new label and enabled flag and keeps its id |
| AppMenu.PatchHelpMenu | packages/app/main/src/appMenuBuilder.ts:257-319 | behind menus that are not help menus, the refresh merges the new item into the help menu's update item |
| AppMenu.PatchOfBuiltTemplate | packages/app/main/src/appMenuBuilder.ts:72-92 | refreshing a template the builder made, on either platform, gives the template built with the merged update item |
| AppMenu.MergedUpdateItem | packages/app/main/src/appMenuBuilder.ts:321-351 | the merged item equals the new one exactly when the new one has a click handler or the old one had none; otherwise it keeps the old handler |
| MenuBuilder.AppMenuBuilder.constructor | packages/app/main/src/appMenuBuilder.ts:60 | no template is kept yet |
| MenuBuilder.AppMenuBuilder.GetFileMenu | packages/app/main/src/appMenuBuilder.ts:107-199 | the pushes build exactly `FileMenu` |
| MenuBuilder.AppMenuBuilder.GetAppMenuTemplate | packages/app/main/src/appMenuBuilder.ts:72-92 | a new array holding `AppMenuTemplate` for the platform, kept as the current template |
| MenuBuilder.AppMenuBuilder.MenuTemplate | packages/app/main/src/appMenuBuilder.ts:63-65 | the kept template if there is one, otherwise a freshly built and kept one |
| MenuBuilder.AppMenuBuilder.SetMenuTemplate | packages/app/main/src/appMenuBuilder.ts:67-69 | the given template becomes the kept one |
| MenuBuilder.AppMenuBuilder.SetFileMenu | packages/app/main/src/appMenuBuilder.ts:413-420 | the caller's array gets the File menu at index 1 on macOS and 0 elsewhere, nothing else changes, and the same array is returned |
| MenuBuilder.AppMenuBuilder.RefreshAppUpdateMenu | packages/app/main/src/appMenuBuilder.ts:422-427 | the kept (or newly built) template is patched in place as `PatchAutoUpdate` says, or left as it was, naming the lookup that failed |
| MenuBuilder.PatchUpdateItem | packages/app/main/src/appMenuBuilder.ts:423-425 | the array is patched in place to `PatchAutoUpdate` of its old contents, or left as it was, naming the lookup that failed |

## Left out

- The DOM is not modelled. This covers `getBoundingClientRect`, `findDOMNode` and the refs, `clearSelection`, the window listeners and the `splitterResize` event. Measurements are parameters instead, and `dispatchEvent` is the call to the resize check it triggers.
- React's `setState` batching is not modelled. State updates happen at once.
- An infinite or NaN size from a division by zero is not stored. The model reports the step instead: `DivisionByZero` or `diverged`.
- Percentage: for a zero container extent the source reports `Infinity` or `NaN` as the percentage. The model reports no percentage (`None`) there.
- Only integer keys are modelled, and they are taken in the order given. `Object.keys` ordering and non-index keys of `initialSizes` are not modelled.
- `getContainerSize` returning `null` before the container is mounted is not modelled. The model always measures a box.
- SplitterComponent.Splitter.OnGrabSplitter: requires a handle that `render` created, between two sized panes. The source only calls it from such a handle.
- PercentOf: a percentage string is kept as what `parseInt` reads from it, not as its text.
- Electron and the rest of the main process are left out. This covers the `Electron.app` name and version, `setApplicationMenu`, `buildFromTemplate`, dialogs, command calls and the settings store. Click handlers are tags naming their action. The settings and the updater state are parameters.
- `appUpdater.ts` is not part of this model. Update statuses other than the four the menu tests are one `OtherStatus`.
- The download progress is a natural number.
- An absent `signedInUser` is the empty string, which is equally falsy. An absent `recentBots` is the empty list.
- MenuBuilder.AppMenuBuilder.SetFileMenu: requires the index to be inside the array. On a shorter array the source would grow it and leave a hole.
- A failed lookup in `refreshAppUpdateMenu` is modelled as a `RefreshError`. The source throws a `TypeError` there.
- Props other than `children` are fixed for the component's lifetime: `orientation`, `minSizes`, `primaryPaneIndex` and `onSizeChange` are constants of the `Splitter` object, and `initialSizes` changes only by its own in-place conversion. A function `initialSizes` returns the same entries on every call. The source reads `this.props` again at each event (index.tsx:209, 249, 256, 277, 330-352, 357), so a parent that passes new values of these props is not modelled; `ObjectKeepsFirstConversion` holds only while the parent passes the same object.
- In the source, `componentWillReceiveProps` copies only the new children count (line 196) before React installs the new props. `ReceiveChildren` installs the new children at once.
- Three behaviours of the code that a reader might not expect are stated as they are:
  - A drag does not rebalance the pair. With a secondary minimum of 100, a drag to 350 across two 200-wide panes gives 350 and 100, so the pair spans 450 (`DragScenarioWithSecondaryMinimum`).
  - The recent-bots list is not cut to five bots, whatever the comment at appMenuBuilder.ts:96 says (`RecentBotsNotCapped`).
  - A size of 0 in `initialSizes` counts as sized but falls back to the default, so the panes overshoot the container (`ZeroSizeOvershoots`).
- When a refresh replaces an enabled update item with a disabled one, `Object.assign` keeps the old click handler. `MergedUpdateItem` states this; the menu shows the item disabled.
