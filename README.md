# Portfolio dashboard state logic in Dafny

This project models the state logic behind a Next.js portfolio and dashboard
application, and proves properties of it. Each Dafny module corresponds to
one source file:

- `ModernTable`: the data grid. It covers selection, the header checkbox, the
  two-state sort toggle, column visibility, density, view mode, row
  highlighting, row menus and bulk actions.
- `Breadcrumb`: turns a pathname into breadcrumb crumbs.
- `Gallery`: the project gallery. It covers the category filter, the
  "show more" cut-off, and the modal's wrap-around paging.
- `StatCard`: the balance card. It covers the day/hour formatter and the
  status thresholds.
- `ActivityTimeline`: the live activity feed. It covers relative times,
  initials, and the "New" mark.
- `NotificationBell`: unread counts, "mark all read", the badge text and
  the category styles.
- `FilterBar`: active filter counts and filter tags.
- `StatusBadge`: status normalisation and rendering.
- `SecuritySettings`: the password-change rules, the session list and the
  two-factor toggle.
- `NotificationSettings`: the preference switches and the save flow.
- `Middleware`: the route guard.
- `Swipe`: the swipe gesture hook.
- `KeyboardNavigation`: the page-wide keyboard shortcuts.
- `Konami`: the key-sequence easter egg and the triple click.
- `AnimatedEffects`: the typewriter state machine, the mouse trail and the
  magnetic reset.
- `AuthStore`: the authentication store.
- `AppSidebar`: active-route highlighting and the sidebar layout.

Two helper modules support the rest:

- `JsPrims` models the JavaScript primitives the components rely on:
  - `slice` with negative indices;
  - truncating `%`;
  - `split`/`join`;
  - ASCII case mapping;
  - decimal rendering and parsing;
  - the keys every object literal inherits from `Object.prototype`.
- `Seqs` holds a generic filter and distinctness.

The models follow these conventions:

- Pure computations are functions.
- Component state that handlers update is a class whose methods state the
  whole new state.
- Timers are explicit steps.
- Clocks, storage failures and DOM queries are parameters.

## Model

| member | source | states |
|---|---|---|
| Seqs.Positions | src/components/shared/modern-table/index.tsx:462 | the positions of the elements a `filter` keeps: each satisfies the predicate, they strictly increase, and none is missed |
| Seqs.FilterAtPositions | src/components/shared/modern-table/index.tsx:462 | `filter` keeps order and multiplicity: its k-th element is the element at the k-th satisfying position |
| Seqs.FilterMultiset | src/components/shared/modern-table/index.tsx:462 | `filter` keeps every copy of a satisfying element and no copy of the others |
| ModernTable.AllSelected | src/components/shared/modern-table/index.tsx:446 | "all selected": some data and a selection exactly as long as the data (counts, not identities; `AllSelectedMeansEveryRow` gives its meaning) |
| ModernTable.SomeSelected | src/components/shared/modern-table/index.tsx:447 | "some selected": a non-empty selection shorter than the data |
| ModernTable.HeaderCheckbox | src/components/shared/modern-table/index.tsx:446-447 | "all" and "some" never hold together; the checkbox is indeterminate exactly when some rows are selected, checked exactly when the counts match, and unchecked otherwise (including a selection longer than the data) |
| ModernTable.Keys | src/components/shared/modern-table/index.tsx:451 | one key per row, in row order |
| ModernTable.SelectAll | src/components/shared/modern-table/index.tsx:449-455 | checking hands over every row's key, which makes the header checked; unchecking hands over the empty list, which makes it unchecked |
| ModernTable.SetChecked | src/components/shared/modern-table/index.tsx:457-463 | checking appends the id at the end; unchecking is the `filter` that drops the id, so the other ids keep their order and their number of copies (the multiset loses exactly the id) |
| ModernTable.SelectRow | src/components/shared/modern-table/index.tsx:457-463 | checking gives the old selection followed by the id; unchecking gives the old selection without any copy of the id, the others in order and with their copies |
| ModernTable.SelectRowRoundTrip | src/components/shared/modern-table/index.tsx:457-463 | checking and then unchecking an unselected row restores the selection exactly |
| ModernTable.DeselectIdempotent | src/components/shared/modern-table/index.tsx:461 | unchecking twice equals unchecking once |
| ModernTable.AllSelectedMeansEveryRow | src/components/shared/modern-table/index.tsx:446 | with distinct row keys and a duplicate-free selection of row keys, "all selected" holds exactly when every row's key is selected |
| ModernTable.StaleSelectionShowsChecked | src/components/shared/modern-table/index.tsx:446 | because only counts are compared, two stale ids over two new rows show the header as checked |
| ModernTable.HeaderClick | src/components/shared/modern-table/index.tsx:692 | a header click emits a state exactly when the column is sortable and an `onSort` handler is given, and then it is the `handleSort` state for that column |
| ModernTable.NextSort | src/components/shared/modern-table/index.tsx:465-476 | without an `onSort` handler nothing is emitted; otherwise the clicked column is emitted, with the direction flipped when it was the active column and ascending when it was not |
| ModernTable.ClicksAlternate | src/components/shared/modern-table/index.tsx:465-476 | repeated clicks on a new column alternate ascending and descending, starting ascending |
| ModernTable.SortTwiceRestores | src/components/shared/modern-table/index.tsx:468-472 | two clicks on the active column give back the original sort state |
| ModernTable.ColumnIds | src/components/shared/modern-table/index.tsx:433-435 | the initial visible list is each column's id, in order |
| ModernTable.DataColumns | src/components/shared/modern-table/index.tsx:232-233 | the rendered columns are exactly the defined columns whose ids are visible; the k-th is the column at the k-th visible position, so definition order is kept |
| ModernTable.DataColumnsIgnoreToggleOrder | src/components/shared/modern-table/index.tsx:232-233 | the rendered columns depend only on the set of visible ids, not on their order |
| ModernTable.AllColumnsInitiallyVisible | src/components/shared/modern-table/index.tsx:433-435 | at mount, every column is rendered, in definition order |
| ModernTable.RowMenu | src/components/shared/modern-table/index.tsx:281-285 | an action appears in the row menu exactly when `divider ?? !hidden(row)` holds, in list order |
| ModernTable.DividerFalseDropped | src/components/shared/modern-table/index.tsx:282 | an action with `divider: false` is never shown, whatever `hidden` says |
| ModernTable.BulkPayload | src/components/shared/modern-table/index.tsx:627-631 | the rows handed to a bulk action are exactly the rows whose key is selected; the k-th is the row at the k-th selected position of the data, so data order and duplicates are kept |
| ModernTable.KeysOfFilter | src/components/shared/modern-table/index.tsx:627-631 | the keys of the bulk payload are the row keys filtered by selection |
| ModernTable.FilterDistinct | src/components/shared/modern-table/index.tsx:628-630 | filtering keeps a key list duplicate-free |
| ModernTable.KeysOfPicked | src/components/shared/modern-table/index.tsx:627-631 | taking keys commutes with filtering rows by selected key |
| ModernTable.BulkBarShown | src/components/shared/modern-table/index.tsx:598 | the bulk bar shows exactly when the selection is non-empty and bulk actions are given |
| ModernTable.BulkPayloadSize | src/components/shared/modern-table/index.tsx:627-631 | with unique row keys and a consistent selection, a bulk action receives exactly as many rows as are selected |
| ModernTable.TableView.constructor | src/components/shared/modern-table/index.tsx:431-437 | mount state: table view, comfortable density, every column visible, highlighting as configured |
| ModernTable.TableView.EffectiveDensity | src/components/shared/modern-table/index.tsx:479 | compact view forces dense rows; otherwise the chosen density applies |
| ModernTable.TableView.SetViewMode | src/components/shared/modern-table/index.tsx:515 | only the view mode changes |
| ModernTable.TableView.SetDensity | src/components/shared/modern-table/index.tsx:539-548 | only the density changes |
| ModernTable.TableView.ToolbarMenusShown | src/components/shared/modern-table/index.tsx:528-554 | the density and column menus are offered in table view only |
| ModernTable.TableView.SetColumnVisible | src/components/shared/modern-table/index.tsx:565-572 | the visible list is updated as a row selection is, and nothing else changes |
| ModernTable.TableView.HighlightToggleShown | src/components/shared/modern-table/index.tsx:581-582 | the palette button is offered only when a classifier is given |
| ModernTable.TableView.ToggleRowHighlight | src/components/shared/modern-table/index.tsx:582-588 | highlighting flips, and nothing else changes |
| ModernTable.TableView.RowHighlight | src/components/shared/modern-table/index.tsx:731 | a row is highlighted only when highlighting is on and a classifier is given; then it gets the classifier's value |
| ModernTable.TableView.Body | src/components/shared/modern-table/index.tsx:646-667 | loading wins over the empty state, which wins over the card grid or table rows; table rows use the effective density |
| ModernTable.CompactRoundTrip | src/components/shared/modern-table/index.tsx:479 | passing through compact view and back to the table restores the stored density |
| Breadcrumb.OwnRoute | src/components/ui/dynamic-breadcrumb.tsx:47-64 | only the route table's own keys have a configuration, each with a non-empty label |
| Breadcrumb.Segments | src/components/ui/dynamic-breadcrumb.tsx:83 | the segments are the non-empty pieces of the pathname split on `/`, in pathname order; each is non-empty and free of `/` |
| Breadcrumb.SegmentsOfJoin | src/components/ui/dynamic-breadcrumb.tsx:83 | for any slash-free pieces, the segments of the pieces joined with `/` are the non-empty pieces in order, so leading, doubled and trailing slashes produce no segment |
| Breadcrumb.TrailingSlashIgnored | src/components/ui/dynamic-breadcrumb.tsx:83 | a trailing `/` does not change the segments |
| Breadcrumb.SegmentsOfCanonical | src/components/ui/dynamic-breadcrumb.tsx:83 | splitting `/` followed by the segments joined with `/` gives the segments back |
| Breadcrumb.IsDynamic | src/components/ui/dynamic-breadcrumb.tsx:96 | the id pattern: eight or more characters from `a-f`, digits and `-`, or one or more digits |
| Breadcrumb.RouteKeysNotDynamic | src/components/ui/dynamic-breadcrumb.tsx:96 | no route-table key matches the id pattern, so every configured label can be shown |
| Breadcrumb.Capitalize | src/components/ui/dynamic-breadcrumb.tsx:108 | the first character is upper-cased, the rest is kept, and the length is unchanged |
| Breadcrumb.MapCapitalize | src/components/ui/dynamic-breadcrumb.tsx:108 | each word is capitalised, position by position |
| Breadcrumb.TitleCase | src/components/ui/dynamic-breadcrumb.tsx:105-110 | split on `-`/`_`, capitalise each word, join with spaces; its meaning is given by `TitleCaseIsScan` and `TitleCaseShape` |
| Breadcrumb.TitleScan | src/components/ui/dynamic-breadcrumb.tsx:105-110 | a left-to-right reading of title-casing: the length is kept, separators become spaces, and other characters are kept or upper-cased |
| Breadcrumb.TitleCaseIsScan | src/components/ui/dynamic-breadcrumb.tsx:105-110 | split on `-`/`_`, capitalise and join with spaces equals the scan, and the pieces are the segment's words |
| Breadcrumb.TitleCaseShape | src/components/ui/dynamic-breadcrumb.tsx:105-110 | title-casing keeps the length, turns every `-` and `_` into a space, and only upper-cases other characters |
| Breadcrumb.ScanInsideWord | src/components/ui/dynamic-breadcrumb.tsx:108 | inside a word, the characters are unchanged |
| Breadcrumb.SingleWordTitleCase | src/components/ui/dynamic-breadcrumb.tsx:105-110 | a one-word segment only has its first letter upper-cased |
| Breadcrumb.Label | src/components/ui/dynamic-breadcrumb.tsx:93-111 | the corrected label: "Details" for an id, the configured label for a route-table key, the title-cased segment otherwise |
| Breadcrumb.ConfiguredLabel | src/components/ui/dynamic-breadcrumb.tsx:93-104 | every route-table key shows its configured label and icon: the id rule never overrides a configured segment |
| Breadcrumb.LabelNonEmpty | src/components/ui/dynamic-breadcrumb.tsx:93-111 | a non-empty segment never gets an empty label |
| Breadcrumb.LabelAsWritten | src/components/ui/dynamic-breadcrumb.tsx:93-111 | the label as the code computes it: it equals the corrected label except on inherited object keys, which are shown raw |
| Breadcrumb.InheritedSegmentNotTitleCased | src/components/ui/dynamic-breadcrumb.tsx:93-111 | the segment "constructor" is shown as "constructor", where title-casing gives "Constructor" |
| Breadcrumb.UnconfiguredLabelTitleCased | src/components/ui/dynamic-breadcrumb.tsx:104-110 | corrected: every segment that is neither id-like nor configured is title-cased, its first word starting upper-case, inherited member names included |
| Breadcrumb.IconOf | src/components/ui/dynamic-breadcrumb.tsx:99-104 | only configured, non-id segments carry an icon |
| Breadcrumb.PathToJoin | src/components/ui/dynamic-breadcrumb.tsx:88-90 | the path after k segments is `/` followed by those segments joined with `/` |
| Breadcrumb.PathToPrefix | src/components/ui/dynamic-breadcrumb.tsx:88-90 | shorter crumb paths are strict prefixes of longer ones |
| Breadcrumb.PathToInPathname | src/components/ui/dynamic-breadcrumb.tsx:88-90 | every crumb path starts the canonical pathname |
| Breadcrumb.GenerateBreadcrumbs | src/components/ui/dynamic-breadcrumb.tsx:82-83 | corrected: the crumbs are the trail of the pathname's segments, labelled by the corrected `Label` |
| Breadcrumb.CrumbsFor | src/components/ui/dynamic-breadcrumb.tsx:84-121 | corrected: the loop, extending the current path one segment at a time, yields the trail of all the segments, labelled by the corrected `Label` |
| Breadcrumb.GenerateBreadcrumbsAsWritten | src/components/ui/dynamic-breadcrumb.tsx:82-83 | as written: the crumbs are the as-written trail of the pathname's segments |
| Breadcrumb.CrumbsForAsWritten | src/components/ui/dynamic-breadcrumb.tsx:84-121 | as written: the same loop yields the trail labelled by `LabelAsWritten` |
| Breadcrumb.TrailsDifferOnlyInInheritedLabels | src/components/ui/dynamic-breadcrumb.tsx:93-119 | the as-written and corrected trails agree in every link, icon and current-page flag, and in every label except for segments named like inherited object members |
| Breadcrumb.ConstructorCrumb | src/components/ui/dynamic-breadcrumb.tsx:93-111 | for `/docs/constructor` the last crumb reads "constructor" as written and "Constructor" as corrected |
| Breadcrumb.Trail | src/components/ui/dynamic-breadcrumb.tsx:88-119 | the trail of the first n segments has n crumbs |
| Breadcrumb.TrailAt | src/components/ui/dynamic-breadcrumb.tsx:88-119 | position i of the trail holds the crumb of segment i |
| Breadcrumb.HrefLinks | src/components/ui/dynamic-breadcrumb.tsx:90-116 | every crumb before the last links to `/` followed by the segments up to its own, a prefix of the canonical pathname |
| Breadcrumb.CrumbLinks | src/components/ui/dynamic-breadcrumb.tsx:92-118 | exactly the last crumb is the current page and has no link; every other crumb links to a prefix of the pathname |
| Breadcrumb.SkippedRoute | src/components/ui/dynamic-breadcrumb.tsx:231-239 | the root and every pathname starting with `/login`, `/signup` or `/forgot-password` are skipped |
| Breadcrumb.Rendered | src/components/ui/dynamic-breadcrumb.tsx:231-246 | the trail renders outside the skipped routes when there are at least two segments |
| Breadcrumb.RenderedIff | src/components/ui/dynamic-breadcrumb.tsx:231-246 | the trail renders exactly when the route is not skipped and the generated trail has more than one crumb |
| Breadcrumb.RenderedOfCanonical | src/components/ui/dynamic-breadcrumb.tsx:241-246 | for a canonical pathname outside the skipped routes, the trail renders exactly when there are at least two segments |
| Breadcrumb.AuthPagesNotRendered | src/components/ui/dynamic-breadcrumb.tsx:231-239 | no pathname under the authentication pages renders a trail |
| Breadcrumb.Collapsed | src/components/ui/dynamic-breadcrumb.tsx:249-274 | with more than three crumbs the middle ones are folded; otherwise nothing is folded |
| Breadcrumb.CollapsedHaveLinks | src/components/ui/dynamic-breadcrumb.tsx:249-274 | every folded crumb has a link |
| Gallery.ProjectIdsDistinct | src/components/sections/gallery.tsx:17-196 | the fifteen project ids are distinct |
| Gallery.Wrap | src/components/sections/gallery.tsx:12-15 | wrapping is undefined (division by zero) exactly when the range is empty |
| Gallery.WrapIsModulus | src/components/sections/gallery.tsx:12-15 | for a non-empty range, the result lies in the range and is congruent to the input |
| Gallery.WrapInRange | src/components/sections/gallery.tsx:12-15 | a value already in range is unchanged |
| Gallery.ByCategory | src/components/sections/gallery.tsx:214 | exactly the projects of the category are kept |
| Gallery.ByCategoryInOrder | src/components/sections/gallery.tsx:214 | the k-th kept project is the project at the k-th matching position of the list, so list order is kept |
| Gallery.FilteredProjects | src/components/sections/gallery.tsx:212-214 | "All" gives every project; any other category gives that category's projects (`ByCategory`) |
| Gallery.CategoriesNonEmpty | src/components/sections/gallery.tsx:198 | every offered category has at least one project |
| Gallery.HasProjectAt | src/components/sections/gallery.tsx:212-214 | a category that some project has filters to a non-empty list |
| Gallery.DisplayProjects | src/components/sections/gallery.tsx:216 | show-all shows the whole list; otherwise the first six are shown |
| Gallery.ShowMoreHidesTheRest | src/components/sections/gallery.tsx:217 | the cut-off hides something exactly when there are more than six projects; the hidden count is the excess |
| Gallery.FindIndex | src/components/sections/gallery.tsx:219-221 | the first position with the id, or -1 exactly when there is none |
| Gallery.FindIndexOfPosition | src/components/sections/gallery.tsx:219-221 | with distinct ids, looking up a project's id finds its position |
| Gallery.ProjectIndex | src/components/sections/gallery.tsx:219-221 | 0 without a selection, otherwise the selected project's position |
| Gallery.Paginate | src/components/sections/gallery.tsx:223-229 | no change without a selection, a throw on an empty filtered list, otherwise a move to the wrapped neighbour |
| Gallery.PaginateFrom | src/components/sections/gallery.tsx:223-229 | with distinct ids, a step of d from position i opens position i + d modulo the list length |
| Gallery.StepBack | src/components/sections/gallery.tsx:223-229 | one step forward and one back, modulo the list length, return to the start position |
| Gallery.PaginateRoundTrip | src/components/sections/gallery.tsx:223-229 | next then previous returns to the same project |
| Gallery.PaginateWraps | src/components/sections/gallery.tsx:223-229 | next from the last project goes to the first, previous from the first goes to the last, and the prev/next buttons hide at the ends |
| Gallery.PrevShown | src/components/sections/gallery.tsx:355 | the previous button shows when the open project's index is above 0 |
| Gallery.NextShown | src/components/sections/gallery.tsx:364 | the next button shows when the open project's index is below the last |
| Gallery.ButtonsAtPosition | src/components/sections/gallery.tsx:355-364 | with distinct ids, the project at position i has a previous button exactly when i > 0 and a next button exactly when it is not the last |
| Gallery.GalleryState.constructor | src/components/sections/gallery.tsx:201-204 | initial state: category "All", no project, direction 0, collapsed |
| Gallery.GalleryState.SelectCategory | src/components/sections/gallery.tsx:267 | only the category changes |
| Gallery.GalleryState.Open | src/components/sections/gallery.tsx:290 | only the selected project changes |
| Gallery.GalleryState.Close | src/components/sections/gallery.tsx:329 | the selection is cleared, and nothing else changes |
| Gallery.GalleryState.ToggleShowAll | src/components/sections/gallery.tsx:305 | show-all flips, and nothing else changes |
| Gallery.GalleryState.Page | src/components/sections/gallery.tsx:223-229 | a move sets the project and the direction; any other step leaves both unchanged |
| StatCard.Round | src/components/shared/stat-card.tsx:409 | `Math.round`: the nearest integer, with halves rounded up |
| StatCard.DurationParts | src/components/shared/stat-card.tsx:409-420 | no pieces exactly for zero hours or less; otherwise at most two pieces, each a positive number with its unit and no space, days before hours, and an hour count below a day |
| StatCard.DayHourPieces | src/components/shared/stat-card.tsx:412-420 | the day piece and the hour piece, each present only when positive, parse back as positive numbers, days first |
| StatCard.DurationPartsRoundTrip | src/components/shared/stat-card.tsx:409-421 | for every positive hour count, the pieces joined with a space read back as that hour count |
| StatCard.HoursBelowADay | src/components/shared/stat-card.tsx:411 | a shown hour count lies between 1 and 7 |
| StatCard.DefaultFormatValue | src/components/shared/stat-card.tsx:406-422 | zero gives "0"; otherwise the pieces joined with a space, or "0" when there are none |
| StatCard.SmallOrNegativeIsZero | src/components/shared/stat-card.tsx:407-421 | negative balances and balances under half an hour show "0" |
| StatCard.PieceRoundTrip | src/components/shared/stat-card.tsx:415-418 | a piece reads back as its number and unit, and contains no space |
| StatCard.RoundWholeHours | src/components/shared/stat-card.tsx:409 | a whole number of hours converted to days and back rounds to itself |
| StatCard.ParseRendering | src/components/shared/stat-card.tsx:413-421 | a rendering made of pieces reads back to its hour total |
| StatCard.FormatRoundTrip | src/components/shared/stat-card.tsx:406-422 | every whole number of hours renders to a string that reads back as that number |
| StatCard.GetStatus | src/components/shared/stat-card.tsx:425-429 | good at 50% or more, warning from 20% to under 50%, critical below 20% |
| StatCard.GetStatusMonotone | src/components/shared/stat-card.tsx:425-429 | more remaining never gives a worse status |
| StatCard.PercentRemaining | src/components/shared/stat-card.tsx:445 | 0 for a non-positive total; otherwise balance over total times 100 |
| StatCard.CardStatus | src/components/shared/stat-card.tsx:448 | an explicit status wins; otherwise the computed one applies |
| StatCard.GoodIffHalfRemains | src/components/shared/stat-card.tsx:445-448 | without an override, "good" holds exactly when at least half remains; a non-positive total is critical |
| ActivityTimeline.FormatTimeAgoBuckets | src/components/shared/live-activity-timeline.tsx:117-130 | "Just now" exactly under a minute (the future included), then minutes, hours and days in their ranges, and the date from a week on |
| ActivityTimeline.FormatTimeAgo | src/components/shared/live-activity-timeline.tsx:117-130 | the bucket of an elapsed time, floored at every unit; its ranges are FormatTimeAgoBuckets |
| ActivityTimeline.TimeAgoText | src/components/shared/live-activity-timeline.tsx:125-129 | "Just now", or the count followed by "m ago", "h ago" or "d ago" |
| ActivityTimeline.TimeAgoTextDistinguishes | src/components/shared/live-activity-timeline.tsx:117-130 | two elapsed times short of a week whose labels read the same fall in the same bucket with the same count |
| ActivityTimeline.LabelsDistinct | src/components/shared/live-activity-timeline.tsx:125-129 | the label text is one-to-one on the buckets with a non-negative count |
| ActivityTimeline.FirstChars | src/components/shared/live-activity-timeline.tsx:133-136 | at most one character per word |
| ActivityTimeline.FirstCharsSkipsEmpty | src/components/shared/live-activity-timeline.tsx:133-136 | empty words contribute nothing |
| ActivityTimeline.GetInitials | src/components/shared/live-activity-timeline.tsx:132-139 | at most two characters: the upper-cased first characters of the words |
| ActivityTimeline.FirstCharsOfWords | src/components/shared/live-activity-timeline.tsx:133-136 | with no empty words, there is exactly one first character per word |
| ActivityTimeline.InitialsOfWords | src/components/shared/live-activity-timeline.tsx:132-139 | for space-separated non-empty words, the initials are the first two words' first letters, upper-cased |
| ActivityTimeline.Visible | src/components/shared/live-activity-timeline.tsx:231 | the first `maxItems` activities |
| ActivityTimeline.ViewAllWhenHidden | src/components/shared/live-activity-timeline.tsx:297 | the "View all" footer appears exactly when the slice hides something |
| ActivityTimeline.DetectNew | src/components/shared/live-activity-timeline.tsx:235-244 | at most one id is marked: the first visible one, when there was a previous list that lacked it |
| ActivityTimeline.EffectRunAsWritten | src/components/shared/live-activity-timeline.tsx:234-257 | as written, a run that finds nothing new keeps the marks but leaves no timer armed |
| ActivityTimeline.RenderAsWritten | src/components/shared/live-activity-timeline.tsx:234-257 | as written, a render that finds a new id marks exactly the new ids and leaves no timer armed, so the mark does not expire; otherwise the marks are kept and no timer is armed |
| ActivityTimeline.NewBadgeNeverExpiresAsWritten | src/components/shared/live-activity-timeline.tsx:234-257 | as written, a new arrival is marked and the re-render cancels its clearing timer |
| ActivityTimeline.Render | src/components/shared/live-activity-timeline.tsx:234-257 | corrected: a run that finds nothing new leaves the marks and the timer as they were |
| ActivityTimeline.Expire | src/components/shared/live-activity-timeline.tsx:251-253 | the firing timer clears every mark |
| ActivityTimeline.StepsKeepMarksExpiring | src/components/shared/live-activity-timeline.tsx:234-257 | both steps keep every mark backed by a pending timer, with at most one mark |
| ActivityTimeline.NewBadgeExpires | src/components/shared/live-activity-timeline.tsx:234-257 | with the correction, the arrival is marked, survives the re-render, and is cleared when the timer fires |
| ActivityTimeline.ActivityFeed.constructor | src/components/shared/live-activity-timeline.tsx:227-228 | nothing is marked and there is no previous list |
| ActivityTimeline.ActivityFeed.Show | src/components/shared/live-activity-timeline.tsx:231-257 | a render with new props updates the detection state as the corrected effect does |
| ActivityTimeline.ActivityFeed.TimerFires | src/components/shared/live-activity-timeline.tsx:251-253 | the 3000 ms timer clears the marks |
| NotificationBell.MockNotifications | src/components/shared/notification-bell.tsx:59-93 | three notifications, all unread and dated in the past |
| NotificationBell.UnreadCount | src/components/shared/notification-bell.tsx:146 | the number of unread notifications; it is zero exactly when all are read |
| NotificationBell.MarkAllRead | src/components/shared/notification-bell.tsx:148-152 | every notification is read, and nothing else about it changes |
| NotificationBell.MarkAllReadClears | src/components/shared/notification-bell.tsx:146-152 | after marking, the unread count is zero, the button hides, marking again changes nothing, and the ids are kept |
| NotificationBell.MarkAllReadNoOp | src/components/shared/notification-bell.tsx:148-152 | marking a fully read list changes nothing |
| NotificationBell.MarkAllButtonShown | src/components/shared/notification-bell.tsx:187 | the "Mark all as read" button shows exactly when some notification is unread; MarkAllReadClears hides it |
| NotificationBell.DisplayCount | src/components/shared/notification-bell.tsx:159 | zero before mount, the unread count after |
| NotificationBell.BadgeText | src/components/shared/notification-bell.tsx:171-179 | no badge at zero, "9+" above nine, otherwise the digit |
| NotificationBell.DropdownItems | src/components/shared/notification-bell.tsx:198 | the first five notifications |
| NotificationBell.LinkTarget | src/components/shared/notification-bell.tsx:111 | the notification's own link, or "/notifications" when it has none |
| NotificationBell.StyleKey | src/components/shared/notification-bell.tsx:101 | corrected: a configured category keeps its own style, and any other falls back to "system" |
| NotificationBell.StyleKeyAsWritten | src/components/shared/notification-bell.tsx:101 | as written: the corrected style except for inherited object keys, whose lookup breaks the item |
| NotificationBell.InheritedCategoryBreaksDropdown | src/components/shared/notification-bell.tsx:101-102 | the category "toString" gets no style as written, where "system" was intended |
| NotificationBell.Bell.constructor | src/components/shared/notification-bell.tsx:136-138 | closed, empty, unmounted, with a shown count of zero |
| NotificationBell.Bell.Mount | src/components/shared/notification-bell.tsx:141-144 | the mock list is loaded and the badge reads "3" |
| NotificationBell.Bell.MarkAllAsRead | src/components/shared/notification-bell.tsx:148-152 | the list is marked read and the shown count drops to zero |
| NotificationBell.Bell.SetOpen | src/components/shared/notification-bell.tsx:154-156 | only the open flag changes |
| FilterBar.ActiveFilterCount | src/components/shared/filter-bar.tsx:63-65 | the count is the length of the list of active entries (non-empty and not "all"); it is zero exactly when no entry is active |
| FilterBar.HasActiveFilters | src/components/shared/filter-bar.tsx:67 | something is active: a filter or non-empty search text |
| FilterBar.Lookup | src/components/shared/filter-bar.tsx:99 | absent exactly when no entry has the key; otherwise an entry with that key and value |
| FilterBar.SelectValue | src/components/shared/filter-bar.tsx:99 | the stored value, or "all" when it is missing or empty |
| FilterBar.SetValue | src/components/shared/filter-bar.tsx:100 | the updated key reads back the new value; a present key is replaced in place, with every other entry kept at its position; an absent key is appended at the end |
| FilterBar.SetValueKeepsOthers | src/components/shared/filter-bar.tsx:100 | setting one key leaves every other key's value unchanged and keeps keys unique |
| FilterBar.LookupOtherKey | src/components/shared/filter-bar.tsx:100 | an update that touches only one key's entries reads the same for every other key |
| FilterBar.LookupAppended | src/components/shared/filter-bar.tsx:100 | a key added at the end reads back its value |
| FilterBar.RemoveTagLowersCount | src/components/shared/filter-bar.tsx:160 | removing a tag (setting it to "all") lowers the active count by exactly one |
| FilterBar.ClearButtonShown | src/components/shared/filter-bar.tsx:117 | the Clear button needs something active and a clear handler |
| FilterBar.ClearBadgeShown | src/components/shared/filter-bar.tsx:126 | the count badge needs an active filter |
| FilterBar.SearchClearShown | src/components/shared/filter-bar.tsx:73-90 | the search box's clear button needs an `onSearchChange` handler and search text |
| FilterBar.ClearButtonCases | src/components/shared/filter-bar.tsx:117-134 | with a handler, an active filter shows the button with its badge; with no active filter the button shows exactly for search text, without a badge; without a handler neither it nor the search clear button shows |
| FilterBar.FindFilter | src/components/shared/filter-bar.tsx:149 | the first filter with the key, or none exactly when there is none |
| FilterBar.FindOption | src/components/shared/filter-bar.tsx:150 | the first option with the value, or none exactly when there is none |
| FilterBar.TagText | src/components/shared/filter-bar.tsx:149-158 | the found option's label; the raw value when the filter or the option is missing |
| FilterBar.TagOf | src/components/shared/filter-bar.tsx:149-158 | a tag: the entry's key, the found filter's label as prefix, and the tag text |
| FilterBar.TagOfFirstMatches | src/components/shared/filter-bar.tsx:149-158 | for the first filter with the key, the tag carries that filter's label and the label of the first option with the value, or the raw value when no option has it |
| FilterBar.TagOfUndeclaredKey | src/components/shared/filter-bar.tsx:149-158 | a key no filter declares gives a tag with no prefix and the raw value |
| FilterBar.Tags | src/components/shared/filter-bar.tsx:143-167 | one tag per active entry: the k-th tag is the tag of the k-th active entry |
| FilterBar.TagsMatchActiveEntries | src/components/shared/filter-bar.tsx:126-167 | tags show exactly when the clear badge does; the k-th tag is the tag of the entry at the k-th active position, so tags follow entry order |
| StatusBadge.StatusLabel | src/components/shared/status-badge.tsx:49-135 | each key's label is the key with its first letter upper-cased (an ASCII capital) and the rest unchanged |
| StatusBadge.LabelRecognised | src/components/shared/status-badge.tsx:49-135 | a label typed back in is recognised as its own status |
| StatusBadge.KeysLowerCase | src/components/shared/status-badge.tsx:49-135 | every table key is written in lower-case ASCII letters |
| StatusBadge.CapitalizedLowers | src/components/shared/status-badge.tsx:176 | lower-casing a capitalised lower-case word gives the word back |
| StatusBadge.GetStatusType | src/components/shared/status-badge.tsx:175-178 | corrected: the lower-cased status exactly when it is one of the sixteen keys |
| StatusBadge.GetStatusTypeCaseInsensitive | src/components/shared/status-badge.tsx:176 | inputs that agree after lower-casing get the same answer |
| StatusBadge.GetStatusTypeIdempotent | src/components/shared/status-badge.tsx:175-178 | a recognised status normalises to itself |
| StatusBadge.UpperCaseRecognised | src/components/shared/status-badge.tsx:176 | upper-casing a recognised status is still recognised |
| StatusBadge.GetStatusTypeAsWritten | src/components/shared/status-badge.tsx:175-178 | as written: the corrected answer, except that inherited object keys are accepted too |
| StatusBadge.ConstructorAcceptedAsWritten | src/components/shared/status-badge.tsx:175-178 | "Constructor" is accepted as written, though it is not a status |
| StatusBadge.RenderBadge | src/components/shared/status-badge.tsx:143-172 | an unknown status is shown verbatim; a known one shows its label and, if asked, its icon |
| StatusBadge.RenderBadgeAsWritten | src/components/shared/status-badge.tsx:149-168 | as written: the same, except that an inherited key throws when the icon is drawn and renders a blank badge without one |
| StatusBadge.UnknownShownVerbatim | src/components/shared/status-badge.tsx:152-158 | an unrecognised status renders as its own text |
| SecuritySettings.FirstLine | src/components/settings/security-settings.tsx:28 | the longest prefix without a line terminator |
| SecuritySettings.FirstLineOfSingleLine | src/components/settings/security-settings.tsx:28 | a string without line terminators is its own first line |
| SecuritySettings.FirstLinePrefix | src/components/settings/security-settings.tsx:28 | the first line ends at the first terminator |
| SecuritySettings.MeetsCharacterClasses | src/components/settings/security-settings.tsx:28 | the first line has a lower-case letter, an upper-case letter and a digit |
| SecuritySettings.PasswordIssues | src/components/settings/security-settings.tsx:21-36 | each of the four messages is reported exactly when its rule fails |
| SecuritySettings.AcceptedIffRulesHold | src/components/settings/security-settings.tsx:21-36 | the form is accepted exactly when all four rules hold |
| SecuritySettings.ClassesAnywhereOnOneLine | src/components/settings/security-settings.tsx:28 | on one line, the lookaheads ask for a lowercase letter, an uppercase letter and a digit anywhere |
| SecuritySettings.DigitAfterLineBreakUnseen | src/components/settings/security-settings.tsx:28 | a digit after a line break is not seen by the lookahead |
| SecuritySettings.OnlyOtherSessionRevocable | src/components/settings/security-settings.tsx:42-61 | only the non-current session shows a Revoke button |
| SecuritySettings.RevokeShown | src/components/settings/security-settings.tsx:229 | a session has a revoke button exactly when it is not the current one |
| SecuritySettings.SecurityState.constructor | src/components/settings/security-settings.tsx:41 | two-factor starts off |
| SecuritySettings.SecurityState.ToggleTwoFactor | src/components/settings/security-settings.tsx:89-92 | the two-factor flag flips |
| NotificationSettings.EmailExtensional | src/components/settings/notification-settings.tsx:15-29 | email preferences that agree on every key are equal |
| NotificationSettings.PushExtensional | src/components/settings/notification-settings.tsx:15-29 | push preferences that agree on every key are equal |
| NotificationSettings.InitialSwitches | src/components/settings/notification-settings.tsx:32-46 | initially every switch is on except email updates and push followers; the frequency is daily |
| NotificationSettings.UpdateEmailSetting | src/components/settings/notification-settings.tsx:50-61 | the key takes the value, and every other setting is unchanged |
| NotificationSettings.UpdatePushSetting | src/components/settings/notification-settings.tsx:63-74 | the key takes the value, and every other setting is unchanged |
| NotificationSettings.UpdateFrequency | src/components/settings/notification-settings.tsx:76-83 | only the frequency changes |
| NotificationSettings.UpdatesIdempotent | src/components/settings/notification-settings.tsx:50-83 | repeating an update changes nothing |
| NotificationSettings.UpdateToCurrentValueNoOp | src/components/settings/notification-settings.tsx:50-74 | setting a switch to its current value is a no-op |
| NotificationSettings.EmailUpdatesCommute | src/components/settings/notification-settings.tsx:50-61 | updates to different keys commute |
| NotificationSettings.LastEmailUpdateWins | src/components/settings/notification-settings.tsx:50-61 | the later of two updates to one key wins |
| NotificationSettings.SaveButtonText | src/components/settings/notification-settings.tsx:288-289 | "Saving..." while a save is in flight, "Save preferences" otherwise |
| NotificationSettings.NotificationSettingsForm.constructor | src/components/settings/notification-settings.tsx:32-48 | the initial settings, not submitting |
| NotificationSettings.NotificationSettingsForm.SetEmail | src/components/settings/notification-settings.tsx:50-61 | the settings become the email update |
| NotificationSettings.NotificationSettingsForm.SetPush | src/components/settings/notification-settings.tsx:63-74 | the settings become the push update |
| NotificationSettings.NotificationSettingsForm.SetFrequency | src/components/settings/notification-settings.tsx:76-83 | the settings become the frequency update |
| NotificationSettings.NotificationSettingsForm.BeginSave | src/components/settings/notification-settings.tsx:85-87 | submitting starts, and the button reads "Saving..." |
| NotificationSettings.NotificationSettingsForm.FinishSave | src/components/settings/notification-settings.tsx:85-96 | submitting ends whether or not saving failed; the error is reported exactly on failure, and the settings are kept |
| Middleware.IsAuthenticated | src/middleware.ts:12-13 | a request is authenticated exactly when it carries a non-empty auth token cookie |
| Middleware.IsProtectedRoute | src/middleware.ts:16-18 | the pathname starts with "/dashboard" |
| Middleware.IsAuthRoute | src/middleware.ts:21 | the pathname starts with "/login", "/signup" or "/forgot-password" |
| Middleware.MatchesSome | src/middleware.ts:16-21 | a pathname matches exactly when it starts with one of the routes |
| Middleware.Decide | src/middleware.ts:8-34 | redirect to /login exactly on a protected route without a token; redirect to /dashboard exactly on an auth route with one; otherwise pass |
| Middleware.OtherRequestsPass | src/middleware.ts:33 | requests that meet neither condition pass |
| Middleware.ProtectedAndAuthDisjoint | src/middleware.ts:5-6 | no pathname is both protected and an auth route |
| Middleware.RedirectsSettle | src/middleware.ts:24-31 | following a redirect with the same token passes: there are no redirect loops |
| Middleware.SiblingPathProtected | src/middleware.ts:16-18 | prefix matching also protects "/dashboardx" |
| Swipe.Fired | src/hooks/use-swipe-gestures.tsx:31-53 | a handler fires only beyond the threshold: a horizontal swipe when the horizontal move is strictly larger, a vertical swipe otherwise, and only if that direction's handler exists |
| Swipe.ExactThresholdDoesNotFire | src/hooks/use-swipe-gestures.tsx:41-53 | a move of exactly the threshold fires nothing |
| Swipe.NoFallbackToOtherHandler | src/hooks/use-swipe-gestures.tsx:41-45 | a left swipe without a left handler fires nothing else |
| Swipe.LongSwipeFires | src/hooks/use-swipe-gestures.tsx:37-53 | with all handlers present, any move beyond the threshold fires one |
| Swipe.SwipeTracker.constructor | src/hooks/use-swipe-gestures.tsx:20-21 | both points start at the origin |
| Swipe.SwipeTracker.TouchStart | src/hooks/use-swipe-gestures.tsx:24-29 | only the start point changes |
| Swipe.SwipeTracker.TouchEnd | src/hooks/use-swipe-gestures.tsx:31-53 | records the end point and reports what fired |
| KeyboardNavigation.SectionFor | src/hooks/use-keyboard-navigation.tsx:23-66 | the lower-cased keys `1`-`5` and `h`, `p`, `g`, `a`, `c` map to home, performance, gallery, about and contact; every other key to none |
| KeyboardNavigation.NumbersAndLettersAgree | src/hooks/use-keyboard-navigation.tsx:25-66 | number key i+1 and the i-th letter lead to the same section |
| KeyboardNavigation.OnlyShortcutsNavigate | src/hooks/use-keyboard-navigation.tsx:25-66 | only the ten shortcut keys lead to a section |
| KeyboardNavigation.HandleKeyDown | src/hooks/use-keyboard-navigation.tsx:14-92 | modifiers and editable targets are ignored; a plain key press of a shortcut key prevents the default and navigates to its section, and navigation happens for no other key; prev/next need focus in the modal; close needs Escape and a close button; the default is prevented without an action only for Escape and the arrows |
| KeyboardNavigation.Handled | src/hooks/use-keyboard-navigation.tsx:14-21 | a key press the handler looks at: no Ctrl, Alt or Meta, and a target that does not take typing |
| KeyboardNavigation.PreventedKeys | src/hooks/use-keyboard-navigation.tsx:23-92 | on a plain key press the default is prevented exactly for a shortcut key, Escape, or an arrow inside the modal |
| KeyboardNavigation.ShiftAndCaseIgnored | src/hooks/use-keyboard-navigation.tsx:15-25 | Shift does not suppress the shortcut, and "H" does what "h" does |
| KeyboardNavigation.ArrowsNeedModal | src/hooks/use-keyboard-navigation.tsx:69-84 | the arrows act only with focus in the modal, and then always prevent the default |
| KeyboardNavigation.EscapeAlwaysHandled | src/hooks/use-keyboard-navigation.tsx:87-92 | Escape always prevents the default and clicks close when it exists |
| KeyboardNavigation.UnmappedKeyIgnored | src/hooks/use-keyboard-navigation.tsx:23-92 | any other key is left alone |
| Konami.LastTen | src/hooks/use-konami-code.tsx:11 | the last ten keys, or all of them when there are fewer |
| Konami.LastTenOfLastTen | src/hooks/use-konami-code.tsx:11 | trimming before appending equals trimming after |
| Konami.Step | src/hooks/use-konami-code.tsx:10-17 | it fires exactly when the last ten keys spell the code, and then the buffer is cleared; otherwise the buffer is the trimmed one |
| Konami.OnlyAFinishesTheCode | src/hooks/use-konami-code.tsx:7-14 | only the key "a" can complete the code |
| Konami.Feed | src/hooks/use-konami-code.tsx:10-17 | after any keys the buffer holds at most ten entries |
| Konami.FeedWithoutA | src/hooks/use-konami-code.tsx:10-17 | keys other than "a" just slide through the buffer |
| Konami.FeedSlides | src/hooks/use-konami-code.tsx:10-17 | a last key other than "a" only slides the buffer |
| Konami.SlideAfter | src/hooks/use-konami-code.tsx:11 | sliding one more key into a trimmed buffer equals trimming the whole sequence |
| Konami.TypingTheCodeFires | src/hooks/use-konami-code.tsx:7-17 | typing the code fires on its last key, whatever came before |
| Konami.EasterEggs.constructor | src/hooks/use-konami-code.tsx:6 | an empty buffer, secret mode off |
| Konami.EasterEggs.KeyDown | src/hooks/use-konami-code.tsx:10-36 | the buffer follows `Step`; a match turns secret mode on and arms a reset timer |
| Konami.EasterEggs.ResetTimerFires | src/hooks/use-konami-code.tsx:26-36 | a pending reset turns secret mode off |
| Konami.ClickStep | src/hooks/use-konami-code.tsx:45-55 | push the time, keep the last three, and fire exactly when three clicks span less than 500 ms |
| Konami.ThreeQuickClicksFire | src/hooks/use-konami-code.tsx:45-55 | three clicks within 500 ms fire on the third, whatever came before |
| Konami.ClickBuffer.constructor | src/hooks/use-konami-code.tsx:47 | an empty click list |
| Konami.ClickBuffer.Click | src/hooks/use-konami-code.tsx:48-54 | the imperative push/shift/check agrees with `ClickStep` |
| AnimatedEffects.TickDelay | src/components/shared/animated-effects.tsx:341 | half the speed while deleting, the full speed otherwise |
| AnimatedEffects.Next | src/components/shared/animated-effects.tsx:325-341 | the text stays a prefix of the current word; a tick types one character, arms the delete pause at the end of the word, deletes one character, or moves to the next word cyclically; an out-of-range index throws |
| AnimatedEffects.StartDeleting | src/components/shared/animated-effects.tsx:330-331 | the pause ends by switching to deleting, with the text unchanged |
| AnimatedEffects.TypingCompletesWord | src/components/shared/animated-effects.tsx:328-329 | typing finishes the current word, one character per tick |
| AnimatedEffects.DeletingMovesToNextWord | src/components/shared/animated-effects.tsx:334-338 | deleting empties the text and then moves to the next word, in range |
| AnimatedEffects.WordCycle | src/components/shared/animated-effects.tsx:319-347 | one full cycle on a word: typed, paused, deleted, and moved on |
| AnimatedEffects.Typewriter.constructor | src/components/shared/animated-effects.tsx:320-323 | index 0, empty text, typing |
| AnimatedEffects.Typewriter.Tick | src/components/shared/animated-effects.tsx:325-345 | the state follows `Next`, the text stays a prefix, and the end of a word arms the pause timer |
| AnimatedEffects.Typewriter.DeleteTimerFires | src/components/shared/animated-effects.tsx:330-331 | the armed pause starts deleting |
| AnimatedEffects.Recent | src/components/shared/animated-effects.tsx:358 | the last ten points, or all when fewer |
| AnimatedEffects.RecentOfRecent | src/components/shared/animated-effects.tsx:357-358 | trimming on every move equals trimming the whole history once |
| AnimatedEffects.MouseTrail.constructor | src/components/shared/animated-effects.tsx:351 | an empty trail |
| AnimatedEffects.MouseTrail.MouseMove | src/components/shared/animated-effects.tsx:355-360 | the trail stays the last ten of all moves and ends with the new point |
| AnimatedEffects.MagneticOffset.constructor | src/components/shared/animated-effects.tsx:133 | the offset starts at the origin |
| AnimatedEffects.MagneticOffset.MouseLeave | src/components/shared/animated-effects.tsx:143-145 | the offset returns to the origin |
| AuthStore.MockToken | src/lib/auth-store.ts:31-52 | the token is the prefix followed by the time's decimal digits, which read back as the time |
| AuthStore.MockTokensDistinct | src/lib/auth-store.ts:31-52 | tokens minted at different times differ |
| AuthStore.Store.constructor | src/lib/auth-store.ts:24-25 | no user and loading, unless a persisted user is merged back in |
| AuthStore.Store.SetUser | src/lib/auth-store.ts:27 | only the user changes |
| AuthStore.Store.SetLoading | src/lib/auth-store.ts:29 | only the loading flag changes, so the persisted slice is unchanged |
| AuthStore.Store.Login | src/lib/auth-store.ts:31-52 | on success, a fresh token and the mock user under the given email; on a failed write, "Login failed" and no change |
| AuthStore.Store.Signup | src/lib/auth-store.ts:54-75 | on success, a fresh token and the mock user under the given name and email; on a failed write, "Signup failed" and no change |
| AuthStore.Store.Logout | src/lib/auth-store.ts:77-92 | the token and the user are gone, whether or not the call failed |
| AuthStore.Store.CheckAuth | src/lib/auth-store.ts:94-115 | a stored token signs in the mock user, no token leaves the user alone, and loading always ends |
| AuthStore.Store.Reset | src/lib/auth-store.ts:117-120 | no user, no token, not loading |
| AppSidebar.IsActive | src/components/layouts/app-sidebar.tsx:123 | a nav item is active on its url or on any path below it |
| AppSidebar.AiActive | src/components/layouts/app-sidebar.tsx:147 | the AI button is active on its own url only |
| AppSidebar.IsActiveShape | src/components/layouts/app-sidebar.tsx:123 | an item is active exactly on its url or below it after a `/` |
| AppSidebar.SiblingNotActive | src/components/layouts/app-sidebar.tsx:123 | a path that only extends the url's last segment does not activate it |
| AppSidebar.TeamsDoesNotActivateTeam | src/components/layouts/app-sidebar.tsx:123 | "/teams" leaves "/team" inactive |
| AppSidebar.AiExactOnly | src/components/layouts/app-sidebar.tsx:147 | the AI button is active on its own page only, unlike a nav item |
| AppSidebar.SettingsActivatesTwo | src/components/layouts/app-sidebar.tsx:62-103 | the settings page highlights both Dashboard and Settings |
| AppSidebar.SectionBlocks | src/components/layouts/app-sidebar.tsx:187-197 | section groups alternate with separators, with no separator after the last |
| AppSidebar.Layout | src/components/layouts/app-sidebar.tsx:187-214 | the whole content: Main, a separator, Other, the AI group (no separator before it), a separator, and help |
| AppSidebar.SeparatorsBetweenGroups | src/components/layouts/app-sidebar.tsx:187-214 | for any non-empty list of sections, the content neither starts nor ends with a separator, and no two separators are adjacent |

## Left out

- Rendering, styling, animation, icons and motion are left out. So are
  `scrollIntoView`, audio and body style changes. Only the state and the
  decisions that drive them are modelled.
- Timers (`setTimeout`, `setInterval`) are explicit steps. Clocks
  (`Date.now`, `new Date()`) are parameters. Network waits are not modelled.
- Breadcrumb.GenerateBreadcrumbs and Breadcrumb.CrumbsFor build the trail
  with the corrected `Label`, so a segment named like an inherited object
  member (`constructor`) is title-cased there; the trail the code builds is
  Breadcrumb.GenerateBreadcrumbsAsWritten, and the two differ only in those
  labels (see "## Findings").
- Case mapping is ASCII only: `toLowerCase`/`toUpperCase` on other
  characters is not modelled.
- Floating point is modelled as exact reals (`real`). NaN, infinities and
  rounding error are not modelled.
- ActivityTimeline.FormatTimeAgoBuckets: `toLocaleDateString` is locale
  dependent and is abstracted to one label.
- ModernTable: the component sorts, searches and paginates nothing itself.
  It only emits the two-state toggle and filters columns and menus, and the
  model follows the code.
  - The search box focus flag is not modelled.
  - The visible-column list is initialised once from the columns given at
    mount, so columns added later are not modelled.
- StatusBadge: the status table has sixteen keys.
- SecuritySettings.PasswordIssues: all failing rules are reported together,
  the mismatch included. The validation library's exact short-circuiting of
  the refinement is not modelled. Also left out:
  - the form reset after a successful submit;
  - the simulated one-second wait;
  - the unimplemented session revocation handler.
- NotificationSettings.NotificationSettingsForm.FinishSave: the simulated
  one-second wait stands in for a save call that does not exist; neither is
  modelled.
- Strings are sequences of Unicode scalar values, while JavaScript strings
  are UTF-16 code units. Lengths, indexing and slices therefore differ from
  the source on text outside the Basic Multilingual Plane (emoji, say), in
  SecuritySettings.PasswordIssues (the eight-character minimum),
  ActivityTimeline.GetInitials (`n[0]` and `slice(0, 2)`),
  AnimatedEffects.Next (the typewriter's `slice`) and Breadcrumb.Capitalize
  (`charAt(0)` and `slice(1)`); on such text the source counts and cuts
  surrogate halves where the model counts whole characters.
- FilterBar.SelectValue: a filter key equal to an inherited object member is
  not modelled; entries are an explicit list.
- Swipe.Fired: the threshold is taken as given; a negative threshold makes
  every move fire, as in the source.
- Gallery: the modal's swipe and key bindings are `Swipe.Fired` with
  threshold 30 and `Paginate` with directions 1 and -1; no separate lemma
  composes them.
- KeyboardNavigation: the DOM lookups (focus inside the modal, which buttons
  exist) are parameters.
- AnimatedEffects.MagneticOffset: only the reset on mouse leave is modelled.
  The cursor-following offset is floating-point geometry and is left out.
- AnimatedEffects.Typewriter: the word list is fixed at construction;
  changing the words between renders is not modelled.
- AuthStore: token storage (local storage and the `auth_token` cookie) is one
  optional field, and a failing write is a parameter. Also left out:
  - the cookie attributes;
  - `checkAuth`'s catch path when reading storage throws;
  - a failing removal in `logout`.
  src/lib/cookies.ts is not part of this model beyond that field.
- Middleware: the matcher configuration that decides which requests reach
  the middleware is not modelled.

## Findings

| source | as written | input that shows it | evidently intended | confidence | as-written member | corrected member |
|---|---|---|---|---|---|---|
| src/components/shared/status-badge.tsx:175-178 | `statusConfigs[normalized]` also finds keys inherited from `Object.prototype` | `getStatusType("Constructor")` returns `"constructor"` | only the sixteen declared statuses are accepted | high, not executed | StatusBadge.ConstructorAcceptedAsWritten | StatusBadge.GetStatusType |
| src/components/ui/dynamic-breadcrumb.tsx:93-111 | `routeConfig[segment]` finds inherited keys, so the title-casing branch is skipped | the pathname `/docs/constructor` labels its last crumb "constructor" | unconfigured segments are title-cased ("Constructor") | high, not executed | Breadcrumb.ConstructorCrumb | Breadcrumb.UnconfiguredLabelTitleCased |
| src/components/shared/live-activity-timeline.tsx:234-257 | the effect depends on a fresh `slice` each render, so the re-render caused by marking runs the cleanup that cancels the 3000 ms timer | activities `["a"]` then `["b","a"]` | the "New" mark clears after three seconds | medium, not executed | ActivityTimeline.NewBadgeNeverExpiresAsWritten | ActivityTimeline.NewBadgeExpires |
| src/components/shared/notification-bell.tsx:101 | `categoryConfig[category]` returns an inherited function for `"toString"`, so the system fallback is skipped and `config.icon` is undefined | a notification with category `"toString"` | unknown categories use the system style | high, not executed | NotificationBell.InheritedCategoryBreaksDropdown | NotificationBell.StyleKey |
