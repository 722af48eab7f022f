# Legislative-document workspace: player, captions, carousels, history, theme

This project models the logic of two React components of a browser app for
browsing US legislative documents (bills, laws, amendments) and listening
to a narrated summary of one.

- `src/ConversationPage.jsx`, the conversation page:
  - the caption lookup (the first cue whose `[start, end)` holds the
    playback time, otherwise no caption), over the bundled cue table;
  - the audio player's state (`isPlaying`, `currentTime`, `duration`,
    `volume`, `showSubtitles`) and the `<audio>` element it drives, through
    the play/pause toggle, seeking, the ten-second skips, the volume slider
    and the `loadeddata`/`timeupdate` listeners;
  - `formatTime`, which shows seconds as `m:ss`.
- `src/workspace.jsx`, the workspace:
  - the home page's card carousels: each chevron click moves the four
    visible slot indices by four around a ring of ten, then sorts them.
    The bills and laws carousels have chevrons. The third handler, for
    amendments, is modelled as written, but nothing in the file calls it
    and the amendment list is never rendered;
  - the conversation history: a click appends an entry to the stored list,
    and the history page shows the list and can clear it;
  - the dark-mode flag: it is read from the stored `theme` value, written
    back as `"dark"`/`"light"`, and negated by the toggle;
  - the parsing of a clicked search result (congress, bill number, chamber
    type, update date);
  - the "Origin House" label of the cards.

Modules:

| file | module | models |
|---|---|---|
| `subtitles.dfy` | `Subtitles` | the cue table and the caption lookup |
| `player.dfy` | `Player` | the media element and the player state as classes |
| `time_format.dfy` | `TimeFormat` | `formatTime`, with a reader for its output |
| `carousel.dfy` | `Carousel` | the paging step (a shift, then a sort), and the home page's three index lists as a class |
| `history.dfy` | `History` | the stored history list, the append and the history page |
| `theme.dfy` | `Theme` | the theme flag and its stored value |
| `result_parsing.dfy` | `ResultParsing` | `parsedResult` and the chamber label |
| `strings.dfy` | `Strings` | the JavaScript string operations used above: `split`, `slice`, `replace(/[^0-9]/g, '')` |
| `wrappers.dfy` | `Wrappers` | `Option` and `Result` |

Modelling choices:

- **Time and volume** are `real`. `Math.floor` is `.Floor`. JavaScript's
  `%`, whose remainder takes the sign of the dividend, is written out as
  `JsRem`.
- **The browser's adjustment of `audio.currentTime`** is an opaque
  function `clamp` held by the media element. The browser clamps the
  position to the media's range; the model does not fix how.
- **A missing `audioRef.current`** is an `AudioPlayer` whose `audio` is
  `null`.
- **Storage.** The stored history list is an `Option<seq<Conversation>>`:
  `None` means nothing is stored. The stored theme is an
  `Option<string>`. There is no JSON encoding.
- **React state updates** are modelled as taking effect at once. The theme
  effect that persists the flag is folded into the operations that change
  the flag.
- **`updateConversationHistory`** is modelled once. The file holds two
  identical copies: `src/workspace.jsx:276-284` for the home page and
  `src/workspace.jsx:574-582` for the search box.
- **Seeking.** `handleProgressChange` stores the requested value in
  `currentTime` unchanged and leaves any clamping to the element (`clamp`).
- **Captions.** The page has no cue-file parser, cue window or language
  switching; captions come from the fixed table at
  src/ConversationPage.jsx:11-16.
- **`JsRem`** appears twice, once per type: on the player's real-valued
  times (`TimeFormat.JsRem`) and on the carousel's integer slot indices
  (`Carousel.JsRem`).

## Model

| member | source | states |
|---|---|---|
| Subtitles.FindCue | src/ConversationPage.jsx:23 | `find` as an index: the result covers `t` and no earlier cue does; `None` only when no cue covers `t` |
| Subtitles.SubtitleAt | src/ConversationPage.jsx:22-25 | the caption is the text of the first cue with `start <= t < end`, and `""` when there is none (the previous caption is not kept) |
| Subtitles.ContiguousCovers | src/ConversationPage.jsx:11-16 | a well-formed gap-free track covers every time from its first start to its last end |
| Subtitles.TrackLookup | src/ConversationPage.jsx:22-25 | in a well-formed gap-free track each time in range lies in exactly one cue, whose text is shown; every time outside the range shows `""` |
| Subtitles.SampleCuesLookup | src/ConversationPage.jsx:11-16 | the bundled table is well-formed and gap-free; each `t` in `[0, 15)` lies in exactly one cue whose text is shown, and `t < 0` or `t >= 15` shows `""` |
| Player.AudioPlayer.constructor | src/ConversationPage.jsx:43-47 | initial state: not playing, time 0, duration 0, volume 1, captions hidden |
| Player.AudioPlayer.TogglePlay | src/ConversationPage.jsx:116-125 | a paused element is started, and playback and captions are turned on; otherwise the element (if any) is paused and playback is off, with captions unchanged; time, duration and volume are kept |
| Player.AudioPlayer.Seek | src/ConversationPage.jsx:127-133 | with an element, its position becomes `clamp(value)` and `currentTime` becomes `value`; without one nothing changes |
| Player.AudioPlayer.Skip | src/ConversationPage.jsx:143-148 | with an element, its position becomes `clamp(position + seconds)` and `currentTime` copies it; without one nothing changes |
| Player.AudioPlayer.Rewind | src/ConversationPage.jsx:253 | the rewind button skips by exactly -10 seconds; the element's paused flag, volume and duration are kept, so rewinding during playback keeps playing |
| Player.AudioPlayer.FastForward | src/ConversationPage.jsx:279 | the forward button skips by exactly +10 seconds; the element's paused flag, volume and duration are kept |
| Player.AudioPlayer.ChangeVolume | src/ConversationPage.jsx:135-141 | the slider value always becomes the page's volume, and the element's volume only when an element is bound; nothing else changes |
| Player.AudioPlayer.OnLoadedData | src/ConversationPage.jsx:65-68 | `loadeddata` copies both the duration and the position from the element |
| Player.AudioPlayer.OnTimeUpdate | src/ConversationPage.jsx:70 | `timeupdate` copies only the position |
| Player.AudioPlayer.Icon | src/ConversationPage.jsx:289-293 | the muted icon is shown exactly at volume 0 |
| TimeFormat.NatToString | src/ConversationPage.jsx:153 | `toString` of a non-negative integer: decimal digits with no leading zero, a single digit exactly below 10 |
| TimeFormat.ParseNatToString | src/ConversationPage.jsx:153 | reading back the digits written for `n` gives `n` |
| TimeFormat.IntToString | src/ConversationPage.jsx:153 | `toString` of an integer: a leading `-` exactly for a negative value, followed by decimal digits |
| TimeFormat.IntToStringRoundTrip | src/ConversationPage.jsx:153 | reading the text back (optional `-`, then digits) gives the integer |
| TimeFormat.Trunc | src/ConversationPage.jsx:152 | truncation toward zero, as inside JavaScript's `%`: the integer with the sign of `x` whose magnitude is within one below `abs(x)` |
| TimeFormat.FloorDiv60 | src/ConversationPage.jsx:151-152 | for `t >= 0`, `floor(t / 60)` and `floor(t % 60)` are the quotient and remainder of `floor(t)` by 60 |
| TimeFormat.PadTwoDigits | src/ConversationPage.jsx:153 | `padStart(2, "0")` of a seconds value 0..59 gives its two digits |
| TimeFormat.FormatTime | src/ConversationPage.jsx:150-154 | for `t >= 0` the text is `m:ss` with `m = floor(t / 60)`, `ss` two digits of a value 0..59, and `60 * m + ss == floor(t)` |
| TimeFormat.ParseClockFormatTime | src/ConversationPage.jsx:150-154 | reading the formatted text back gives `floor(t)`: only the fraction is lost |
| Carousel.Shift | src/workspace.jsx:202 | `(index + direction * 4 + 10) % 10` with JavaScript's `%`: whenever the dividend is not negative, a slot in `[0, 10)` four places round the ring (Euclidean `(index + 4 * direction) mod 10`) |
| Carousel.ShiftAll | src/workspace.jsx:201-203 | the map keeps the length and shifts each index by `(index + direction * 4 + 10) % 10` |
| Carousel.ShiftInverse | src/workspace.jsx:202 | for direction ±1 the shift stays in `[0, 10)` and the opposite shift undoes it |
| Carousel.ShiftInjective | src/workspace.jsx:202 | distinct slots are shifted to distinct slots |
| Carousel.InsertMultiset | src/workspace.jsx:204 | an insertion step of the sort adds exactly the one element |
| Carousel.InsertSorted | src/workspace.jsx:204 | an insertion step keeps an ascending list ascending |
| Carousel.SortAscendingSpec | src/workspace.jsx:204 | `sort((a, b) => a - b)` gives an ascending permutation of its input |
| Carousel.SortedUnique | src/workspace.jsx:204 | two ascending lists with the same elements are equal, so the sort's result is determined by its input's elements |
| Carousel.PageStep | src/workspace.jsx:200-205 | one step is an ascending permutation of the shifted indices |
| Carousel.PageStepSpec | src/workspace.jsx:200-205 | one step keeps the length and the range `[0, 10)`, and gives the shifted indices in ascending order |
| Carousel.PageStepDistinct | src/workspace.jsx:200-205 | distinct indices stay distinct after a step |
| Carousel.PageStepKeepsPage | src/workspace.jsx:200-205 | a step maps four distinct ascending slots to four distinct ascending slots |
| Carousel.ShiftAllInverse | src/workspace.jsx:202 | shifting all indices one way and back gives them back |
| Carousel.PageStepRoundTrip | src/workspace.jsx:200-205 | a step one way then the other gives back the sorted list it started from |
| Carousel.PageStepIs | src/workspace.jsx:200-205 | a step's result is the unique ascending arrangement of the shifted indices |
| Carousel.FirstPageRight | src/workspace.jsx:192-205 | from `[0, 1, 2, 3]` one step right shows `[4, 5, 6, 7]` |
| Carousel.SecondPageRight | src/workspace.jsx:192-205 | a second step right shows `[0, 1, 8, 9]` |
| Carousel.StepRightFromSecondPage | src/workspace.jsx:200-205 | from `[4, 5, 6, 7]` a step right wraps round to `[0, 1, 8, 9]` |
| Carousel.FirstPageLeft | src/workspace.jsx:192-205 | from `[0, 1, 2, 3]` one step left shows `[6, 7, 8, 9]` |
| Carousel.HomePage.constructor | src/workspace.jsx:192-194 | all three index lists (bills, laws, amendments) start on `[0, 1, 2, 3]` |
| Carousel.HomePage.HandleBillNavigation | src/workspace.jsx:199-206 | the bill list takes one step, stays a valid page, and the other two lists are unchanged |
| Carousel.HomePage.HandleLawNavigation | src/workspace.jsx:208-215 | the law list takes one step, stays a valid page, and the other two lists are unchanged |
| Carousel.HomePage.HandleAmendmentNavigation | src/workspace.jsx:217-224 | the amendment list takes one step, stays a valid page, and the other two lists are unchanged (the handler has no caller in the file) |
| History.StoredOrEmpty | src/workspace.jsx:277-281 | a stored list is read as it is; nothing stored reads as the empty list |
| History.Appended | src/workspace.jsx:276-284 | an append stores a list one longer than the old one (empty when none), with every earlier entry in place and the new entry last |
| History.AfterUpdatesAppends | src/workspace.jsx:276-284 | a run of appends stores the earlier list followed by the new entries in click order |
| History.ConversationStore.UpdateConversationHistory | src/workspace.jsx:276-284 | the stored list becomes the old stored list (empty when none) with the entry pushed at the end |
| History.HistoryPage.constructor | src/workspace.jsx:965-970 | the page shows the stored list, or an empty list when none is stored |
| History.HistoryPage.ClearHistory | src/workspace.jsx:972-975 | the stored list is removed and the page shows an empty list |
| History.ClearThenUpdate | src/workspace.jsx:972-975 | after `clearHistory` the next `updateConversationHistory(e)` stores exactly `[e]`, and the page still shows an empty list |
| Theme.ThemeValue | src/workspace.jsx:56 | the stored text is `"dark"` exactly when the flag is on and `"light"` exactly when it is off |
| Theme.InitialDarkMode | src/workspace.jsx:32-34 | the flag starts on exactly when the stored text is the one written for dark mode; nothing stored, or the light text, starts it off |
| Theme.ThemeRoundTrip | src/workspace.jsx:32-34 | reading back with `=== "dark"` the value written for a flag gives the flag |
| Theme.ThemeValueInjective | src/workspace.jsx:56 | different flags are stored as different texts |
| Theme.ThemeState.constructor | src/workspace.jsx:32-34 | the flag is on exactly when `"dark"` is stored; afterwards the stored value and the root's `dark` class follow the flag |
| Theme.ThemeState.ToggleDarkMode | src/workspace.jsx:41-43 | the flag is negated; the stored value and the root's class follow it |
| Theme.ToggleTwice | src/workspace.jsx:41-43 | two toggles give back the flag, the stored value and the root's class |
| Theme.ReloadAfterToggle | src/workspace.jsx:32-34 | after a toggle a reload starts in the toggled mode |
| ResultParsing.ParseResult | src/workspace.jsx:536-543 | parsing fails exactly when `packageId` has no `-`; otherwise title and url are copied, the congress has at most 3 characters, the number is the all-digit `Number`, the type is `BillType` of the origin and the date is `UpdateDate` of `lastModified` |
| ResultParsing.CongressOfPackageId | src/workspace.jsx:538 | for an id `collection-segment…` the congress is the first three characters of `segment` |
| ResultParsing.LastSegment | src/workspace.jsx:539 | `split('-').pop()` is the text after the last `-` (all of the id when it has none), and holds no `-` |
| ResultParsing.AsWrittenNumber | src/workspace.jsx:539 | the number as written: only digits, no longer than the last segment |
| ResultParsing.Number | src/workspace.jsx:539 | the corrected number: only digits, no longer than the last segment |
| ResultParsing.NumberOfPackageId | src/workspace.jsx:539 | for an id `collection-<congress><letters><number><version>` the intended number is `<number>`, and the handler's number is congress digits, then number, then version digits |
| ResultParsing.NumberOfPackageIdAt | src/workspace.jsx:539 | the same two numbers for an id given by name as `collection-<congress><letters><number><version>` |
| ResultParsing.AsWrittenNumberExample | src/workspace.jsx:539 | on `BILLS-118hr9773ih` the handler gives `1189773`, the intended number is `9773`, and the two differ |
| ResultParsing.BillType | src/workspace.jsx:540 | the type is `"HR"` exactly when the origin is `"House"`, and `"S"` otherwise |
| ResultParsing.UpdateDate | src/workspace.jsx:541 | the date is the prefix of `lastModified` before its first `T`, or all of it when there is no `T` |
| ResultParsing.OriginHouseLabel | src/workspace.jsx:402 | the label is `"Senate"` exactly when the type is `"S"`, and `"House"` otherwise |
| ResultParsing.ParsedLabel | src/workspace.jsx:402 | a parsed result's card label is `"House"` exactly when its origin was `"House"`, and `"Senate"` otherwise |
| Strings.Split | src/workspace.jsx:538 | `split` on one character: at least one piece, none holding the separator, exactly one piece when the separator is absent |
| Strings.JoinSplit | src/workspace.jsx:538 | the pieces of a split, joined with the separator, give the string back |
| Strings.SplitJoin | src/workspace.jsx:538 | splitting a join of separator-free pieces gives the pieces back |
| Strings.SplitLastIsSuffix | src/workspace.jsx:539 | the last piece of a split is the suffix after the last separator |
| Strings.DigitsOnlyAppend | src/workspace.jsx:539 | `replace(/[^0-9]/g, '')` distributes over concatenation, keeping digit order |

## Left out

- Network calls: `fetch` of the card data (src/workspace.jsx:229), the UID
  service (src/workspace.jsx:247, 526), the search (src/workspace.jsx:488)
  and the item details (src/ConversationPage.jsx:92), and the `<audio>`
  element's own loading. The UID and the click date are taken as given.
  The request cancellation of the conversation page is left out too.
- Storage and JSON: `localStorage` is modelled as plain values, with no
  encoding, no parse errors and no quota.
- Rendering and routing: React rendering, animation, navigation,
  click-outside and scroll handling, and the context provider.
- `src/InputArea.jsx` and `src/Sidebar.jsx` are not part of this model.
  The first returns fixed dummy results; the second only calls the toggle.
- Floating point: times and volumes are exact reals. NaN durations,
  rounding and the element's own clamping (the opaque `clamp`) are not
  modelled.
- `Player.AudioPlayer.TogglePlay`: the promise of `play()` is not
  modelled. A rejected start still shows playback as on in the page state,
  as the source does. Pauses and ends that the element starts itself are
  not modelled, so `isPlaying` follows only the toggle.
- `Player.AudioPlayer.ChangeVolume`: the value is required to lie in
  `[0, 1]`, the slider's range at src/ConversationPage.jsx:294-299. The
  handler itself does not check it.
- `Player.AudioPlayer.OnLoadedData`: the listeners are modelled for a bound
  element only. When no element is bound at mount the source registers none.
- The `${congress}th` suffix of the Congress line and the other card
  labels are left out. They are display text only.
- `Carousel.HomePage.HandleBillNavigation`: only directions -1 and 1 are
  modelled, the only values the bills chevrons pass
  (src/workspace.jsx:377, 385). The same holds for the laws handler
  (src/workspace.jsx:426, 434).
- `Carousel.HomePage.HandleAmendmentNavigation`: nothing in the file calls
  it, so no call site backs its requirement that the direction is -1 or 1.
  It is modelled as written, under the same requirement as the other two.
- `ResultParsing.ParseResult` uses the corrected bill number. The number as
  written is `ResultParsing.AsWrittenNumber`; see Findings.

## Findings

| source | as written | input that shows it | evidently intended | confidence | as-written member | corrected member |
|---|---|---|---|---|---|---|
| src/workspace.jsx:539 | the bill number keeps every digit of the last `-` segment of `packageId`, so it includes the congress digits | `packageId = "BILLS-118hr9773ih"` gives `"1189773"` | the digits after the congress and the type letters (`"9773"`, as the line's own comment says) | high (not executed) | ResultParsing.AsWrittenNumberExample | ResultParsing.NumberOfPackageId |
