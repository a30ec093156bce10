# SnackSliderV in Dafny

SnackSliderV is a video carousel built on jQuery. It cycles through a playlist
of video URLs using two `<video>` buffers. One buffer is active (visible and
playing). The other is the standby: it is preloaded with the next item and
parked out of view, ready to slide or fade in when the active video ends.

This project models the bookkeeping under the page manipulation:

- `playlist.dfy` (module `Playlist`): the playlist edits `get`, `set`, `add`,
  `insert` and `delete` as functions on sequences, and the wrapping cursor of
  the `current` getter. The lemmas cover reading back edits, edit round trips,
  and the order in which consecutive reads serve the items (one full round is a
  rotation of the playlist). They also give the preload schedule.
- `positioning.dfy` (module `Positioning`): the pure tables.
  - `setNextCss` parks the standby buffer for each mode.
  - `transformValue` gives the translation that brings the standby into view.
  - The `width`/`height` getters resolve a configured size of 0 to the
    container's measurement.
  - The module also gives the resting state of the active buffer and the launch
    step of `play()`. The key lemma: the translation exactly cancels the parking
    displacement.
- `slider.dfy` (module `Slider`): the class `SnackSliderV`.
  - It holds the playlist, the cursor, the active-buffer `flag`, the `worker`
    flag, the mode and the configured size.
  - The two buffers are a two-slot array of `Surface` values. A `Surface` holds
    the source, position, opacity, stacking order, transform and transition.
  - Each method is proved against the functions above.
  - The object invariant says the active buffer always has stacking order 10
    and the standby 9.
  - `play()` is split into `Play`, which runs up to the start of the animation,
    and `CompleteTransition`, the animation-completion callback. The callback
    takes the buffer index it captured at flip time.
  - Module `WalkThrough` follows one transition of a three-item carousel
    through these contracts. It also runs `k` transitions on an unedited
    playlist and shows which item the last one loads.

Environment values are parameters (`Env`):
- the container's page offset;
- its measured width and height;
- whether the active video has ended or is paused.

Playing, pausing and loading a video are effects and are not modelled.

Notes on the code's behaviour:
- `play()` resumes the active video, without a transition, only when that video
  has not ended and is paused (src/snacksliderv.js:313). A video that is still
  playing goes on to a transition.
- Construction reads items 0 and 1 into the two buffers, so the first completed
  transition loads item 2 (item `2 mod n` in general) into the standby.
- For a mode that is neither a slide nor `fade`, the incoming buffer gets an
  empty transform. The completion callback waits for a `transitionend` event
  that such a change does not fire, so it never runs. The model exposes
  completion as an explicit call (see Left out).
- The `selector` setter restores `worker` only when the playlist is non-empty,
  because `start()` does nothing on an empty playlist.
- The constructor never applies its object of default options
  (src/snacksliderv.js:14-23): it reads every option from the argument itself
  (line 24). An omitted option is therefore `undefined` rather than its default
  (see Left out).

## Model

| member | source | states |
|---|---|---|
| Playlist.Lookup | src/snacksliderv.js:104-106 | `get(idx)` yields the item at `idx` exactly when `idx` is inside the playlist, and nothing (`undefined`) otherwise |
| Playlist.Replace | src/snacksliderv.js:107-109 | `set(idx, url)` keeps the length, puts `url` at `idx` and leaves every other index as it was |
| Playlist.Append | src/snacksliderv.js:111-113 | `add` grows the playlist by one, keeps the old items as a prefix and puts `url` last |
| Playlist.Insert | src/snacksliderv.js:115-117 | `insert(idx, url)` puts `url` at `idx`, keeps earlier items and shifts later ones one place right |
| Playlist.Remove | src/snacksliderv.js:118-120 | `delete(idx)` drops exactly the item at `idx`, keeps earlier items and shifts later ones one place left |
| Playlist.LookupAfterReplace | src/snacksliderv.js:104-109 | `get` after `set(idx, url)` reads `url` at `idx` and the old value everywhere else |
| Playlist.AppendIsInsertAtEnd | src/snacksliderv.js:111-117 | `add` ignores its index: it equals `insert` at the end |
| Playlist.RemoveUndoesInsert | src/snacksliderv.js:115-120 | `delete(idx)` after `insert(idx, url)` restores the playlist |
| Playlist.InsertUndoesRemove | src/snacksliderv.js:115-120 | re-inserting a deleted item at its index restores the playlist |
| Playlist.ReadIndex | src/snacksliderv.js:124-126 | `current` reads at the cursor when it is inside the playlist, and at 0 when the cursor is at or past the end, so always inside a non-empty playlist |
| Playlist.NextCursor | src/snacksliderv.js:123-131 | after `current` the cursor is one past the index read, modulo the length, so it is in `[0, length)` when the playlist is non-empty and stays 0 when it is empty |
| Playlist.ItemAt | src/snacksliderv.js:123-131 | `current` returns an item exactly when the playlist is non-empty, namely the one at the (reset) cursor |
| Playlist.Served | src/snacksliderv.js:123-131 | `k` consecutive reads of `current` yield `k` items, the first at the (reset) cursor |
| Playlist.CursorAfterReads | src/snacksliderv.js:123-131 | after `k` reads, the next read is `k` places after the first, modulo the length |
| Playlist.ServedAt | src/snacksliderv.js:123-131 | the `j`-th of consecutive reads yields the item `j` places after the first one read, modulo the length |
| Playlist.OneRoundIsRotation | src/snacksliderv.js:123-131 | `length` consecutive reads yield the playlist rotated to start at the cursor: every item exactly once, in order |
| Playlist.FullRoundReturns | src/snacksliderv.js:123-131 | after `length` reads, `current` is back at the item it started from |
| Playlist.BuildReads | src/snacksliderv.js:293-308 | construction reads items 0 and `1 mod n` into the buffers and leaves the cursor at `2 mod n` |
| Playlist.PreloadSchedule | src/snacksliderv.js:293-324 | on an unedited playlist of `n` items, the `k`-th completed transition loads item `(k + 1) mod n` into the standby |
| Playlist.InsertBeforeCursorRepeats | src/snacksliderv.js:115-131 | edits do not move the cursor: an insertion before it makes the next read repeat the item just before it |
| Playlist.RemoveBeforeCursorSkips | src/snacksliderv.js:118-131 | a deletion before the cursor makes the next read skip the item at the cursor |
| Slider.SnackSliderV.Width | src/snacksliderv.js:133-138 | the `width` getter returns the container's measured width when the configured width is 0, and the configured width otherwise |
| Slider.SnackSliderV.Height | src/snacksliderv.js:145-150 | the `height` getter returns the container's measured height when the configured height is 0, and the configured height otherwise |
| WalkThrough.Transitions | src/snacksliderv.js:293-324 | on a slider built from a non-empty, unedited playlist of `n` items, the `k`-th completed transition (`k >= 1`) loads item `(k + 1) mod n` into the standby |
| Positioning.Extent | src/snacksliderv.js:133-150 | the `width`/`height` getters return the container's measurement when the configured value is 0, and the configured value otherwise |
| Positioning.Park | src/snacksliderv.js:242-277 | `setNextCss` changes only the standby's position and opacity. A slide mode places it one width or height beyond the container's page offset on the mode's side, with opacity unchanged. Any other mode puts it at style position (0, 0) with opacity 0 |
| Positioning.TransformFor | src/snacksliderv.js:215-228 | `transformValue` is a translation exactly for the four slide modes: horizontal for right/left, vertical for top/bottom. For every other mode it is empty |
| Positioning.TransformCancelsPark | src/snacksliderv.js:215-269 | for each slide mode, the parked position shifted by the translation is the container's page offset. Fade and other modes do not translate and leave the standby hidden |
| Positioning.AtRest | src/snacksliderv.js:319 | the completion step puts a buffer in the resting state (style position 0, 0, opacity 1, no transform or transition), keeping its source and stacking order |
| Positioning.Halted | src/snacksliderv.js:231-232 | `killTranslation` first turns off the buffer's transition and transform and changes nothing else |
| Positioning.Launch | src/snacksliderv.js:327-339 | the incoming buffer goes to stacking order 10 with its source, position and opacity unchanged. Fade sets no transform; every other mode sets the timed transition and the mode's translation |
| Positioning.LaunchLandsOnContainer | src/snacksliderv.js:245-339 | a standby parked and then launched in a slide mode ends its translation on the container's page offset at its own opacity. In fade mode no translation is applied |
| Slider.Loaded | src/snacksliderv.js:306 | setting `src` to the next item changes only the source. An absent item (empty playlist) leaves the buffer as it was |
| Slider.Styled | src/snacksliderv.js:294-303 | `build` moves each buffer to style position (0, 0) with no transform or transition and the given stacking order, keeping its source and opacity |
| Slider.SnackSliderV.constructor | src/snacksliderv.js:13-43 | a new slider is not running and has buffer 0 active and stacked on top. Buffer 0 is at rest holding the first item. Buffer 1 holds the next read item and is parked. The cursor stands after two reads |
| Slider.SnackSliderV.Build | src/snacksliderv.js:279-310 | the loop styles buffer `i` with stacking order `10 - i` and loads the `i`-th read item into it. It then parks buffer 1, leaving the cursor two reads on |
| Slider.SnackSliderV.Current | src/snacksliderv.js:123-131 | `current` returns `ItemAt` of the cursor and moves the cursor to `NextCursor`, changing nothing else |
| Slider.SnackSliderV.Set | src/snacksliderv.js:107-109 | the playlist becomes `Replace(old, idx, url)`; cursor and flag are untouched |
| Slider.SnackSliderV.Add | src/snacksliderv.js:111-113 | the playlist becomes `Append(old, url)` whatever the index; cursor and flag are untouched |
| Slider.SnackSliderV.Insert | src/snacksliderv.js:115-117 | the playlist becomes `Insert(old, idx, url)`; cursor and flag are untouched |
| Slider.SnackSliderV.Delete | src/snacksliderv.js:118-120 | the playlist becomes `Remove(old, idx)`; cursor and flag are untouched |
| Slider.SnackSliderV.SetWidth | src/snacksliderv.js:139-143 | after setting the width, the getter returns the container's measurement if the value is 0 and the value otherwise |
| Slider.SnackSliderV.SetHeight | src/snacksliderv.js:151-155 | as `SetWidth`, for the height |
| Slider.SnackSliderV.SetNextCss | src/snacksliderv.js:242-277 | only the standby buffer `1 - flag` changes, to its parked form for the current mode and size; the active buffer is untouched |
| Slider.SnackSliderV.SetMode | src/snacksliderv.js:72-75 | the mode changes and the standby is re-parked for the new mode at once; the active buffer is untouched |
| Slider.SnackSliderV.KillTranslation | src/snacksliderv.js:230-240 | the active buffer is put at rest. The standby has its animation switched off and is re-parked. The other buffer is untouched |
| Slider.SnackSliderV.Play | src/snacksliderv.js:312-339 | a paused, unfinished active video is only resumed, and an empty playlist is a no-op: flag and buffers unchanged. Otherwise the flag flips exactly once, the old active buffer drops to stacking order 9 and the new one is launched. The active buffer stays on top |
| Slider.SnackSliderV.CompleteTransition | src/snacksliderv.js:318-324 | the captured buffer is put at rest and the other buffer gets the next read item; the cursor advances once. The standby of the moment is then parked. When the captured buffer is still the active one, the active is at rest and the standby holds the new item, parked |
| Slider.SnackSliderV.Start | src/snacksliderv.js:342-348 | `start` on an empty playlist leaves `worker` as it was; otherwise `worker` becomes true |
| Slider.SnackSliderV.Destroy | src/snacksliderv.js:350-356 | `worker` becomes false. The active buffer is at rest. The standby has its animation switched off and is parked |
| Slider.SnackSliderV.Stop | src/snacksliderv.js:358-362 | as `Destroy`: not running, active at rest, standby halted and parked |
| Slider.SnackSliderV.SetSelector | src/snacksliderv.js:49-63 | a stopped slider is left as it was. A running one is stopped and started again: it is running afterwards exactly when its playlist is non-empty, with the buffers as `Stop` leaves them |

## Left out

- Page manipulation is not modelled: creating, attaching and detaching elements, CSS strings, the `notransition` class and the forced reflow in `killTranslation`. Positions, opacity, stacking order and transforms are integer and datatype fields.
- Event machinery is not modelled: the `ended` subscriptions, the vendor-prefixed one-shot `transitionend` and jQuery's `animate`. Subscription is the `worker` flag. Animation completion is an explicit `CompleteTransition` call, which the model allows at any time. So it does not capture that completion never fires in a mode that is neither a slide nor `fade`, nor that nothing prevents overlapping transitions.
- Video behaviour (`load`, `play`, `pause`) is not modelled; these are effects only. The pass-through accessors `duration`, `readyState`, `played`, `currentTime`, `paused`, `ended` and `error` are also left out. `ended` and `paused` of the active video are inputs to `Play`.
- The `muted`, `poster` and `fit` setters only push a value into the page, and are left out. So are the styling side of the `width`/`height` setters and the restyling check in the `selector` setter. The `selector` and `length` getters are left out too.
- `speed` and the transition duration string are floating-point formatting, and are left out. Fade mode's intermediate animation frames are not modelled. Sizes and offsets are integers where JavaScript has numbers.
- `killTranslation`'s return value is left out. It is the height read to force a reflow.
- Slider.SnackSliderV.Set: requires an index inside the playlist. Writing past the end in JavaScript extends the array with holes, which is not modelled.
- Slider.SnackSliderV.Insert: requires `0 <= idx <= length`. `splice` clamping of negative or too-large indexes is not modelled.
- Slider.SnackSliderV.Delete: requires `0 <= idx < length`. `splice` clamping of negative indexes, and the no-op at or past the end, are not modelled.
- Constructor options are taken as given. The source never applies its defaults object, so omitted options are not modelled. In the source, an omitted `mode` behaves like an unknown mode. An omitted `width` or `height` makes the getter return `undefined` instead of measuring. An omitted `children` makes `Array.from` throw.
- Configured and measured sizes are non-negative (`nat`). A negative configured width or height makes `transformValue` build invalid CSS such as `translateX(--5px)` in the source; that case is not modelled.
