# Fire-detection dashboard: alarm state machine and dashboard views

This project models the two pieces of logic in the fire-detection dashboard that have state
or structure. Everything else in the dashboard is camera, database, mail, HTTP and DOM plumbing.

- **The per-frame alarm of `app.py`** (`fire_alarm.dfy`, module `FireAlarm`). The frame loop keeps
  two globals: `fire_frame_count`, the number of consecutive frames in which the cascade found
  fire, and `alarm_triggered`, a latched alarm flag. Each frame gives one boolean, "at least
  one fire box". When the count reaches the threshold of 3 and the alarm is off, the loop
  stores an `"Active"` record with confidence 100 and a fixed location. When a frame without
  fire arrives while the alarm is on, it stores a `"Cleared"` record with confidence 0 and
  location `"N/A"`. Any frame without fire resets both globals. The class `Detector` holds the
  two globals. `Step` is one frame, and `GenerateFrames` is the loop over a finite camera
  stream. The pure functions `Next`, `Entry`, `Final` and `Run` specify them. The lemmas
  prove three things:
  - the stored statuses alternate;
  - every `"Active"` record carries confidence 100;
  - as long as one frame loop runs at a time, the alarm flag agrees with the newest stored
    record, which is what the start-up rule `get_initial_alarm_state` reads back.
- **The dashboard script `static/JS/script.js`**. The pure derivations are in
  `dashboard_view.dfy` (module `DashboardView`):
  - the `"Active"` filter of the server log;
  - `split(' ')` of the time stamps into date and time of day;
  - the "last five, reversed" alert cards;
  - the reversed detection table;
  - the per-day grouping for the line chart;
  - the high/medium confidence split for the doughnut.

  The state the script rewrites in place is in `dashboard_ui.dfy` (module `DashboardUi`):
  - the class `Dashboard` holds `detectionsData` and every value the update functions write;
  - the class `FeedControl` is the two-state video feed toggle with its button and class sets;
  - the class `TabBar` holds the tab and pane class sets.

  `common.dfy` holds an `Option` type and small sequence helpers.

**Ordering.** The server returns the log newest first, because it sorts by `time_obj`
descending. The script treats the *last* element as the latest. The model follows the code,
so its properties are positional: "the last element of the list", "last position first".
Under the server's ordering (app.py:185), the "last detection time" and the five "recent" cards
are in fact the *oldest* confirmed detections, and the table that static/JS/script.js:139 means
to show "latest data first" lists the oldest detection first. The comments at
static/JS/script.js:98 and :139 read as if the log were oldest first; the model follows the code.

The detector's boolean per frame and the clock string per frame are inputs. So is the
`/api/status` response, which is `None` when the request or its JSON parse fails. The live
feed URL `VIDEO_FEED_URL`, which the page defines outside the script, is a constructor
parameter.

## Model

| member | source | states |
|---|---|---|
| `FireAlarm.InitialAlarmState` | app.py:53-60 | the start-up alarm flag is true exactly when a newest stored event exists and its status is "Active" |
| `FireAlarm.Confidence` | app.py:117-124 | the stored confidence `int(min(100, count/3*33+67))` lies in [67, 100] and is exactly 100 once the count has reached the threshold |
| `FireAlarm.Next` | app.py:106-157 | a fire frame adds exactly one to the count, switches the alarm on when the count reaches the threshold with the alarm off, and changes the flag in no other way; a frame without fire leaves count 0 and the alarm off, whatever the prior state |
| `FireAlarm.Entry` | app.py:113-157 | an "Active" record is stored exactly on a fire frame that brings the count to the threshold while the alarm is off, carries confidence 100 and the fixed location, and leaves the alarm on; a "Cleared" record (confidence 0, location "N/A") is stored exactly on a frame without fire while the alarm is on; each record carries that frame's time |
| `FireAlarm.Overlay` | app.py:159-160 | the overlay is red exactly when the count is at least the threshold, green otherwise |
| `FireAlarm.NextReachable` | app.py:106-157 | a frame never leaves the alarm off with a count at or above the threshold, so every "Active" record is stored at the frame where the count equals the threshold |
| `FireAlarm.Final` | app.py:90-157 | the state after a frame stream (the loop's specification): reachable states stay reachable, and the count grows by at most one per frame |
| `FireAlarm.Run` | app.py:113-157 | the records a frame stream stores, in order (the loop's specification): at most one per frame |
| `FireAlarm.RunAlternates` | app.py:114-157 | over any frame stream, every stored status is "Active" or "Cleared", no two neighbouring stored statuses are equal, the first is "Cleared" if the alarm started on and "Active" if it started off, and the last is "Active" exactly when the alarm ends on |
| `FireAlarm.RunFromOffAlternates` | app.py:114-157 | starting with the alarm off, the i-th stored status is "Active" for even i and "Cleared" for odd i |
| `FireAlarm.AlarmMirrorsNewestRecord` | app.py:53-157 | if the alarm flag agrees with the start-up rule applied to the newest stored event, it still agrees with that rule applied to the newest record after any frame stream, so a restart resumes with the same flag |
| `FireAlarm.Detector.constructor` | app.py:62-64 | the loop starts with count 0 and the flag given by the start-up rule |
| `FireAlarm.Detector.Step` | app.py:106-160 | one frame moves the globals as `Next` says, returns the record `Entry` describes and the overlay colour of the new count, keeps the reachable-state invariant, and an "Active" record leaves the count exactly at the threshold |
| `FireAlarm.Detector.GenerateFrames` | app.py:87-157 | the loop over a finite frame stream ends in the state `Final` gives and hands to the collection exactly the records `Run` lists, in order |
| `Common.Reverse` | static/JS/script.js:140 | the reversed list has the same length and holds at position i the element at position n-1-i |
| `DashboardView.Split` | static/JS/script.js:100 | `split(' ')` always yields at least one piece |
| `DashboardView.JoinSplit` | static/JS/script.js:141 | splitting on spaces loses nothing: the pieces joined with single spaces give the original string back, and no piece contains a space |
| `DashboardView.SplitJoin` | static/JS/script.js:141 | splitting undoes joining space-free pieces |
| `DashboardView.DatePart` | static/JS/script.js:182 | the date part is the space-free prefix of the time string that ends at its first space, or the whole string when it contains no space |
| `DashboardView.TimePart` | static/JS/script.js:100 | the time part is undefined exactly when the time string has no space; otherwise it is the space-free piece that follows the date part and its space and ends at the next space or at the end of the string |
| `DashboardView.TimestampParts` | static/JS/script.js:141 | a "date time" string with space-free halves splits back into exactly that date and that time of day |
| `DashboardView.Filter` | static/JS/script.js:74 | a filter is no longer than its input and keeps only elements that satisfy the predicate |
| `DashboardView.FilterKeepsExactly` | static/JS/script.js:74 | a filter is a subsequence of its input in the original order, and holds every satisfying element as often as the input does and no other element |
| `DashboardView.FilterPartition` | static/JS/script.js:190-191 | two complementary filters together have exactly as many elements as the input |
| `DashboardView.ActiveDetections` | static/JS/script.js:74 | `detectionsData` is exactly the subsequence of `full_log` whose status is "Active", in the original order and with multiplicities |
| `DashboardView.Recent` | static/JS/script.js:105 | `slice(-5).reverse()` has min(5, n) elements, the last list elements with the last one first |
| `DashboardView.AlertCards` | static/JS/script.js:97-117 | there are min(5, n) cards; card i shows the confidence and location of element n-1-i, and every card shows the time of day of the last element |
| `DashboardView.TableRows` | static/JS/script.js:138-152 | the table has one row per detection, last element first, each row holding that detection's date, time of day, confidence, location and status |
| `DashboardView.TotalConfidence` | static/JS/script.js:133 | the `reduce` that sums the confidences from 0; its bounds are stated by `TotalConfidenceBounds` |
| `DashboardView.TotalConfidenceBounds` | static/JS/script.js:133-134 | when every confidence lies in [lo, hi], the summed confidence lies between lo·n and hi·n, so the displayed average lies in [lo, hi] |
| `DashboardView.AddDay` | static/JS/script.js:183-184 | one step of the `reduce`: the count under the date goes up by one, a missing date starting from 0 and going to the end of the key order; its effect over the whole list is stated by the `Tally` lemmas |
| `DashboardView.Tally` | static/JS/script.js:181-185 | the `reduce` from `{}` over the date parts; `TallyWellFormed`, `TallyCounts`, `TallyOrder` and `TallySum` state what it holds |
| `DashboardView.Values` | static/JS/script.js:187 | `Object.values` of the accumulator: one value per key, in key order |
| `DashboardView.TallyWellFormed` | static/JS/script.js:181-185 | the reduce accumulator lists each date once, and its keys are exactly the dates seen |
| `DashboardView.TallyCounts` | static/JS/script.js:181-185 | the value under each date is the number of detections on that date |
| `DashboardView.TallyOrder` | static/JS/script.js:181-186 | the dates are listed in order of their first appearance |
| `DashboardView.TallySum` | static/JS/script.js:181-187 | the per-date counts add up to the number of detections |
| `DashboardView.DetectionsByDay` | static/JS/script.js:181-187 | the line chart's labels are the distinct date parts in first-occurrence order, each data point is that date's number of occurrences, and the data sum to n |
| `DashboardView.ConfidenceSplit` | static/JS/script.js:190-192 | the doughnut's data are the number of detections with confidence ≥ 85 and the number with confidence < 85, and they add up to n |
| `DashboardView.HighSliceCountsHighConfidence` | static/JS/script.js:190-191 | the first slice counts exactly the detections with confidence ≥ 85 and the second exactly those below 85 |
| `DashboardUi.Dashboard.constructor` | static/JS/script.js:157-176 | at page load the list is empty, the line chart has no labels or data, and the doughnut holds [0, 0] |
| `DashboardUi.Dashboard.UpdateDashboard` | static/JS/script.js:90-122 | the active counter is 1 if the alarm is active and 0 otherwise; the total is the list length; an empty list shows "N/A" and the placeholder; otherwise the last element's time of day and its alert cards are shown; the analytics tab and the charts are untouched |
| `DashboardUi.Dashboard.UpdateCharts` | static/JS/script.js:179-194 | both charts are redrawn from the list, and nothing else changes |
| `DashboardUi.Dashboard.UpdateAnalytics` | static/JS/script.js:124-155 | an empty list shows "0%", 0 alerts and the placeholder row; otherwise the summed confidence over n, n alerts and the reversed table are shown; in both cases the charts are redrawn and the summary tab is untouched |
| `DashboardUi.Dashboard.FetchStatus` | static/JS/script.js:68-87 | a failed poll changes nothing; a successful one replaces the list with the "Active" records, redraws the summary, and redraws the analytics tab exactly when the analytics pane is visible, otherwise leaving it as it was |
| `DashboardUi.Started` | static/JS/script.js:30-40 | after `startFeed`: the feed is running, the source is the live URL, the button reads "Stop Feed" and is red and not green, the "no signal" text is hidden, and the video is opaque; no other class changes |
| `DashboardUi.Stopped` | static/JS/script.js:42-52 | after `stopFeed`: the feed is stopped, the source is the placeholder image, the button reads "Start Feed" and is green and not red, the "no signal" text is shown, and the video is transparent; no other class changes |
| `DashboardUi.Toggled` | static/JS/script.js:54-60 | a toggle flips the running flag |
| `DashboardUi.ToggleTwiceFromStarted` | static/JS/script.js:30-60 | from the state `startFeed` establishes (as at page load), two toggles restore the flag, the source, the label and all class sets |
| `DashboardUi.ToggleTwiceFromStopped` | static/JS/script.js:30-60 | from the state `stopFeed` establishes, two toggles restore everything |
| `DashboardUi.FeedControl.constructor` | static/JS/script.js:5 | the feed flag starts true, and the elements are as the page built them |
| `DashboardUi.FeedControl.StartFeed` | static/JS/script.js:30-40 | the feed elements become what `Started` describes |
| `DashboardUi.FeedControl.StopFeed` | static/JS/script.js:42-52 | the feed elements become what `Stopped` describes |
| `DashboardUi.FeedControl.ToggleFeed` | static/JS/script.js:54-62 | the click handler flips the flag and moves the elements as `Toggled` describes |
| `DashboardUi.FeedControl.Init` | static/JS/script.js:228-232 | at start-up the current flag is applied to the elements |
| `DashboardUi.ActivateTab` | static/JS/script.js:200-201 | after a click exactly the clicked tab carries `active`, and no other class of any tab changes |
| `DashboardUi.ShowPane` | static/JS/script.js:203-210 | exactly the panes whose id is `<data-tab>-content` lack `hidden`, and no other class of any pane changes |
| `DashboardUi.ExactlyOnePaneShown` | static/JS/script.js:204-210 | with unique pane ids and a pane for the clicked tab, exactly one pane is visible |
| `DashboardUi.TabBar.constructor` | static/JS/script.js:12-13 | the tab bar holds the page's tabs and panes as they are |
| `DashboardUi.TabBar.PaneShown` | static/JS/script.js:79 | the `analytics-content` visibility test: true only if some pane with that id lacks `hidden`, and true whenever such a pane exists and every pane with that id lacks `hidden` |
| `DashboardUi.TabBar.Click` | static/JS/script.js:198-215 | the handler's two loops leave the tab classes as `ActivateTab` and the pane classes as `ShowPane` describe, and it starts an immediate poll exactly when the clicked tab is `analytics` |

## Left out

- Camera capture, flipping, grayscale conversion, cascade detection, box drawing, the
  "Fire Frames: n/3" text, JPEG encoding and multipart framing (app.py:91-111, 159-167) are
  image I/O. The detector's result is a boolean input per frame, and only the overlay colour
  is kept.
- MongoDB access is left out (app.py:42-44, 55, 129, 151, 185-191). `Run` lists the records
  handed to `insert_one`. A failed insert is printed and the record is lost, which is not
  modelled. `AlarmMirrorsNewestRecord` therefore assumes that every insert succeeds and that
  the clock is monotonic.
- The `/api/status` route that reads the collection back newest first is left out for the
  same reason. The dashboard model takes its JSON body as an input.
- The alert e-mail sent on a daemon thread (app.py:66-84, 135) is left out. It is started
  exactly when an "Active" record is stored.
- Configuration loading, the Flask routes and server start-up are left out.
- Concurrent frame loops are not modelled. Every GET of `/video_feed` starts its own
  `generate_frames` (app.py:177-179), and the threaded development server (app.py:204) can run
  several of them at once over the same globals (app.py:88). The model is one loop whose frames
  are atomic steps. `RunAlternates`, `RunFromOffAlternates`, `AlarmMirrorsNewestRecord` and the
  confidence-100 clause of `Entry` hold only for one loop at a time. Interleaved loops can break
  them: a "Cleared" frame of one loop between another loop's `alarm_triggered = True` (app.py:115)
  and its insert can leave the flag off under an "Active" record of confidence 67.
- `datetime.now()` and `strftime` (app.py:119-122) are left out. The time string is an
  input per frame.
- FireAlarm.Confidence: Python's floating-point division is modelled as exact rational
  arithmetic. This only matters below the threshold, where the function is never used. At or
  above the threshold both give 100.
- FireAlarm.InitialAlarmState: a stored document without a `status` field is not modelled.
  The collection only ever receives records with a status.
- `fetch`, `setInterval` and the 2-second polling cadence (static/JS/script.js:68-71, 223) are
  left out. So is the race between overlapping polls, and so is `console` logging.
  `Dashboard.FetchStatus` is the part of `fetchStatus` that runs once a response has settled.
- `TabBar.Click` reports that it starts a poll but does not run it. The poll is asynchronous,
  and its response arrives later through `FetchStatus`.
- A JSON body with missing or mistyped fields is not modelled. A response is either a
  well-formed snapshot or a failure. Confidences are integers, as the server writes them.
- DOM element creation, `innerHTML` templates and CSS class names of cards and rows are not
  modelled. Only the values written are kept: texts, counters, card and row contents,
  placeholders, chart arrays and class sets.
- Building the card and row lists is not modelled as DOM appends. The containers are
  emptied and then appended to in the source. The model builds the same sequence and stores
  it once.
- `toFixed(1)` formatting of the average accuracy (static/JS/script.js:134) is left out.
  `Accuracy.Average` keeps the integer sum and count it is computed from.
- How `undefined` renders when a time string has no space is left out. `TimePart` is `None`
  in that case.
- `"0"` versus the number 0 for the alerts counter is not distinguished. Both display "0".
- DashboardView.DetectionsByDay: `Object.keys` puts keys that look like array indices
  (canonical integer strings) first, in numeric order. The model assumes insertion order for
  every key, which holds for "YYYY-MM-DD" dates. Keys inherited from `Object.prototype` (for
  example `__proto__`) are also not modelled.
- Chart.js objects, their options and their `update()` calls are left out. Only the assigned
  label and data arrays are kept.
- `classList` is modelled as a set, so the order of class tokens is not modelled.
- The initial texts of the page's counters and table come from the HTML template, which is
  not part of this model.
- TabBar.PaneShown: the model assumes the element with id `analytics-content` is one of the
  `.tab-content` panes. A tab without a `data-tab` attribute (`null`) is not modelled.
