/** The state the dashboard script keeps and rewrites in place: the confirmed-detection list
    and the values it renders, the two-state video feed control, and the tab bar. Only the
    values written into the page are modelled: texts, counts, card and row sequences, chart
    arrays and class sets. */
module DashboardUi {
  import opened Common
  import opened DashboardView

  // ---------------------------------------------------------------------------
  // Rendered values

  const NOT_AVAILABLE: string := "N/A"
  /** The pane whose visibility decides whether a poll also refreshes the analytics. */
  const ANALYTICS: string := "analytics"
  const PANE_SUFFIX: string := "-content"

  /** The alert container: the "No detections yet." placeholder, or the appended cards. */
  datatype AlertsView = NoDetectionsYet | Cards(cards: seq<AlertCard>)

  /** The accuracy card: the literal "0%", or the mean `total / count` (its one-decimal
      rendering is not modelled). */
  datatype Accuracy = ZeroPercent | Average(total: int, count: nat)

  /** The table body: the single "No data available." row, or the appended rows. */
  datatype TableView = NoDataRow | Rows(rows: seq<TableRow>)

  /** The dashboard controller: `detectionsData`, the elements it writes and the two charts'
      data arrays. */
  class Dashboard {
    var detectionsData: seq<Detection>
    // summary tab
    var activeDetections: int
    var totalDetections: int
    var lastDetectionTime: Option<string>
    var recentAlerts: AlertsView
    // analytics tab
    var avgAccuracy: Accuracy
    var alertsSent: int
    var detectionsTable: TableView
    // charts
    var dayLabels: seq<string>
    var dayCounts: seq<int>
    var confidenceData: seq<int>

    /** The summary tab shows the list and the given real-time flag. */
    ghost predicate SummaryShows(alarmActive: bool)
      reads this
    {
      && activeDetections == (if alarmActive then 1 else 0)
      && totalDetections == |detectionsData|
      && (detectionsData == [] ==>
            lastDetectionTime == Some(NOT_AVAILABLE) && recentAlerts == NoDetectionsYet)
      && (detectionsData != [] ==>
            && lastDetectionTime == TimePart(detectionsData[|detectionsData| - 1].time)
            && recentAlerts == Cards(AlertCards(detectionsData)))
    }

    /** Both charts are drawn from the current list. */
    ghost predicate ChartsShow()
      reads this
    {
      && (dayLabels, dayCounts) == DetectionsByDay(detectionsData)
      && confidenceData == ConfidenceSplit(detectionsData)
    }

    /** The analytics tab and the charts show the current list. */
    ghost predicate AnalyticsShows()
      reads this
    {
      && ChartsShow()
      && (detectionsData == [] ==>
            avgAccuracy == ZeroPercent && alertsSent == 0 && detectionsTable == NoDataRow)
      && (detectionsData != [] ==>
            && avgAccuracy == Average(TotalConfidence(detectionsData), |detectionsData|)
            && alertsSent == |detectionsData|
            && detectionsTable == Rows(TableRows(detectionsData)))
    }

    /** Page load with `initializeCharts`: no detections and empty charts. The counters, texts
        and table keep whatever the page's template holds, which is not part of this model. */
    constructor ()
      ensures detectionsData == []
      ensures dayLabels == [] && dayCounts == [] && confidenceData == [0, 0]
    {
      detectionsData := [];
      dayLabels, dayCounts := [], [];
      confidenceData := [0, 0];
    }

    /** `updateDashboard`: rewrites the summary tab and nothing else. */
    method UpdateDashboard(isAlarmActive: bool)
      modifies this
      ensures SummaryShows(isAlarmActive)
      ensures detectionsData == old(detectionsData)
      ensures avgAccuracy == old(avgAccuracy) && alertsSent == old(alertsSent)
      ensures detectionsTable == old(detectionsTable)
      ensures dayLabels == old(dayLabels) && dayCounts == old(dayCounts)
      ensures confidenceData == old(confidenceData)
    {
      activeDetections := if isAlarmActive then 1 else 0;
      totalDetections := |detectionsData|;
      if |detectionsData| > 0 {
        var lastDetection := detectionsData[|detectionsData| - 1];
        var timePart := TimePart(lastDetection.time);
        lastDetectionTime := timePart;
        var recent := Recent(detectionsData);
        var cards: seq<AlertCard> := [];
        for k := 0 to |recent|
          invariant |cards| == k
          invariant forall j :: 0 <= j < k ==> cards[j] == AlertCard(recent[j].confidence, timePart, recent[j].gps)
        {
          var det := recent[k];
          cards := cards + [AlertCard(det.confidence, timePart, det.gps)];
        }
        recentAlerts := Cards(cards);
        assert cards == AlertCards(detectionsData);
      } else {
        lastDetectionTime := Some(NOT_AVAILABLE);
        recentAlerts := NoDetectionsYet;
      }
    }

    /** `updateCharts`: redraws both charts from the list. */
    method UpdateCharts()
      modifies this
      ensures ChartsShow()
      ensures detectionsData == old(detectionsData)
      ensures activeDetections == old(activeDetections) && totalDetections == old(totalDetections)
      ensures lastDetectionTime == old(lastDetectionTime) && recentAlerts == old(recentAlerts)
      ensures avgAccuracy == old(avgAccuracy) && alertsSent == old(alertsSent)
      ensures detectionsTable == old(detectionsTable)
    {
      var byDay := DetectionsByDay(detectionsData);
      dayLabels := byDay.0;
      dayCounts := byDay.1;
      confidenceData := ConfidenceSplit(detectionsData);
    }

    /** `updateAnalytics`: rewrites the analytics tab and, on every path, the charts. */
    method UpdateAnalytics()
      modifies this
      ensures AnalyticsShows()
      ensures detectionsData == old(detectionsData)
      ensures activeDetections == old(activeDetections) && totalDetections == old(totalDetections)
      ensures lastDetectionTime == old(lastDetectionTime) && recentAlerts == old(recentAlerts)
    {
      if |detectionsData| == 0 {
        avgAccuracy := ZeroPercent;
        alertsSent := 0;
        detectionsTable := NoDataRow;
        UpdateCharts();
        return;
      }
      avgAccuracy := Average(TotalConfidence(detectionsData), |detectionsData|);
      alertsSent := |detectionsData|;
      var latestFirst := Reverse(detectionsData);
      var rows: seq<TableRow> := [];
      for k := 0 to |latestFirst|
        invariant |rows| == k
        invariant forall j :: 0 <= j < k ==> rows[j] == RowOf(latestFirst[j])
      {
        rows := rows + [RowOf(latestFirst[k])];
      }
      assert rows == TableRows(detectionsData);
      detectionsTable := Rows(rows);
      UpdateCharts();
    }

    /** The body of `fetchStatus` once the request has settled: `None` is a failed request or
        an unreadable body, which is logged and leaves everything as it was. */
    method FetchStatus(response: Option<StatusSnapshot>, tabs: TabBar)
      requires tabs.Valid()
      modifies this
      ensures response == None ==> unchanged(this)
      ensures response.Some? ==> detectionsData == ActiveDetections(response.value.fullLog)
      ensures response.Some? ==> SummaryShows(response.value.alarmActive)
      ensures response.Some? && tabs.PaneShown(ANALYTICS + PANE_SUFFIX) ==> AnalyticsShows()
      ensures response.Some? && !tabs.PaneShown(ANALYTICS + PANE_SUFFIX) ==>
                && avgAccuracy == old(avgAccuracy) && alertsSent == old(alertsSent)
                && detectionsTable == old(detectionsTable)
                && dayLabels == old(dayLabels) && dayCounts == old(dayCounts)
                && confidenceData == old(confidenceData)
    {
      if response == None {
        return;
      }
      detectionsData := ActiveDetections(response.value.fullLog);
      UpdateDashboard(response.value.alarmActive);
      if tabs.PaneShown(ANALYTICS + PANE_SUFFIX) {
        UpdateAnalytics();
      }
    }
  }

  // ---------------------------------------------------------------------------
  // The video feed toggle

  const NO_SIGNAL_IMG: string := "https://placehold.co/600x400/374151/f3f4f6?text=NO+SIGNAL"
  const START_LABEL: string := "Start Feed"
  const STOP_LABEL: string := "Stop Feed"
  const GREEN_BUTTON: set<string> := {"bg-green-600", "hover:bg-green-700"}
  const RED_BUTTON: set<string> := {"bg-red-600", "hover:bg-red-700"}
  const HIDDEN: string := "hidden"
  const OPAQUE: string := "opacity-100"
  const TRANSPARENT: string := "opacity-0"

  /** Everything the feed toggle writes: the flag, the image source, the button label and the
      class sets of the button, the "no signal" text and the video element. */
  datatype FeedView = FeedView(
    running: bool,
    src: string,
    buttonText: string,
    buttonClasses: set<string>,
    noSignalClasses: set<string>,
    videoClasses: set<string>)

  /** What `startFeed` leaves behind: the live source, a red "Stop Feed" button, the
      "no signal" text hidden and the video opaque; other classes are kept. */
  function Started(v: FeedView, liveUrl: string): (w: FeedView)
    ensures w.running && w.src == liveUrl && w.buttonText == STOP_LABEL
    ensures RED_BUTTON <= w.buttonClasses && w.buttonClasses !! GREEN_BUTTON
    ensures w.buttonClasses - RED_BUTTON == v.buttonClasses - RED_BUTTON - GREEN_BUTTON
    ensures HIDDEN in w.noSignalClasses && w.noSignalClasses - {HIDDEN} == v.noSignalClasses - {HIDDEN}
    ensures OPAQUE in w.videoClasses && TRANSPARENT !in w.videoClasses
    ensures w.videoClasses - {OPAQUE} == v.videoClasses - {OPAQUE, TRANSPARENT}
  {
    FeedView(true, liveUrl, STOP_LABEL,
      v.buttonClasses - GREEN_BUTTON + RED_BUTTON,
      v.noSignalClasses + {HIDDEN},
      v.videoClasses - {TRANSPARENT} + {OPAQUE})
  }

  /** What `stopFeed` leaves behind: the placeholder image, a green "Start Feed" button, the
      "no signal" text shown and the video transparent; other classes are kept. */
  function Stopped(v: FeedView): (w: FeedView)
    ensures !w.running && w.src == NO_SIGNAL_IMG && w.buttonText == START_LABEL
    ensures GREEN_BUTTON <= w.buttonClasses && w.buttonClasses !! RED_BUTTON
    ensures w.buttonClasses - GREEN_BUTTON == v.buttonClasses - RED_BUTTON - GREEN_BUTTON
    ensures HIDDEN !in w.noSignalClasses && w.noSignalClasses == v.noSignalClasses - {HIDDEN}
    ensures TRANSPARENT in w.videoClasses && OPAQUE !in w.videoClasses
    ensures w.videoClasses - {TRANSPARENT} == v.videoClasses - {OPAQUE, TRANSPARENT}
  {
    FeedView(false, NO_SIGNAL_IMG, START_LABEL,
      v.buttonClasses - RED_BUTTON + GREEN_BUTTON,
      v.noSignalClasses - {HIDDEN},
      v.videoClasses - {OPAQUE} + {TRANSPARENT})
  }

  /** `toggleFeed`: stop a running feed, start a stopped one. */
  function Toggled(v: FeedView, liveUrl: string): (w: FeedView)
    ensures w.running == !v.running
  {
    if v.running then Stopped(v) else Started(v, liveUrl)
  }

  /** From the state `startFeed` establishes (as at page load), two toggles restore the flag,
      the source, the label and every class set. */
  lemma ToggleTwiceFromStarted(v: FeedView, liveUrl: string)
    ensures var s := Started(v, liveUrl);
            Toggled(Toggled(s, liveUrl), liveUrl) == s
  {
    var s := Started(v, liveUrl);
    assert s.buttonClasses - RED_BUTTON + GREEN_BUTTON - GREEN_BUTTON + RED_BUTTON == s.buttonClasses;
    assert s.videoClasses - {OPAQUE} + {TRANSPARENT} - {TRANSPARENT} + {OPAQUE} == s.videoClasses;
  }

  /** Likewise from the state `stopFeed` establishes. */
  lemma ToggleTwiceFromStopped(v: FeedView, liveUrl: string)
    ensures Toggled(Toggled(Stopped(v), liveUrl), liveUrl) == Stopped(v)
  {
    var s := Stopped(v);
    assert s.buttonClasses - GREEN_BUTTON + RED_BUTTON - RED_BUTTON + GREEN_BUTTON == s.buttonClasses;
    assert s.videoClasses - {TRANSPARENT} + {OPAQUE} - {OPAQUE} + {TRANSPARENT} == s.videoClasses;
  }

  /** The feed element, the toggle button and the "no signal" text, with `isFeedRunning`. */
  class FeedControl {
    /** `VIDEO_FEED_URL`, which the page defines outside the script. */
    const liveUrl: string
    var isFeedRunning: bool
    var videoSrc: string
    var buttonText: string
    var buttonClasses: set<string>
    var noSignalClasses: set<string>
    var videoClasses: set<string>

    function View(): FeedView
      reads this
    {
      FeedView(isFeedRunning, videoSrc, buttonText, buttonClasses, noSignalClasses, videoClasses)
    }

    /** Script start: `isFeedRunning` is true and the elements are as the page built them. */
    constructor (liveUrl: string, page: FeedView)
      ensures this.liveUrl == liveUrl
      ensures View() == page.(running := true)
    {
      this.liveUrl := liveUrl;
      isFeedRunning := true;
      videoSrc := page.src;
      buttonText := page.buttonText;
      buttonClasses := page.buttonClasses;
      noSignalClasses := page.noSignalClasses;
      videoClasses := page.videoClasses;
    }

    method StartFeed()
      modifies this
      ensures View() == Started(old(View()), liveUrl)
    {
      videoSrc := liveUrl;
      buttonText := STOP_LABEL;
      buttonClasses := buttonClasses - GREEN_BUTTON;
      buttonClasses := buttonClasses + RED_BUTTON;
      noSignalClasses := noSignalClasses + {HIDDEN};
      videoClasses := videoClasses - {TRANSPARENT};
      videoClasses := videoClasses + {OPAQUE};
      isFeedRunning := true;
    }

    method StopFeed()
      modifies this
      ensures View() == Stopped(old(View()))
    {
      videoSrc := NO_SIGNAL_IMG;
      buttonText := START_LABEL;
      buttonClasses := buttonClasses - RED_BUTTON;
      buttonClasses := buttonClasses + GREEN_BUTTON;
      noSignalClasses := noSignalClasses - {HIDDEN};
      videoClasses := videoClasses - {OPAQUE};
      videoClasses := videoClasses + {TRANSPARENT};
      isFeedRunning := false;
    }

    /** The button's click handler. */
    method ToggleFeed()
      modifies this
      ensures View() == Toggled(old(View()), liveUrl)
      ensures isFeedRunning == !old(isFeedRunning)
    {
      if isFeedRunning {
        StopFeed();
      } else {
        StartFeed();
      }
    }

    /** The feed part of `init`: apply the current flag to the elements. */
    method Init()
      modifies this
      ensures View() == if old(isFeedRunning) then Started(old(View()), liveUrl) else Stopped(old(View()))
    {
      if isFeedRunning {
        StartFeed();
      } else {
        StopFeed();
      }
    }
  }

  // ---------------------------------------------------------------------------
  // Tabs

  const ACTIVE_CLASS: string := "active"

  /** The tab class sets after clicking tab `i`: only tab `i` is marked active, and no other
      class of any tab changes. */
  function ActivateTab(classes: seq<set<string>>, i: nat): (r: seq<set<string>>)
    requires i < |classes|
    ensures |r| == |classes|
    ensures forall k :: 0 <= k < |r| ==> (ACTIVE_CLASS in r[k] <==> k == i)
    ensures forall k :: 0 <= k < |r| ==> r[k] - {ACTIVE_CLASS} == classes[k] - {ACTIVE_CLASS}
  {
    seq(|classes|, k requires 0 <= k < |classes| =>
      if k == i then classes[k] + {ACTIVE_CLASS} else classes[k] - {ACTIVE_CLASS})
  }

  /** The pane class sets after choosing `target`: exactly the panes whose id is
      `<target>-content` lack `hidden`, and no other class of any pane changes. */
  function ShowPane(ids: seq<string>, classes: seq<set<string>>, target: string): (r: seq<set<string>>)
    requires |ids| == |classes|
    ensures |r| == |classes|
    ensures forall k :: 0 <= k < |r| ==> (HIDDEN !in r[k] <==> ids[k] == target + PANE_SUFFIX)
    ensures forall k :: 0 <= k < |r| ==> r[k] - {HIDDEN} == classes[k] - {HIDDEN}
  {
    seq(|classes|, k requires 0 <= k < |classes| =>
      if ids[k] == target + PANE_SUFFIX then classes[k] - {HIDDEN} else classes[k] + {HIDDEN})
  }

  /** With unique pane ids and a pane for the chosen tab, exactly one pane is visible. */
  lemma ExactlyOnePaneShown(ids: seq<string>, classes: seq<set<string>>, target: string)
    requires |ids| == |classes| && Distinct(ids)
    requires target + PANE_SUFFIX in ids
    ensures exists j :: 0 <= j < |ids| && ids[j] == target + PANE_SUFFIX &&
              forall k :: 0 <= k < |ids| ==> (HIDDEN !in ShowPane(ids, classes, target)[k] <==> k == j)
  {
    var j :| 0 <= j < |ids| && ids[j] == target + PANE_SUFFIX;
    assert forall k :: 0 <= k < |ids| && k != j ==> ids[k] != ids[j];
  }

  /** The `.nav-tab` elements with their `data-tab` values, and the `.tab-content` panes with
      their ids, each with its class set. */
  class TabBar {
    const tabNames: seq<string>
    const paneIds: seq<string>
    var tabClasses: seq<set<string>>
    var paneClasses: seq<set<string>>

    ghost predicate Valid()
      reads this
    {
      |tabClasses| == |tabNames| && |paneClasses| == |paneIds|
    }

    constructor (tabNames: seq<string>, tabClasses: seq<set<string>>,
                 paneIds: seq<string>, paneClasses: seq<set<string>>)
      requires |tabClasses| == |tabNames| && |paneClasses| == |paneIds|
      ensures Valid()
      ensures this.tabNames == tabNames && this.tabClasses == tabClasses
      ensures this.paneIds == paneIds && this.paneClasses == paneClasses
    {
      this.tabNames := tabNames;
      this.tabClasses := tabClasses;
      this.paneIds := paneIds;
      this.paneClasses := paneClasses;
    }

    /** `!document.getElementById(id).classList.contains('hidden')` for the first pane with that
        id; false when there is none (the lookup then throws and the poll's handler swallows it). */
    predicate PaneShown(id: string): (shown: bool)
      requires Valid()
      reads this
      ensures shown ==> exists k :: 0 <= k < |paneIds| && paneIds[k] == id && HIDDEN !in paneClasses[k]
      ensures id in paneIds && (forall k :: 0 <= k < |paneIds| && paneIds[k] == id ==> HIDDEN !in paneClasses[k]) ==> shown
    {
      id in paneIds && HIDDEN !in paneClasses[FirstIndex(paneIds, id)]
    }

    /** The click handler of tab `i`; `fetch` says whether it starts an immediate poll. */
    method Click(i: nat) returns (fetch: bool)
      requires Valid() && i < |tabNames|
      modifies this
      ensures Valid()
      ensures tabClasses == ActivateTab(old(tabClasses), i)
      ensures paneClasses == ShowPane(paneIds, old(paneClasses), tabNames[i])
      ensures fetch <==> tabNames[i] == ANALYTICS
    {
      var k := 0;
      while k < |tabClasses|
        invariant 0 <= k <= |tabClasses| == |old(tabClasses)|
        invariant forall j :: 0 <= j < k ==> tabClasses[j] == old(tabClasses)[j] - {ACTIVE_CLASS}
        invariant forall j :: k <= j < |tabClasses| ==> tabClasses[j] == old(tabClasses)[j]
        invariant paneClasses == old(paneClasses)
      {
        tabClasses := tabClasses[k := tabClasses[k] - {ACTIVE_CLASS}];
        k := k + 1;
      }
      tabClasses := tabClasses[i := tabClasses[i] + {ACTIVE_CLASS}];
      assert tabClasses[i] == old(tabClasses)[i] + {ACTIVE_CLASS};
      assert |tabClasses| == |ActivateTab(old(tabClasses), i)|;
      assert forall j :: 0 <= j < |tabClasses| ==> tabClasses[j] == ActivateTab(old(tabClasses), i)[j];

      var target := tabNames[i];
      k := 0;
      while k < |paneClasses|
        invariant 0 <= k <= |paneClasses| == |old(paneClasses)|
        invariant forall j :: 0 <= j < k ==>
                    paneClasses[j] == if paneIds[j] == target + PANE_SUFFIX
                                      then old(paneClasses)[j] - {HIDDEN}
                                      else old(paneClasses)[j] + {HIDDEN}
        invariant forall j :: k <= j < |paneClasses| ==> paneClasses[j] == old(paneClasses)[j]
        invariant tabClasses == ActivateTab(old(tabClasses), i)
      {
        if paneIds[k] == target + PANE_SUFFIX {
          paneClasses := paneClasses[k := paneClasses[k] - {HIDDEN}];
        } else {
          paneClasses := paneClasses[k := paneClasses[k] + {HIDDEN}];
        }
        k := k + 1;
      }
      fetch := target == ANALYTICS;
    }
  }
}
