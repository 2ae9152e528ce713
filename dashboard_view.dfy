/** The values the dashboard script derives from one `/api/status` response: the list of
    confirmed detections, the recent-alert cards, the detection table, the per-day chart
    series and the confidence split. */
module DashboardView {
  import opened Common

  const ACTIVE: string := "Active"
  /** Lower bound (inclusive) of the "High (>=85%)" slice. */
  const HIGH_CONFIDENCE: int := 85
  /** How many alert cards the summary shows. */
  const RECENT_LIMIT: nat := 5
  const SPACE: char := ' '

  /** One record of `full_log`; the time is "YYYY-MM-DD HH:MM:SS" when the server wrote it. */
  datatype Detection = Detection(time: string, confidence: int, gps: string, status: string)

  /** The JSON body of `/api/status`. */
  datatype StatusSnapshot = StatusSnapshot(alarmActive: bool, fullLog: seq<Detection>)

  // ---------------------------------------------------------------------------
  // Splitting a time stamp on spaces

  predicate SpaceFree(s: string)
  {
    SPACE !in s
  }

  /** JavaScript `s.split(' ')`: the pieces between spaces, at least one, possibly empty. */
  function Split(s: string): (pieces: seq<string>)
    ensures |pieces| >= 1
    decreases |s|
  {
    if |s| == 0 then [""]
    else
      var rest := Split(s[1..]);
      if s[0] == SPACE then [""] + rest
      else [[s[0]] + rest[0]] + rest[1..]
  }

  /** The inverse of `Split`: the pieces glued back with single spaces. */
  function Join(pieces: seq<string>): string
    requires |pieces| >= 1
    decreases |pieces|
  {
    if |pieces| == 1 then pieces[0] else pieces[0] + [SPACE] + Join(pieces[1..])
  }

  /** Splitting loses nothing: joining the pieces gives back the string, and no piece
      contains a space. */
  lemma {:induction false} JoinSplit(s: string)
    ensures Join(Split(s)) == s
    ensures forall k :: 0 <= k < |Split(s)| ==> SpaceFree(Split(s)[k])
    decreases |s|
  {
    if |s| > 0 {
      var rest := Split(s[1..]);
      JoinSplit(s[1..]);
      var r := Split(s);
      if s[0] == SPACE {
        assert r == [""] + rest;
        assert r[1..] == rest;
        assert Join(r) == "" + [SPACE] + Join(rest);
        assert s == [SPACE] + s[1..];
      } else {
        assert r == [[s[0]] + rest[0]] + rest[1..];
        if |rest| == 1 {
          assert Join(r) == [s[0]] + Join(rest);
        } else {
          assert r[1..] == rest[1..];
          assert Join(r) == ([s[0]] + rest[0]) + [SPACE] + Join(rest[1..]);
          assert Join(rest) == rest[0] + [SPACE] + Join(rest[1..]);
        }
        assert s == [s[0]] + s[1..];
        assert forall k :: 1 <= k < |r| ==> r[k] == rest[k];
      }
    }
  }

  lemma {:induction false} SplitSpaceFree(a: string)
    requires SpaceFree(a)
    ensures Split(a) == [a]
    decreases |a|
  {
    if |a| > 0 {
      assert SpaceFree(a[1..]) by { assert forall k :: 0 <= k < |a| - 1 ==> a[1..][k] == a[k + 1]; }
      SplitSpaceFree(a[1..]);
      assert [a[0]] + a[1..] == a;
    }
  }

  lemma {:induction false} SplitAfterPiece(a: string, b: string)
    requires SpaceFree(a)
    ensures Split(a + [SPACE] + b) == [a] + Split(b)
    decreases |a|
  {
    var s := a + [SPACE] + b;
    if |a| == 0 {
      assert s[0] == SPACE && s[1..] == b;
    } else {
      assert s[0] == a[0] && s[1..] == a[1..] + [SPACE] + b;
      assert SpaceFree(a[1..]) by { assert forall k :: 0 <= k < |a| - 1 ==> a[1..][k] == a[k + 1]; }
      SplitAfterPiece(a[1..], b);
      assert [a[0]] + a[1..] == a;
    }
  }

  /** Splitting undoes joining space-free pieces. */
  lemma {:induction false} SplitJoin(pieces: seq<string>)
    requires |pieces| >= 1
    requires forall k :: 0 <= k < |pieces| ==> SpaceFree(pieces[k])
    ensures Split(Join(pieces)) == pieces
    decreases |pieces|
  {
    if |pieces| == 1 {
      SplitSpaceFree(pieces[0]);
    } else {
      SplitJoin(pieces[1..]);
      SplitAfterPiece(pieces[0], Join(pieces[1..]));
      assert [pieces[0]] + pieces[1..] == pieces;
    }
  }

  /** A joined string starts with its first piece, followed by a space when more pieces follow. */
  lemma JoinHead(pieces: seq<string>)
    requires |pieces| >= 1
    ensures pieces[0] <= Join(pieces)
    ensures |pieces| > 1 ==> Join(pieces) == pieces[0] + [SPACE] + Join(pieces[1..])
  {
  }

  /** `const [datePart] = time.split(' ')`: everything before the first space. */
  function DatePart(time: string): (date: string)
    ensures SpaceFree(date)
    ensures date <= time
    ensures date == time <==> SpaceFree(time)
    ensures date != time ==> time[|date|] == SPACE
  {
    JoinSplit(time);
    JoinHead(Split(time));
    assert |Split(time)| > 1 ==> time[|Split(time)[0]|] == SPACE;
    Split(time)[0]
  }

  /** `const [, timePart] = time.split(' ')`: the piece between the first space and the next
      space (or the end), or `undefined` (`None`) when the time holds no space. */
  function TimePart(time: string): (t: Option<string>)
    ensures t.Some? ==> SpaceFree(t.value)
    ensures t == None <==> SpaceFree(time)
    ensures t.Some? ==> |DatePart(time)| + 1 + |t.value| <= |time|
    ensures t.Some? ==> time[..|DatePart(time)| + 1 + |t.value|] == DatePart(time) + [SPACE] + t.value
    ensures t.Some? && |DatePart(time)| + 1 + |t.value| < |time| ==>
              time[|DatePart(time)| + 1 + |t.value|] == SPACE
  {
    JoinSplit(time);
    var pieces := Split(time);
    JoinHead(pieces);
    if |pieces| > 1 then
      JoinHead(pieces[1..]);
      assert pieces[1..][1..] == pieces[2..];
      Some(pieces[1])
    else
      None
  }

  /** A well-formed "YYYY-MM-DD HH:MM:SS" time gives back its date and its time of day. */
  lemma TimestampParts(date: string, clock: string)
    requires SpaceFree(date) && SpaceFree(clock)
    ensures DatePart(date + [SPACE] + clock) == date
    ensures TimePart(date + [SPACE] + clock) == Some(clock)
  {
    SplitJoin([date, clock]);
    assert Join([date, clock]) == date + [SPACE] + clock;
  }

  // ---------------------------------------------------------------------------
  // Filtering

  /** `Array.prototype.filter`. */
  function Filter<T>(s: seq<T>, p: T -> bool): (r: seq<T>)
    ensures |r| <= |s|
    ensures forall k :: 0 <= k < |r| ==> p(r[k])
  {
    if s == [] then [] else (if p(s[0]) then [s[0]] else []) + Filter(s[1..], p)
  }

  /** A filter keeps exactly the elements satisfying the predicate, with their multiplicity,
      in their original order. */
  lemma {:induction false} FilterKeepsExactly<T>(s: seq<T>, p: T -> bool)
    ensures IsSubsequence(Filter(s, p), s)
    ensures forall x :: multiset(Filter(s, p))[x] == if p(x) then multiset(s)[x] else 0
  {
    if s != [] {
      FilterKeepsExactly(s[1..], p);
      var rest := Filter(s[1..], p);
      assert s == [s[0]] + s[1..];
      if p(s[0]) {
        assert Filter(s, p) == [s[0]] + rest;
        assert ([s[0]] + rest)[1..] == rest;
      } else {
        assert Filter(s, p) == rest;
        if rest != [] {
          assert p(rest[0]);
        }
      }
    }
  }

  /** Two complementary filters split the list: every element lands in exactly one. */
  lemma {:induction false} FilterPartition<T>(s: seq<T>, p: T -> bool, q: T -> bool)
    requires forall x :: q(x) == !p(x)
    ensures |Filter(s, p)| + |Filter(s, q)| == |s|
  {
    if s != [] {
      FilterPartition(s[1..], p, q);
    }
  }

  predicate IsActive(d: Detection)
  {
    d.status == ACTIVE
  }

  /** `data.full_log.filter(d => d.status === "Active")`. */
  function ActiveDetections(log: seq<Detection>): (r: seq<Detection>)
    ensures IsSubsequence(r, log)
    ensures forall d :: multiset(r)[d] == if d.status == ACTIVE then multiset(log)[d] else 0
    ensures forall k :: 0 <= k < |r| ==> r[k].status == ACTIVE
  {
    FilterKeepsExactly(log, IsActive);
    Filter(log, IsActive)
  }

  // ---------------------------------------------------------------------------
  // The summary view

  /** `detectionsData.slice(-5).reverse()`: the last (up to) five elements, last one first. */
  function Recent(ds: seq<Detection>): (r: seq<Detection>)
    ensures |r| == Min(RECENT_LIMIT, |ds|)
    ensures forall i :: 0 <= i < |r| ==> r[i] == ds[|ds| - 1 - i]
  {
    Reverse(ds[|ds| - Min(RECENT_LIMIT, |ds|)..])
  }

  /** What one alert card shows: the confidence, a time string and the location. */
  datatype AlertCard = AlertCard(confidence: int, time: Option<string>, gps: string)

  /** The cards of the summary, in the order they are appended. Every card carries the time of
      day of the last element of the list, not its own. */
  function AlertCards(ds: seq<Detection>): (cards: seq<AlertCard>)
    requires ds != []
    ensures |cards| == Min(RECENT_LIMIT, |ds|)
    ensures forall i :: 0 <= i < |cards| ==>
              cards[i] == AlertCard(ds[|ds| - 1 - i].confidence, TimePart(ds[|ds| - 1].time), ds[|ds| - 1 - i].gps)
  {
    var timePart := TimePart(ds[|ds| - 1].time);
    var recent := Recent(ds);
    seq(|recent|, i requires 0 <= i < |recent| => AlertCard(recent[i].confidence, timePart, recent[i].gps))
  }

  // ---------------------------------------------------------------------------
  // The analytics view

  /** One row of the detection table. */
  datatype TableRow = TableRow(date: string, time: Option<string>, confidence: int, gps: string, status: string)

  function RowOf(d: Detection): TableRow
  {
    TableRow(DatePart(d.time), TimePart(d.time), d.confidence, d.gps, d.status)
  }

  /** `detectionsData.slice().reverse()`, one row each: the whole list, last element first. */
  function TableRows(ds: seq<Detection>): (rows: seq<TableRow>)
    ensures |rows| == |ds|
    ensures forall i :: 0 <= i < |rows| ==> rows[i] == RowOf(ds[|ds| - 1 - i])
  {
    var reversed := Reverse(ds);
    seq(|reversed|, i requires 0 <= i < |reversed| => RowOf(reversed[i]))
  }

  /** `detectionsData.reduce((sum, d) => sum + d.confidence, 0)`. */
  function TotalConfidence(ds: seq<Detection>): int
  {
    if ds == [] then 0 else TotalConfidence(ds[..|ds| - 1]) + ds[|ds| - 1].confidence
  }

  /** When every confidence lies in [lo, hi], so does the average the accuracy card shows. */
  lemma {:induction false} TotalConfidenceBounds(ds: seq<Detection>, lo: int, hi: int)
    requires forall k :: 0 <= k < |ds| ==> lo <= ds[k].confidence <= hi
    ensures lo * |ds| <= TotalConfidence(ds) <= hi * |ds|
  {
    if ds != [] {
      var n := |ds| - 1;
      TotalConfidenceBounds(ds[..n], lo, hi);
      assert lo * |ds| == lo * n + lo;
      assert hi * |ds| == hi * n + hi;
    }
  }

  // ---------------------------------------------------------------------------
  // The per-day chart

  /** The accumulator object of the `reduce` in `updateCharts`: its keys in insertion order
      and the value stored under each key. */
  datatype DayTally = DayTally(days: seq<string>, counts: map<string, int>)

  function Dates(ds: seq<Detection>): (dates: seq<string>)
    ensures |dates| == |ds|
    ensures forall i :: 0 <= i < |ds| ==> dates[i] == DatePart(ds[i].time)
  {
    seq(|ds|, i requires 0 <= i < |ds| => DatePart(ds[i].time))
  }

  /** `acc[datePart] = (acc[datePart] || 0) + 1`. */
  function AddDay(t: DayTally, day: string): DayTally
  {
    if day in t.counts then DayTally(t.days, t.counts[day := t.counts[day] + 1])
    else DayTally(t.days + [day], t.counts[day := 1])
  }

  /** The `reduce` over the dates, starting from `{}`. */
  function Tally(dates: seq<string>): DayTally
    decreases |dates|
  {
    if dates == [] then DayTally([], map[])
    else AddDay(Tally(dates[..|dates| - 1]), dates[|dates| - 1])
  }

  predicate Distinct(s: seq<string>)
  {
    forall i, j :: 0 <= i < j < |s| ==> s[i] != s[j]
  }

  /** The keys of the accumulator are exactly its listed days, each listed once. */
  ghost predicate WellFormed(t: DayTally)
  {
    && Distinct(t.days)
    && (forall d :: d in t.days <==> d in t.counts)
  }

  /** `Object.values(acc)`, in key order. */
  function Values(t: DayTally): (vs: seq<int>)
    requires WellFormed(t)
    ensures |vs| == |t.days|
  {
    seq(|t.days|, i requires 0 <= i < |t.days| => t.counts[t.days[i]])
  }

  /** The tally lists each date once, and its keys are exactly the dates seen. */
  lemma {:induction false} TallyWellFormed(dates: seq<string>)
    ensures WellFormed(Tally(dates))
    ensures forall d :: d in Tally(dates).days <==> d in dates
    decreases |dates|
  {
    if dates != [] {
      var n := |dates| - 1;
      TallyWellFormed(dates[..n]);
      assert dates == dates[..n] + [dates[n]];
    }
  }

  /** The value under each date is the number of times it occurs. */
  lemma {:induction false} TallyCounts(dates: seq<string>)
    ensures forall d :: d in Tally(dates).counts ==> Tally(dates).counts[d] == multiset(dates)[d]
    decreases |dates|
  {
    if dates != [] {
      var n := |dates| - 1;
      TallyWellFormed(dates[..n]);
      TallyCounts(dates[..n]);
      assert dates == dates[..n] + [dates[n]];
    }
  }

  /** The dates are listed in order of first appearance. */
  lemma {:induction false} TallyOrder(dates: seq<string>)
    ensures forall d :: d in Tally(dates).days ==> d in dates
    ensures forall i, j :: 0 <= i < j < |Tally(dates).days| ==>
              FirstIndex(dates, Tally(dates).days[i]) < FirstIndex(dates, Tally(dates).days[j])
    decreases |dates|
  {
    TallyWellFormed(dates);
    if dates != [] {
      var n := |dates| - 1;
      var prefix := dates[..n];
      var x := dates[n];
      assert dates == prefix + [x];
      TallyWellFormed(prefix);
      TallyOrder(prefix);
      var t := Tally(prefix);
      forall d | d in t.days
        ensures FirstIndex(dates, d) == FirstIndex(prefix, d) < |prefix|
      {
        FirstIndexAppend(prefix, x, d);
      }
      if x !in t.counts {
        FirstIndexAppend(prefix, x, x);
      }
    }
  }

  /** The counts add up to the number of dates. */
  lemma {:induction false} TallySum(dates: seq<string>)
    ensures WellFormed(Tally(dates))
    ensures Sum(Values(Tally(dates))) == |dates|
    decreases |dates|
  {
    TallyWellFormed(dates);
    if dates != [] {
      var n := |dates| - 1;
      var prefix := dates[..n];
      var x := dates[n];
      TallyWellFormed(prefix);
      TallySum(prefix);
      var t := Tally(prefix);
      var t' := Tally(dates);
      if x in t.counts {
        var i :| 0 <= i < |t.days| && t.days[i] == x;
        assert Values(t') == Values(t)[i := Values(t)[i] + 1];
        SumIncrement(Values(t), i);
      } else {
        assert Values(t') == Values(t) + [1];
        SumAppend(Values(t), 1);
      }
    }
  }

  /** The line chart's `labels` and `data`: the distinct date parts in order of first
      appearance, and how many detections fall on each. */
  function DetectionsByDay(ds: seq<Detection>): (chart: (seq<string>, seq<int>))
    ensures |chart.0| == |chart.1|
    ensures Distinct(chart.0)
    ensures forall d :: d in chart.0 <==> d in Dates(ds)
    ensures forall i, j :: 0 <= i < j < |chart.0| ==>
              FirstIndex(Dates(ds), chart.0[i]) < FirstIndex(Dates(ds), chart.0[j])
    ensures forall i :: 0 <= i < |chart.0| ==> chart.1[i] == multiset(Dates(ds))[chart.0[i]]
    ensures Sum(chart.1) == |ds|
  {
    var t := Tally(Dates(ds));
    TallyWellFormed(Dates(ds));
    TallyCounts(Dates(ds));
    TallyOrder(Dates(ds));
    TallySum(Dates(ds));
    (t.days, Values(t))
  }

  // ---------------------------------------------------------------------------
  // The confidence chart

  predicate IsHigh(d: Detection)
  {
    d.confidence >= HIGH_CONFIDENCE
  }

  predicate IsMedium(d: Detection)
  {
    d.confidence < HIGH_CONFIDENCE
  }

  /** The doughnut's `data`: how many detections have confidence of at least 85, and how many
      below; together they cover the list. */
  function ConfidenceSplit(ds: seq<Detection>): (split: seq<int>)
    ensures |split| == 2
    ensures split[0] == |Filter(ds, IsHigh)| && split[1] == |Filter(ds, IsMedium)|
    ensures split[0] + split[1] == |ds|
  {
    FilterPartition(ds, IsHigh, IsMedium);
    [|Filter(ds, IsHigh)|, |Filter(ds, IsMedium)|]
  }

  /** Exactly the high-confidence detections are counted in the first slice. */
  lemma HighSliceCountsHighConfidence(ds: seq<Detection>)
    ensures forall d :: multiset(Filter(ds, IsHigh))[d] == if d.confidence >= HIGH_CONFIDENCE then multiset(ds)[d] else 0
    ensures forall d :: multiset(Filter(ds, IsMedium))[d] == if d.confidence < HIGH_CONFIDENCE then multiset(ds)[d] else 0
  {
    FilterKeepsExactly(ds, IsHigh);
    FilterKeepsExactly(ds, IsMedium);
  }
}
