/** The per-frame fire alarm of app.py: a counter of consecutive frames in which the
    cascade found fire, a latched alarm flag, and the log records the loop stores. */
module FireAlarm {
  import opened Common

  /** `consecutive_frames_threshold` in the configuration. */
  const THRESHOLD: nat := 3

  const ACTIVE: string := "Active"
  const CLEARED: string := "Cleared"

  /** The fixed location written into every confirmed detection. */
  const FIRE_GPS: string := "26.4567°N, 88.4567°E"
  const NO_GPS: string := "N/A"

  /** One document handed to the detections collection (its `time_obj` is the clock
      reading the `time` string was formatted from, and is not modelled). */
  datatype LogEntry = LogEntry(time: string, status: string, confidence: int, gps: string)

  /** The two globals the frame loop updates. */
  datatype AlarmState = AlarmState(fireFrameCount: nat, alarmTriggered: bool)

  /** The colour of the "Fire Frames: n/3" overlay. */
  datatype Colour = Green | Red

  /** The alarm is on at start-up exactly when the newest stored event is an "Active" one. */
  function InitialAlarmState(newest: Option<LogEntry>): (on: bool)
    ensures on <==> exists e :: newest == Some(e) && e.status == ACTIVE
  {
    newest.Some? && newest.value.status == ACTIVE
  }

  /** `int(min(100, count / threshold * 33 + 67))`, with Python's true division taken as
      exact rational arithmetic; `int` truncates, which is the floor on these non-negative values. */
  function Confidence(count: nat): (c: int)
    ensures 67 <= c <= 100
    ensures count >= THRESHOLD ==> c == 100
  {
    var v := (count as real / THRESHOLD as real) * 33.0 + 67.0;
    assert count >= THRESHOLD ==> v >= 100.0 by {
      if count >= THRESHOLD {
        assert count as real / THRESHOLD as real >= 1.0;
      }
    }
    (if v < 100.0 then v else 100.0).Floor
  }

  /** The state after one frame; `fireSeen` is "the cascade returned at least one box". */
  function Next(s: AlarmState, fireSeen: bool): (t: AlarmState)
    ensures fireSeen ==> t.fireFrameCount == s.fireFrameCount + 1
    ensures fireSeen && t.alarmTriggered != s.alarmTriggered ==>
              !s.alarmTriggered && t.fireFrameCount >= THRESHOLD
    ensures fireSeen && !s.alarmTriggered && t.fireFrameCount >= THRESHOLD ==> t.alarmTriggered
    ensures !fireSeen ==> t == AlarmState(0, false)
  {
    if fireSeen then
      var count := s.fireFrameCount + 1;
      AlarmState(count, s.alarmTriggered || count >= THRESHOLD)
    else
      AlarmState(0, false)
  }

  /** The record one frame stores, if any, stamped with the time `now`. */
  function Entry(s: AlarmState, fireSeen: bool, now: string): (e: Option<LogEntry>)
    ensures e.Some? ==> e.value.time == now
    ensures (e.Some? && e.value.status == ACTIVE) <==>
              fireSeen && !s.alarmTriggered && s.fireFrameCount + 1 >= THRESHOLD
    ensures (e.Some? && e.value.status == CLEARED) <==> !fireSeen && s.alarmTriggered
    ensures e.Some? && e.value.status == ACTIVE ==>
              e.value.confidence == 100 && e.value.gps == FIRE_GPS
    ensures e.Some? && e.value.status == CLEARED ==>
              e.value.confidence == 0 && e.value.gps == NO_GPS
    ensures e.Some? && e.value.status == ACTIVE ==> Next(s, fireSeen).alarmTriggered
  {
    if fireSeen then
      var count := s.fireFrameCount + 1;
      if count >= THRESHOLD && !s.alarmTriggered then
        Some(LogEntry(now, ACTIVE, Confidence(count), FIRE_GPS))
      else None
    else if s.alarmTriggered then
      Some(LogEntry(now, CLEARED, 0, NO_GPS))
    else None
  }

  /** Green below the threshold, red from it on. */
  function Overlay(s: AlarmState): (c: Colour)
    ensures c == Red <==> s.fireFrameCount >= THRESHOLD
  {
    if s.fireFrameCount < THRESHOLD then Green else Red
  }

  /** States the loop can be in: an alarm that is off has not yet seen a full run of fire frames. */
  predicate Reachable(s: AlarmState)
  {
    !s.alarmTriggered ==> s.fireFrameCount < THRESHOLD
  }

  /** Every frame keeps the loop's states reachable, and an "Active" record is stored at the
      very frame the count reaches the threshold. */
  lemma NextReachable(s: AlarmState, fireSeen: bool, now: string)
    requires Reachable(s)
    ensures Reachable(Next(s, fireSeen))
    ensures var e := Entry(s, fireSeen, now);
            e.Some? && e.value.status == ACTIVE ==> Next(s, fireSeen).fireFrameCount == THRESHOLD
  {
  }

  /** The state after a stream of frames: the loop's states stay reachable, and the count
      grows by at most one per frame. */
  function Final(s: AlarmState, frames: seq<bool>): (t: AlarmState)
    ensures Reachable(s) ==> Reachable(t)
    ensures t.fireFrameCount <= s.fireFrameCount + |frames|
    decreases |frames|
  {
    if frames == [] then s
    else Next(Final(s, frames[..|frames| - 1]), frames[|frames| - 1])
  }

  function Last(r: seq<LogEntry>): LogEntry
    requires r != []
  {
    r[|r| - 1]
  }

  function Emitted(e: Option<LogEntry>): seq<LogEntry>
  {
    if e.Some? then [e.value] else []
  }

  /** The records a stream of frames stores, in order; `times[i]` is the clock at frame `i`. */
  function Run(s: AlarmState, frames: seq<bool>, times: seq<string>): (r: seq<LogEntry>)
    requires |times| == |frames|
    ensures |r| <= |frames|
    decreases |frames|
  {
    if frames == [] then []
    else
      var n := |frames| - 1;
      Run(s, frames[..n], times[..n]) + Emitted(Entry(Final(s, frames[..n]), frames[n], times[n]))
  }

  /** Every status is "Active" or "Cleared" and no two neighbouring statuses are equal. */
  predicate Alternates(r: seq<LogEntry>)
  {
    && (forall i :: 0 <= i < |r| ==> r[i].status == ACTIVE || r[i].status == CLEARED)
    && (forall i :: 0 <= i < |r| - 1 ==> r[i].status != r[i + 1].status)
  }

  /** Stored statuses alternate; the first one is the opposite of the starting alarm flag, and
      the last one says whether the alarm is on at the end. */
  lemma {:induction false} RunAlternates(s: AlarmState, frames: seq<bool>, times: seq<string>)
    requires |times| == |frames|
    ensures Alternates(Run(s, frames, times))
    ensures Run(s, frames, times) != [] ==>
              Run(s, frames, times)[0].status == (if s.alarmTriggered then CLEARED else ACTIVE)
    ensures Run(s, frames, times) != [] ==>
              (Last(Run(s, frames, times)).status == ACTIVE <==> Final(s, frames).alarmTriggered)
    ensures Run(s, frames, times) == [] ==> Final(s, frames).alarmTriggered == s.alarmTriggered
    decreases |frames|
  {
    if frames != [] {
      var n := |frames| - 1;
      RunAlternates(s, frames[..n], times[..n]);
      var prefix := Run(s, frames[..n], times[..n]);
      var before := Final(s, frames[..n]);
      var e := Entry(before, frames[n], times[n]);
      var r := Run(s, frames, times);
      assert r == prefix + Emitted(e);
      if e.Some? {
        assert r == prefix + [e.value];
        if prefix != [] {
          assert e.value.status != Last(prefix).status;
          assert r[|prefix| - 1] == Last(prefix);
          assert Alternates(r);
        }
      } else {
        assert r == prefix;
      }
    }
  }

  /** From an alarm that is off, the stored statuses are Active, Cleared, Active, ... */
  lemma {:induction false} RunFromOffAlternates(s: AlarmState, frames: seq<bool>, times: seq<string>, i: nat)
    requires |times| == |frames| && !s.alarmTriggered
    requires i < |Run(s, frames, times)|
    ensures Run(s, frames, times)[i].status == if i % 2 == 0 then ACTIVE else CLEARED
  {
    RunAlternates(s, frames, times);
    if i > 0 {
      RunFromOffAlternates(s, frames, times, i - 1);
    }
  }

  /** After a stream of frames the alarm flag still agrees with the newest stored record, so a
      restart that re-reads the collection resumes with the same flag (assuming every insert
      succeeds and the clock is monotonic). */
  lemma {:induction false} AlarmMirrorsNewestRecord(s: AlarmState, frames: seq<bool>, times: seq<string>, newest: Option<LogEntry>)
    requires |times| == |frames|
    requires s.alarmTriggered == InitialAlarmState(newest)
    ensures var r := Run(s, frames, times);
            Final(s, frames).alarmTriggered ==
            InitialAlarmState(if r == [] then newest else Some(Last(r)))
  {
    RunAlternates(s, frames, times);
  }

  /** The frame loop's globals `fire_frame_count` and `alarm_triggered`. */
  class Detector {
    var fireFrameCount: nat
    var alarmTriggered: bool

    function State(): AlarmState
      reads this
    {
      AlarmState(fireFrameCount, alarmTriggered)
    }

    ghost predicate Valid()
      reads this
    {
      Reachable(State())
    }

    /** Module start-up: the flag comes from the newest stored event, the count is zero. */
    constructor (newest: Option<LogEntry>)
      ensures Valid()
      ensures fireFrameCount == 0
      ensures alarmTriggered == InitialAlarmState(newest)
    {
      fireFrameCount := 0;
      alarmTriggered := InitialAlarmState(newest);
    }

    /** One iteration of the frame loop after detection. */
    method Step(fireSeen: bool, now: string) returns (entry: Option<LogEntry>, colour: Colour)
      requires Valid()
      modifies this
      ensures Valid()
      ensures State() == Next(old(State()), fireSeen)
      ensures entry == Entry(old(State()), fireSeen, now)
      ensures entry.Some? && entry.value.status == ACTIVE ==> fireFrameCount == THRESHOLD
      ensures colour == Overlay(State())
    {
      entry := None;
      if fireSeen {
        fireFrameCount := fireFrameCount + 1;
        if fireFrameCount >= THRESHOLD && !alarmTriggered {
          alarmTriggered := true;
          var confidence := Confidence(fireFrameCount);
          entry := Some(LogEntry(now, ACTIVE, confidence, FIRE_GPS));
        }
      } else {
        if alarmTriggered {
          entry := Some(LogEntry(now, CLEARED, 0, NO_GPS));
        }
        fireFrameCount := 0;
        alarmTriggered := false;
      }
      colour := if fireFrameCount < THRESHOLD then Green else Red;
    }

    /** The frame loop over a finite camera stream: it ends when the camera has no more frames.
        Returns the records handed to the collection, in order. */
    method GenerateFrames(frames: seq<bool>, times: seq<string>) returns (stored: seq<LogEntry>)
      requires Valid()
      requires |times| == |frames|
      modifies this
      ensures Valid()
      ensures State() == Final(old(State()), frames)
      ensures stored == Run(old(State()), frames, times)
    {
      ghost var start := State();
      stored := [];
      var i := 0;
      while i < |frames|
        invariant 0 <= i <= |frames|
        invariant Valid()
        invariant State() == Final(start, frames[..i])
        invariant stored == Run(start, frames[..i], times[..i])
      {
        var entry, colour := Step(frames[i], times[i]);
        if entry.Some? {
          stored := stored + [entry.value];
        }
        assert frames[..i + 1][..i] == frames[..i];
        assert times[..i + 1][..i] == times[..i];
        i := i + 1;
      }
      assert frames[..i] == frames;
      assert times[..i] == times;
    }
  }
}
