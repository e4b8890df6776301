/**
  * Stepping through replay frames (web/lib/replayPlayback.ts): a playback tick, and a jump by
  * a time offset. Times are in milliseconds; a time that does not parse is None.
  */
module ReplayPlayback {
  import opened Maybe

  const TICK_MS: nat := 1000

  type Times = seq<Option<int>>

  /** A JavaScript number used as an index: possibly NaN, infinite, negative or fractional. */
  datatype Index = NotFinite | Finite(value: real)

  function Trunc(x: real): int { if x >= 0.0 then x.Floor else -(-x).Floor }

  function Clamp(index: Index, last: nat): (r: nat)
    ensures r <= last
  {
    if index.NotFinite? || Trunc(index.value) < 0 then 0
    else if Trunc(index.value) > last then last
    else Trunc(index.value)
  }

  // ---------------------------------------------------------------- a playback tick

  predicate Reaches(t: Option<int>, target: int) { t.Some? && t.value >= target }

  /** The first frame from `i` on that reaches the target, or the last frame. */
  function FirstReaching(times: Times, i: nat, target: int): (r: nat)
    requires i < |times|
    ensures i <= r < |times| && (r < |times| - 1 ==> Reaches(times[r], target))
    ensures forall j :: i <= j < r ==> !Reaches(times[j], target)
    decreases |times| - i
  {
    if i == |times| - 1 || Reaches(times[i], target) then i else FirstReaching(times, i + 1, target)
  }

  function NextIndex(times: Times, index: Index, speed: nat): nat {
    if |times| == 0 then 0
    else
      var last := |times| - 1;
      var i := Clamp(index, last);
      if i == last then last
      else if times[i].None? then i + 1
      else if times[i + 1].Some? && times[i + 1].value <= times[i].value then i + 1
      else FirstReaching(times, i + 1, times[i].value + speed * TICK_MS)
  }

  method NextReplayPlaybackIndex(times: Times, index: Index, speed: nat) returns (r: nat)
    ensures r == NextIndex(times, index, speed)
  {
    if |times| == 0 {
      return 0;
    }
    var last := |times| - 1;
    var i := Clamp(index, last);
    if times[i].None? {
      return if i + 1 <= last then i + 1 else last;
    }
    var next := i + 1;
    if next > last {
      return last;
    }
    if times[next].Some? && times[next].value <= times[i].value {
      return next;
    }
    var target := times[i].value + speed * TICK_MS;
    r := next;
    while r <= last
      invariant next <= r <= |times|
      invariant r <= last ==> FirstReaching(times, next, target) == FirstReaching(times, r, target)
      invariant r > last ==> FirstReaching(times, next, target) == last
    {
      if times[r].Some? && times[r].value >= target {
        return;
      }
      r := r + 1;
    }
    return last;
  }

  function Tick(times: Times, i: nat, speed: nat): nat { NextIndex(times, Finite(i as real), speed) }

  function Ticks(times: Times, i: nat, speed: nat, k: nat): nat {
    if k == 0 then i else Tick(times, Ticks(times, i, speed, k - 1), speed)
  }

  /** Every tick moves on until the last frame, whatever the times are, and stays there. */
  lemma TickMovesOn(times: Times, i: nat, speed: nat)
    requires i < |times|
    ensures i < |times| - 1 ==> i < Tick(times, i, speed) < |times|
    ensures i == |times| - 1 ==> Tick(times, i, speed) == i
  {}

  /** An index counts as the whole number at or below it, kept within the frames; without one as the first. */
  lemma ClampMeaning(index: Index, last: nat, r: nat)
    requires r == Clamp(index, last)
    ensures index.NotFinite? ==> r == 0
    ensures index.Finite? && index.value < 1.0 ==> r == 0
    ensures index.Finite? && index.value >= last as real ==> r == last
    ensures index.Finite? && 0.0 <= index.value < last as real ==> r as real <= index.value < (r + 1) as real
  {}

  /**
    * One tick, whatever the times: from a frame of unknown time, or before one that is not
    * later, to the next; else to the first that is `speed` seconds later, or the last.
    */
  lemma TickMeaning(times: Times, i: nat, speed: nat, r: nat)
    requires i < |times| - 1 && r == Tick(times, i, speed)
    ensures times[i].None? || (times[i + 1].Some? && times[i + 1].value <= times[i].value) ==> r == i + 1
    ensures times[i].Some? && (times[i + 1].None? || times[i].value < times[i + 1].value) ==>
      && i < r < |times|
      && (r < |times| - 1 ==> times[r].Some? && times[r].value - times[i].value >= speed * 1000)
      && (forall j :: i < j < r && times[j].Some? ==> times[j].value - times[i].value < speed * 1000)
  {}

  /** So n frames are played within n - 1 ticks. */
  lemma {:induction false} PlaybackFinishes(times: Times, i: nat, speed: nat, k: nat)
    requires i < |times|
    ensures var r := Ticks(times, i, speed, k); r < |times| && (r == |times| - 1 || r >= i + k)
    ensures k >= |times| - 1 ==> Ticks(times, i, speed, k) == |times| - 1
  {
    if k > 0 {
      PlaybackFinishes(times, i, speed, k - 1);
      TickMovesOn(times, Ticks(times, i, speed, k - 1), speed);
    }
  }

  ghost predicate Increasing(times: Times) {
    && (forall i :: 0 <= i < |times| ==> times[i].Some?)
    && (forall i, j :: 0 <= i < j < |times| ==> times[i].value < times[j].value)
  }

  /** On increasing times a tick stops at the first frame that is a tick's worth of time later. */
  lemma TickIsFirstReaching(times: Times, i: nat, speed: nat)
    requires i < |times| - 1 && Increasing(times)
    ensures var r, target := Tick(times, i, speed), times[i].value + speed * TICK_MS;
      && i < r < |times| && (r == |times| - 1 || times[r].value >= target)
      && (forall j :: i < j < r ==> times[j].value < target)
  {}

  /** After k ticks the last frame is reached, or at least k ticks' worth of time has passed. */
  lemma {:induction false} PlaybackKeepsPace(times: Times, i: nat, speed: nat, k: nat)
    requires i < |times| && Increasing(times)
    ensures var r := Ticks(times, i, speed, k);
      r < |times| && (r == |times| - 1 || times[r].value >= times[i].value + k * (speed * TICK_MS))
  {
    if k > 0 {
      PlaybackKeepsPace(times, i, speed, k - 1);
      var before := Ticks(times, i, speed, k - 1);
      TickMovesOn(times, before, speed);
      if before < |times| - 1 {
        TickIsFirstReaching(times, before, speed);
        OneMoreTick(k, speed * TICK_MS);
      }
    }
  }

  lemma OneMoreTick(k: int, pace: int)
    ensures (k - 1) * pace + pace == k * pace
  {}

  // ------------------------------------------------------------------------- a jump

  function Distance(t: int, target: int): nat { if t < target then target - t else t - target }

  /** A closest parsable frame; of several, the last when jumping forward and else the first. */
  ghost predicate Nearest(times: Times, target: int, offset: int, r: nat) {
    && r < |times| && times[r].Some?
    && forall j :: 0 <= j < |times| && times[j].Some? ==>
      && Distance(times[r].value, target) <= Distance(times[j].value, target)
      && (Distance(times[r].value, target) == Distance(times[j].value, target) ==> if offset > 0 then j <= r else r <= j)
  }

  ghost predicate JumpsTo(times: Times, i: nat, offset: Option<int>, r: nat)
    requires i < |times|
  {
    if times[i].None? || offset.None? then r == i
    else
      var target := times[i].value + offset.value;
      var first, last := times[0], times[|times| - 1];
      if first.Some? && target <= first.value then r == 0
      else if last.Some? && target >= last.value then r == |times| - 1
      else Nearest(times, target, offset.value, r)
  }

  predicate TieCloser(index: nat, nearest: nat, offset: int) {
    (offset < 0 && index < nearest) || (offset > 0 && index > nearest)
  }

  method JumpReplayTimelineIndex(times: Times, index: Index, offset: Option<int>) returns (r: nat)
    ensures |times| == 0 ==> r == 0
    ensures |times| > 0 ==> r < |times| && JumpsTo(times, Clamp(index, |times| - 1), offset, r)
  {
    if |times| == 0 {
      return 0;
    }
    var last := |times| - 1;
    var i := Clamp(index, last);
    if times[i].None? || offset.None? {
      return i;
    }
    var target := times[i].value + offset.value;
    if times[0].Some? && target <= times[0].value {
      return 0;
    }
    if times[last].Some? && target >= times[last].value {
      return last;
    }
    r := i;
    var nearest: Option<nat> := None;
    for k := 0 to |times|
      invariant r < |times|
      invariant nearest.None? ==> r == i && forall j :: 0 <= j < k ==> times[j].None?
      invariant nearest.Some? ==> r < k && times[r].Some? && nearest.value == Distance(times[r].value, target)
      invariant nearest.Some? ==>
        forall j :: 0 <= j < k && times[j].Some? ==>
          && nearest.value <= Distance(times[j].value, target)
          && (nearest.value == Distance(times[j].value, target) ==> if offset.value > 0 then j <= r else r <= j)
    {
      if times[k].None? {
        continue;
      }
      var distance := Distance(times[k].value, target);
      if nearest.None? || distance < nearest.value || (distance == nearest.value && TieCloser(k, r, offset.value)) {
        r := k;
        nearest := Some(distance);
      }
    }
    assert nearest.Some? by { assert times[i].Some?; }
  }

  ghost predicate NonDecreasing(times: Times) {
    && (forall i :: 0 <= i < |times| ==> times[i].Some?)
    && (forall i, j :: 0 <= i < j < |times| ==> times[i].value <= times[j].value)
  }

  /**
    * On nondecreasing times a jump lands on a closest frame, and never against its direction:
    * a forward jump does not go back, a backward one does not go on, and a jump by nothing
    * stays at the same time.
    */
  lemma JumpIsClosest(times: Times, i: nat, offset: int, r: nat)
    requires i < |times| && r < |times| && NonDecreasing(times) && JumpsTo(times, i, Some(offset), r)
    ensures var target := times[i].value + offset;
      && (forall j :: 0 <= j < |times| ==> Distance(times[r].value, target) <= Distance(times[j].value, target))
      && (offset > 0 ==> r >= i) && (offset < 0 ==> r <= i) && (offset == 0 ==> times[r].value == times[i].value)
  {}
}
