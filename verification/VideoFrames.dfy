/**
 The 24 fps check of a reference video: inspect_video in src/vgen/cli/video_inputs.py.

 Fractions are exact there and reals here. What ffprobe reports is a parameter.
 */
module VideoFrames {
  import opened Common

  /** What ffprobe reports of a video with picture and sound, and the start the caller asked for. */
  datatype Clip = Clip(
    fps: real, duration: real, origin: real, timeBase: real, start: real, frames: seq<Option<real>>)

  datatype Error = BadRate | TooShort | NoTimestamps | NotIncreasing

  datatype Info = Rejected(error: Error) | Inspected(variable: bool, constant24: bool)

  const DURATION := 124.0 / 24.0
  const FRAME := 1.0 / 24.0

  function Begin(c: Clip): real {
    c.start + c.origin
  }

  function End(c: Clip): real {
    Begin(c) + DURATION
  }

  /** The timestamps inside the window [begin, end). */
  function Selected(frames: seq<Option<real>>, begin: real, end: real): seq<real> {
    if frames == [] then []
    else
      var last := frames[|frames| - 1];
      Selected(frames[..|frames| - 1], begin, end)
      + if last.Some? && begin <= last.value < end then [last.value] else []
  }

  function Stamps(c: Clip): seq<real> {
    Selected(c.frames, Begin(c), End(c))
  }

  function Intervals(s: seq<real>): seq<real> {
    if |s| < 2 then [] else seq(|s| - 1, i requires 0 <= i < |s| - 1 => s[i + 1] - s[i])
  }

  function Max(s: seq<real>): real
    requires s != []
  {
    if |s| == 1 then s[0] else if Max(s[1..]) < s[0] then s[0] else Max(s[1..])
  }

  function Min(s: seq<real>): real
    requires s != []
  {
    if |s| == 1 then s[0] else if s[0] < Min(s[1..]) then s[0] else Min(s[1..])
  }

  function Abs(x: real): real {
    if x < 0.0 then -x else x
  }

  function Tolerance(timeBase: real): real {
    if timeBase * 2.0 > 1.0 / 10000.0 then timeBase * 2.0 else 1.0 / 10000.0
  }

  predicate Constant24(c: Clip)
    requires |Stamps(c)| >= 2
  {
    var s, tolerance := Stamps(c), Tolerance(c.timeBase);
    && Max(Intervals(s)) - Min(Intervals(s)) <= tolerance
    && Abs(c.fps - 24.0) < 1.0 / 10000.0
    && (forall i :: 0 <= i < |Intervals(s)| ==> Abs(Intervals(s)[i] - FRAME) <= tolerance)
    && s[0] <= Begin(c) + FRAME + tolerance
    && s[|s| - 1] >= End(c) - FRAME - tolerance
  }

  function Inspect(c: Clip): Info {
    if !(0.0 < c.fps <= 240.0) || c.duration <= 0.0 then Rejected(BadRate)
    else if c.start < 0.0 || c.start + DURATION > c.duration + 1.0 / 1000.0 then Rejected(TooShort)
    else if |Stamps(c)| < 2 then Rejected(NoTimestamps)
    else if exists i :: 0 <= i < |Intervals(Stamps(c))| && Intervals(Stamps(c))[i] <= 0.0 then Rejected(NotIncreasing)
    else
      var gaps := Intervals(Stamps(c));
      Inspected(Max(gaps) - Min(gaps) > Tolerance(c.timeBase), Constant24(c))
  }

  predicate AcceptedAs24(c: Clip) {
    Inspect(c).Inspected? && Inspect(c).constant24
  }

  // ----- what inspection says -----

  /** The frames of one list after another are selected one list after the other. */
  lemma {:induction false} SelectedInParts(a: seq<Option<real>>, b: seq<Option<real>>, begin: real, end: real)
    ensures Selected(a + b, begin, end) == Selected(a, begin, end) + Selected(b, begin, end)
  {
    if b == [] {
      assert a + b == a;
    } else {
      var n := |b| - 1;
      assert (a + b)[..|a + b| - 1] == a + b[..n];
      SelectedInParts(a, b[..n], begin, end);
    }
  }

  /** A frame counts exactly when it has a timestamp at or after the begin of the window and before its end. */
  lemma SelectedOne(x: Option<real>, begin: real, end: real)
    ensures Selected([x], begin, end) == if x.Some? && begin <= x.value && x.value < end then [x.value] else []
  {
    assert [x][..0] == [];
    assert Selected([], begin, end) == [];
  }

  lemma {:induction false} MaxIs(s: seq<real>)
    requires s != []
    ensures Max(s) in s && forall i :: 0 <= i < |s| ==> s[i] <= Max(s)
  {
    if |s| > 1 {
      MaxIs(s[1..]);
      assert forall i :: 1 <= i < |s| ==> s[i] == s[1..][i - 1];
    }
  }

  lemma {:induction false} MinIs(s: seq<real>)
    requires s != []
    ensures Min(s) in s && forall i :: 0 <= i < |s| ==> Min(s) <= s[i]
  {
    if |s| > 1 {
      MinIs(s[1..]);
      assert forall i :: 1 <= i < |s| ==> s[i] == s[1..][i - 1];
    }
  }

  /** How far the next timestamp is from this one. */
  function Gap(s: seq<real>, i: nat): real
    requires i + 1 < |s|
  {
    s[i + 1] - s[i]
  }

  lemma GapsAre(s: seq<real>, i: nat)
    requires i + 1 < |s|
    ensures i < |Intervals(s)| == |s| - 1 && Intervals(s)[i] == Gap(s, i)
  {
  }

  /** Some two gaps between neighbouring timestamps differ by more than this. */
  ghost predicate GapsDiffer(s: seq<real>, d: real) {
    exists i: nat, j: nat :: i + 1 < |s| && j + 1 < |s| && Gap(s, i) - Gap(s, j) > d
  }

  ghost predicate GapsIncrease(s: seq<real>) {
    forall i: nat :: i + 1 < |s| ==> Gap(s, i) > 0.0
  }

  /** The larger of a tenth of a millisecond and two units of the time base. */
  predicate IsTolerance(timeBase: real, t: real) {
    t >= 0.0001 && t >= 2.0 * timeBase && (t == 0.0001 || t == 2.0 * timeBase)
  }

  /** Every gap is within the tolerance of 1/24 second. */
  ghost predicate GapsNear24th(s: seq<real>, t: real) {
    forall i: nat :: i + 1 < |s| ==> 1.0 / 24.0 - t <= Gap(s, i) <= 1.0 / 24.0 + t
  }

  /** The window is filled from end to end. */
  predicate SpansWindow(s: seq<real>, begin: real, end: real, t: real)
    requires s != []
  {
    s[0] <= begin + 1.0 / 24.0 + t && s[|s| - 1] >= end - 1.0 / 24.0 - t
  }

  lemma SpreadIs(s: seq<real>, d: real)
    requires |s| >= 2
    ensures Max(Intervals(s)) - Min(Intervals(s)) > d <==> GapsDiffer(s, d)
  {
    var gaps := Intervals(s);
    MaxIs(gaps);
    MinIs(gaps);
    if Max(gaps) - Min(gaps) > d {
      var i :| 0 <= i < |gaps| && gaps[i] == Max(gaps);
      var j :| 0 <= j < |gaps| && gaps[j] == Min(gaps);
      GapsAre(s, i);
      GapsAre(s, j);
    }
    if i: nat, j: nat :| i + 1 < |s| && j + 1 < |s| && Gap(s, i) - Gap(s, j) > d {
      GapsAre(s, i);
      GapsAre(s, j);
      assert gaps[i] <= Max(gaps) && Min(gaps) <= gaps[j];
    }
  }

  lemma IncreaseIs(s: seq<real>)
    ensures (exists i :: 0 <= i < |Intervals(s)| && Intervals(s)[i] <= 0.0) <==> !GapsIncrease(s)
  {
    if i :| 0 <= i < |Intervals(s)| && Intervals(s)[i] <= 0.0 {
      GapsAre(s, i);
    }
    if i: nat :| i + 1 < |s| && Gap(s, i) <= 0.0 {
      GapsAre(s, i);
      assert Intervals(s)[i] <= 0.0;
    }
  }

  lemma Near24thIs(s: seq<real>, t: real)
    requires |s| >= 2
    ensures (forall i :: 0 <= i < |Intervals(s)| ==> Abs(Intervals(s)[i] - FRAME) <= t) <==> GapsNear24th(s, t)
  {
    forall i: nat | i + 1 < |s|
      ensures i < |Intervals(s)|
      ensures Abs(Intervals(s)[i] - FRAME) <= t <==> 1.0 / 24.0 - t <= Gap(s, i) <= 1.0 / 24.0 + t
    {
      GapsAre(s, i);
    }
  }

  lemma Constant24Is(c: Clip, t: real)
    requires IsTolerance(c.timeBase, t) && |Stamps(c)| >= 2
    ensures
      var s, begin := Stamps(c), c.start + c.origin;
      Constant24(c) <==>
        && !GapsDiffer(s, t) && -0.0001 < c.fps - 24.0 < 0.0001
        && GapsNear24th(s, t) && SpansWindow(s, begin, begin + 124.0 / 24.0, t)
  {
    SpreadIs(Stamps(c), t);
    Near24thIs(Stamps(c), t);
  }

  /**
   Inspection refuses a clip exactly for its rate or duration, for a window that does not fit, for fewer than two
   timestamps, or for one that does not follow the one before; and otherwise says whether the gaps vary and whether
   the window runs at 24 frames a second.
   */
  lemma InspectedExactlyWhen(c: Clip, t: real)
    requires IsTolerance(c.timeBase, t)
    ensures
      var s, begin := Stamps(c), c.start + c.origin;
      Inspect(c) ==
        if c.fps <= 0.0 || c.fps > 240.0 || c.duration <= 0.0 then Rejected(BadRate)
        else if c.start < 0.0 || c.start + 124.0 / 24.0 > c.duration + 0.001 then Rejected(TooShort)
        else if |s| < 2 then Rejected(NoTimestamps)
        else if !GapsIncrease(s) then Rejected(NotIncreasing)
        else Inspected(
          GapsDiffer(s, t),
          !GapsDiffer(s, t) && -0.0001 < c.fps - 24.0 < 0.0001
            && GapsNear24th(s, t) && SpansWindow(s, begin, begin + 124.0 / 24.0, t))
  {
    IncreaseIs(Stamps(c));
    if |Stamps(c)| >= 2 {
      SpreadIs(Stamps(c), t);
      Constant24Is(c, t);
    }
  }

  // ----- the bound -----

  lemma {:induction false} SelectedInWindow(frames: seq<Option<real>>, begin: real, end: real)
    ensures forall i :: 0 <= i < |Selected(frames, begin, end)| ==> begin <= Selected(frames, begin, end)[i] < end
  {
    if frames != [] {
      SelectedInWindow(frames[..|frames| - 1], begin, end);
    }
  }

  predicate StepsWithin(s: seq<real>, low: real, high: real) {
    forall i :: 0 <= i < |s| - 1 ==> low <= s[i + 1] - s[i] <= high
  }

  /** However the single steps vary, the whole span is between their number times the bounds. */
  lemma {:induction false} SpanWithin(s: seq<real>, low: real, high: real, n: nat)
    requires StepsWithin(s, low, high) && n < |s|
    ensures (n as real) * low <= s[n] - s[0] <= (n as real) * high
  {
    if n > 0 {
      SpanWithin(s, low, high, n - 1);
      assert low <= s[n - 1 + 1] - s[n - 1] <= high;
      assert n as real == (n - 1) as real + 1.0;
    }
  }

  lemma AcceptedSpan(c: Clip)
    requires AcceptedAs24(c)
    ensures
      var s, t := Stamps(c), Tolerance(c.timeBase);
      && |s| >= 2
      && s[|s| - 1] - s[0] < DURATION
      && s[|s| - 1] - s[0] >= DURATION - 2.0 * (FRAME + t)
      && StepsWithin(s, FRAME - t, FRAME + t)
  {
    SelectedInWindow(c.frames, Begin(c), End(c));
    var s, t := Stamps(c), Tolerance(c.timeBase);
    forall i | 0 <= i < |s| - 1
      ensures FRAME - t <= s[i + 1] - s[i] <= FRAME + t
    {
      assert Abs(Intervals(s)[i] - FRAME) <= t;
    }
  }

  lemma Scaled(m: real, k: real, step: real)
    requires m <= k && step >= 0.0
    ensures m * step <= k * step
  {
    assert (k - m) * step >= 0.0;
  }

  /** A span just under the window, made of n steps near 1/24 second, has 122 to 124 of them. */
  lemma StepCount(n: real, short: real, long: real, span: real)
    requires short >= 124.0 / 3000.0 && 0.0 <= long <= 126.0 / 3000.0
    requires n * short <= span < DURATION
    requires DURATION - 2.0 * long <= span <= n * long
    ensures 121.0 < n < 125.0
  {
    if n >= 125.0 {
      Scaled(125.0, n, short);
    }
    if n <= 121.0 {
      Scaled(n, 121.0, long);
    }
  }

  /** A window accepted as constant 24 fps holds 123 to 125 frames when the time base is at most 1/6000 second. */
  lemma FrameCountBounded(c: Clip)
    requires AcceptedAs24(c) && c.timeBase <= 1.0 / 6000.0
    ensures 123 <= |Stamps(c)| <= 125
  {
    AcceptedSpan(c);
    var t := Tolerance(c.timeBase);
    CountFromSteps(Stamps(c), FRAME - t, FRAME + t);
  }

  lemma CountFromSteps(s: seq<real>, short: real, long: real)
    requires short >= 124.0 / 3000.0 && 0.0 <= long <= 126.0 / 3000.0
    requires |s| >= 2 && StepsWithin(s, short, long)
    requires DURATION - 2.0 * long <= s[|s| - 1] - s[0] < DURATION
    ensures 123 <= |s| <= 125
  {
    SpanWithin(s, short, long, |s| - 1);
    StepCount((|s| - 1) as real, short, long, s[|s| - 1] - s[0]);
  }

  // ----- timestamps on the stream's time base: exactly when the bound holds -----

  /** Every reported timestamp is a whole number of time units of the stream. */
  ghost predicate OnGrid(c: Clip) {
    c.timeBase > 0.0 && forall i :: 0 <= i < |c.frames| && c.frames[i].Some? ==> IsTick(c.frames[i].value, c.timeBase)
  }

  ghost predicate IsTick(x: real, timeBase: real) {
    exists k: int :: x == Ticks(k, timeBase)
  }

  function Ticks(k: int, timeBase: real): real {
    (k as real) * timeBase
  }

  /** A step of k time units that inspection accepts. */
  predicate StepAccepted(k: nat, timeBase: real) {
    var d := Ticks(k, timeBase);
    0.0 < d < DURATION && Abs(d - FRAME) <= Tolerance(timeBase)
  }

  /** At this step 125 intervals fit into the window, or 121 are enough to reach from its start to its end. */
  predicate StepMiscounts(k: nat, timeBase: real) {
    var d := Ticks(k, timeBase);
    125.0 * d < DURATION || 121.0 * d >= DURATION - 2.0 * (FRAME + Tolerance(timeBase))
  }

  /** Some number of time units is an accepted step that miscounts. */
  ghost predicate Miscounts(timeBase: real) {
    exists k: nat :: StepAccepted(k, timeBase) && StepMiscounts(k, timeBase)
  }

  // A miscounted clip has a miscounting step.

  ghost predicate AllTicks(s: seq<real>, timeBase: real) {
    forall i :: 0 <= i < |s| ==> IsTick(s[i], timeBase)
  }

  lemma {:induction false} SelectedTicks(frames: seq<Option<real>>, begin: real, end: real, timeBase: real)
    requires forall i :: 0 <= i < |frames| && frames[i].Some? ==> IsTick(frames[i].value, timeBase)
    ensures AllTicks(Selected(frames, begin, end), timeBase)
  {
    if frames != [] {
      SelectedTicks(frames[..|frames| - 1], begin, end, timeBase);
    }
  }

  lemma StepTicks(x: real, y: real, timeBase: real) returns (k: nat)
    requires timeBase > 0.0 && IsTick(x, timeBase) && IsTick(y, timeBase) && x < y
    ensures y - x == Ticks(k, timeBase)
  {
    var i: int :| x == Ticks(i, timeBase);
    var j: int :| y == Ticks(j, timeBase);
    if j <= i {
      Scaled(j as real, i as real, timeBase);
    }
    k := j - i;
    assert (j as real - i as real) * timeBase == y - x;
    assert k as real == j as real - i as real;
  }

  /** Steps that together fall short of n times h include one below h. */
  lemma {:induction false} SmallStep(s: seq<real>, n: nat, h: real) returns (i: nat)
    requires 0 < n < |s| && s[n] - s[0] < (n as real) * h
    ensures i < n && s[i + 1] - s[i] < h
  {
    if s[n] - s[n - 1] < h {
      i := n - 1;
    } else {
      assert n as real == (n - 1) as real + 1.0;
      assert (n as real) * h == ((n - 1) as real) * h + h;
      i := SmallStep(s, n - 1, h);
    }
  }

  /** Steps that together reach n times h include one that reaches h. */
  lemma {:induction false} LargeStep(s: seq<real>, n: nat, h: real) returns (i: nat)
    requires 0 < n < |s| && s[n] - s[0] >= (n as real) * h
    ensures i < n && s[i + 1] - s[i] >= h
  {
    if s[n] - s[n - 1] >= h {
      i := n - 1;
    } else {
      assert n as real == (n - 1) as real + 1.0;
      assert (n as real) * h == ((n - 1) as real) * h + h;
      i := LargeStep(s, n - 1, h);
    }
  }

  /** A single step of an accepted clip on the grid is an accepted number of time units. */
  lemma AcceptedStep(c: Clip, i: nat) returns (k: nat)
    requires AcceptedAs24(c) && OnGrid(c) && i + 1 < |Stamps(c)|
    ensures StepAccepted(k, c.timeBase) && Stamps(c)[i + 1] - Stamps(c)[i] == Ticks(k, c.timeBase)
  {
    var s := Stamps(c);
    SelectedTicks(c.frames, Begin(c), End(c), c.timeBase);
    SelectedInWindow(c.frames, Begin(c), End(c));
    assert Intervals(s)[i] == s[i + 1] - s[i] && Intervals(s)[i] > 0.0;
    k := StepTicks(s[i], s[i + 1], c.timeBase);
  }

  lemma Increases(c: Clip, n: nat)
    requires AcceptedAs24(c) && n < |Stamps(c)|
    ensures Stamps(c)[n] <= Stamps(c)[|Stamps(c)| - 1]
    decreases |Stamps(c)| - n
  {
    var s := Stamps(c);
    if n < |s| - 1 {
      Increases(c, n + 1);
      assert Intervals(s)[n] == s[n + 1] - s[n] && Intervals(s)[n] > 0.0;
    }
  }

  lemma ManyFramesMiscount(c: Clip)
    requires AcceptedAs24(c) && OnGrid(c) && |Stamps(c)| > 125
    ensures Miscounts(c.timeBase)
  {
    AcceptedSpan(c);
    Increases(c, 125);
    var i := SmallStep(Stamps(c), 125, DURATION / 125.0);
    var k := AcceptedStep(c, i);
    assert StepMiscounts(k, c.timeBase);
  }

  lemma FewSteps(s: seq<real>, n: nat, rest: real) returns (i: nat)
    requires 0 < n < |s| && n <= 121 && rest > 0.0 && s[n] - s[0] >= rest
    ensures i < n && 121.0 * (s[i + 1] - s[i]) >= rest
  {
    Scaled(n as real, 121.0, rest / 121.0);
    i := LargeStep(s, n, rest / 121.0);
  }

  lemma FewFramesMiscount(c: Clip)
    requires AcceptedAs24(c) && OnGrid(c) && |Stamps(c)| < 123
    ensures Miscounts(c.timeBase)
  {
    AcceptedSpan(c);
    var rest := DURATION - 2.0 * (FRAME + Tolerance(c.timeBase));
    var i := 0;
    if rest > 0.0 {
      i := FewSteps(Stamps(c), |Stamps(c)| - 1, rest);
    }
    var k := AcceptedStep(c, i);
    assert 121.0 * Ticks(k, c.timeBase) >= rest;
    assert StepMiscounts(k, c.timeBase);
  }

  // A miscounting step has a miscounted clip.

  /** n frames, k time units apart, the first at time unit m; the window begins x before it. */
  function EvenFrames(timeBase: real, m: nat, k: nat, n: nat): seq<Option<real>> {
    seq(n, i requires 0 <= i < n => Some(Ticks(m + i * k, timeBase)))
  }

  function EvenClip(timeBase: real, m: nat, k: nat, n: nat, x: real): Clip {
    Clip(24.0, Ticks(m, timeBase) - x + 6.0, 0.0, timeBase, Ticks(m, timeBase) - x, EvenFrames(timeBase, m, k, n))
  }

  function EvenStamps(timeBase: real, m: nat, k: nat, n: nat): seq<real> {
    seq(n, i requires 0 <= i < n => Ticks(m + i * k, timeBase))
  }

  lemma {:induction false} EvenSelected(timeBase: real, m: nat, k: nat, n: nat, begin: real, end: real)
    requires forall i: nat :: i < n ==> begin <= Ticks(m + i * k, timeBase) < end
    ensures Selected(EvenFrames(timeBase, m, k, n), begin, end) == EvenStamps(timeBase, m, k, n)
  {
    if n > 0 {
      EvenSelected(timeBase, m, k, n - 1, begin, end);
      assert EvenFrames(timeBase, m, k, n)[..n - 1] == EvenFrames(timeBase, m, k, n - 1);
      assert EvenFrames(timeBase, m, k, n)[n - 1] == Some(Ticks(m + (n - 1) * k, timeBase));
    }
  }

  lemma EvenTick(timeBase: real, m: nat, k: nat, i: nat)
    ensures Ticks(m + i * k, timeBase) == Ticks(m, timeBase) + (i as real) * Ticks(k, timeBase)
  {
    assert (m + i * k) as real == m as real + (i as real) * (k as real);
    assert ((i as real) * (k as real)) * timeBase == (i as real) * ((k as real) * timeBase);
  }

  lemma {:induction false} ConstantExtremes(s: seq<real>, d: real)
    requires s != [] && forall i :: 0 <= i < |s| ==> s[i] == d
    ensures Max(s) == d && Min(s) == d
  {
    if |s| > 1 {
      ConstantExtremes(s[1..], d);
    }
  }

  lemma EvenIntervals(timeBase: real, m: nat, k: nat, n: nat)
    requires n >= 2
    ensures |Intervals(EvenStamps(timeBase, m, k, n))| == n - 1
    ensures forall i :: 0 <= i < n - 1 ==> Intervals(EvenStamps(timeBase, m, k, n))[i] == Ticks(k, timeBase)
  {
    forall i: nat | i < n - 1
      ensures Intervals(EvenStamps(timeBase, m, k, n))[i] == Ticks(k, timeBase)
    {
      EvenTick(timeBase, m, k, i);
      EvenTick(timeBase, m, k, i + 1);
      assert (i + 1) as real == i as real + 1.0;
    }
  }

  lemma EvenInWindow(timeBase: real, m: nat, k: nat, n: nat, i: nat)
    requires i <= n && Ticks(k, timeBase) > 0.0
    ensures Ticks(m, timeBase) <= Ticks(m + i * k, timeBase) <= Ticks(m, timeBase) + (n as real) * Ticks(k, timeBase)
  {
    EvenTick(timeBase, m, k, i);
    Scaled(0.0, i as real, Ticks(k, timeBase));
    Scaled(i as real, n as real, Ticks(k, timeBase));
  }

  lemma EvenSelects(timeBase: real, m: nat, k: nat, n: nat, x: real)
    requires Ticks(k, timeBase) > 0.0 && 0.0 <= x && x + (n as real) * Ticks(k, timeBase) < DURATION
    ensures Stamps(EvenClip(timeBase, m, k, n + 1, x)) == EvenStamps(timeBase, m, k, n + 1)
  {
    var c := EvenClip(timeBase, m, k, n + 1, x);
    forall i: nat | i < n + 1
      ensures Begin(c) <= Ticks(m + i * k, timeBase) < End(c)
    {
      EvenInWindow(timeBase, m, k, n, i);
    }
    EvenSelected(timeBase, m, k, n + 1, Begin(c), End(c));
  }

  lemma EvenEnds(timeBase: real, m: nat, k: nat, n: nat)
    ensures EvenStamps(timeBase, m, k, n + 1)[0] == Ticks(m, timeBase)
    ensures EvenStamps(timeBase, m, k, n + 1)[n] == Ticks(m, timeBase) + (n as real) * Ticks(k, timeBase)
  {
    EvenTick(timeBase, m, k, n);
  }

  lemma EvenOnGrid(timeBase: real, m: nat, k: nat, n: nat, x: real)
    requires timeBase > 0.0
    ensures OnGrid(EvenClip(timeBase, m, k, n, x))
  {
    var c := EvenClip(timeBase, m, k, n, x);
    forall i | 0 <= i < |c.frames|
      ensures IsTick(c.frames[i].value, timeBase)
    {
      assert c.frames[i].value == Ticks(m + i * k, timeBase);
    }
  }

  /** n accepted steps from x after the start of the window, which end near its end, make an accepted clip. */
  lemma EvenIsAccepted(timeBase: real, m: nat, k: nat, n: nat, x: real)
    requires timeBase > 0.0 && StepAccepted(k, timeBase) && n >= 1
    requires 0.0 <= x <= FRAME + Tolerance(timeBase) && x <= Ticks(m, timeBase)
    requires DURATION - FRAME - Tolerance(timeBase) <= x + (n as real) * Ticks(k, timeBase) < DURATION
    ensures
      var c := EvenClip(timeBase, m, k, n + 1, x);
      AcceptedAs24(c) && OnGrid(c) && |Stamps(c)| == n + 1
  {
    var c := EvenClip(timeBase, m, k, n + 1, x);
    EvenOnGrid(timeBase, m, k, n + 1, x);
    EvenSelects(timeBase, m, k, n, x);
    EvenIntervals(timeBase, m, k, n + 1);
    ConstantExtremes(Intervals(Stamps(c)), Ticks(k, timeBase));
    EvenEnds(timeBase, m, k, n);
    EvenInspected(c, Ticks(k, timeBase));
  }

  lemma EvenInspected(c: Clip, d: real)
    requires c.fps == 24.0 && c.start >= 0.0 && c.duration == c.start + 6.0
    requires |Stamps(c)| >= 2 && d > 0.0 && Abs(d - FRAME) <= Tolerance(c.timeBase)
    requires forall i :: 0 <= i < |Intervals(Stamps(c))| ==> Intervals(Stamps(c))[i] == d
    requires Max(Intervals(Stamps(c))) == d && Min(Intervals(Stamps(c))) == d
    requires Stamps(c)[0] <= Begin(c) + FRAME + Tolerance(c.timeBase)
    requires Stamps(c)[|Stamps(c)| - 1] >= End(c) - FRAME - Tolerance(c.timeBase)
    ensures AcceptedAs24(c)
  {
  }

  /** Enough steps of d fill the window up to the last one. */
  lemma {:induction false} Fills(d: real, n: nat) returns (m: nat)
    requires 0.0 < d && (n as real) * d < DURATION
    ensures m >= n && (m as real) * d < DURATION <= ((m + 1) as real) * d
    decreases (DURATION / d).Floor - n
  {
    if ((n + 1) as real) * d < DURATION {
      assert (DURATION / d) * d == DURATION;
      if (n + 1) as real > DURATION / d {
        Scaled(DURATION / d, (n + 1) as real, d);
      }
      m := Fills(d, n + 1);
    } else {
      m := n;
    }
  }

  /** Some time unit is late enough for the window to begin before it. */
  lemma LateEnough(timeBase: real, x: real) returns (m: nat)
    requires timeBase > 0.0 && x >= 0.0
    ensures x <= Ticks(m, timeBase)
  {
    m := (x / timeBase).Floor + 1;
    assert (x / timeBase) * timeBase == x;
    Scaled(x / timeBase, m as real, timeBase);
  }

  lemma FillsLong(d: real, m: nat)
    requires d > 0.0 && 125.0 * d < DURATION <= ((m + 1) as real) * d
    ensures m >= 125
  {
    if m < 125 {
      Scaled((m + 1) as real, 125.0, d);
    }
  }

  /** How many steps of d, and how far into the window, for a miscounted clip. */
  lemma ChooseSteps(d: real, t: real) returns (n: nat, x: real)
    requires 0.0 < d < DURATION && d <= FRAME + t
    requires 125.0 * d < DURATION || 121.0 * d >= DURATION - 2.0 * (FRAME + t)
    ensures n >= 1 && (n >= 125 || n <= 121)
    ensures 0.0 <= x <= FRAME + t && DURATION - FRAME - t <= x + (n as real) * d < DURATION
  {
    n := Fills(d, 1);
    x := 0.0;
    assert ((n + 1) as real) * d == (n as real) * d + d;
    if 125.0 * d < DURATION {
      FillsLong(d, n);
    } else if n > 121 {
      Scaled(121.0, n as real, d);
      assert 121.0 * d < DURATION;
      n := 121;
      assert (n as real) * d == 121.0 * d;
      x := if DURATION - FRAME - t - 121.0 * d > 0.0 then DURATION - FRAME - t - 121.0 * d else 0.0;
    }
  }

  lemma MiscountHasClip(timeBase: real, k: nat) returns (c: Clip)
    requires timeBase > 0.0 && StepAccepted(k, timeBase) && StepMiscounts(k, timeBase)
    ensures c.timeBase == timeBase && AcceptedAs24(c) && OnGrid(c) && !(123 <= |Stamps(c)| <= 125)
  {
    var n, x := ChooseSteps(Ticks(k, timeBase), Tolerance(timeBase));
    var m := LateEnough(timeBase, x);
    EvenIsAccepted(timeBase, m, k, n, x);
    c := EvenClip(timeBase, m, k, n + 1, x);
  }

  /**
   Over clips whose timestamps are whole time units, the frame count of every accepted window is within one
   of 124 exactly when no number of time units is an accepted step that miscounts.
   */
  lemma FrameCountBoundedExactlyWhen(timeBase: real)
    requires timeBase > 0.0
    ensures (forall c: Clip :: c.timeBase == timeBase && OnGrid(c) && AcceptedAs24(c) ==> 123 <= |Stamps(c)| <= 125)
      <==> !Miscounts(timeBase)
  {
    forall c: Clip | c.timeBase == timeBase && OnGrid(c) && AcceptedAs24(c) && !Miscounts(timeBase)
      ensures 123 <= |Stamps(c)| <= 125
    {
      if |Stamps(c)| > 125 {
        ManyFramesMiscount(c);
      }
      if |Stamps(c)| < 123 {
        FewFramesMiscount(c);
      }
    }
    if Miscounts(timeBase) {
      var k: nat :| StepAccepted(k, timeBase) && StepMiscounts(k, timeBase);
      var c := MiscountHasClip(timeBase, k);
    }
  }

  /**
   With a millisecond time base, as in Matroska, frames 41 ms apart are accepted and the window holds 127. Such
   frames come at 24.39 a second; the average rate of the whole file is 24 when slower frames follow the window,
   and where no average is given the declared rate counts.
   */
  lemma MillisecondsMiscount()
    ensures StepAccepted(41, 0.001) && StepMiscounts(41, 0.001)
    ensures
      var c := EvenClip(0.001, 0, 41, 127, 0.0);
      AcceptedAs24(c) && OnGrid(c) && |Stamps(c)| == 127
  {
    EvenIsAccepted(0.001, 0, 41, 126, 0.0);
  }

  /** At 1/5000 second no step miscounts, although timestamps off the grid would be within the tolerance. */
  lemma FiveThousandthsCount()
    ensures !Miscounts(0.0002)
  {
    forall k: nat | StepAccepted(k, 0.0002)
      ensures !StepMiscounts(k, 0.0002)
    {
      assert Ticks(k, 0.0002) == (k as real) / 5000.0;
      assert k <= 210 && k >= 207;
    }
  }
}
