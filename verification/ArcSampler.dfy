/**
 * Sampling an arc from a table of 48 points on the circle: from one sample number to another, in
 * either direction, in steps of at most a quarter of the circle. When the range is not a multiple
 * of the step, the first step is shortened so that the last one does not come out tiny.
 */
module ArcSampler {
  import opened Buffers

  const TABLE_SIZE := 48

  /** A point of the path: the centre itself, or the table entry that the radius is applied to. */
  datatype Sample = Centre | OnCircle(index: int)

  /** Remainder as the program's language computes it: it takes the sign of the dividend. */
  function TruncatedMod(a: int, b: int): int
    requires b > 0
  {
    if a >= 0 then a % b else -((-a) % b)
  }

  function Abs(a: int): nat {
    if a < 0 then -a else a
  }

  function Clamp(a: int, low: int, high: int): (r: int)
    requires low <= high
    ensures low <= r <= high
  {
    if a < low then low else if a > high then high else a
  }

  predicate Congruent(a: int, b: int) {
    (a - b) % TABLE_SIZE == 0
  }

  /** Normalising a sample number: the truncated remainder, brought back above zero. */
  function Normalised(a: int): (r: int)
    ensures 0 <= r < TABLE_SIZE && Congruent(r, a)
  {
    var m := TruncatedMod(a, TABLE_SIZE);
    if m < 0 then m + TABLE_SIZE else m
  }

  // ---------------------------------------------------------------------------------------------
  // Counting steps
  // ---------------------------------------------------------------------------------------------

  /** n steps of s. */
  function Times(n: nat, s: int): int {
    if n == 0 then 0 else Times(n - 1, s) + s
  }

  lemma {:induction false} TimesIs(n: nat, s: int)
    ensures Times(n, s) == n * s
  {
    if n > 0 {
      TimesIs(n - 1, s);
      assert n * s == (n - 1) * s + s;
    } else {
      assert n * s == 0;
    }
  }

  /** A range is its whole steps and a rest. */
  lemma WholeSteps(range: nat, step: int)
    requires step >= 1
    ensures range == Times(range / step, step) + range % step
  {
    TimesIs(range / step, step);
  }

  /** How many samples a loop takes that has `left` to go, in steps of s. */
  function Count(left: int, s: int): nat
    requires s >= 1
    decreases if left < 0 then 0 else left + 1
  {
    if left < 0 then 0 else 1 + Count(left - s, s)
  }

  /** The same when the next step differs from the later ones. */
  function CountFrom(left: int, next: int, s: int): nat
    requires s >= 1
  {
    if left < 0 then 0 else 1 + Count(left - next, s)
  }

  /** A range of q whole steps and a rest takes q + 1 samples. */
  lemma {:induction false} CountIs(q: nat, rest: int, s: int)
    requires 0 <= rest < s
    ensures Times(q, s) >= 0 && Count(Times(q, s) + rest, s) == q + 1
  {
    if q > 0 {
      CountIs(q - 1, rest, s);
      assert Times(q, s) + rest - s == Times(q - 1, s) + rest;
    }
  }

  function Shortening(range: nat, step: int): int
    requires step >= 1
  {
    if range % step > 0 then (step - range % step) / 2 else 0
  }

  /** The program's number of samples. */
  function Samples(range: nat, step: int): nat
    requires step >= 1
  {
    range / step + 1 + (if range % step > 0 then 1 else 0)
  }

  /** With the first step shortened, the loop still takes one sample for each whole step, and one. */
  lemma FirstStepCount(range: nat, step: int)
    requires step >= 1
    ensures 1 <= step - Shortening(range, step) <= step
    ensures CountFrom(range, step - Shortening(range, step), step) == range / step + 1
  {
    var q, rest := range / step, range % step;
    var h := Shortening(range, step);
    WholeSteps(range, step);
    if rest == 0 {
      CountIs(q, 0, step);
    } else if q > 0 {
      CountIs(q - 1, rest + h, step);
    }
  }

  // ---------------------------------------------------------------------------------------------
  // The samples
  // ---------------------------------------------------------------------------------------------

  /** The sample number at a distance from a, upwards or downwards. */
  function Along(a: int, up: bool, distance: int): int {
    if up then a + distance else a - distance
  }

  /** The point is a table entry inside the table, and the entry of that sample number. */
  predicate IsSample(p: Slot<Sample>, number: int) {
    p.Written? && p.value.OnCircle? && 0 <= p.value.index < TABLE_SIZE && Congruent(p.value.index, number)
  }

  /** From `start` on, the path holds the samples at these distances from a, upwards or downwards. */
  ghost predicate Holds(path: seq<Slot<Sample>>, start: nat, offs: seq<int>, a: int, up: bool) {
    && start + |offs| <= |path|
    && forall k | 0 <= k < |offs| :: IsSample(path[start + k], Along(a, up, offs[k]))
  }

  /** Distances from 0 on: a first step, and equal ones after it. */
  ghost predicate Steps(offs: seq<int>, first: int, step: int) {
    && (|offs| > 0 ==> offs[0] == 0)
    && forall k | 0 < k < |offs| :: offs[k] - offs[k - 1] == if k == 1 then first else step
  }

  /** The distance at which the next sample is due. */
  ghost function Due(offs: seq<int>, first: int, step: int): int {
    if |offs| == 0 then 0 else offs[|offs| - 1] + if |offs| == 1 then first else step
  }

  /** The loops' state: what is written, what is due, and how many samples are still to come. */
  ghost predicate Sweeping(path: seq<Slot<Sample>>, start: nat, offs: seq<int>, a: int, up: bool,
                           range: nat, first: int, step: int, due: int, sampleIndex: int, total: nat)
  {
    && 1 <= first <= step <= TABLE_SIZE / 4
    && Holds(path, start, offs, a, up)
    && Steps(offs, first, step)
    && due == Due(offs, first, step)
    && (|offs| > 0 ==> offs[|offs| - 1] <= range)
    && Congruent(sampleIndex, Along(a, up, due))
    && |offs| + CountFrom(range - due, if |offs| == 0 then first else step, step) == total
  }

  lemma SweepStart(path: seq<Slot<Sample>>, start: nat, a: int, up: bool, range: nat, first: int, step: int,
                   sampleIndex: int)
    requires 1 <= first <= step <= TABLE_SIZE / 4 && start <= |path| && Congruent(sampleIndex, a)
    ensures Sweeping(path, start, [], a, up, range, first, step, 0, sampleIndex, CountFrom(range, first, step))
  {
  }

  /** A sample is written, and the next one is a step further on. */
  lemma SweepStep(path: seq<Slot<Sample>>, start: nat, offs: seq<int>, a: int, up: bool, range: nat,
                  first: int, step: int, due: int, sampleIndex: int, total: nat, index: int)
    requires Sweeping(path, start, offs, a, up, range, first, step, due, sampleIndex, total)
    requires due <= range && start + total <= |path|
    requires 0 <= index < TABLE_SIZE && Congruent(index, sampleIndex)
    ensures |offs| < total
    ensures
      var next := if |offs| == 0 then first else step;
      Sweeping(path[start + |offs| := Written(OnCircle(index))], start, offs + [due], a, up, range,
               first, step, due + next, Along(index, up, next), total)
  {
    hide Count;
    var next := if |offs| == 0 then first else step;
    var path' := path[start + |offs| := Written(OnCircle(index))];
    var offs' := offs + [due];
    CongruentTransitive(index, sampleIndex, Along(a, up, due));
    CongruentShift(index, Along(a, up, due), if up then next else -next);
    forall k | 0 <= k < |offs'| ensures IsSample(path'[start + k], Along(a, up, offs'[k])) {
      if k < |offs| {
        assert path'[start + k] == path[start + k];
      }
    }
    CountUnfolds(range - due - next, step);
  }

  lemma CountUnfolds(left: int, s: int)
    requires s >= 1
    ensures CountFrom(left, s, s) == Count(left, s)
  {
  }

  lemma CongruentTransitive(a: int, b: int, c: int)
    requires Congruent(a, b) && Congruent(b, c)
    ensures Congruent(a, c)
  {
  }

  lemma CongruentShift(a: int, b: int, d: int)
    requires Congruent(a, b)
    ensures Congruent(a + d, b + d)
  {
  }

  /** When the next sample would be too far, all of them are there. */
  lemma SweepDone(path: seq<Slot<Sample>>, start: nat, offs: seq<int>, a: int, up: bool, range: nat,
                  first: int, step: int, due: int, sampleIndex: int, total: nat)
    requires Sweeping(path, start, offs, a, up, range, first, step, due, sampleIndex, total) && due > range
    ensures |offs| == total && Holds(path, start, offs, a, up) && Steps(offs, first, step)
    ensures |offs| > 0 ==> offs[|offs| - 1] <= range < Due(offs, first, step)
  {
  }

  class ArcPath {
    var path: seq<Slot<Sample>>

    constructor ()
      ensures path == []
    {
      path := [];
    }

    /** The loop for a range that goes up. */
    method SweepUp(out: nat, aMin: int, aMax: int, firstStep: int, nextStep: int, firstIndex: int)
      returns (end: nat, ghost offs: seq<int>)
      requires aMax >= aMin && 1 <= firstStep <= nextStep <= TABLE_SIZE / 4
      requires out + CountFrom(aMax - aMin, firstStep, nextStep) <= |path|
      requires 0 <= firstIndex < TABLE_SIZE && Congruent(firstIndex, aMin)
      modifies this
      ensures |path| == old(|path|) && end <= |path|
      ensures path[..out] == old(path[..out]) && path[end..] == old(path)[end..]
      ensures end == out + |offs| && |offs| == CountFrom(aMax - aMin, firstStep, nextStep)
      ensures Holds(path, out, offs, aMin, true) && Steps(offs, firstStep, nextStep)
      ensures |offs| > 0 ==> offs[|offs| - 1] <= aMax - aMin < Due(offs, firstStep, nextStep)
    {
      hide Sweeping, Holds, Steps, CountFrom, Congruent;
      ghost var range, total := aMax - aMin, CountFrom(aMax - aMin, firstStep, nextStep);
      end, offs := out, [];
      var a, sampleIndex, aStep := aMin, firstIndex, firstStep;
      SweepStart(path, out, aMin, true, range, firstStep, nextStep, sampleIndex);
      while a <= aMax
        invariant |path| == old(|path|) && end <= |path|
        invariant path[..out] == old(path[..out]) && path[end..] == old(path)[end..]
        invariant end == out + |offs| && aStep == (if |offs| == 0 then firstStep else nextStep)
        invariant Sweeping(path, out, offs, aMin, true, range, firstStep, nextStep, a - aMin, sampleIndex, total)
        invariant 0 <= sampleIndex < TABLE_SIZE + TABLE_SIZE / 4
        decreases aMax - a
      {
        ghost var was := sampleIndex;
        if sampleIndex >= TABLE_SIZE {
          sampleIndex := sampleIndex - TABLE_SIZE;
        }
        CongruentWrap(sampleIndex, was);
        SweepStep(path, out, offs, aMin, true, range, firstStep, nextStep, a - aMin, was, total, sampleIndex);
        path := path[end := Written(OnCircle(sampleIndex))];
        end := end + 1;
        offs := offs + [a - aMin];
        a, sampleIndex, aStep := a + aStep, sampleIndex + aStep, nextStep;
      }
      SweepDone(path, out, offs, aMin, true, range, firstStep, nextStep, a - aMin, sampleIndex, total);
    }

    /** The loop for a range that goes down. */
    method SweepDown(out: nat, aMin: int, aMax: int, firstStep: int, nextStep: int, firstIndex: int)
      returns (end: nat, ghost offs: seq<int>)
      requires aMax < aMin && 1 <= firstStep <= nextStep <= TABLE_SIZE / 4
      requires out + CountFrom(aMin - aMax, firstStep, nextStep) <= |path|
      requires 0 <= firstIndex < TABLE_SIZE && Congruent(firstIndex, aMin)
      modifies this
      ensures |path| == old(|path|) && end <= |path|
      ensures path[..out] == old(path[..out]) && path[end..] == old(path)[end..]
      ensures end == out + |offs| && |offs| == CountFrom(aMin - aMax, firstStep, nextStep)
      ensures Holds(path, out, offs, aMin, false) && Steps(offs, firstStep, nextStep)
      ensures |offs| > 0 ==> offs[|offs| - 1] <= aMin - aMax < Due(offs, firstStep, nextStep)
    {
      hide Sweeping, Holds, Steps, CountFrom, Congruent;
      ghost var range, total := aMin - aMax, CountFrom(aMin - aMax, firstStep, nextStep);
      end, offs := out, [];
      var a, sampleIndex, aStep := aMin, firstIndex, firstStep;
      SweepStart(path, out, aMin, false, range, firstStep, nextStep, sampleIndex);
      while a >= aMax
        invariant |path| == old(|path|) && end <= |path|
        invariant path[..out] == old(path[..out]) && path[end..] == old(path)[end..]
        invariant end == out + |offs| && aStep == (if |offs| == 0 then firstStep else nextStep)
        invariant Sweeping(path, out, offs, aMin, false, range, firstStep, nextStep, aMin - a, sampleIndex, total)
        invariant -(TABLE_SIZE / 4) <= sampleIndex < TABLE_SIZE
        decreases a - aMax
      {
        ghost var was := sampleIndex;
        if sampleIndex < 0 {
          sampleIndex := sampleIndex + TABLE_SIZE;
        }
        CongruentWrap(sampleIndex, was);
        SweepStep(path, out, offs, aMin, false, range, firstStep, nextStep, aMin - a, was, total, sampleIndex);
        path := path[end := Written(OnCircle(sampleIndex))];
        end := end + 1;
        offs := offs + [aMin - a];
        a, sampleIndex, aStep := a - aStep, sampleIndex - aStep, nextStep;
      }
      SweepDone(path, out, offs, aMin, false, range, firstStep, nextStep, aMin - a, sampleIndex, total);
    }

    /**
     * Appends an arc. The number of points reserved is the number written; every table index is
     * inside the table and stands for its sample number; the first point is the arc's start and the
     * last one its end; and the points between them are evenly spaced.
     */
    method PathArcToFastEx(tooSmall: bool, aMinSample: int, aMaxSample: int, aStep: int, autoSegments: int)
      returns (ghost offs: seq<int>)
      requires autoSegments >= 1
      modifies this
      ensures tooSmall ==> path == old(path) + [Written(Centre)]
      ensures !tooSmall ==> IsArc(old(path), path, offs, aMinSample, aMaxSample, StepFor(aStep, autoSegments))
      ensures !tooSmall ==>
        && |path| == |old(path)| + |offs| && |offs| > 0
        && StandsFor(path[|old(path)|], aMinSample) && StandsFor(path[|path| - 1], aMaxSample)
      ensures !tooSmall ==>
        var range := if aMinSample <= aMaxSample then aMaxSample - aMinSample else aMinSample - aMaxSample;
        var step := if aStep > 12 then 12 else if aStep > 0 then aStep
                    else if autoSegments <= 4 then 12 else if autoSegments > 48 then 1 else 48 / autoSegments;
        Spaced(offs, range, step)
    {
      hide IsArc, StepFor, CountFrom, Spaced, StandsFor, Samples, Shortening;
      if tooSmall {
        path := path + [Written(Centre)];
        offs := [];
        return;
      }
      var step := aStep;
      if step <= 0 {
        step := TABLE_SIZE / autoSegments;
      }
      step := Clamp(step, 1, TABLE_SIZE / 4);
      var sampleRange := Abs(aMaxSample - aMinSample);
      var nextStep := step;
      var firstStep, samples, extraMaxSample := Distribute(sampleRange, nextStep);
      StepIs(aStep, autoSegments);
      FirstStepCount(sampleRange, nextStep);
      offs := Fill(aMinSample, aMaxSample, sampleRange, firstStep, nextStep, samples, extraMaxSample);
      ArcEnds(old(path), path, offs, aMinSample, aMaxSample, nextStep);
      StepForIs(aStep, autoSegments);
    }

    /** The number of samples, and an overstep shared between the first step and the last one. */
    static method Distribute(sampleRange: nat, nextStep: int) returns (step: int, samples: nat, extraMaxSample: bool)
      requires nextStep >= 1
      ensures step == nextStep - Shortening(sampleRange, nextStep) && samples == Samples(sampleRange, nextStep)
      ensures extraMaxSample <==> sampleRange % nextStep > 0
    {
      DivideByOne(sampleRange);
      step, samples, extraMaxSample := nextStep, sampleRange + 1, false;
      if step > 1 {
        samples := sampleRange / step + 1;
        var overstep := sampleRange % step;
        if overstep > 0 {
          extraMaxSample := true;
          samples := samples + 1;
          if sampleRange > 0 {
            step := step - (step - overstep) / 2;
          }
        }
      }
    }

    /** Room for the samples, the sweep over them, and the arc's end when the sweep stops short of it. */
    method Fill(aMin: int, aMax: int, range: nat, firstStep: int, nextStep: int, samples: nat, extraMaxSample: bool)
      returns (ghost offs: seq<int>)
      requires range == Abs(aMax - aMin) && 1 <= nextStep <= TABLE_SIZE / 4
      requires firstStep == nextStep - Shortening(range, nextStep) && 1 <= firstStep <= nextStep
      requires samples == Samples(range, nextStep) && (extraMaxSample <==> range % nextStep > 0)
      requires CountFrom(range, firstStep, nextStep) == range / nextStep + 1
      modifies this
      ensures IsArc(old(path), path, offs, aMin, aMax, nextStep)
    {
      hide Holds, Steps, Congruent;
      ghost var before := path;
      path := path + seq(samples, _ => Unwritten);
      var out := |path| - samples;
      var sampleIndex := aMin;
      if sampleIndex < 0 || sampleIndex >= TABLE_SIZE {
        sampleIndex := TruncatedMod(sampleIndex, TABLE_SIZE);
        if sampleIndex < 0 {
          sampleIndex := sampleIndex + TABLE_SIZE;
        }
      }
      StartIndex(aMin, sampleIndex);
      if aMax >= aMin {
        out, offs := SweepUp(out, aMin, aMax, firstStep, nextStep, sampleIndex);
      } else {
        out, offs := SweepDown(out, aMin, aMax, firstStep, nextStep, sampleIndex);
      }
      ghost var swept, sweptOffs := path, offs;
      if extraMaxSample {
        var normalised := TruncatedMod(aMax, TABLE_SIZE);
        if normalised < 0 {
          normalised := normalised + TABLE_SIZE;
        }
        path := path[out := Written(OnCircle(normalised))];
        offs := offs + [range];
        EndIndex(swept, path, |before|, sweptOffs, aMin, aMax, normalised);
      }
      ArcSpacing(sweptOffs, range, firstStep, nextStep);
      assert path[..|before|] == before;
    }
  }

  /** The step that is taken: automatic when none is given, and at most a quarter of the circle. */
  function StepFor(aStep: int, autoSegments: int): (r: int)
    requires autoSegments >= 1
    ensures 1 <= r <= TABLE_SIZE / 4
  {
    Clamp(if aStep <= 0 then TABLE_SIZE / autoSegments else aStep, 1, TABLE_SIZE / 4)
  }

  lemma StepIs(aStep: int, autoSegments: int)
    requires autoSegments >= 1
    ensures StepFor(aStep, autoSegments)
      == Clamp(if aStep <= 0 then TABLE_SIZE / autoSegments else aStep, 1, TABLE_SIZE / 4)
  {
  }

  lemma StepForIs(aStep: int, autoSegments: int)
    requires autoSegments >= 1
    ensures
      StepFor(aStep, autoSegments)
      == if aStep > 12 then 12 else if aStep > 0 then aStep
         else if autoSegments <= 4 then 12 else if autoSegments > 48 then 1 else 48 / autoSegments
  {
  }

  /** The arc goes upwards from its start, or downwards. */
  predicate Direction(aMin: int, aMax: int) {
    aMax >= aMin
  }

  /** From 0 to the range in steps; only the first and the last may be shorter, and they share what is missing. */
  ghost predicate Even(offs: seq<int>, range: nat, step: int) {
    var n := |offs|;
    && n > 0 && offs[0] == 0 && offs[n - 1] == range
    && (forall k | 0 < k < n :: 1 <= offs[k] - offs[k - 1] <= step)
    && (forall k | 1 < k < n - 1 :: offs[k] - offs[k - 1] == step)
    && (n > 2 ==> 0 <= (offs[1] - offs[0]) - (offs[n - 1] - offs[n - 2]) <= 1)
  }

  ghost predicate IsArc(before: seq<Slot<Sample>>, path: seq<Slot<Sample>>, offs: seq<int>, aMin: int, aMax: int,
                        step: int)
  {
    var range := Abs(aMax - aMin);
    && step >= 1
    && |offs| == Samples(range, step)
    && |path| == |before| + |offs| && path[..|before|] == before
    && Holds(path, |before|, offs, aMin, Direction(aMin, aMax))
    && Even(offs, range, step)
  }

  /** An entry of the table of 48, a whole number of turns away from the sample number. */
  predicate StandsFor(p: Slot<Sample>, number: int) {
    p.Written? && p.value.OnCircle? && 0 <= p.value.index < 48 && (p.value.index - number) % 48 == 0
  }

  /** As many distances as the range takes in such steps, no gap longer than a step, and all but the first and the last
      gap a whole one. */
  ghost predicate Spaced(offs: seq<int>, range: nat, step: int) {
    && step >= 1 && |offs| == range / step + (if range % step == 0 then 1 else 2)
    && forall k | 0 < k < |offs| ::
         1 <= offs[k] - offs[k - 1] <= step && (1 < k < |offs| - 1 ==> offs[k] - offs[k - 1] == step)
  }

  /** An arc starts at its first sample and ends at its last. */
  lemma ArcEnds(before: seq<Slot<Sample>>, path: seq<Slot<Sample>>, offs: seq<int>, aMin: int, aMax: int, step: int)
    requires IsArc(before, path, offs, aMin, aMax, step)
    ensures |offs| > 0 && |path| == |before| + |offs|
    ensures StandsFor(path[|before|], aMin) && StandsFor(path[|path| - 1], aMax)
    ensures Spaced(offs, if aMin <= aMax then aMax - aMin else aMin - aMax, step)
  {
    var n := |offs|;
    assert IsSample(path[|before| + 0], Along(aMin, Direction(aMin, aMax), offs[0]));
    assert IsSample(path[|before| + (n - 1)], Along(aMin, Direction(aMin, aMax), offs[n - 1]));
  }

  lemma DivideByOne(n: nat)
    ensures Samples(n, 1) == n + 1 && Shortening(n, 1) == 0
  {
  }

  lemma StartIndex(aMin: int, index: int)
    requires index == if 0 <= aMin < TABLE_SIZE then aMin else Normalised(aMin)
    ensures 0 <= index < TABLE_SIZE && Congruent(index, aMin)
  {
  }

  /** The arc's end goes behind what was swept. */
  lemma EndIndex(swept: seq<Slot<Sample>>, path: seq<Slot<Sample>>, start: nat, offs: seq<int>, aMin: int, aMax: int,
                 index: int)
    requires Holds(swept, start, offs, aMin, Direction(aMin, aMax)) && index == Normalised(aMax)
    requires start + |offs| < |swept| && path == swept[start + |offs| := Written(OnCircle(index))]
    ensures Holds(path, start, offs + [Abs(aMax - aMin)], aMin, Direction(aMin, aMax))
  {
    var offs', up := offs + [Abs(aMax - aMin)], Direction(aMin, aMax);
    forall k | 0 <= k < |offs'| ensures IsSample(path[start + k], Along(aMin, up, offs'[k])) {
      if k < |offs| {
        assert path[start + k] == swept[start + k];
      } else {
        assert Along(aMin, up, offs'[k]) == aMax;
      }
    }
  }

  /** The swept distances, with the end behind them when there is an overstep, are evenly spaced. */
  lemma ArcSpacing(offs: seq<int>, range: nat, firstStep: int, step: int)
    requires step >= 1 && firstStep == step - Shortening(range, step) && 1 <= firstStep
    requires Steps(offs, firstStep, step) && |offs| == range / step + 1
    requires offs[|offs| - 1] <= range < Due(offs, firstStep, step)
    ensures Even(if range % step > 0 then offs + [range] else offs, range, step)
  {
    var n := |offs|;
    StepsReach(offs, firstStep, step);
    LastGap(range, step, firstStep, n, offs[n - 1]);
    if range % step > 0 {
      WithEnd(offs, range, firstStep, step);
    } else {
      WithoutEnd(offs, range, step);
    }
  }

  /** How far the sweep stops from the end of the range. */
  lemma LastGap(range: nat, step: int, firstStep: int, n: nat, last: int)
    requires n >= 1 && step >= 1 && firstStep == step - Shortening(range, step) && n == range / step + 1
    requires last == if n == 1 then 0 else firstStep + Times(n - 2, step)
    ensures range % step == 0 ==> last == range && firstStep == step
    ensures range % step > 0 ==> 1 <= range - last <= step
    ensures range % step > 0 && n > 1 ==> 0 <= firstStep - (range - last) <= 1
  {
    WholeSteps(range, step);
  }

  lemma WithEnd(offs: seq<int>, range: nat, firstStep: int, step: int)
    requires 1 <= firstStep <= step && |offs| > 0 && Steps(offs, firstStep, step)
    requires 1 <= range - offs[|offs| - 1] <= step
    requires |offs| > 1 ==> 0 <= firstStep - (range - offs[|offs| - 1]) <= 1
    ensures Even(offs + [range], range, step)
  {
    var n, all := |offs|, offs + [range];
    forall k | 0 < k < |all|
      ensures all[k] - all[k - 1] == if k == n then range - offs[n - 1] else if k == 1 then firstStep else step
    {
      if k < n {
        assert all[k] == offs[k] && all[k - 1] == offs[k - 1];
      }
    }
  }

  lemma WithoutEnd(offs: seq<int>, range: nat, step: int)
    requires 1 <= step && |offs| > 0 && Steps(offs, step, step) && offs[|offs| - 1] == range
    ensures Even(offs, range, step)
  {
  }

  lemma {:induction false} StepsReach(offs: seq<int>, firstStep: int, step: int)
    requires |offs| > 0 && Steps(offs, firstStep, step)
    ensures offs[|offs| - 1] == if |offs| == 1 then 0 else firstStep + Times(|offs| - 2, step)
    decreases |offs|
  {
    var n := |offs|;
    if n > 1 {
      var front := offs[..n - 1];
      assert forall k | 0 < k < |front| :: front[k] - front[k - 1] == offs[k] - offs[k - 1];
      StepsReach(front, firstStep, step);
    }
  }

  lemma CongruentWrap(a: int, b: int)
    requires a == b || a == b - TABLE_SIZE || a == b + TABLE_SIZE
    ensures Congruent(a, b)
  {
  }
}
