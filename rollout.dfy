/**
 * Rollout evaluation (`doesUserPassRollout`): whether a user's rollout hash
 * lets them through a target's rollout at time `now`.
 *
 * The threshold is the rollout's current percentage. A user passes when that
 * percentage is positive and the hash is at most the percentage; so a
 * percentage of 1 lets every hash in [0, 1] through and a percentage of 0
 * lets nothing through, hash 0 included.
 */
module Rollouts {
  import opened Wrappers
  import opened Targeting

  datatype RolloutError = InvalidRollout

  /** The stages whose date has been reached, in declared order. */
  function Reached(stages: seq<RolloutStage>, now: int): (r: seq<RolloutStage>)
    ensures forall s :: s in r ==> s in stages && s.date <= now
    ensures |r| <= |stages|
  {
    if |stages| == 0 then []
    else if stages[0].date <= now then [stages[0]] + Reached(stages[1..], now)
    else Reached(stages[1..], now)
  }

  /** The stages still in the future, in declared order. */
  function Upcoming(stages: seq<RolloutStage>, now: int): (r: seq<RolloutStage>)
    ensures forall s :: s in r ==> s in stages && s.date > now
  {
    if |stages| == 0 then []
    else if stages[0].date > now then [stages[0]] + Upcoming(stages[1..], now)
    else Upcoming(stages[1..], now)
  }

  /** A stage is reached exactly when it is one of the stages and its date is not after `now`. */
  lemma {:induction false} ReachedExactly(stages: seq<RolloutStage>, now: int, s: RolloutStage)
    ensures s in Reached(stages, now) <==> s in stages && s.date <= now
  {
    if |stages| > 0 {
      ReachedExactly(stages[1..], now, s);
      assert stages == [stages[0]] + stages[1..];
    }
  }

  /** A stage is upcoming exactly when it is one of the stages and its date is after `now`. */
  lemma {:induction false} UpcomingExactly(stages: seq<RolloutStage>, now: int, s: RolloutStage)
    ensures s in Upcoming(stages, now) <==> s in stages && s.date > now
  {
    if |stages| > 0 {
      UpcomingExactly(stages[1..], now, s);
      assert stages == [stages[0]] + stages[1..];
    }
  }

  /**
   * The percentage of a gradual or stepped rollout at `now`. Before the start
   * date (with no stage reached) it is 0. Otherwise the last reached
   * breakpoint (a stage, or the start) holds, and it is interpolated linearly
   * towards the next stage only when that stage is linear.
   */
  function StagedPercentage(startDate: int, startPercentage: real, stages: seq<RolloutStage>, now: int): (r: real)
    ensures |Reached(stages, now)| == 0 && startDate > now ==> r == 0.0
  {
    var reached := Reached(stages, now);
    var upcoming := Upcoming(stages, now);
    if |reached| == 0 && startDate > now then 0.0
    else
      var fromDate := if |reached| == 0 then startDate else reached[|reached| - 1].date;
      var fromPercentage := if |reached| == 0 then startPercentage else reached[|reached| - 1].percentage;
      if |upcoming| == 0 || upcoming[0].kind == Discrete then fromPercentage
      else
        var next := upcoming[0];
        assert next in upcoming;
        assert |reached| > 0 ==> reached[|reached| - 1] in reached;
        Lerp(fromPercentage, next.percentage, Elapsed(fromDate, next.date, now))
  }

  /** The share of the interval from `fromDate` to `toDate` that has passed at `now`. */
  function Elapsed(fromDate: int, toDate: int, now: int): real
    requires fromDate < toDate
  {
    (now - fromDate) as real / (toDate - fromDate) as real
  }

  /** The percentage a fraction `f` of the way from `a` to `b`. */
  function Lerp(a: real, b: real, f: real): real
  {
    a + (b - a) * f
  }

  /** `getCurrentRolloutPercentage`: a schedule is all-or-nothing at its start date. */
  function CurrentPercentage(r: Rollout, now: int): (p: real)
    requires !r.Unrecognised?
    ensures r.Schedule? ==> (p == 1.0 <==> now >= r.startDate) && (p == 0.0 <==> now < r.startDate)
  {
    match r
    case Schedule(start) => if now >= start then 1.0 else 0.0
    case Gradual(start, p, stages) => StagedPercentage(start, p, stages, now)
    case Stepped(start, p, stages) => StagedPercentage(start, p, stages, now)
  }

  /**
   * `doesUserPassRollout`: an absent rollout lets everyone through; a rollout
   * object of no known type is an error.
   */
  function DoesUserPassRollout(rollout: Option<Rollout>, hash: real, now: int): (r: Result<bool, RolloutError>)
    ensures rollout.None? ==> r == Ok(true)
    ensures r.Err? <==> rollout == Some(Unrecognised)
    ensures r.Ok? && rollout.Some? ==>
              (r.value <==> CurrentPercentage(rollout.value, now) > 0.0 && hash <= CurrentPercentage(rollout.value, now))
  {
    match rollout
    case None => Ok(true)
    case Some(Unrecognised) => Err(InvalidRollout)
    case Some(x) =>
      var p := CurrentPercentage(x, now);
      Ok(p > 0.0 && hash <= p)
  }

  /** Whether every percentage a rollout names lies in [0, 1]. */
  predicate PercentagesInRange(r: Rollout)
  {
    match r
    case Schedule(_) => true
    case Gradual(_, p, stages) => 0.0 <= p <= 1.0 && forall i :: 0 <= i < |stages| ==> 0.0 <= stages[i].percentage <= 1.0
    case Stepped(_, p, stages) => 0.0 <= p <= 1.0 && forall i :: 0 <= i < |stages| ==> 0.0 <= stages[i].percentage <= 1.0
    case Unrecognised => true
  }

  /** Interpolating between two percentages by a fraction in [0, 1] gives a percentage. */
  lemma Interpolation(a: real, b: real, f: real)
    requires 0.0 <= a <= 1.0 && 0.0 <= b <= 1.0 && 0.0 <= f <= 1.0
    ensures 0.0 <= Lerp(a, b, f) <= 1.0
  {
    if b >= a {
      NonNegativeProduct(b - a, f);
      NonNegativeProduct(b - a, 1.0 - f);
      assert (b - a) * f + (b - a) * (1.0 - f) == b - a;
    } else {
      NonNegativeProduct(a - b, f);
      NonNegativeProduct(a - b, 1.0 - f);
      assert (a - b) * f + (a - b) * (1.0 - f) == a - b;
      assert (b - a) * f == -((a - b) * f);
    }
  }

  lemma NonNegativeProduct(x: real, y: real)
    requires x >= 0.0 && y >= 0.0
    ensures x * y >= 0.0
  {
  }

  /** Between the two dates of an interval, the elapsed share lies in [0, 1]. */
  lemma Fraction(fromDate: int, toDate: int, now: int)
    requires fromDate <= now <= toDate && fromDate < toDate
    ensures 0.0 <= Elapsed(fromDate, toDate, now) <= 1.0
  {
    var x := (now - fromDate) as real;
    var y := (toDate - fromDate) as real;
    var f := x / y;
    assert Elapsed(fromDate, toDate, now) == f;
    assert f * y == x;
  }

  /** The current percentage of a well-formed rollout is itself a percentage, at every time. */
  lemma CurrentPercentageInRange(r: Rollout, now: int)
    requires !r.Unrecognised? && PercentagesInRange(r)
    ensures 0.0 <= CurrentPercentage(r, now) <= 1.0
  {
    if !r.Schedule? {
      StagedPercentageInRange(r.startDate, r.startPercentage, r.stages, now);
    }
  }

  lemma StagedPercentageInRange(startDate: int, startPercentage: real, stages: seq<RolloutStage>, now: int)
    requires 0.0 <= startPercentage <= 1.0
    requires forall i :: 0 <= i < |stages| ==> 0.0 <= stages[i].percentage <= 1.0
    ensures 0.0 <= StagedPercentage(startDate, startPercentage, stages, now) <= 1.0
  {
    var reached := Reached(stages, now);
    var upcoming := Upcoming(stages, now);
    if !(|reached| == 0 && startDate > now) {
      var fromDate := if |reached| == 0 then startDate else reached[|reached| - 1].date;
      var fromPercentage := if |reached| == 0 then startPercentage else reached[|reached| - 1].percentage;
      if |reached| > 0 {
        assert reached[|reached| - 1] in reached;
        assert reached[|reached| - 1] in stages;
      }
      assert fromDate <= now;
      assert 0.0 <= fromPercentage <= 1.0;
      if !(|upcoming| == 0 || upcoming[0].kind == Discrete) {
        var next := upcoming[0];
        assert next in upcoming;
        assert next in stages && now < next.date;
        Fraction(fromDate, next.date, now);
        Interpolation(fromPercentage, next.percentage, Elapsed(fromDate, next.date, now));
      }
    }
  }

  /** Passing is down-closed in the hash: whoever passes, every smaller hash passes too. */
  lemma PassingIsDownwardClosed(rollout: Option<Rollout>, hash: real, smaller: real, now: int)
    requires smaller <= hash
    requires DoesUserPassRollout(rollout, hash, now) == Ok(true)
    ensures DoesUserPassRollout(rollout, smaller, now) == Ok(true)
  {
  }

  /** A schedule passes every hash in [0, 1] once it has started, and none before. */
  lemma ScheduleRule(start: int, hash: real, now: int)
    requires 0.0 <= hash <= 1.0
    ensures DoesUserPassRollout(Some(Schedule(start)), hash, now) == Ok(now >= start)
  {
  }

  /** A gradual or stepped rollout whose start and stages all lie in the future fails every hash, 0 included. */
  lemma {:induction false} FutureStartFails(r: Rollout, hash: real, now: int)
    requires r.Gradual? || r.Stepped?
    requires r.startDate > now
    requires forall i :: 0 <= i < |r.stages| ==> r.stages[i].date > now
    ensures DoesUserPassRollout(Some(r), hash, now) == Ok(false)
  {
    NoneReached(r.stages, now);
  }

  /** When every stage has been reached, all of them are reached and none is upcoming. */
  lemma {:induction false} AllReached(stages: seq<RolloutStage>, now: int)
    requires forall i :: 0 <= i < |stages| ==> stages[i].date <= now
    ensures Reached(stages, now) == stages && Upcoming(stages, now) == []
  {
    if |stages| > 0 {
      AllReached(stages[1..], now);
      assert stages == [stages[0]] + stages[1..];
    }
  }

  /** When every stage lies in the future, none is reached and all of them are upcoming. */
  lemma {:induction false} NoneReached(stages: seq<RolloutStage>, now: int)
    requires forall i :: 0 <= i < |stages| ==> stages[i].date > now
    ensures Reached(stages, now) == [] && Upcoming(stages, now) == stages
  {
    if |stages| > 0 {
      NoneReached(stages[1..], now);
      assert stages == [stages[0]] + stages[1..];
    }
  }

  /**
   * Once past the start and every stage, the last stage's percentage holds
   * for good; with a final percentage of 1 every hash in [0, 1] passes.
   */
  lemma PastAllStagesHoldsLast(r: Rollout, hash: real, now: int)
    requires r.Gradual? || r.Stepped?
    requires r.startDate <= now && |r.stages| > 0
    requires forall i :: 0 <= i < |r.stages| ==> r.stages[i].date <= now
    ensures CurrentPercentage(r, now) == r.stages[|r.stages| - 1].percentage
    ensures r.stages[|r.stages| - 1].percentage == 1.0 && 0.0 <= hash <= 1.0 ==>
              DoesUserPassRollout(Some(r), hash, now) == Ok(true)
  {
    AllReached(r.stages, now);
  }

  /** Without stages, a started rollout holds its start percentage. */
  lemma NoStagesHoldsStart(r: Rollout, now: int)
    requires r.Gradual? || r.Stepped?
    requires r.startDate <= now && r.stages == []
    ensures CurrentPercentage(r, now) == r.startPercentage
  {
  }

  /**
   * When the next stage is discrete there is no interpolation: the
   * percentage is that of the most recently reached stage.
   */
  lemma DiscreteNextStageHolds(r: Rollout, now: int)
    requires r.Gradual? || r.Stepped?
    requires |Reached(r.stages, now)| > 0
    requires |Upcoming(r.stages, now)| > 0 && Upcoming(r.stages, now)[0].kind == Discrete
    ensures CurrentPercentage(r, now) == Reached(r.stages, now)[|Reached(r.stages, now)| - 1].percentage
  {
  }

  /**
   * From percentage 0 at one day before `now` to `p` linearly at one day
   * after, the threshold at `now` is exactly `p / 2`.
   */
  lemma {:induction false} LinearMidpoint(day: int, p: real, hash: real, now: int)
    requires day > 0
    ensures CurrentPercentage(Gradual(now - day, 0.0, [RolloutStage(Linear, now + day, p)]), now) == p / 2.0
    ensures DoesUserPassRollout(Some(Gradual(now - day, 0.0, [RolloutStage(Linear, now + day, p)])), hash, now)
            == Ok(p / 2.0 > 0.0 && hash <= p / 2.0)
  {
    var stages := [RolloutStage(Linear, now + day, p)];
    NoneReached(stages, now);
    assert Elapsed(now - day, now + day, now) == 0.5;
  }

  /** The gradual cases of the bucketing tests: threshold 1/2 for p = 1, 2/5 for p = 0.8. */
  lemma LinearRolloutCases(day: int, now: int)
    requires day > 0
    ensures var r1 := Some(Gradual(now - day, 0.0, [RolloutStage(Linear, now + day, 1.0)]));
            && DoesUserPassRollout(r1, 0.35, now) == Ok(true)
            && DoesUserPassRollout(r1, 0.2, now) == Ok(true)
            && DoesUserPassRollout(r1, 0.75, now) == Ok(false)
            && DoesUserPassRollout(r1, 0.85, now) == Ok(false)
    ensures var r8 := Some(Gradual(now - day, 0.0, [RolloutStage(Linear, now + day, 0.8)]));
            && DoesUserPassRollout(r8, 0.35, now) == Ok(true)
            && DoesUserPassRollout(r8, 0.51, now) == Ok(false)
            && DoesUserPassRollout(r8, 0.95, now) == Ok(false)
  {
    LinearMidpoint(day, 1.0, 0.35, now);
    LinearMidpoint(day, 1.0, 0.2, now);
    LinearMidpoint(day, 1.0, 0.75, now);
    LinearMidpoint(day, 1.0, 0.85, now);
    LinearMidpoint(day, 0.8, 0.35, now);
    LinearMidpoint(day, 0.8, 0.51, now);
    LinearMidpoint(day, 0.8, 0.95, now);
  }

  /**
   * The stepped case of the bucketing tests: stages at 2 and 1 days ago and
   * 1 day ahead, all discrete, hold the 0.5 of the stage reached last.
   */
  lemma SteppedRolloutCase(day: int, now: int)
    requires day > 0
    ensures var r := Stepped(now - 3 * day, 0.0,
                             [RolloutStage(Discrete, now - 2 * day, 0.25),
                              RolloutStage(Discrete, now - day, 0.5),
                              RolloutStage(Discrete, now + day, 0.75)]);
            && CurrentPercentage(r, now) == 0.5
            && DoesUserPassRollout(Some(r), 0.4, now) == Ok(true)
            && DoesUserPassRollout(Some(r), 0.6, now) == Ok(false)
  {
    var stages := [RolloutStage(Discrete, now - 2 * day, 0.25),
                   RolloutStage(Discrete, now - day, 0.5),
                   RolloutStage(Discrete, now + day, 0.75)];
    NoneReached(stages[2..], now);
    assert stages[1..][1..] == stages[2..];
    assert Reached(stages, now) == stages[..2];
    assert Upcoming(stages, now) == stages[2..];
  }
}
