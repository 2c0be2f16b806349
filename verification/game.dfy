/**
 The game state of the bouncing-ball demo and its per-frame update: the
 ball moves and reflects (module Motion), then the frame counter ticks and
 every 60th update refreshes the FPS label (module FpsSampler).

 The demo's state keeps a font and a text handle for the FPS label; here
 they are replaced by the `Label` they display. The host's frame-rate
 measurement is an opaque value of type `F` passed to every update.
 */
module Game {
  import Motion
  import opened FpsSampler

  datatype MainState<F> = MainState(ball: Motion.Ball, frames: U8, fpsLabel: Label<F>)

  /** The state after one update, and whether that update refreshed the label. */
  datatype Stepped<F> = Stepped(state: MainState<F>, refreshed: bool)

  /** The state after a run of updates, and the refresh flag of each update in order. */
  datatype Trace<F> = Trace(final: MainState<F>, refreshes: seq<bool>)

  /** Start position of the ball on both axes. */
  const Origin: real := 10.0

  /**
   The ball of the constructor. `u` and `w` stand for the two uniform
   samples in `[0, 1)` drawn at startup; each velocity component is
   `sample * 20 - 10`.
   */
  function NewBall(u: real, w: real): (b: Motion.Ball)
    requires 0.0 <= u < 1.0 && 0.0 <= w < 1.0
    ensures b.x == Origin && b.y == Origin
    ensures -10.0 <= b.dx < 10.0 && -10.0 <= b.dy < 10.0
    ensures Motion.Contained(b)
  {
    Motion.Ball(Origin, u * 20.0 - 10.0, Origin, w * 20.0 - 10.0)
  }

  /** The constructor: the starting ball, the counter at 0 and the placeholder label. */
  function New<F>(u: real, w: real): (s: MainState<F>)
    requires 0.0 <= u < 1.0 && 0.0 <= w < 1.0
    ensures s.ball == NewBall(u, w)
    ensures s.frames == 0 && s.fpsLabel == Placeholder
    ensures Valid(s)
  {
    MainState(NewBall(u, w), 0, Placeholder)
  }

  /** The invariant every reachable state keeps: the counter is in `[0, 60)`. */
  predicate Valid<F>(s: MainState<F>) {
    ValidCounter(s.frames)
  }

  /**
   One update: the ball step, then the counter tick. The update fails only
   when the `u8` counter increment overflows.
   */
  function Update<F>(s: MainState<F>, measured: F): (r: Result<Stepped<F>>)
    ensures r.Ok? <==> s.frames < 255
    // the counter and the label never change the ball
    ensures r.Ok? ==> r.value.state.ball == Motion.Move(s.ball)
    // and the ball never changes the counter or the label
    ensures r.Ok? ==> Tick(s.frames, s.fpsLabel, measured)
                      == Ok(Sample(r.value.state.frames, r.value.state.fpsLabel, r.value.refreshed))
  {
    var ball := Motion.Move(s.ball);
    match Tick(s.frames, s.fpsLabel, measured)
    case Err(e) => Err(e)
    case Ok(t) => Ok(Stepped(MainState(ball, t.frames, t.fpsLabel), t.refreshed))
  }

  /**
   Consecutive updates, one per reading, as the host loop calls `update`
   once per frame; the run stops at the first failing update.
   */
  function Run<F>(s: MainState<F>, readings: seq<F>): (r: Result<Trace<F>>)
    // only the first update can fail: any later one starts from a counter below 60
    ensures r.Ok? <==> |readings| == 0 || s.frames < 255
    // one refresh flag per update
    ensures r.Ok? ==> |r.value.refreshes| == |readings|
    // no updates leave the state as it is
    ensures |readings| == 0 ==> r == Ok(Trace(s, []))
    // a failing first update fails the run
    ensures |readings| > 0 && Update(s, readings[0]).Err? ==> r.Err?
    // otherwise the first flag is that of the first update
    ensures |readings| > 0 && r.Ok? ==> Update(s, readings[0]).Ok? && r.value.refreshes[0] == Update(s, readings[0]).value.refreshed
    decreases |readings|
  {
    if |readings| == 0 then Ok(Trace(s, []))
    else
      match Update(s, readings[0])
      case Err(e) => Err(e)
      case Ok(o) =>
        match Run(o.state, readings[1..])
        case Err(e) => Err(e)
        case Ok(t) => Ok(Trace(t.final, [o.refreshed] + t.refreshes))
  }

  /** The number of `true` flags. */
  function CountTrue(bs: seq<bool>): nat {
    if |bs| == 0 then 0 else (if bs[0] then 1 else 0) + CountTrue(bs[1..])
  }

  /**
   From a valid state an update never fails and keeps the state valid, so
   the `u8` increment never overflows. It refreshes the label exactly when
   the counter was 59, and then installs the reading and resets the
   counter; otherwise the counter goes up by one and the label stays.
   */
  lemma UpdateKeepsValid<F>(s: MainState<F>, measured: F)
    requires Valid(s)
    ensures Update(s, measured).Ok?
    ensures Valid(Update(s, measured).value.state)
    ensures Update(s, measured).value.refreshed <==> s.frames as int == Period - 1
    ensures Update(s, measured).value.refreshed ==>
              Update(s, measured).value.state.frames == 0
              && Update(s, measured).value.state.fpsLabel == Reading(measured)
    ensures !Update(s, measured).value.refreshed ==>
              Update(s, measured).value.state.frames == s.frames + 1
              && Update(s, measured).value.state.fpsLabel == s.fpsLabel
  {
  }

  /**
   Independence of the parts of an update: the new x and dx depend only on
   x and dx, the new y and dy only on y and dy, and the counter, label and
   refresh flag only on the counter, the label and the reading.
   */
  lemma UpdateIndependent<F>(s1: MainState<F>, s2: MainState<F>, m1: F, m2: F)
    requires Update(s1, m1).Ok? && Update(s2, m2).Ok?
    ensures s1.ball.XAxis() == s2.ball.XAxis() ==>
              Update(s1, m1).value.state.ball.XAxis() == Update(s2, m2).value.state.ball.XAxis()
    ensures s1.ball.YAxis() == s2.ball.YAxis() ==>
              Update(s1, m1).value.state.ball.YAxis() == Update(s2, m2).value.state.ball.YAxis()
    ensures s1.frames == s2.frames && s1.fpsLabel == s2.fpsLabel && m1 == m2 ==>
              && Update(s1, m1).value.state.frames == Update(s2, m2).value.state.frames
              && Update(s1, m1).value.state.fpsLabel == Update(s2, m2).value.state.fpsLabel
              && Update(s1, m1).value.refreshed == Update(s2, m2).value.refreshed
  {
  }

  /** One update followed by the rest of the run, from a valid state. */
  lemma RunUnfold<F>(s: MainState<F>, readings: seq<F>)
    requires Valid(s) && |readings| > 0
    ensures Update(s, readings[0]).Ok?
    ensures Run(s, readings).Ok? <==> Run(Update(s, readings[0]).value.state, readings[1..]).Ok?
    ensures Run(s, readings).Ok? ==>
              Run(s, readings).value
              == Trace(Run(Update(s, readings[0]).value.state, readings[1..]).value.final,
                       [Update(s, readings[0]).value.refreshed]
                       + Run(Update(s, readings[0]).value.state, readings[1..]).value.refreshes)
  {
  }

  /**
   A run from a valid state with counter `c` never fails, keeps the state
   valid, ends with the counter at `(c + n) % 60`, and moves the ball `n`
   times.
   */
  lemma {:induction false} RunCounter<F>(s: MainState<F>, readings: seq<F>)
    requires Valid(s)
    ensures Run(s, readings).Ok?
    ensures Valid(Run(s, readings).value.final)
    ensures Run(s, readings).value.final.frames as int == (s.frames as int + |readings|) % Period
    ensures Run(s, readings).value.final.ball == Motion.MoveN(s.ball, |readings|)
    decreases |readings|
  {
    if |readings| > 0 {
      UpdateKeepsValid(s, readings[0]);
      RunUnfold(s, readings);
      RunCounter(Update(s, readings[0]).value.state, readings[1..]);
    }
  }

  /**
   The refresh schedule of a run from a valid state with counter `c`:
   update `i` (counting from 0) refreshes the label exactly when `c + i + 1`
   is a multiple of 60.
   */
  lemma {:induction false} RunRefreshes<F>(s: MainState<F>, readings: seq<F>)
    requires Valid(s)
    ensures Run(s, readings).Ok?
    ensures forall i :: 0 <= i < |readings| ==>
              (Run(s, readings).value.refreshes[i] <==> (s.frames as int + i + 1) % Period == 0)
    decreases |readings|
  {
    RunCounter(s, readings);
    if |readings| > 0 {
      UpdateKeepsValid(s, readings[0]);
      RunUnfold(s, readings);
      var o := Update(s, readings[0]).value;
      RunCounter(o.state, readings[1..]);
      RunRefreshes(o.state, readings[1..]);
      var rest := Run(o.state, readings[1..]).value.refreshes;
      var flags := Run(s, readings).value.refreshes;
      assert flags == [o.refreshed] + rest;
      forall i | 0 <= i < |readings|
        ensures flags[i] <==> (s.frames as int + i + 1) % Period == 0
      {
        if i > 0 {
          assert flags[i] == rest[i - 1];
          if s.frames as int == Period - 1 {
            assert o.state.frames as int + i == s.frames as int + i + 1 - Period;
            ModPeriodShift(o.state.frames as int + i);
          } else {
            assert o.state.frames as int + i == s.frames as int + i + 1;
          }
        }
      }
    }
  }

  /** Adding one period does not change a residue modulo the period. */
  lemma ModPeriodShift(x: int)
    ensures (x + Period) % Period == x % Period
  {
  }

  /** A run from a valid state with counter `c` refreshes the label `(c + n) / 60` times. */
  lemma {:induction false} RunRefreshCount<F>(s: MainState<F>, readings: seq<F>)
    requires Valid(s)
    ensures Run(s, readings).Ok?
    ensures CountTrue(Run(s, readings).value.refreshes) == (s.frames as int + |readings|) / Period
    decreases |readings|
  {
    RunCounter(s, readings);
    if |readings| > 0 {
      UpdateKeepsValid(s, readings[0]);
      RunUnfold(s, readings);
      var o := Update(s, readings[0]).value;
      RunCounter(o.state, readings[1..]);
      RunRefreshCount(o.state, readings[1..]);
      var rest := Run(o.state, readings[1..]).value.refreshes;
      var flags := Run(s, readings).value.refreshes;
      assert flags == [o.refreshed] + rest;
      assert flags[1..] == rest;
    }
  }

  /**
   The update on which the latest refresh of a run happened, for a run of
   `n` updates from counter `c` with at least one refresh.
   */
  function LastRefresh(c: int, n: int): int {
    Period * ((c + n) / Period) - c - 1
  }

  /**
   The label after a run from a valid state holds the reading of the most
   recent refresh, and is unchanged if there was none.
   */
  lemma {:induction false} RunLabel<F>(s: MainState<F>, readings: seq<F>)
    requires Valid(s)
    ensures Run(s, readings).Ok?
    ensures (s.frames as int + |readings|) / Period == 0 ==> Run(s, readings).value.final.fpsLabel == s.fpsLabel
    ensures (s.frames as int + |readings|) / Period > 0 ==>
              && 0 <= LastRefresh(s.frames as int, |readings|) < |readings|
              && Run(s, readings).value.final.fpsLabel == Reading(readings[LastRefresh(s.frames as int, |readings|)])
    decreases |readings|
  {
    RunCounter(s, readings);
    if |readings| > 0 {
      UpdateKeepsValid(s, readings[0]);
      RunUnfold(s, readings);
      var o := Update(s, readings[0]).value;
      var rest := readings[1..];
      RunCounter(o.state, rest);
      RunLabel(o.state, rest);
      assert Run(s, readings).value.final == Run(o.state, rest).value.final;
      var k := (o.state.frames as int + |rest|) / Period;
      if s.frames as int == Period - 1 {
        assert (s.frames as int + |readings|) / Period == k + 1;
        if k > 0 {
          assert LastRefresh(s.frames as int, |readings|) == LastRefresh(o.state.frames as int, |rest|) + 1;
          assert readings[LastRefresh(o.state.frames as int, |rest|) + 1] == rest[LastRefresh(o.state.frames as int, |rest|)];
        } else {
          assert LastRefresh(s.frames as int, |readings|) == 0;
        }
      } else {
        assert (s.frames as int + |readings|) / Period == k;
        if k > 0 {
          assert LastRefresh(s.frames as int, |readings|) == LastRefresh(o.state.frames as int, |rest|) + 1;
          assert readings[LastRefresh(o.state.frames as int, |rest|) + 1] == rest[LastRefresh(o.state.frames as int, |rest|)];
        }
      }
    }
  }

  /**
   From the constructor, `n` updates leave the counter at `n % 60`, with
   exactly `n / 60` refreshes, one on every 60th update.
   */
  lemma {:induction false} FromStartSchedule<F>(u: real, w: real, readings: seq<F>)
    requires 0.0 <= u < 1.0 && 0.0 <= w < 1.0
    ensures Run(New<F>(u, w), readings).Ok?
    ensures Run(New<F>(u, w), readings).value.final.frames as int == |readings| % Period
    ensures forall i :: 0 <= i < |readings| ==>
              (Run(New<F>(u, w), readings).value.refreshes[i] <==> (i + 1) % Period == 0)
    ensures CountTrue(Run(New<F>(u, w), readings).value.refreshes) == |readings| / Period
  {
    var s := New<F>(u, w);
    assert s.frames as int == 0;
    RunCounter(s, readings);
    RunRefreshes(s, readings);
    RunRefreshCount(s, readings);
  }

  /**
   From the constructor the label shows the placeholder until the 60th
   update, and afterwards the reading taken at the latest multiple of 60.
   */
  lemma {:induction false} FromStartLabel<F>(u: real, w: real, readings: seq<F>)
    requires 0.0 <= u < 1.0 && 0.0 <= w < 1.0
    ensures Run(New<F>(u, w), readings).Ok?
    ensures |readings| < Period ==> Run(New<F>(u, w), readings).value.final.fpsLabel == Placeholder
    ensures |readings| >= Period ==>
              Run(New<F>(u, w), readings).value.final.fpsLabel == Reading(readings[Period * (|readings| / Period) - 1])
  {
    var s := New<F>(u, w);
    assert s.frames as int == 0;
    RunLabel(s, readings);
    assert LastRefresh(0, |readings|) == Period * (|readings| / Period) - 1;
  }

  /**
   From the constructor the ball keeps its speed on both axes and never
   gets more than one step past an edge, however many updates run.
   */
  lemma {:induction false} FromStartContained<F>(u: real, w: real, readings: seq<F>)
    requires 0.0 <= u < 1.0 && 0.0 <= w < 1.0
    ensures Run(New<F>(u, w), readings).Ok?
    ensures Motion.Abs(Run(New<F>(u, w), readings).value.final.ball.dx) == Motion.Abs(New<F>(u, w).ball.dx)
    ensures Motion.Abs(Run(New<F>(u, w), readings).value.final.ball.dy) == Motion.Abs(New<F>(u, w).ball.dy)
    ensures -10.0 < Run(New<F>(u, w), readings).value.final.ball.x < 810.0
    ensures -10.0 < Run(New<F>(u, w), readings).value.final.ball.y < 610.0
  {
    var s := New<F>(u, w);
    RunCounter(s, readings);
    Motion.MoveNKeepsContained(s.ball, |readings|);
  }

  /**
   A ball starting at (10, 10) with velocity (-5, 0): the second update
   brings x to 0, which reflects, so after three updates the ball is at
   (5, 10) moving with velocity (5, 0).
   */
  lemma ThreeStepScenario<F>(readings: seq<F>)
    requires |readings| == 3
    ensures Run(MainState(Motion.Ball(10.0, -5.0, 10.0, 0.0), 0, Placeholder), readings).Ok?
    ensures Run(MainState(Motion.Ball(10.0, -5.0, 10.0, 0.0), 0, Placeholder), readings).value.final.ball
            == Motion.Ball(5.0, 5.0, 10.0, 0.0)
  {
    var s := MainState(Motion.Ball(10.0, -5.0, 10.0, 0.0), 0, Placeholder);
    RunCounter(s, readings);
    assert Motion.MoveN(s.ball, 3) == Motion.Ball(5.0, 5.0, 10.0, 0.0);
  }
}
