/** The per-frame rep counter of an exercise session. Each frame brings the raw
    joint angle (or nothing, when no pose or no angle was found) and the current
    time; the counter moves its stage between "up" and "down" by the thresholds
    of its mode, counts a rep on the closing transition once the cooldown has
    passed, and buffers the normalised angle of every measured frame. */
module RepCounting {
  import opened Numeric
  import opened Stats
  import opened Util
  import opened Catalog

  /** `stage`: `None`, `"up"` or `"down"`. */
  datatype Stage = Unset | Up | Down

  /** How frames are judged. `Custom` is a custom exercise's primary joint with
      its calibrated limits; the four built-in exercises have fixed thresholds;
      `Unmeasured` is a session that never obtains an angle (a primary joint
      without a landmark triple, or an unknown built-in exercise). */
  datatype Mode = Custom(limMin: real, limMax: real) | Squat | Pushup | Curl | Raise | Unmeasured

  /** Seconds that must pass after a counted rep before the next can count. */
  const Cooldown: real := 0.4

  /** The counter's whole state: `stage`, `counter`, `last_time` and the three
      angle buffers `rep_angles`, `rep_averages`, `all_angles`. */
  datatype Tracker = Tracker(
    stage: Stage,
    counter: nat,
    lastTime: real,
    repAngles: seq<real>,
    repAverages: seq<real>,
    allAngles: seq<real>)

  /** The state at the start of a session begun at time `now`. */
  function Start(now: real): Tracker
  {
    Tracker(Unset, 0, now, [], [], [])
  }

  /** Counting a rep: the counter goes up, the cooldown restarts, and a non-empty
      buffer is closed into one more rep average. */
  function CloseRep(t: Tracker, now: real): Tracker
  {
    var counted := t.(counter := t.counter + 1, lastTime := now);
    if t.repAngles != [] then counted.(repAverages := t.repAverages + [Mean(t.repAngles)], repAngles := [])
    else counted
  }

  /** Custom mode: above `lim_max - 5` a "down" stage turns "up"; below
      `lim_min + 5` an "up" stage counts a rep if the cooldown has passed and
      turns "down" either way; a stage still unset is set by the limits'
      midpoint. */
  function CustomTransition(t: Tracker, limMin: real, limMax: real, a: real, now: real): Tracker
  {
    var s1 := if a > limMax - 5.0 && t.stage == Down then Up else t.stage;
    var t1 := t.(stage := s1);
    var t2 :=
      if a < limMin + 5.0 && s1 == Up then
        (if now - t.lastTime > Cooldown then CloseRep(t1, now) else t1).(stage := Down)
      else t1;
    if t2.stage == Unset then t2.(stage := if a > (limMin + limMax) / 2.0 then Up else Down)
    else t2
  }

  /** Squat and push-up: above `upAbove` the stage is "up"; below `downBelow` an
      "up" stage turns "down"; above 140 a "down" stage counts a rep once the
      cooldown has passed and turns "up". */
  function RiseFallTransition(t: Tracker, upAbove: real, downBelow: real, a: real, now: real): Tracker
  {
    var s1 := if a > upAbove then Up else t.stage;
    var s2 := if a < downBelow && s1 == Up then Down else s1;
    if a > 140.0 && s2 == Down && now - t.lastTime > Cooldown then CloseRep(t.(stage := s2), now).(stage := Up)
    else t.(stage := s2)
  }

  /** Curl and raise: when `rearm` holds the stage is "down"; when `fire` holds a
      "down" stage counts a rep once the cooldown has passed and turns "up". */
  function ArmFireTransition(t: Tracker, rearm: bool, fire: bool, now: real): Tracker
  {
    var s1 := if rearm then Down else t.stage;
    if fire && s1 == Down && now - t.lastTime > Cooldown then CloseRep(t.(stage := s1), now).(stage := Up)
    else t.(stage := s1)
  }

  /** The stage machine of a mode, before the frame's angle is buffered. */
  function Transition(t: Tracker, mode: Mode, a: real, now: real): Tracker
  {
    match mode
    case Custom(limMin, limMax) => CustomTransition(t, limMin, limMax, a, now)
    case Squat => RiseFallTransition(t, 160.0, 95.0, a, now)
    case Pushup => RiseFallTransition(t, 150.0, 90.0, a, now)
    case Curl => ArmFireTransition(t, a > 150.0, a < 60.0, now)
    case Raise => ArmFireTransition(t, a < 30.0, a > 75.0, now)
    case Unmeasured => t
  }

  /** One frame: without an angle nothing changes; otherwise the stage machine
      runs on the raw angle, and afterwards the normalised angle is appended to
      both `all_angles` and `rep_angles`. */
  function Advance(t: Tracker, mode: Mode, frame: Option<real>, now: real): Tracker
  {
    if frame.None? || mode.Unmeasured? then t
    else
      var t1 := Transition(t, mode, frame.value, now);
      var v := Normalize(frame.value);
      t1.(allAngles := t1.allAngles + [v], repAngles := t1.repAngles + [v])
  }

  /** The end of the session: a non-empty leftover buffer becomes one more rep
      average. */
  function Finalize(t: Tracker): Tracker
  {
    if t.repAngles != [] then t.(repAverages := t.repAverages + [Mean(t.repAngles)]) else t
  }

  predicate AllAngles(s: seq<real>, lo: real, hi: real)
  {
    forall i :: 0 <= i < |s| ==> lo <= s[i] <= hi
  }

  /** What every reachable state satisfies: one rep average per counted rep; the
      rep buffer is the (non-empty, once anything was measured) tail of the list
      of all angles; a set stage implies a measured frame; every buffered angle is
      normalised. */
  predicate Consistent(t: Tracker)
  {
    |t.repAverages| == t.counter
    && |t.repAngles| <= |t.allAngles|
    && t.repAngles == t.allAngles[|t.allAngles| - |t.repAngles|..]
    && (t.repAngles == [] <==> t.allAngles == [])
    && (t.stage != Unset ==> t.repAngles != [])
    && (forall i :: 0 <= i < |t.allAngles| ==> 0.0 <= t.allAngles[i] < 180.0)
    && AllAngles(t.repAverages, 0.0, 180.0)
  }

  /** When a frame counts a rep, stated directly by mode: custom mode on an angle
      below `lim_min + 5` reached from "up" (or from "down" in the same frame, when
      the angle is also above `lim_max - 5`); squat only for an angle in
      (140, 160] and push-up in (140, 150], as the "up" threshold is applied
      first; curl below 60 and raise above 75, each from "down". Always only
      after the cooldown. */
  predicate CountsRep(t: Tracker, mode: Mode, a: real, now: real)
  {
    var cooled := now - t.lastTime > Cooldown;
    match mode
    case Custom(limMin, limMax) =>
      a < limMin + 5.0 && (t.stage == Up || (t.stage == Down && a > limMax - 5.0)) && cooled
    case Squat => t.stage == Down && 140.0 < a <= 160.0 && cooled
    case Pushup => t.stage == Down && 140.0 < a <= 150.0 && cooled
    case Curl => t.stage == Down && a < 60.0 && cooled
    case Raise => t.stage == Down && a > 75.0 && cooled
    case Unmeasured => false
  }

  /** r is t after a transition that counted a rep (when `counts`) or changed
      nothing but the stage (otherwise). */
  predicate ClosedOrKept(t: Tracker, r: Tracker, counts: bool, now: real)
  {
    r.allAngles == t.allAngles
    && (counts ==>
          t.repAngles != []
          && r.counter == t.counter + 1 && r.lastTime == now
          && r.repAverages == t.repAverages + [Mean(t.repAngles)] && r.repAngles == [])
    && (!counts ==>
          r.counter == t.counter && r.lastTime == t.lastTime
          && r.repAverages == t.repAverages && r.repAngles == t.repAngles)
  }

  lemma CustomTransitionSpec(t: Tracker, limMin: real, limMax: real, a: real, now: real)
    requires t.stage != Unset ==> t.repAngles != []
    ensures ClosedOrKept(t, CustomTransition(t, limMin, limMax, a, now),
      a < limMin + 5.0 && (t.stage == Up || (t.stage == Down && a > limMax - 5.0)) && now - t.lastTime > Cooldown, now)
  {
  }

  /** Squat and push-up count only from "down" and only on an angle in
      (140, upAbove], because the "up" threshold is applied first. */
  lemma RiseFallTransitionSpec(t: Tracker, upAbove: real, downBelow: real, a: real, now: real)
    requires t.stage != Unset ==> t.repAngles != []
    requires downBelow <= 140.0 < upAbove
    ensures ClosedOrKept(t, RiseFallTransition(t, upAbove, downBelow, a, now),
      t.stage == Down && 140.0 < a <= upAbove && now - t.lastTime > Cooldown, now)
  {
  }

  /** Curl and raise count only from "down", on a frame that does not also re-arm. */
  lemma ArmFireTransitionSpec(t: Tracker, rearm: bool, fire: bool, now: real)
    requires t.stage != Unset ==> t.repAngles != []
    requires !(rearm && fire)
    ensures ClosedOrKept(t, ArmFireTransition(t, rearm, fire, now),
      t.stage == Down && fire && now - t.lastTime > Cooldown, now)
  {
  }

  /** A transition counts exactly the reps `CountsRep` describes, one at most, and
      closes the buffer when it counts; otherwise it leaves the count, the
      cooldown clock and the buffers alone. It never touches `all_angles`. */
  lemma TransitionSpec(t: Tracker, mode: Mode, a: real, now: real)
    requires Consistent(t)
    ensures ClosedOrKept(t, Transition(t, mode, a, now), CountsRep(t, mode, a, now), now)
  {
    match mode {
      case Custom(limMin, limMax) => CustomTransitionSpec(t, limMin, limMax, a, now);
      case Squat => RiseFallTransitionSpec(t, 160.0, 95.0, a, now);
      case Pushup => RiseFallTransitionSpec(t, 150.0, 90.0, a, now);
      case Curl => ArmFireTransitionSpec(t, a > 150.0, a < 60.0, now);
      case Raise => ArmFireTransitionSpec(t, a < 30.0, a > 75.0, now);
      case Unmeasured =>
    }
  }

  /** A frame with an angle counts a rep exactly when `CountsRep` holds, buffers
      its normalised angle in `all_angles`, and seeds the next rep's buffer with
      it when it closes a rep. */
  lemma AdvanceSpec(t: Tracker, mode: Mode, a: real, now: real)
    requires Consistent(t) && !mode.Unmeasured?
    ensures var r := Advance(t, mode, Some(a), now);
      r.allAngles == t.allAngles + [Normalize(a)]
      && (r.counter == t.counter + 1 <==> CountsRep(t, mode, a, now))
      && (CountsRep(t, mode, a, now) ==>
            r.repAverages == t.repAverages + [Mean(t.repAngles)] && r.repAngles == [Normalize(a)])
      && (!CountsRep(t, mode, a, now) ==>
            r.counter == t.counter && r.repAverages == t.repAverages
            && r.repAngles == t.repAngles + [Normalize(a)])
  {
    TransitionSpec(t, mode, a, now);
  }

  /** A frame without an angle, or any frame of a session that never measures,
      changes nothing. */
  lemma NothingMeasuredChangesNothing(t: Tracker, mode: Mode, frame: Option<real>, now: real)
    requires frame.None? || mode.Unmeasured?
    ensures Advance(t, mode, frame, now) == t
  {
  }

  /** Every frame keeps the state consistent. */
  lemma AdvanceConsistent(t: Tracker, mode: Mode, frame: Option<real>, now: real)
    requires Consistent(t)
    ensures Consistent(Advance(t, mode, frame, now))
  {
    if frame.Some? && !mode.Unmeasured? {
      var a := frame.value;
      AdvanceSpec(t, mode, a, now);
      AppendKeepsConsistent(t, Advance(t, mode, frame, now), Normalize(a), CountsRep(t, mode, a, now));
    }
  }

  /** Appending a normalised angle after a counted or uncounted transition keeps
      the state consistent. */
  lemma AppendKeepsConsistent(t: Tracker, r: Tracker, v: real, counts: bool)
    requires Consistent(t) && 0.0 <= v < 180.0
    requires r.allAngles == t.allAngles + [v]
    requires counts ==>
      r.counter == t.counter + 1 && t.repAngles != []
      && r.repAverages == t.repAverages + [Mean(t.repAngles)] && r.repAngles == [v]
    requires !counts ==>
      r.counter == t.counter && r.repAverages == t.repAverages && r.repAngles == t.repAngles + [v]
    ensures Consistent(r)
  {
    if counts {
      MeanBounds(t.repAngles, 0.0, 180.0);
      assert r.repAngles == r.allAngles[|r.allAngles| - 1..];
    } else {
      var n, k := |t.allAngles|, |t.repAngles|;
      assert r.repAngles == r.allAngles[n + 1 - (k + 1)..];
    }
  }

  /** Custom mode, first measured frame: the stage is set by the midpoint of the
      limits and no rep is counted. */
  lemma CustomFirstAngle(t: Tracker, limMin: real, limMax: real, a: real, now: real)
    requires t.stage == Unset
    ensures var r := Advance(t, Custom(limMin, limMax), Some(a), now);
      r.counter == t.counter && r.stage == (if a > (limMin + limMax) / 2.0 then Up else Down)
  {
  }

  /** Custom mode: once set, the stage turns "up" only from "down", on an angle
      above `lim_max - 5`, and never on an angle below `lim_min + 5`. */
  lemma CustomUpOnlyFromDown(t: Tracker, limMin: real, limMax: real, a: real, now: real)
    requires t.stage != Unset
    requires Advance(t, Custom(limMin, limMax), Some(a), now).stage == Up
    ensures t.stage == Up || (t.stage == Down && a > limMax - 5.0)
    ensures a >= limMin + 5.0
  {
  }

  /** Custom mode: a closing angle that arrives within the cooldown still turns
      the stage "down", so the rep is lost rather than counted later. */
  lemma CustomCooldownLosesRep(t: Tracker, limMin: real, limMax: real, a: real, now: real)
    requires a < limMin + 5.0 && (t.stage == Up || (t.stage == Down && a > limMax - 5.0))
    requires now - t.lastTime <= Cooldown
    ensures var r := Advance(t, Custom(limMin, limMax), Some(a), now);
      r.stage == Down && r.counter == t.counter && r.lastTime == t.lastTime
      && r.repAverages == t.repAverages
  {
  }

  /** Custom mode with limits less than 10 degrees apart: a joint held still
      between `lim_max - 5` and `lim_min + 5` counts a rep on every frame once
      the cooldown has passed. */
  lemma CustomNarrowLimitsCountWhileStill(t: Tracker, limMin: real, limMax: real, a: real, now: real)
    requires Consistent(t) && t.stage == Down
    requires limMax - 5.0 < a < limMin + 5.0
    requires now - t.lastTime > Cooldown
    ensures var r := Advance(t, Custom(limMin, limMax), Some(a), now);
      r.counter == t.counter + 1 && r.stage == Down
  {
    AdvanceSpec(t, Custom(limMin, limMax), a, now);
  }

  /** Squat: from "down", an angle above 160 turns the stage "up" without counting;
      the rep is lost until the next down-and-up cycle. */
  lemma SquatOvershootSkipsRep(t: Tracker, a: real, now: real)
    requires t.stage == Down && a > 160.0
    ensures var r := Advance(t, Squat, Some(a), now);
      r.counter == t.counter && r.stage == Up
  {
  }

  /** The built-in exercises leave the stage "up" after a counted rep. */
  lemma BuiltInRepEndsUp(t: Tracker, mode: Mode, a: real, now: real)
    requires mode.Squat? || mode.Pushup? || mode.Curl? || mode.Raise?
    requires CountsRep(t, mode, a, now)
    ensures Advance(t, mode, Some(a), now).stage == Up
  {
  }

  /** Finalisation adds one trailing rep average exactly when any angle was
      measured, so the session reports `counter` or `counter + 1` averages, all
      within [0, 180]. */
  lemma FinalizeSpec(t: Tracker)
    requires Consistent(t)
    ensures |Finalize(t).repAverages| == t.counter + (if t.allAngles != [] then 1 else 0)
    ensures Finalize(t).repAverages[..t.counter] == t.repAverages
    ensures AllAngles(Finalize(t).repAverages, 0.0, 180.0)
    ensures Finalize(t).allAngles == t.allAngles && Finalize(t).counter == t.counter
  {
    if t.repAngles != [] {
      MeanBounds(t.repAngles, 0.0, 180.0);
    }
  }

  /** The rep counter of `start_exercise`, with the state of its frame loop as
      fields. */
  class RepCounter {
    const mode: Mode
    var stage: Stage
    var counter: nat
    var lastTime: real
    var repAngles: seq<real>
    var repAverages: seq<real>
    var allAngles: seq<real>

    function Snapshot(): Tracker
      reads this
    {
      Tracker(stage, counter, lastTime, repAngles, repAverages, allAngles)
    }

    ghost predicate Valid()
      reads this
    {
      Consistent(Snapshot())
    }

    /** `counter = 0`, `stage = None`, `last_time = time.time()`, empty buffers. */
    constructor(mode: Mode, now: real)
      ensures this.mode == mode && Snapshot() == Start(now) && Valid()
    {
      this.mode := mode;
      stage := Unset;
      counter := 0;
      lastTime := now;
      repAngles := [];
      repAverages := [];
      allAngles := [];
    }

    /** Counts one rep at time `now` and closes the rep buffer. */
    method CountRep(now: real)
      modifies this
      ensures Snapshot() == CloseRep(old(Snapshot()), now)
    {
      counter := counter + 1;
      lastTime := now;
      if repAngles != [] {
        repAverages := repAverages + [Mean(repAngles)];
        repAngles := [];
      }
    }

    /** One frame of the session loop: `angle` is the raw joint angle, or `None`
        when no pose or no angle was obtained. */
    method Step(angle: Option<real>, now: real)
      requires Valid()
      modifies this
      ensures Valid()
      ensures Snapshot() == Advance(old(Snapshot()), mode, angle, now)
    {
      AdvanceConsistent(Snapshot(), mode, angle, now);
      if angle.None? || mode.Unmeasured? {
        return;
      }
      var a := angle.value;
      match mode {
        case Custom(limMin, limMax) =>
          if a > limMax - 5.0 {
            if stage == Down {
              stage := Up;
            }
          }
          if a < limMin + 5.0 {
            if stage == Up {
              if now - lastTime > Cooldown {
                CountRep(now);
              }
              stage := Down;
            }
          }
          if stage == Unset {
            var mid := (limMin + limMax) / 2.0;
            stage := if a > mid then Up else Down;
          }
        case Squat =>
          RiseFall(160.0, 95.0, a, now);
        case Pushup =>
          RiseFall(150.0, 90.0, a, now);
        case Curl =>
          ArmFire(a > 150.0, a < 60.0, now);
        case Raise =>
          ArmFire(a < 30.0, a > 75.0, now);
      }
      var v := Normalize(a);
      allAngles := allAngles + [v];
      repAngles := repAngles + [v];
    }

    /** The squat and push-up block of the frame loop. */
    method RiseFall(upAbove: real, downBelow: real, a: real, now: real)
      modifies this
      ensures Snapshot() == RiseFallTransition(old(Snapshot()), upAbove, downBelow, a, now)
    {
      if a > upAbove {
        stage := Up;
      }
      if a < downBelow && stage == Up {
        stage := Down;
      }
      if a > 140.0 && stage == Down && now - lastTime > Cooldown {
        CountRep(now);
        stage := Up;
      }
    }

    /** The curl and raise block of the frame loop. */
    method ArmFire(rearm: bool, fire: bool, now: real)
      modifies this
      ensures Snapshot() == ArmFireTransition(old(Snapshot()), rearm, fire, now)
    {
      if rearm {
        stage := Down;
      }
      if fire && stage == Down && now - lastTime > Cooldown {
        CountRep(now);
        stage := Up;
      }
    }

    /** After the loop: `if rep_angles: rep_averages.append(np.mean(rep_angles))`. */
    method Finish()
      modifies this
      ensures Snapshot() == Finalize(old(Snapshot()))
    {
      if repAngles != [] {
        repAverages := repAverages + [Mean(repAngles)];
      }
    }
  }
}
