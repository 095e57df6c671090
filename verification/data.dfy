/** Roast recipes of `src/data.rs`: a recipe is a name and a list of steps;
    each step pairs a checkpoint (a bean temperature or an elapsed time) with
    the action to take there. Temperature-based steps are built from a
    temperature; time-based steps from a (minutes, seconds) pair, which is
    converted to whole seconds. Two fixed recipes are defined. */
module Data {

  /** Rust's `u64`. */
  type U64 = x: int | 0 <= x < 0x1_0000_0000_0000_0000

  /** An `f32` value; recipes only store these, never compute with them. */
  type F32 = real

  /** A `Duration`; every duration here is built by `Duration::from_secs`,
      so it is a whole number of seconds. */
  datatype Duration = FromSecs(secs: U64)

  datatype Checkpoint = Time(duration: Duration) | Temp(temp: F32)

  datatype StepType =
    | Start
    | End
    | AdjustAirflow(airflow: F32)
    | SwitchGas(on: bool)
    | AdjustGas(level: F32)
    | DurationOnOffGas(period: Duration)
    | DeltaTempOnOffGas(delta: F32)
    | SwitchCooling(cooling: bool)
    | SwitchMixing(mixing: bool)

  datatype Step = Step(checkpoint: Checkpoint, stepType: StepType)

  datatype Recipe = Recipe(name: string, steps: seq<Step>)

  /** `impl Display for Recipe`: a recipe prints as its name alone. */
  function Display(r: Recipe): (s: string)
    ensures s == r.name
  {
    r.name
  }

  // ---------------------------------------------------------------------------
  // Minutes and seconds

  /** A (minutes, seconds) pair whose conversion `minutes * 60 + seconds`
      fits in a `u64`. */
  predicate Fits(time: (U64, U64))
  {
    time.0 * 60 + time.1 < 0x1_0000_0000_0000_0000
  }

  /** The conversion the time-based constructors make. Its inverse is
      `FromSeconds`; `MinutesSecondsRoundTrip` and `ToSecondsMonotonic` state
      what it preserves. */
  function ToSeconds(time: (U64, U64)): U64
    requires Fits(time)
  {
    time.0 * 60 + time.1
  }

  /** The inverse of `ToSeconds` on normalised pairs: whole minutes and the
      remaining seconds, below 60. */
  function FromSeconds(secs: U64): (time: (U64, U64))
    ensures time.1 < 60
    ensures Fits(time) && ToSeconds(time) == secs
  {
    (secs / 60, secs % 60)
  }

  /** Converting a normalised pair to seconds and back gives the pair. */
  lemma MinutesSecondsRoundTrip(time: (U64, U64))
    requires Fits(time) && time.1 < 60
    ensures FromSeconds(ToSeconds(time)) == time
  {
  }

  /** On normalised pairs the conversion preserves the order: a later
      (minutes, seconds) time is a later number of seconds. */
  lemma ToSecondsMonotonic(a: (U64, U64), b: (U64, U64))
    requires Fits(a) && Fits(b)
    requires a.1 < 60 && b.1 < 60
    ensures ToSeconds(a) < ToSeconds(b) <==> a.0 < b.0 || (a.0 == b.0 && a.1 < b.1)
  {
  }

  // ---------------------------------------------------------------------------
  // Temperature-based steps

  /** `start(temp)`. */
  function StartAtTemp(temp: F32): (s: Step)
    ensures s.checkpoint == Temp(temp) && s.stepType == Start
  {
    Step(Temp(temp), Start)
  }

  /** `end(temp)`. */
  function EndAtTemp(temp: F32): (s: Step)
    ensures s.checkpoint == Temp(temp) && s.stepType == End
  {
    Step(Temp(temp), End)
  }

  /** `adjust_airflow(temp, airflow)`. */
  function AdjustAirflowAtTemp(temp: F32, airflow: F32): (s: Step)
    ensures s.checkpoint == Temp(temp) && s.stepType == AdjustAirflow(airflow)
  {
    Step(Temp(temp), AdjustAirflow(airflow))
  }

  /** `switch_gas(temp, to)`. */
  function SwitchGasAtTemp(temp: F32, to: bool): (s: Step)
    ensures s.checkpoint == Temp(temp) && s.stepType == SwitchGas(to)
  {
    Step(Temp(temp), SwitchGas(to))
  }

  /** `on_off(temp, secs)`: the on/off period is `secs` seconds, unchanged. */
  function OnOffAtTemp(temp: F32, secs: U64): (s: Step)
    ensures s.checkpoint == Temp(temp)
    ensures s.stepType.DurationOnOffGas? && s.stepType.period.secs == secs
  {
    Step(Temp(temp), DurationOnOffGas(FromSecs(secs)))
  }

  /** `temp_on_off(temp, delta)`. */
  function TempOnOffAtTemp(temp: F32, delta: F32): (s: Step)
    ensures s.checkpoint == Temp(temp) && s.stepType == DeltaTempOnOffGas(delta)
  {
    Step(Temp(temp), DeltaTempOnOffGas(delta))
  }

  /** `switch_cooling(temp, to)`. */
  function SwitchCoolingAtTemp(temp: F32, to: bool): (s: Step)
    ensures s.checkpoint == Temp(temp) && s.stepType == SwitchCooling(to)
  {
    Step(Temp(temp), SwitchCooling(to))
  }

  /** `switch_mixing(temp, to)`. */
  function SwitchMixingAtTemp(temp: F32, to: bool): (s: Step)
    ensures s.checkpoint == Temp(temp) && s.stepType == SwitchMixing(to)
  {
    Step(Temp(temp), SwitchMixing(to))
  }

  // ---------------------------------------------------------------------------
  // Time-based steps

  /** The checkpoint of a time-based step: the pair converted to seconds. */
  function TimeCheckpoint(time: (U64, U64)): (c: Checkpoint)
    requires Fits(time)
    ensures c.Time? && c.duration.secs == time.0 * 60 + time.1
  {
    Time(FromSecs(ToSeconds(time)))
  }

  /** `t_start(time)`. */
  function StartAtTime(time: (U64, U64)): (s: Step)
    requires Fits(time)
    ensures s.checkpoint.Time? && s.checkpoint.duration.secs == time.0 * 60 + time.1
    ensures s.stepType == Start
  {
    Step(TimeCheckpoint(time), Start)
  }

  /** `t_end(time)`. */
  function EndAtTime(time: (U64, U64)): (s: Step)
    requires Fits(time)
    ensures s.checkpoint.Time? && s.checkpoint.duration.secs == time.0 * 60 + time.1
    ensures s.stepType == End
  {
    Step(TimeCheckpoint(time), End)
  }

  /** `t_adjust_airflow(time, airflow)`. */
  function AdjustAirflowAtTime(time: (U64, U64), airflow: F32): (s: Step)
    requires Fits(time)
    ensures s.checkpoint.Time? && s.checkpoint.duration.secs == time.0 * 60 + time.1
    ensures s.stepType == AdjustAirflow(airflow)
  {
    Step(TimeCheckpoint(time), AdjustAirflow(airflow))
  }

  /** `t_switch_gas(time, to)`. */
  function SwitchGasAtTime(time: (U64, U64), to: bool): (s: Step)
    requires Fits(time)
    ensures s.checkpoint.Time? && s.checkpoint.duration.secs == time.0 * 60 + time.1
    ensures s.stepType == SwitchGas(to)
  {
    Step(TimeCheckpoint(time), SwitchGas(to))
  }

  /** `t_on_off(time, secs)`: the on/off period is `secs` seconds, unchanged. */
  function OnOffAtTime(time: (U64, U64), secs: U64): (s: Step)
    requires Fits(time)
    ensures s.checkpoint.Time? && s.checkpoint.duration.secs == time.0 * 60 + time.1
    ensures s.stepType.DurationOnOffGas? && s.stepType.period.secs == secs
  {
    Step(TimeCheckpoint(time), DurationOnOffGas(FromSecs(secs)))
  }

  /** `t_temp_on_off(time, delta)`. */
  function TempOnOffAtTime(time: (U64, U64), delta: F32): (s: Step)
    requires Fits(time)
    ensures s.checkpoint.Time? && s.checkpoint.duration.secs == time.0 * 60 + time.1
    ensures s.stepType == DeltaTempOnOffGas(delta)
  {
    Step(TimeCheckpoint(time), DeltaTempOnOffGas(delta))
  }

  /** `t_switch_cooling(time, to)`. */
  function SwitchCoolingAtTime(time: (U64, U64), to: bool): (s: Step)
    requires Fits(time)
    ensures s.checkpoint.Time? && s.checkpoint.duration.secs == time.0 * 60 + time.1
    ensures s.stepType == SwitchCooling(to)
  {
    Step(TimeCheckpoint(time), SwitchCooling(to))
  }

  /** `t_switch_mixing(time, to)`. */
  function SwitchMixingAtTime(time: (U64, U64), to: bool): (s: Step)
    requires Fits(time)
    ensures s.checkpoint.Time? && s.checkpoint.duration.secs == time.0 * 60 + time.1
    ensures s.stepType == SwitchMixing(to)
  {
    Step(TimeCheckpoint(time), SwitchMixing(to))
  }

  /** Each time-based constructor builds the same action as its
      temperature-based twin; only the checkpoint differs. */
  lemma TimeAndTempTwinsAgree(time: (U64, U64), temp: F32, x: F32, to: bool, secs: U64)
    requires Fits(time)
    ensures StartAtTime(time).stepType == StartAtTemp(temp).stepType
    ensures EndAtTime(time).stepType == EndAtTemp(temp).stepType
    ensures AdjustAirflowAtTime(time, x).stepType == AdjustAirflowAtTemp(temp, x).stepType
    ensures SwitchGasAtTime(time, to).stepType == SwitchGasAtTemp(temp, to).stepType
    ensures OnOffAtTime(time, secs).stepType == OnOffAtTemp(temp, secs).stepType
    ensures TempOnOffAtTime(time, x).stepType == TempOnOffAtTemp(temp, x).stepType
    ensures SwitchCoolingAtTime(time, to).stepType == SwitchCoolingAtTemp(temp, to).stepType
    ensures SwitchMixingAtTime(time, to).stepType == SwitchMixingAtTemp(temp, to).stepType
  {
  }

  // ---------------------------------------------------------------------------
  // The two fixed recipes

  /** From position `from` on, a later temperature checkpoint is never lower
      than an earlier one. */
  predicate TemperaturesAscendFrom(steps: seq<Step>, from: nat)
  {
    forall i, j :: from <= i < j < |steps| && steps[i].checkpoint.Temp? && steps[j].checkpoint.Temp? ==>
      steps[i].checkpoint.temp <= steps[j].checkpoint.temp
  }

  /** A left-to-right check that, from position `i` on, each temperature
      checkpoint is at least the previous one, the first at least `floor`. */
  predicate AscendsFrom(steps: seq<Step>, i: nat, floor: F32)
    decreases |steps| - i
  {
    i >= |steps| ||
    if steps[i].checkpoint.Temp? then
      floor <= steps[i].checkpoint.temp && AscendsFrom(steps, i + 1, steps[i].checkpoint.temp)
    else
      AscendsFrom(steps, i + 1, floor)
  }

  /** The left-to-right check establishes the pairwise order. */
  lemma {:induction false} AscendsFromIsPairwise(steps: seq<Step>, i: nat, floor: F32)
    requires AscendsFrom(steps, i, floor)
    ensures TemperaturesAscendFrom(steps, i)
    ensures forall j :: i <= j < |steps| && steps[j].checkpoint.Temp? ==> floor <= steps[j].checkpoint.temp
    decreases |steps| - i
  {
    if i < |steps| {
      var next := if steps[i].checkpoint.Temp? then steps[i].checkpoint.temp else floor;
      AscendsFromIsPairwise(steps, i + 1, next);
    }
  }

  /** `DUMB_RECIPE`: temperature checkpoints only. */
  function DumbRecipe(): Recipe
  {
    Recipe("Nicaragua", [
      StartAtTemp(200.0),
      AdjustAirflowAtTemp(100.0, 0.333),
      AdjustAirflowAtTemp(160.0, 0.667),
      OnOffAtTemp(165.0, 0),
      OnOffAtTemp(170.0, 0),
      OnOffAtTemp(174.0, 0),
      OnOffAtTemp(178.0, 0),
      OnOffAtTemp(182.0, 2),
      TempOnOffAtTemp(185.0, 1.0),
      OnOffAtTemp(188.0, 3),
      SwitchGasAtTemp(190.0, false),
      SwitchGasAtTemp(192.0, true),
      SwitchGasAtTemp(194.0, false),
      SwitchGasAtTemp(196.0, true),
      OnOffAtTemp(201.0, 0),
      SwitchGasAtTemp(207.0, false),
      SwitchGasAtTemp(209.0, true),
      SwitchGasAtTemp(210.0, false),
      OnOffAtTemp(211.0, 3),
      OnOffAtTemp(214.0, 2),
      OnOffAtTemp(216.0, 2),
      OnOffAtTemp(218.0, 2),
      OnOffAtTemp(220.0, 2),
      OnOffAtTemp(222.0, 2),
      OnOffAtTemp(224.0, 0),
      EndAtTemp(226.0)
    ])
  }

  /** `TIME_RECIPE`: mostly temperature checkpoints, with the cooling and
      mixing switches and the end given as times. */
  function TimeRecipe(): Recipe
  {
    Recipe("Guatemala Natural", [
      StartAtTemp(190.0),
      AdjustAirflowAtTemp(100.0, 0.5),
      SwitchCoolingAtTime((2, 10), false),
      SwitchMixingAtTime((3, 15), false),
      OnOffAtTemp(160.0, 0),
      OnOffAtTemp(170.0, 0),
      OnOffAtTemp(175.0, 0),
      OnOffAtTemp(180.0, 0),
      OnOffAtTemp(182.0, 2),
      OnOffAtTemp(185.0, 3),
      SwitchGasAtTemp(187.0, false),
      SwitchGasAtTemp(189.0, true),
      SwitchGasAtTemp(192.0, false),
      SwitchGasAtTemp(193.0, true),
      OnOffAtTemp(195.0, 2),
      SwitchGasAtTemp(208.0, false),
      OnOffAtTemp(209.0, 3),
      OnOffAtTemp(210.0, 3),
      OnOffAtTemp(212.0, 2),
      OnOffAtTemp(214.0, 2),
      OnOffAtTemp(216.0, 2),
      SwitchCoolingAtTemp(216.5, true),
      SwitchMixingAtTemp(216.5, true),
      EndAtTime((12, 38))
    ])
  }

  /** `DUMB_RECIPE` is "Nicaragua": 26 steps, from `Start` at 200 degrees
      to `End` at 226 degrees. */
  lemma DumbRecipeShape()
    ensures DumbRecipe().name == "Nicaragua" && |DumbRecipe().steps| == 26
    ensures DumbRecipe().steps[0] == StartAtTemp(200.0)
    ensures DumbRecipe().steps[25] == EndAtTemp(226.0)
  {
  }

  /** After its start, the dumb recipe's temperature checkpoints never go
      down. */
  lemma DumbRecipeIsOrdered()
    ensures TemperaturesAscendFrom(DumbRecipe().steps, 1)
  {
    var steps := DumbRecipe().steps;
    assert AscendsFrom(steps, 26, 226.0);
    assert AscendsFrom(steps, 25, 224.0);
    assert AscendsFrom(steps, 24, 222.0);
    assert AscendsFrom(steps, 23, 220.0);
    assert AscendsFrom(steps, 22, 218.0);
    assert AscendsFrom(steps, 21, 216.0);
    assert AscendsFrom(steps, 20, 214.0);
    assert AscendsFrom(steps, 19, 211.0);
    assert AscendsFrom(steps, 18, 210.0);
    assert AscendsFrom(steps, 17, 209.0);
    assert AscendsFrom(steps, 16, 207.0);
    assert AscendsFrom(steps, 15, 201.0);
    assert AscendsFrom(steps, 14, 196.0);
    assert AscendsFrom(steps, 13, 194.0);
    assert AscendsFrom(steps, 12, 192.0);
    assert AscendsFrom(steps, 11, 190.0);
    assert AscendsFrom(steps, 10, 188.0);
    assert AscendsFrom(steps, 9, 185.0);
    assert AscendsFrom(steps, 8, 182.0);
    assert AscendsFrom(steps, 7, 178.0);
    assert AscendsFrom(steps, 6, 174.0);
    assert AscendsFrom(steps, 5, 170.0);
    assert AscendsFrom(steps, 4, 165.0);
    assert AscendsFrom(steps, 3, 160.0);
    assert AscendsFrom(steps, 2, 100.0);
    assert AscendsFrom(steps, 1, 0.0);
    AscendsFromIsPairwise(steps, 1, 0.0);
  }

  /** `TIME_RECIPE` is "Guatemala Natural": 24 steps, from `Start` at 190
      degrees to `End` at 12:38. */
  lemma TimeRecipeShape()
    ensures TimeRecipe().name == "Guatemala Natural" && |TimeRecipe().steps| == 24
    ensures TimeRecipe().steps[0] == StartAtTemp(190.0)
    ensures TimeRecipe().steps[23].checkpoint == Time(FromSecs(758))
    ensures TimeRecipe().steps[23].stepType == End
  {
  }

  /** The time recipe switches the cooling off at 2:10 and the mixing off
      at 3:15. */
  lemma TimeRecipeSwitches()
    ensures TimeRecipe().steps[2] == Step(Time(FromSecs(130)), SwitchCooling(false))
    ensures TimeRecipe().steps[3] == Step(Time(FromSecs(195)), SwitchMixing(false))
  {
  }

  /** After its start, the time recipe's temperature checkpoints never go
      down. */
  lemma TimeRecipeTemperaturesAscend()
    ensures TemperaturesAscendFrom(TimeRecipe().steps, 1)
  {
    var steps := TimeRecipe().steps;
    assert AscendsFrom(steps, 24, 216.5);
    assert AscendsFrom(steps, 23, 216.5);
    assert AscendsFrom(steps, 22, 216.5);
    assert AscendsFrom(steps, 21, 216.0);
    assert AscendsFrom(steps, 20, 214.0);
    assert AscendsFrom(steps, 19, 212.0);
    assert AscendsFrom(steps, 18, 210.0);
    assert AscendsFrom(steps, 17, 209.0);
    assert AscendsFrom(steps, 16, 208.0);
    assert AscendsFrom(steps, 15, 195.0);
    assert AscendsFrom(steps, 14, 193.0);
    assert AscendsFrom(steps, 13, 192.0);
    assert AscendsFrom(steps, 12, 189.0);
    assert AscendsFrom(steps, 11, 187.0);
    assert AscendsFrom(steps, 10, 185.0);
    assert AscendsFrom(steps, 9, 182.0);
    assert AscendsFrom(steps, 8, 180.0);
    assert AscendsFrom(steps, 7, 175.0);
    assert AscendsFrom(steps, 6, 170.0);
    assert AscendsFrom(steps, 5, 160.0);
    assert AscendsFrom(steps, 4, 100.0);
    assert AscendsFrom(steps, 3, 100.0);
    assert AscendsFrom(steps, 2, 100.0);
    assert AscendsFrom(steps, 1, 0.0);
    AscendsFromIsPairwise(steps, 1, 0.0);
  }
}
