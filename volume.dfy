/** The integer part of the player's volume: a percentage deviation from
    unity gain that can never fall below -100 (hard mute). */
module Volume {
  import opened Options

  /** The lowest deviation; it mutes the output. */
  const Mute: int := -100

  /** One volume step: rejected when it would take the deviation below the
      mute level, otherwise the deviation moves by exactly `percents`. */
  function NextVolume(volumeChange: int, percents: int): (r: Option<int>)
    ensures r.None? <==> volumeChange + percents < Mute
    ensures r.Some? ==> r.value == volumeChange + percents && r.value >= Mute
  {
    if volumeChange + percents < Mute then None else Some(volumeChange + percents)
  }

  /** The deviation after a run of volume keys; rejected steps leave it as is. */
  function ApplySteps(volumeChange: int, steps: seq<int>): int
    decreases |steps|
  {
    if steps == [] then volumeChange
    else
      var d := match NextVolume(volumeChange, steps[0])
        case None => volumeChange
        case Some(v) => v;
      ApplySteps(d, steps[1..])
  }

  /** No run of volume keys takes the deviation below the mute level. */
  lemma {:induction false} StepsStayAboveMute(volumeChange: int, steps: seq<int>)
    requires volumeChange >= Mute
    ensures ApplySteps(volumeChange, steps) >= Mute
    decreases |steps|
  {
    if steps != [] {
      var d := match NextVolume(volumeChange, steps[0])
        case None => volumeChange
        case Some(v) => v;
      StepsStayAboveMute(d, steps[1..]);
    }
  }

  /** With the player's steps of ten from a multiple of ten, the deviation
      stays a multiple of ten, so the mute level is met exactly rather than
      skipped over. */
  lemma {:induction false} TenStepsStayMultiples(volumeChange: int, steps: seq<int>)
    requires volumeChange % 10 == 0
    requires forall i :: 0 <= i < |steps| ==> steps[i] == 10 || steps[i] == -10
    ensures ApplySteps(volumeChange, steps) % 10 == 0
    decreases |steps|
  {
    if steps != [] {
      var d := match NextVolume(volumeChange, steps[0])
        case None => volumeChange
        case Some(v) => v;
      assert d % 10 == 0;
      TenStepsStayMultiples(d, steps[1..]);
    }
  }
}
