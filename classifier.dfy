/**
 * The save/skip decision the message handler makes for a decoded reading
 * against the last reading it recorded.
 */
module Classifier {
  import opened Telemetry

  /** Jump thresholds: a change of at least this much is significant. */
  const SUHU_JUMP_THRESHOLD: real := 2.0
  const GAS_JUMP_THRESHOLD: real := 10.0
  const ASAP_JUMP_THRESHOLD: real := 5.0

  /** Why a reading is saved; the handler logs one message per reason. */
  datatype Reason = FirstReading | StateChange | SignificantJump

  datatype Decision = Skip | Save(reason: Reason)

  /** `Math.abs`. */
  function Abs(x: real): (a: real)
    ensures a >= 0.0 && (a == x || a == -x)
  {
    if x < 0.0 then -x else x
  }

  /** Some actuator or status field differs by strict inequality. */
  predicate IsStateChange(c: Reading, b: Baseline)
    ensures IsStateChange(c, b) <==>
      (c.statusApi, c.kipas, c.buzzer, c.pompa) != (b.statusApi, b.kipas, b.buzzer, b.pompa)
  {
    c.kipas != b.kipas || c.buzzer != b.buzzer || c.pompa != b.pompa || c.statusApi != b.statusApi
  }

  /** Some sensor value moved by at least its threshold (inclusive). */
  predicate IsSignificantJump(c: Reading, b: Baseline)
    ensures !IsSignificantJump(c, b) <==>
      && -SUHU_JUMP_THRESHOLD < c.suhu - ToNumber(b.suhu) < SUHU_JUMP_THRESHOLD
      && -GAS_JUMP_THRESHOLD < c.gas - ToNumber(b.gas) < GAS_JUMP_THRESHOLD
      && -ASAP_JUMP_THRESHOLD < c.asap - ToNumber(b.asap) < ASAP_JUMP_THRESHOLD
  {
    Abs(c.suhu - ToNumber(b.suhu)) >= SUHU_JUMP_THRESHOLD ||
    Abs(c.gas - ToNumber(b.gas)) >= GAS_JUMP_THRESHOLD ||
    Abs(c.asap - ToNumber(b.asap)) >= ASAP_JUMP_THRESHOLD
  }

  /**
   * The decision: save the first reading (detected by a null temperature in
   * the record), otherwise save on a state change, otherwise on a jump,
   * otherwise skip. A state change takes precedence as the logged reason.
   */
  function Classify(c: Reading, b: Baseline): (d: Decision)
    ensures d == Save(FirstReading) <==> b.suhu.None?
    ensures d.Skip? <==> b.suhu.Some? && !IsStateChange(c, b) && !IsSignificantJump(c, b)
    ensures d == Save(SignificantJump) ==> b.suhu.Some? && !IsStateChange(c, b) && IsSignificantJump(c, b)
    ensures d == Save(StateChange) ==> b.suhu.Some? && IsStateChange(c, b)
  {
    if b.suhu.None? then Save(FirstReading)
    else if IsStateChange(c, b) then Save(StateChange)
    else if IsSignificantJump(c, b) then Save(SignificantJump)
    else Skip
  }

  /** Readings agreeing in the four discrete fields. */
  predicate SameState(c: Reading, p: Reading) {
    c.kipas == p.kipas && c.buzzer == p.buzzer && c.pompa == p.pompa && c.statusApi == p.statusApi
  }

  /** With no temperature recorded yet, every reading is saved. */
  lemma FirstReadingIsSaved(c: Reading, b: Baseline)
    requires b.suhu.None?
    ensures Classify(c, b) == Save(FirstReading)
    ensures Classify(c, INITIAL).Save?
  {
  }

  /** Against a recorded reading, any discrete difference saves, whatever the sensor values. */
  lemma StateChangeIsSaved(c: Reading, p: Reading)
    requires !SameState(c, p)
    ensures Classify(c, Of(p)) == Save(StateChange)
  {
  }

  /**
   * Against a recorded reading with the same discrete state, the reading is
   * saved exactly when one sensor moved by at least its threshold.
   */
  lemma JumpIsSavedIffAtThreshold(c: Reading, p: Reading)
    requires SameState(c, p)
    ensures Classify(c, Of(p)).Save? <==>
      Abs(c.suhu - p.suhu) >= 2.0 || Abs(c.gas - p.gas) >= 10.0 || Abs(c.asap - p.asap) >= 5.0
    ensures Classify(c, Of(p)).Save? ==> Classify(c, Of(p)) == Save(SignificantJump)
  {
  }

  /** A jump of exactly the threshold, up or down, in any one sensor saves. */
  lemma ThresholdIsInclusive(p: Reading, dSuhu: real, dGas: real, dAsap: real)
    requires dSuhu in {2.0, -2.0} || dGas in {10.0, -10.0} || dAsap in {5.0, -5.0}
    ensures Classify(p.(suhu := p.suhu + dSuhu, gas := p.gas + dGas, asap := p.asap + dAsap), Of(p))
            .Save?
  {
    var c := p.(suhu := p.suhu + dSuhu, gas := p.gas + dGas, asap := p.asap + dAsap);
    assert c.suhu - p.suhu == dSuhu && c.gas - p.gas == dGas && c.asap - p.asap == dAsap;
  }

  /** Below all three thresholds and with no state change, the reading is skipped. */
  lemma BelowThresholdsIsSkipped(c: Reading, p: Reading)
    requires SameState(c, p)
    requires Abs(c.suhu - p.suhu) < 2.0 && Abs(c.gas - p.gas) < 10.0 && Abs(c.asap - p.asap) < 5.0
    ensures Classify(c, Of(p)) == Skip
  {
  }

  /** A reading identical to the recorded one is skipped. */
  lemma RepeatIsSkipped(r: Reading)
    ensures Classify(r, Of(r)) == Skip
  {
    BelowThresholdsIsSkipped(r, r);
  }

  /**
   * The worked example: against {25.0, 50, 10, "OK", 0, 0, 0}, a temperature
   * of 27.0 is a jump of exactly 2.0 and saved; 26.9 is skipped.
   */
  lemma ConcreteScenario()
    ensures var p := Reading(25.0, 50.0, 10.0, Str("OK"), Num(0.0), Num(0.0), Num(0.0));
      Classify(p.(suhu := 27.0), Of(p)) == Save(SignificantJump) &&
      Classify(p.(suhu := 26.9), Of(p)) == Skip
  {
  }
}
