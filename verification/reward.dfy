/**
 Reward shaping applied by `GymPacman.step` to the score change of one turn.
 Scores are integers; the shaped rewards are the source's fixed literals.
 */
module Reward {

  /** The `info` record `step` returns: the final win flag and the unshaped reward. */
  datatype Info = Info(won: bool, rawReward: int)

  /** The reward `step` returns together with its `info` record. */
  datatype Shaped = Shaped(reward: real, info: Info)

  const BigGainReward: real := 50.0
  const GainReward: real := 10.0
  const BigLossReward: real := -500.0
  const LossReward: real := -1.0
  const WinReward: real := 100.0

  /**
   The shaped reward for a raw score change `raw`, given whether the new state is a
   win and whether shaping is switched on.  The threshold chain is tried in order;
   a large loss cancels the win; a win that survives overrides the reward.
   */
  function Shape(raw: int, won: bool, shaping: bool): (s: Shaped)
    ensures s.info.rawReward == raw
    ensures s.info.won <==> won && !(shaping && raw < -10)
    ensures s.info.won ==> s.reward == WinReward
    ensures !s.info.won && !shaping ==> s.reward == raw as real
    ensures !s.info.won && shaping && raw > 20 ==> s.reward == BigGainReward
    ensures !s.info.won && shaping && 0 < raw <= 20 ==> s.reward == GainReward
    ensures shaping && raw < -10 ==> s.reward == BigLossReward
    ensures !s.info.won && shaping && -10 <= raw < 0 ==> s.reward == LossReward
    ensures !s.info.won && shaping && raw == 0 ==> s.reward == 0.0
  {
    var (reward, stillWon) :=
      if !shaping then (raw as real, won)
      else if raw > 20 then (BigGainReward, won)
      else if raw > 0 then (GainReward, won)
      else if raw < -10 then (BigLossReward, false)
      else if raw < 0 then (LossReward, won)
      else (raw as real, won);
    if stillWon then Shaped(WinReward, Info(true, raw))
    else Shaped(reward, Info(false, raw))
  }

  /** Apart from a win, shaping keeps the sign of the raw reward. */
  lemma ShapeKeepsSign(raw: int, won: bool, shaping: bool)
    requires !Shape(raw, won, shaping).info.won
    ensures Shape(raw, won, shaping).reward > 0.0 <==> raw > 0
    ensures Shape(raw, won, shaping).reward < 0.0 <==> raw < 0
  {
  }

  /** Apart from wins, a larger raw reward never gets a smaller shaped reward. */
  lemma ShapeMonotone(raw1: int, raw2: int, shaping: bool)
    requires raw1 <= raw2
    ensures Shape(raw1, false, shaping).reward <= Shape(raw2, false, shaping).reward
  {
  }

  /** With shaping on, only the six literal rewards can come out. */
  lemma ShapedRange(raw: int, won: bool)
    ensures Shape(raw, won, true).reward in {BigGainReward, GainReward, BigLossReward, LossReward, 0.0, WinReward}
  {
  }

  /** The win override applies whether or not shaping is on. */
  lemma WinOverridesWithoutShaping(raw: int)
    ensures Shape(raw, true, false) == Shaped(WinReward, Info(true, raw))
  {
  }

  /** Worked cases. */
  lemma ShapeExamples()
    ensures Shape(21, false, true) == Shaped(50.0, Info(false, 21))
    ensures Shape(5, false, true) == Shaped(10.0, Info(false, 5))
    ensures Shape(-11, true, true) == Shaped(-500.0, Info(false, -11))
    ensures Shape(-1, false, true) == Shaped(-1.0, Info(false, -1))
    ensures Shape(0, true, true) == Shaped(100.0, Info(true, 0))
  {
  }
}
