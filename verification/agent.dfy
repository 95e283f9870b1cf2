/**
 `GymPacAgentI`, the agent the environment installs as pacman.  The engine calls
 `getAction` at every decision and `final` at the end; the threading events
 these methods set and wait on are not modelled, only their field updates.
 */
module Agent {
  import opened Wrappers
  import opened Game
  import opened Actions

  /** An exception raised inside the simulation, as stored in the agent's `exception`. */
  datatype SimError = SimError(description: string)

  function Sum(s: seq<int>): int
  {
    if s == [] then 0 else s[0] + Sum(s[1..])
  }

  function LastOr(s: seq<int>, d: int): int
  {
    if s == [] then d else s[|s| - 1]
  }

  /**
   The rewards successive `getAction` calls compute from the scores they see,
   starting from `lastScore == prev`: each is the change since the score before.
   */
  function Rewards(prev: int, scores: seq<int>): (d: seq<int>)
    ensures |d| == |scores|
    ensures |scores| > 0 ==> d[0] == scores[0] - prev
    ensures forall i :: 0 < i < |scores| ==> d[i] == scores[i] - scores[i - 1]
    decreases |scores|
  {
    if scores == [] then [] else [scores[0] - prev] + Rewards(scores[0], scores[1..])
  }

  /** The rewards telescope: added to the starting score they give the latest score. */
  lemma {:induction false} RewardsTelescope(prev: int, scores: seq<int>)
    ensures prev + Sum(Rewards(prev, scores)) == LastOr(scores, prev)
    decreases |scores|
  {
    if scores != [] {
      RewardsTelescope(scores[0], scores[1..]);
    }
  }

  /** One more `getAction` call appends the change since the last score seen. */
  lemma RewardsSnoc(prev: int, scores: seq<int>, x: int)
    ensures Rewards(prev, scores + [x]) == Rewards(prev, scores) + [x - LastOr(scores, prev)]
  {
    var d, e := Rewards(prev, scores + [x]), Rewards(prev, scores) + [x - LastOr(scores, prev)];
    assert |d| == |e|;
    forall i | 0 <= i < |d| ensures d[i] == e[i] {
      if 0 < i < |scores| {
        assert (scores + [x])[i] == scores[i] && (scores + [x])[i - 1] == scores[i - 1];
      } else if i == |scores| && i > 0 {
        assert (scores + [x])[i] == x && (scores + [x])[i - 1] == scores[i - 1];
      }
    }
  }

  class GymPacAgent {
    var lastScore: int
    var state: Option<GameState>
    var reward: Option<int>
    var action: Option<ActionArg>
    var done: bool
    var exception: Option<SimError>

    /** The scores of the states `getAction` has seen, and the rewards it handed out. */
    ghost var scores: seq<int>
    ghost var rewards: seq<int>

    ghost predicate Valid()
      reads this
    {
      && rewards == Rewards(0, scores)
      && lastScore == LastOr(scores, 0)
      && reward == (if scores == [] then None else Some(rewards[|rewards| - 1]))
    }

    constructor ()
      ensures Valid()
      ensures lastScore == 0 && state == None && reward == None && action == None
      ensures !done && exception == None && scores == []
    {
      lastScore := 0;
      state := None;
      reward := None;
      action := None;
      done := false;
      exception := None;
      scores := [];
      rewards := [];
    }

    /**
     The part of `getAction` before it waits for the environment: the reward is the
     score change since the last decision, and the state is recorded.  The action it
     returns after the wait is whatever `action` holds by then.
     */
    method GetAction(s: GameState)
      requires Valid()
      modifies this
      ensures Valid()
      ensures reward == Some(s.score - old(lastScore)) && lastScore == s.score && state == Some(s)
      ensures scores == old(scores) + [s.score] && rewards == old(rewards) + [s.score - old(lastScore)]
      ensures action == old(action) && done == old(done) && exception == old(exception)
    {
      RewardsSnoc(0, scores, s.score);
      reward := Some(s.score - lastScore);
      lastScore := s.score;
      state := Some(s);
      scores := scores + [s.score];
      rewards := rewards + [reward.value];
    }

    /** `final`: records the terminal state and marks the game done; the reward is left as it was. */
    method Final(s: GameState)
      requires Valid()
      modifies this
      ensures Valid()
      ensures state == Some(s) && done
      ensures reward == old(reward) && lastScore == old(lastScore) && action == old(action)
      ensures exception == old(exception) && scores == old(scores) && rewards == old(rewards)
    {
      state := Some(s);
      done := true;
    }

    /** The rewards handed out so far add up to the latest score seen. */
    lemma RewardsAddUpToScore()
      requires Valid()
      ensures Sum(rewards) == lastScore
    {
      RewardsTelescope(0, scores);
    }
  }
}
