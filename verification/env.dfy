/**
 `GymPacman`, the caller-facing environment.  The two threads and their events
 are not modelled: what the simulation thread does between the environment
 handing over an action and the next observation being ready is a `Reply`
 parameter, applied to the agent in program order.
 */
module Env {
  import opened Wrappers
  import opened Game
  import opened Actions
  import opened Reward
  import opened Features
  import opened Agent

  /** The two observation types the constructor accepts. */
  datatype ObsType = NdArray | RawObs

  datatype Observation = RawState(state: GameState) | Tensor(mat: array3<bool>)

  /**
   What the simulation thread does before the next observation is ready: the
   engine calls `getAction` on a new decision state, calls `final` on a terminal
   state, or `runGames` raises.
   */
  datatype Reply = Decision(state: GameState) | Terminal(state: GameState) | Crash(error: SimError)

  /** The exceptions `reset`, `step` and `getLegalActions` raise. */
  datatype EnvError =
    | NoEpisode                        // no `agentI` yet: `reset` was never called
    | GameOver                         // "The game is over. Call reset to start a new game."
    | SimulationFailure(error: SimError)
    | Legal(reason: LegalError)

  /** What `step` returns: `(state, reward, done, info)`. */
  datatype StepResult = StepResult(obs: Observation, reward: real, done: bool, info: Info)

  /**
   The simulation thread's side of one exchange: `getAction` or `final` on the
   agent, or the handler in `PacmanThread.run` storing the exception.
   */
  method RunEngine(agent: GymPacAgent, reply: Reply)
    requires agent.Valid()
    modifies agent
    ensures agent.Valid() && agent.action == old(agent.action)
    ensures reply.Decision? ==>
              && agent.state == Some(reply.state) && agent.lastScore == reply.state.score
              && agent.reward == Some(reply.state.score - old(agent.lastScore))
              && agent.done == old(agent.done) && agent.exception == old(agent.exception)
              && agent.scores == old(agent.scores) + [reply.state.score]
              && agent.rewards == old(agent.rewards) + [reply.state.score - old(agent.lastScore)]
    ensures reply.Terminal? ==>
              && agent.state == Some(reply.state) && agent.done
              && agent.reward == old(agent.reward) && agent.lastScore == old(agent.lastScore)
              && agent.exception == old(agent.exception)
              && agent.scores == old(agent.scores) && agent.rewards == old(agent.rewards)
    ensures reply.Crash? ==>
              && agent.exception == Some(reply.error)
              && agent.state == old(agent.state) && agent.reward == old(agent.reward)
              && agent.done == old(agent.done) && agent.lastScore == old(agent.lastScore)
              && agent.scores == old(agent.scores) && agent.rewards == old(agent.rewards)
  {
    match reply
    case Decision(s) => agent.GetAction(s);
    case Terminal(s) => agent.Final(s);
    case Crash(e) => agent.exception := Some(e);
  }

  class GymPacman {
    const obsType: ObsType
    const allowStop: bool
    const numericActions: bool
    const rewardShaping: bool

    /** `agentI`: the agent of the current episode, null before the first `reset`. */
    var agent: GymPacAgent?
    var actions: seq<string>
    var actionMap: map<string, int>

    ghost predicate Valid()
      reads this, agent
    {
      && actionMap == ActionMap(actions)
      && (agent != null ==>
            && agent.Valid()
            && (agent.exception.Some? ==> agent.done)
            && (!agent.done ==> agent.state.Some? && agent.reward.Some? && actions == AllDirections)
            && (obsType == NdArray && agent.state.Some? ==> WellFormed(agent.state.value)))
    }

    constructor (obsType: ObsType := NdArray, allowStop: bool := false,
                 numericActions: bool := true, rewardShaping: bool := true)
      ensures Valid() && agent == null
      ensures this.obsType == obsType && this.allowStop == allowStop
      ensures this.numericActions == numericActions && this.rewardShaping == rewardShaping
    {
      this.obsType := obsType;
      this.allowStop := allowStop;
      this.numericActions := numericActions;
      this.rewardShaping := rewardShaping;
      agent := null;
      actions := [];
      actionMap := map[];
    }

    /** `__procState`: the raw state, or its feature tensor. */
    method ProcState(s: GameState) returns (o: Observation)
      requires obsType == NdArray ==> WellFormed(s)
      ensures obsType == RawObs ==> o == RawState(s)
      ensures obsType == NdArray ==> o.Tensor? && fresh(o.mat) && IsFeatureTensor(o.mat, s)
    {
      if obsType == RawObs {
        o := RawState(s);
      } else {
        var m := Extract(s);
        o := Tensor(m);
      }
    }

    /**
     `reset`: a fresh agent, whose first exchange with the engine either fails (the
     episode is then over and the failure is raised) or yields the initial
     observation, after which the action table is installed.
     */
    method Reset(reply: Reply) returns (r: Result<Observation, EnvError>)
      requires Valid()
      requires obsType == NdArray && !reply.Crash? ==> WellFormed(reply.state)
      modifies this
      ensures Valid() && agent != null && fresh(agent)
      ensures reply.Crash? ==> r == Err(SimulationFailure(reply.error)) && agent.done && actions == old(actions)
      ensures !reply.Crash? ==>
                && r.Ok? && agent.state == Some(reply.state) && agent.done == reply.Terminal?
                && actions == AllDirections && actionMap == ActionMap(AllDirections)
                && (obsType == RawObs ==> r.value == RawState(reply.state))
                && (obsType == NdArray ==> r.value.Tensor? && fresh(r.value.mat) && IsFeatureTensor(r.value.mat, reply.state))
      ensures reply.Decision? ==> agent.reward == Some(reply.state.score) && agent.lastScore == reply.state.score
      ensures !reply.Decision? ==> agent.lastScore == 0 && agent.reward == None
      ensures agent.action == None
      ensures agent.exception == (if reply.Crash? then Some(reply.error) else None)
      ensures agent.scores == (if reply.Decision? then [reply.state.score] else [])
      ensures agent.rewards == (if reply.Decision? then [reply.state.score] else [])
      ensures reply.Crash? ==> agent.state == None
    {
      agent := new GymPacAgent();
      RunEngine(agent, reply);
      if agent.exception.Some? {
        agent.done := true;
        return Err(SimulationFailure(agent.exception.value));
      }
      var obs := ProcState(agent.state.value);
      actions := AllDirections;
      actionMap := ActionMap(actions);
      r := Ok(obs);
    }

    /**
     `step`: refuses once the game is over without touching anything; otherwise
     hands the (decoded) action to the agent, lets the engine move, and returns the
     new observation with the shaped reward.  On the terminal move `final` does not
     update the reward, so the reward of the previous decision is the one reported.
     */
    method Step(action: ActionArg, reply: Reply) returns (r: Result<StepResult, EnvError>)
      requires Valid()
      requires obsType == NdArray && !reply.Crash? ==> WellFormed(reply.state)
      modifies agent
      ensures Valid()
      ensures old(agent) == null ==> r == Err(NoEpisode)
      ensures agent != null && old(agent.done) ==> r == Err(GameOver) && unchanged(agent)
      ensures agent != null && !old(agent.done) ==>
                agent.action == Resolve(numericActions, actions, action)
      ensures agent != null && !old(agent.done) && reply.Crash? ==>
                && r == Err(SimulationFailure(reply.error)) && agent.done
                && agent.exception == Some(reply.error) && agent.state == old(agent.state)
                && agent.lastScore == old(agent.lastScore) && agent.reward == old(agent.reward)
                && agent.scores == old(agent.scores) && agent.rewards == old(agent.rewards)
      ensures agent != null && !old(agent.done) && reply.Decision? ==>
                && agent.lastScore == reply.state.score
                && agent.reward == Some(reply.state.score - old(agent.lastScore))
                && agent.scores == old(agent.scores) + [reply.state.score]
                && agent.rewards == old(agent.rewards) + [reply.state.score - old(agent.lastScore)]
                && agent.exception == None
      ensures agent != null && !old(agent.done) && reply.Terminal? ==>
                && agent.lastScore == old(agent.lastScore) && agent.reward == old(agent.reward)
                && agent.scores == old(agent.scores) && agent.rewards == old(agent.rewards)
                && agent.exception == None
      ensures agent != null && !old(agent.done) && !reply.Crash? ==>
                && r.Ok? && agent.state == Some(reply.state)
                && r.value.done == agent.done == reply.Terminal?
                && var raw := if reply.Decision? then reply.state.score - old(agent.lastScore)
                              else old(agent.reward).value;
                   Shape(raw, reply.state.isWin, rewardShaping) == Shaped(r.value.reward, r.value.info)
      ensures agent != null && !old(agent.done) && !reply.Crash? && r.Ok? ==>
                && (obsType == RawObs ==> r.value.obs == RawState(reply.state))
                && (obsType == NdArray ==> r.value.obs.Tensor? && fresh(r.value.obs.mat)
                                           && IsFeatureTensor(r.value.obs.mat, reply.state))
    {
      if agent == null {
        return Err(NoEpisode);
      }
      if agent.done {
        return Err(GameOver);
      }
      agent.action := Resolve(numericActions, actions, action);
      RunEngine(agent, reply);

      var s := agent.state.value;
      var won := s.isWin;
      var obs := ProcState(s);
      var reward := agent.reward.value;

      if agent.exception.Some? {
        agent.done := true;
        return Err(SimulationFailure(agent.exception.value));
      }

      var shaped := Shape(reward, won, rewardShaping);
      r := Ok(StepResult(obs, shaped.reward, agent.done, shaped.info));
    }

    /**
     `getLegalActions`: nothing once the game is over, otherwise the engine's
     legal actions for the current state, filtered and encoded.
     */
    function GetLegalActions(numeric: bool := true): (r: Result<seq<ActionArg>, EnvError>)
      requires Valid()
      reads this, agent
      ensures agent == null ==> r == Err(NoEpisode)
      ensures agent != null && agent.done ==> r == Ok([])
      ensures agent != null && !agent.done ==>
                var legals := agent.state.value.legal;
                var kept := Kept(allowStop, legals);
                && (r == Err(Legal(StopMissing)) <==> !allowStop && Stop !in legals)
                && (r.Err? ==> r.error.Legal?)
                && (!numeric && (allowStop || Stop in legals) ==> r.Ok?)
                && (numeric && (allowStop || Stop in legals) ==>
                      (r.Ok? <==> forall i :: 0 <= i < |kept| ==> kept[i] in actionMap))
                && (r.Ok? ==> |r.value| == |kept| == |legals| - (if allowStop then 0 else 1))
                && (r.Ok? && !numeric ==> forall i :: 0 <= i < |r.value| ==> r.value[i] == Named(kept[i]))
                && (r.Ok? && numeric ==> forall i :: 0 <= i < |r.value| ==> r.value[i] == Index(actionMap[kept[i]]))
                && (r.Err? && r.error.reason.UnknownAction? ==>
                      && numeric
                      && exists k :: 0 <= k < |kept| && kept[k] !in actionMap && r.error.reason == UnknownAction(kept[k])
                                     && forall j :: 0 <= j < k ==> kept[j] in actionMap)
    {
      if agent == null then Err(NoEpisode)
      else if agent.done then Ok([])
      else
        match LegalActions(allowStop, numeric, actionMap, agent.state.value.legal)
        case Ok(legals) => Ok(legals)
        case Err(e) => Err(Legal(e))
    }

    /** Over an episode, the rewards the agent has handed out add up to its latest score. */
    lemma EpisodeRewardsAddUp()
      requires Valid() && agent != null
      ensures Sum(agent.rewards) == agent.lastScore
    {
      agent.RewardsAddUpToScore();
    }

    /**
     In a live episode the numeric legal actions are codes that `step`, with numeric
     actions on, decodes back into the named legal actions, one for one.
     */
    lemma LegalActionsDecode()
      requires Valid() && agent != null && !agent.done
      requires GetLegalActions(true).Ok?
      ensures GetLegalActions(false).Ok?
      ensures |GetLegalActions(true).value| == |GetLegalActions(false).value|
      ensures forall i :: 0 <= i < |GetLegalActions(true).value| ==>
                Resolve(true, actions, GetLegalActions(true).value[i]) == Some(GetLegalActions(false).value[i])
    {
      LegalRoundTrip(allowStop, actions, agent.state.value.legal);
    }
  }
}
