# gym_pacman environment core, modelled in Dafny

This project models the sequential logic of `gym_pacman/gym_interface.py`. That file is a
gym environment that runs a Pacman game engine on its own thread and drives it one action per
`step`. The model covers:

- **Reward shaping** (`Reward`): `step` maps the raw score change and the win flag to a
  shaped reward and an `info` record.
- **Action encoding** (`Actions`): the `actions` list and its inverse `actionMap` built by
  `reset`, the numeric decoding in `step` (with Python's list-index rules), and the
  filtering and encoding done by `getLegalActions`.
- **Feature extraction** (`Features`): `StateMatExtractor.__call__` builds a fresh
  width x height x 6 `array3<bool>` in place. It is proved equal, cell by cell, to the
  `Feature` predicate: the pacman cell, ghost cells split by scared timer, the wall and food
  grids, and the capsule cells.
- **The agent** (`Agent`): `GymPacAgentI` is a class whose `GetAction` and `Final` update
  its fields. Ghost histories `scores` and `rewards` let its invariant state that the
  rewards telescope to the latest score.
- **Run arguments** (`Runner`): `PacmanThread.run` merges the default dictionary with the
  caller's non-`None` values and fills in the layout, pacman, the ghost agents and the display.
- **The environment** (`Env`): `GymPacman` is a class with `Reset`, `Step` and
  `GetLegalActions`. The simulation thread's answer to each hand-over is a `Reply`
  parameter: `Decision(state)` means the engine called `getAction`, `Terminal(state)` means
  it called `final`, and `Crash(error)` means `runGames` raised. The reply is applied to the
  agent in program order.

The game engine is opaque. A `Game.GameState` holds what the environment reads from it:
score, win flag, board size, pacman and ghost positions, scared timers, the wall and food
grids, capsules, and the engine's legal actions for that state.

Behaviour of the code worth knowing:

- With reward shaping off, a winning state still gets reward 100.0 and `info["won"] = True`.
  The win override (lines 258-260) is outside the shaping `if`.
- `won` comes from `state.isWin()` (line 234), not from the `done` flag.
- `final` (lines 44-46) does not update `reward`. So the step that ends the game reports the
  reward of the previous decision; `Env.GymPacman.Step` states this.
- `getLegalActions` raises ValueError when "Stop" must be removed but is not legal (line 279).
  It also raises KeyError for a legal action that has no code (line 282).
- An exception raised in `PacmanThread.run` before `runGames` (lines 79-106) is outside the `try` (lines 108-114). Examples are `loadAgent` failing, a display module that cannot be imported, or `range("3")`. Such an exception ends the thread without setting `observationEvent`, so `reset` waits forever at line 301.
- In `step`, a numeric index in `-5 .. -1` succeeds, as Python list indexing does. Any other
  failed lookup gives `None`.

## Model

| member | source | states |
|---|---|---|
| Reward.Shape | gym_pacman/gym_interface.py:245-260 | first-match thresholds: >20 gives 50.0, 0<r<=20 gives 10.0, r<-10 gives -500.0 and clears the win, -10<=r<0 gives -1.0, 0 unchanged; a surviving win gives 100.0 and info.won, even with shaping off; info.rawReward is always the unshaped r |
| Reward.ShapeKeepsSign | gym_pacman/gym_interface.py:247-256 | apart from a win, the shaped reward has the sign of the raw reward |
| Reward.ShapeMonotone | gym_pacman/gym_interface.py:247-256 | apart from wins, shaping is monotone in the raw reward |
| Reward.ShapedRange | gym_pacman/gym_interface.py:247-260 | with shaping on only 50, 10, -500, -1, 0 or 100 come out |
| Reward.WinOverridesWithoutShaping | gym_pacman/gym_interface.py:258-260 | the win override applies with shaping off |
| Reward.ShapeExamples | gym_pacman/gym_interface.py:245-260 | the worked cases (21,5,-11 with a win,-1, 0 with a win) |
| Actions.ActionMap | gym_pacman/gym_interface.py:312 | every key is an action of the list and maps to an index holding it, the last such index; keys are exactly the list's actions |
| Actions.ActionMapInverse | gym_pacman/gym_interface.py:311-312 | on a repeat-free list, `actionMap[actions[i]] == i` |
| Actions.AllDirectionsDistinct | gym_pacman/gym_interface.py:160-161 | the five documented directions are pairwise distinct |
| Actions.AllDirectionsMap | gym_pacman/gym_interface.py:311-312 | the installed table is exactly North 0, South 1, East 2, West 3, Stop 4 |
| Actions.Lookup | gym_pacman/gym_interface.py:225-227 | Python list indexing succeeds exactly for -n <= i < n and yields an element of the list |
| Actions.LookupNegative | gym_pacman/gym_interface.py:225 | index i - n names the same action as i |
| Actions.LookupActionMap | gym_pacman/gym_interface.py:311-312 | `actions[actionMap[a]] == a` for every listed action |
| Actions.Resolve | gym_pacman/gym_interface.py:223-227 | without numeric actions the argument is passed through; with them index i in 0..n-1 gives `actions[i]`, i in -n..-1 gives `actions[n+i]`, and anything else (out of range, a name) gives None |
| Actions.FirstIndex | gym_pacman/gym_interface.py:279 | the index `list.remove` deletes holds the first occurrence |
| Actions.RemoveFirst | gym_pacman/gym_interface.py:278-279 | removes exactly one occurrence (the first) or raises ValueError exactly when there is none |
| Actions.Encode | gym_pacman/gym_interface.py:281-282 | each name replaced by its code; KeyError exactly when some name has none, naming the first such |
| Actions.LegalActions | gym_pacman/gym_interface.py:276-284 | ValueError exactly when "Stop" must be removed but is absent; otherwise the kept names are the legal list minus its first "Stop" (all of it with allowStop), in order; unencoded they are returned one for one, encoded each becomes `Index(m[name])`, succeeding exactly when every kept name has a code and otherwise raising KeyError for the first that has none |
| Actions.LegalEncodable | gym_pacman/gym_interface.py:276-284 | the numeric encoding succeeds when "Stop" is allowed or present and every legal action is listed |
| Actions.LegalRoundTrip | gym_pacman/gym_interface.py:223-284 | whenever numeric legal actions exist, `step`'s decoding maps each back to the corresponding named legal action |
| Features.GhostCellsSpec | gym_pacman/gym_interface.py:130-137 | a cell is in a ghost plane exactly when a ghost of that kind stands on it |
| Features.GhostCellsOnlyGhostPlanes | gym_pacman/gym_interface.py:133-137 | ghosts mark nothing outside planes 1 and 5 |
| Features.BothGhostPlanesNeedTwoGhosts | gym_pacman/gym_interface.py:133-137 | a cell in both ghost planes holds two different ghosts, one scared and one not |
| Features.GhostShown | gym_pacman/gym_interface.py:130-137 | every ghost appears at its cell in plane 5 when scared and plane 1 otherwise |
| Features.MarkGhosts | gym_pacman/gym_interface.py:130-137 | the ghost loop sets exactly the ghost cells in planes 1 and 5 and changes nothing else |
| Features.CopyPlane | gym_pacman/gym_interface.py:139-142 | one plane becomes the grid cell for cell, the others are untouched |
| Features.MarkCapsules | gym_pacman/gym_interface.py:144-147 | the capsule loop sets exactly the capsule cells in plane 4 and changes nothing else |
| Features.Extract | gym_pacman/gym_interface.py:120-149 | a fresh tensor of shape (width, height, 6) whatever the entity counts: plane 0 exactly the pacman cell, planes 1/5 the ghosts, planes 2/3 the walls and food, plane 4 exactly the capsules, every other entry false |
| Agent.Rewards | gym_pacman/gym_interface.py:29-30 | each reward is the score change since the previous decision (the first since `lastScore`) |
| Agent.RewardsTelescope | gym_pacman/gym_interface.py:20-30 | the starting score plus the rewards gives the latest score |
| Agent.RewardsSnoc | gym_pacman/gym_interface.py:29-30 | one more decision appends the change since the last score seen |
| Agent.GymPacAgent.constructor | gym_pacman/gym_interface.py:13-24 | lastScore 0, no state, reward or action, not done, no exception |
| Agent.GymPacAgent.GetAction | gym_pacman/gym_interface.py:28-31 | reward becomes score - old lastScore, lastScore the score, state recorded; action, done and exception unchanged |
| Agent.GymPacAgent.Final | gym_pacman/gym_interface.py:44-46 | state recorded and done set; reward and lastScore unchanged |
| Agent.GymPacAgent.RewardsAddUpToScore | gym_pacman/gym_interface.py:20-31 | from lastScore 0, the rewards handed out sum to the latest score |
| Runner.MergeDefaults | gym_pacman/gym_interface.py:58-72 | every default key stays and takes the caller's value exactly when that value exists and is not None |
| Runner.RunArgs | gym_pacman/gym_interface.py:56-106 | merged defaults, the caller's layout, pacman is the agent, one ghost agent per ghost numbered from 1 (the layout's count when numGhosts is absent or None), display chosen by quietGraphics then textGraphics; KeyError, AttributeError and TypeError cases |
| Env.RunEngine | gym_pacman/gym_interface.py:28-47 | the engine's exchange updates the agent as getAction, final or the exception handler (line 112) do, states every field after each kind of reply, and never changes the action |
| Env.GymPacman.constructor | gym_pacman/gym_interface.py:170-184 | the four options are stored; no agent yet |
| Env.GymPacman.ProcState | gym_pacman/gym_interface.py:206-212 | the raw state, or a fresh feature tensor of it |
| Env.GymPacman.Reset | gym_pacman/gym_interface.py:291-316 | a fresh agent (lastScore 0, no action or exception) that has seen exactly the first exchange: a decision records its score as the one reward, a terminal leaves reward None, a failure leaves no state, ends the episode and is raised without installing the action table; otherwise the initial observation, with `actions` and `actionMap` installed |
| Env.GymPacman.Step | gym_pacman/gym_interface.py:217-262 | raises once done with the agent unchanged; hands over the decoded action; a failure records the exception, sets done and is raised with state, score and reward kept; otherwise the new observation, done iff terminal, the agent's new lastScore, reward and histories, and the shaped reward of the score change (the previous reward on the terminal move) |
| Env.GymPacman.GetLegalActions | gym_pacman/gym_interface.py:272-284 | [] once done; otherwise the engine's legal actions for the current state with the first "Stop" removed unless allowed (ValueError exactly when it is missing), then, with numeric, each mapped through `actionMap` (KeyError for the first without a code) |
| Env.GymPacman.EpisodeRewardsAddUp | gym_pacman/gym_interface.py:20-31 | over an episode the rewards handed out sum to the agent's latest score |
| Env.GymPacman.LegalActionsDecode | gym_pacman/gym_interface.py:223-284 | in a live episode the numeric legal actions decode through `step` back to the named ones |

## Left out

- The two events, `gameOverSignal`, `close`, thread start and join in `reset`, and `__del__` (lines 16-17, 33-37, 286-307, 318-319). They are concurrency; the model replaces each wait by a `Reply` parameter.
- When the failure reaches the caller: in the model it reaches the caller in the same call. The forced `observationEvent.set()` (line 114) is not modelled.
- `runGames`, `loadAgent`, `PacmanRules.getLegalActions`, `getLayout` and the display classes are foreign calls into the engine, which is not part of this model. `loadAgent` is assumed to succeed, and a ghost agent is the value `GhostAgent(type, modulePath, index)`. Legal actions are a field of the state. A display is a `Display` value, and `textDisplay.SLEEP_TIME` is its argument. `display.finish()` in the handler is not modelled.
- `Directions` is imported from the engine (line 3), and its definition is not part of this model. The model uses the order documented at lines 160-161.
- `GymPacman.__init__` layout loading and the unknown-observation-type error are not modelled. `ObsType` has only the two accepted values, so the RuntimeError of `__procState` cannot arise. `args.update`, the gym `spaces`, `render` and `getGameStats` are not modelled either.
- The `pacmanThread` field is not modelled. It is cleared on failure and only matters for joining.
- Errors raised in `run` before `runGames` (lines 58-106) are `Err` values of `Runner.RunArgs`. In the source they sit outside the `try` (lines 108-114), so they never reach the agent and `reset` is left waiting. The model does not capture that hang.
- Floating point is not modelled. Scores are integers, shaped rewards are reals, and tensor entries are booleans (1.0/0.0 in the source). Positions are integers, already truncated by `int()`.
- Features.Extract, Env.GymPacman.ProcState, Env.GymPacman.Reset and Env.GymPacman.Step require well-formed states: every entity on the board and grids of the layout's size. The engine guarantees this. numpy's wrap-around on negative indices and its errors on out-of-range indices are not modelled.
- Actions.Resolve: the argument of `step` is an integer index or a name. Most other Python values would also make the lookup raise and give `None`; a slice would instead hand a list to the agent. Neither is modelled.
