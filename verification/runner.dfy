/**
 `PacmanThread.run` up to the call into the engine: the keyword arguments for
 `runGames` are built from a fixed default dictionary, the caller's arguments,
 the agent, the ghost agents and the chosen display.  Python's dynamically typed
 values are a `Value` datatype; `NoneV` is Python's `None`.
 */
module Runner {
  import opened Wrappers

  /** The layout object returned by the layout loader, as far as `run` reads it. */
  datatype Layout = Layout(name: string, numGhosts: nat)

  /** A ghost agent `ghostType(index)` of the type named by the `ghostType` argument. */
  datatype GhostAgent = GhostAgent(typeName: Value, modulePath: Value, index: int)

  /** The display backends, with the arguments they are built from. */
  datatype Display =
    | NullGraphics
    | TextGraphics(sleepTime: Value)
    | Graphics(zoom: Value, frameTime: Value)

  datatype Value =
    | NoneV
    | BoolV(b: bool)
    | IntV(i: int)
    | RealV(r: real)
    | StrV(s: string)
    | LayoutV(layout: Layout)
    | PacmanAgentV                    // the environment's own agent
    | GhostsV(ghosts: seq<GhostAgent>)
    | DisplayV(display: Display)

  /** The exceptions `run` raises before the engine is started. */
  datatype RunError =
    | MissingLayout   // `self.args["layout"]` raises KeyError
    | NotALayout      // `getNumGhosts()` on a value that is not a layout
    | BadGhostCount   // `range(numGhosts)` on a value that is not an integer

  /** The default arguments for `runGames`. */
  const Defaults: map<string, Value> := map[
    "record" := BoolV(false),
    "catchExceptions" := BoolV(false),
    "numGames" := IntV(1),
    "timeout" := RealV(0.1),
    "numTraining" := IntV(0),
    "maxSteps" := NoneV,
    "illegalAllowed" := BoolV(false)]

  /** `d.get(k)`: the value under `k`, or None when there is none. */
  function Get(d: map<string, Value>, k: string): Value
  {
    if k in d then d[k] else NoneV
  }

  /** `d.get(k, default)`: the value under `k` (even None), or `default` when `k` is absent. */
  function GetOr(d: map<string, Value>, k: string, default: Value): Value
  {
    if k in d then d[k] else default
  }

  /** Python's truth value of `v`. */
  predicate Truthy(v: Value)
  {
    match v
    case NoneV => false
    case BoolV(b) => b
    case IntV(i) => i != 0
    case RealV(r) => r != 0.0
    case StrV(s) => s != []
    case GhostsV(gs) => gs != []
    case _ => true
  }

  /** The integer `range` accepts for `v` (a bool counts as 0 or 1), if any. */
  function AsInt(v: Value): Option<int>
  {
    match v
    case IntV(i) => Some(i)
    case BoolV(b) => Some(if b then 1 else 0)
    case _ => None
  }

  /**
   The merge loop: every default key stays, and takes the caller's value exactly
   when the caller supplied one that is not None.
   */
  method MergeDefaults(defaults: map<string, Value>, caller: map<string, Value>) returns (args: map<string, Value>)
    ensures args.Keys == defaults.Keys
    ensures forall k :: k in defaults && Get(caller, k) != NoneV ==> args[k] == caller[k]
    ensures forall k :: k in defaults && Get(caller, k) == NoneV ==> args[k] == defaults[k]
  {
    args := defaults;
    var todo := defaults.Keys;
    while todo != {}
      invariant todo <= defaults.Keys && args.Keys == defaults.Keys
      invariant forall k :: k in defaults && k !in todo && Get(caller, k) != NoneV ==> args[k] == caller[k]
      invariant forall k :: k in defaults && (k in todo || Get(caller, k) == NoneV) ==> args[k] == defaults[k]
      decreases todo
    {
      var k :| k in todo;
      var v := Get(caller, k);
      if v != NoneV {
        args := args[k := v];
      }
      todo := todo - {k};
    }
  }

  /**
   The keyword arguments `run` passes to `runGames`: the merged defaults, the
   layout, the agent as pacman, one ghost agent per ghost (numbered from 1; the
   layout's ghost count when `numGhosts` is absent or None) and the display chosen
   by `quietGraphics`, then `textGraphics`.
   */
  method RunArgs(caller: map<string, Value>) returns (r: Result<map<string, Value>, RunError>)
    ensures "layout" !in caller ==> r == Err(MissingLayout)
    ensures "layout" in caller && Get(caller, "numGhosts") == NoneV && !caller["layout"].LayoutV? ==> r == Err(NotALayout)
    ensures "layout" in caller && Get(caller, "numGhosts") != NoneV && AsInt(caller["numGhosts"]).None? ==> r == Err(BadGhostCount)
    ensures r.Ok? ==>
      var args := r.value;
      && args.Keys == Defaults.Keys + {"layout", "pacman", "ghosts", "display"}
      && (forall k :: k in Defaults && Get(caller, k) != NoneV ==> args[k] == caller[k])
      && (forall k :: k in Defaults && Get(caller, k) == NoneV ==> args[k] == Defaults[k])
      && args["layout"] == caller["layout"]
      && args["pacman"] == PacmanAgentV
    ensures r.Ok? ==>
      var n := Get(caller, "numGhosts");
      && r.value["ghosts"].GhostsV?
      && var ghosts := r.value["ghosts"].ghosts;
      && (n == NoneV ==> caller["layout"].LayoutV? && |ghosts| == caller["layout"].layout.numGhosts)
      && (n != NoneV ==> AsInt(n).Some? && |ghosts| == if AsInt(n).value < 0 then 0 else AsInt(n).value)
      && forall i :: 0 <= i < |ghosts| ==>
           ghosts[i] == GhostAgent(GetOr(caller, "ghostType", StrV("RandomGhost")), GetOr(caller, "modulePath", StrV("")), i + 1)
    ensures r.Ok? ==>
      var frameTime := GetOr(caller, "frameTime", RealV(0.1));
      r.value["display"] ==
        if Truthy(GetOr(caller, "quietGraphics", BoolV(false))) then DisplayV(NullGraphics)
        else if Truthy(GetOr(caller, "textGraphics", BoolV(false))) then DisplayV(TextGraphics(frameTime))
        else DisplayV(Graphics(GetOr(caller, "zoom", IntV(1)), frameTime))
    ensures r.Err? ==> "layout" !in caller || (Get(caller, "numGhosts") == NoneV && !caller["layout"].LayoutV?)
                       || (Get(caller, "numGhosts") != NoneV && AsInt(caller["numGhosts"]).None?)
  {
    var args := MergeDefaults(Defaults, caller);
    ghost var merged := args;
    assert "layout" !in Defaults && "pacman" !in Defaults && "ghosts" !in Defaults && "display" !in Defaults;

    var frameTime := GetOr(caller, "frameTime", RealV(0.1));
    var quietGraphics := GetOr(caller, "quietGraphics", BoolV(false));
    var textGraphics := GetOr(caller, "textGraphics", BoolV(false));
    var numGhosts := GetOr(caller, "numGhosts", NoneV);
    var zoom := GetOr(caller, "zoom", IntV(1));
    var modulePath := GetOr(caller, "modulePath", StrV(""));
    var ghostTypeName := GetOr(caller, "ghostType", StrV("RandomGhost"));
    if "layout" !in caller {
      return Err(MissingLayout);
    }
    var layout := caller["layout"];
    args := args["layout" := layout];

    if numGhosts == NoneV {
      if !layout.LayoutV? {
        return Err(NotALayout);
      }
      numGhosts := IntV(layout.layout.numGhosts);
    }

    if "pacman" !in args {
      args := args["pacman" := PacmanAgentV];
    }

    if "ghosts" !in args {
      var count := AsInt(numGhosts);
      if count.None? {
        return Err(BadGhostCount);
      }
      var n := if count.value < 0 then 0 else count.value;
      var ghosts := seq(n, i => GhostAgent(ghostTypeName, modulePath, i + 1));
      args := args["ghosts" := GhostsV(ghosts)];
    }

    var display :=
      if Truthy(quietGraphics) then NullGraphics
      else if Truthy(textGraphics) then TextGraphics(frameTime)
      else Graphics(zoom, frameTime);
    args := args["display" := DisplayV(display)];
    assert forall k :: k in Defaults ==> args[k] == merged[k];
    r := Ok(args);
  }
}
