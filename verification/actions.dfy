/**
 The action encodings of `GymPacman`: the `actions` list and its inverse
 `actionMap` built by `reset`, the numeric decoding done by `step`, and the
 filtering and encoding done by `getLegalActions`.
 */
module Actions {
  import opened Wrappers

  /** An action as a caller passes it to `step`: a numeric index or an action name. */
  datatype ActionArg = Index(i: int) | Named(name: string)

  /** The exceptions `getLegalActions` can raise while filtering and encoding. */
  datatype LegalError =
    | StopMissing                  // `list.remove("Stop")` raises ValueError
    | UnknownAction(name: string)  // `actionMap[l]` raises KeyError

  const Stop: string := "Stop"

  /** `Directions.ALL_DIRECTIONS`, in the order the environment documents. */
  const AllDirections: seq<string> := ["North", "South", "East", "West", "Stop"]

  predicate Distinct(s: seq<string>)
  {
    forall i, j :: 0 <= i < j < |s| ==> s[i] != s[j]
  }

  /**
   `{a: i for i, a in enumerate(acts)}`: every action maps to an index holding it,
   and a later occurrence overwrites an earlier one, so that index is the last.
   */
  function ActionMap(acts: seq<string>): (m: map<string, int>)
    ensures forall a :: a in m <==> a in acts
    ensures forall a :: a in m ==> 0 <= m[a] < |acts| && acts[m[a]] == a
    ensures forall a, j :: a in m && m[a] < j < |acts| ==> acts[j] != a
    decreases |acts|
  {
    if acts == [] then map[]
    else
      var front, last := acts[..|acts| - 1], acts[|acts| - 1];
      var m := ActionMap(front);
      assert acts == front + [last];
      assert forall j :: 0 <= j < |front| ==> acts[j] == front[j];
      assert forall a :: a in acts <==> a in front || a == last;
      m[last := |acts| - 1]
  }

  /** On a list without repeats the map is the exact inverse of indexing. */
  lemma ActionMapInverse(acts: seq<string>, i: int)
    requires Distinct(acts) && 0 <= i < |acts|
    ensures acts[i] in ActionMap(acts) && ActionMap(acts)[acts[i]] == i
  {
  }

  lemma AllDirectionsDistinct()
    ensures Distinct(AllDirections)
  {
  }

  /** The table `reset` installs codes the five directions as 0 to 4, in order. */
  lemma AllDirectionsMap()
    ensures ActionMap(AllDirections) == map["North" := 0, "South" := 1, "East" := 2, "West" := 3, "Stop" := 4]
  {
    var ds := AllDirections;
    assert ds[..0] == [] && ds[..1][..0] == [];
    assert ds[..1] == ["North"] && ds[..2][..1] == ds[..1];
    assert ds[..2] == ["North", "South"] && ds[..3][..2] == ds[..2];
    assert ds[..3] == ["North", "South", "East"] && ds[..4][..3] == ds[..3];
    assert ds[..4] == ["North", "South", "East", "West"] && ds[..5][..4] == ds[..4] && ds[..5] == ds;
    assert ActionMap(ds[..1]) == map["North" := 0];
    assert ActionMap(ds[..2]) == map["North" := 0, "South" := 1];
    assert ActionMap(ds[..3]) == map["North" := 0, "South" := 1, "East" := 2];
    assert ActionMap(ds[..4]) == map["North" := 0, "South" := 1, "East" := 2, "West" := 3];
  }

  /**
   Python's `acts[i]` on a list: indices `0 .. n-1` count from the front,
   `-n .. -1` from the back; any other index raises IndexError, modelled as None.
   */
  function Lookup(acts: seq<string>, i: int): (r: Option<string>)
    ensures r.Some? <==> -|acts| <= i < |acts|
    ensures r.Some? ==> r.value in acts
  {
    if 0 <= i < |acts| then Some(acts[i])
    else if -|acts| <= i < 0 then Some(acts[|acts| + i])
    else None
  }

  /** A negative index names the same action as that index plus the list's length. */
  lemma LookupNegative(acts: seq<string>, i: int)
    requires 0 <= i < |acts|
    ensures Lookup(acts, i - |acts|) == Lookup(acts, i) == Some(acts[i])
  {
  }

  /** Looking up an action's code gives the action back. */
  lemma LookupActionMap(acts: seq<string>, a: string)
    requires a in acts
    ensures Lookup(acts, ActionMap(acts)[a]) == Some(a)
  {
  }

  /**
   The action `step` hands to the agent: with numeric actions a successful
   `actions[action]` lookup, None when the lookup raises (an index out of range,
   or a name, which cannot index a list); without numeric actions the argument as is.
   */
  function Resolve(numeric: bool, acts: seq<string>, action: ActionArg): (r: Option<ActionArg>)
    ensures !numeric ==> r == Some(action)
    ensures numeric && action.Named? ==> r == None
    ensures numeric && action.Index? ==> r.Some? == (-|acts| <= action.i < |acts|)
    ensures numeric && action.Index? && 0 <= action.i < |acts| ==> r == Some(Named(acts[action.i]))
    ensures numeric && action.Index? && -|acts| <= action.i < 0 ==> r == Some(Named(acts[|acts| + action.i]))
    ensures numeric && r.Some? ==> r.value.Named? && r.value.name in acts
  {
    if !numeric then Some(action)
    else
      match action
      case Named(_) => None
      case Index(i) =>
        match Lookup(acts, i)
        case Some(a) => Some(Named(a))
        case None => None
  }

  /** The position of the first occurrence of `x`, which `list.remove` deletes. */
  function FirstIndex(s: seq<string>, x: string): (k: nat)
    requires x in s
    ensures k < |s| && s[k] == x && x !in s[..k]
  {
    if s[0] == x then 0
    else
      assert s == [s[0]] + s[1..];
      var k := 1 + FirstIndex(s[1..], x);
      assert s[..k] == [s[0]] + s[1..][..k - 1];
      k
  }

  /** `s.remove(x)`: deletes the first `x`, or raises ValueError when there is none. */
  function RemoveFirst(s: seq<string>, x: string): (r: Result<seq<string>, LegalError>)
    ensures r.Ok? <==> x in s
    ensures r.Err? ==> r.error == StopMissing
    ensures r.Ok? ==> r.value == s[..FirstIndex(s, x)] + s[FirstIndex(s, x) + 1..]
    ensures r.Ok? ==> multiset(r.value) == multiset(s) - multiset{x}
  {
    if x !in s then Err(StopMissing)
    else
      var k := FirstIndex(s, x);
      var t := s[..k] + s[k + 1..];
      assert s == s[..k] + [x] + s[k + 1..];
      assert multiset(s) == multiset(s[..k]) + multiset{x} + multiset(s[k + 1..]);
      Ok(t)
  }

  /** The names as actions, unencoded. */
  function AsNamed(names: seq<string>): seq<ActionArg>
  {
    seq(|names|, i requires 0 <= i < |names| => Named(names[i]))
  }

  /**
   `[m[l] for l in names]`: every name replaced by its code, or KeyError for the
   first name that has none.
   */
  function Encode(m: map<string, int>, names: seq<string>): (r: Result<seq<ActionArg>, LegalError>)
    ensures r.Ok? <==> forall i :: 0 <= i < |names| ==> names[i] in m
    ensures r.Ok? ==> |r.value| == |names| && forall i :: 0 <= i < |names| ==> r.value[i] == Index(m[names[i]])
    ensures r.Err? ==> exists k :: 0 <= k < |names| && names[k] !in m && r.error == UnknownAction(names[k])
                                   && forall j :: 0 <= j < k ==> names[j] in m
  {
    if names == [] then Ok([])
    else if names[0] !in m then Err(UnknownAction(names[0]))
    else
      match Encode(m, names[1..])
      case Err(e) =>
        ghost var k :| 0 <= k < |names[1..]| && names[1..][k] !in m && e == UnknownAction(names[1..][k])
                       && forall j :: 0 <= j < k ==> names[1..][j] in m;
        assert names[k + 1] !in m && forall j :: 0 <= j < k + 1 ==> names[j] in m;
        Err(e)
      case Ok(t) => Ok([Index(m[names[0]])] + t)
  }

  /**
   The names `getLegalActions` keeps: all of them, or all but the first "Stop" when
   stopping is not allowed.
   */
  function Kept(allowStop: bool, legals: seq<string>): seq<string>
  {
    if allowStop || Stop !in legals then legals
    else legals[..FirstIndex(legals, Stop)] + legals[FirstIndex(legals, Stop) + 1..]
  }

  /**
   `getLegalActions` of a live episode on the engine's legal list: without
   `allowStop` one "Stop" is removed, then with `numeric` each action is encoded.
   */
  function LegalActions(allowStop: bool, numeric: bool, m: map<string, int>, legals: seq<string>)
    : (r: Result<seq<ActionArg>, LegalError>)
    ensures r == Err(StopMissing) <==> !allowStop && Stop !in legals
    ensures allowStop && !numeric ==> r == Ok(AsNamed(legals))
    ensures !numeric && (allowStop || Stop in legals) ==> r.Ok?
    ensures numeric && (allowStop || Stop in legals) ==>
              (r.Ok? <==> forall i :: 0 <= i < |Kept(allowStop, legals)| ==> Kept(allowStop, legals)[i] in m)
    ensures r.Ok? ==> |r.value| == |Kept(allowStop, legals)| == |legals| - (if allowStop then 0 else 1)
    ensures r.Ok? ==> forall i :: 0 <= i < |r.value| ==> r.value[i].Index? == numeric
    ensures r.Ok? && !numeric ==>
              forall i :: 0 <= i < |r.value| ==> r.value[i] == Named(Kept(allowStop, legals)[i])
    ensures r.Ok? && numeric ==>
              forall i :: 0 <= i < |r.value| ==> r.value[i] == Index(m[Kept(allowStop, legals)[i]])
    ensures r.Err? && r.error.UnknownAction? ==>
              && numeric
              && var kept := Kept(allowStop, legals);
                 exists k :: 0 <= k < |kept| && kept[k] !in m && r.error == UnknownAction(kept[k])
                             && forall j :: 0 <= j < k ==> kept[j] in m
  {
    var kept := if allowStop then Ok(legals) else RemoveFirst(legals, Stop);
    match kept
    case Err(e) => Err(e)
    case Ok(names) =>
      assert names == Kept(allowStop, legals);
      if numeric then Encode(m, names) else Ok(AsNamed(names))
  }

  /**
   The numeric legal actions exist whenever "Stop" is present or allowed and every
   legal name is one of `acts`.
   */
  lemma LegalEncodable(allowStop: bool, acts: seq<string>, legals: seq<string>)
    requires allowStop || Stop in legals
    requires forall i :: 0 <= i < |legals| ==> legals[i] in acts
    ensures LegalActions(allowStop, true, ActionMap(acts), legals).Ok?
  {
    var m := ActionMap(acts);
    var names := if allowStop then legals else RemoveFirst(legals, Stop).value;
    forall i | 0 <= i < |names| ensures names[i] in m {
      if !allowStop {
        var k := FirstIndex(legals, Stop);
        if i < k {
          assert names[i] == legals[i];
        } else {
          assert names[i] == legals[i + 1];
        }
      }
    }
  }

  /**
   Decoding inverts encoding: whenever the numeric legal actions exist, the named
   ones do too, and `step`'s numeric decoding turns each code back into the
   corresponding named legal action.
   */
  lemma LegalRoundTrip(allowStop: bool, acts: seq<string>, legals: seq<string>)
    requires LegalActions(allowStop, true, ActionMap(acts), legals).Ok?
    ensures LegalActions(allowStop, false, ActionMap(acts), legals).Ok?
    ensures var coded := LegalActions(allowStop, true, ActionMap(acts), legals).value;
            var named := LegalActions(allowStop, false, ActionMap(acts), legals).value;
            |coded| == |named| &&
            forall i :: 0 <= i < |coded| ==> Resolve(true, acts, coded[i]) == Some(named[i])
  {
    var m := ActionMap(acts);
    var names := if allowStop then legals else RemoveFirst(legals, Stop).value;
    forall i | 0 <= i < |names| ensures Resolve(true, acts, Index(m[names[i]])) == Some(Named(names[i])) {
      LookupActionMap(acts, names[i]);
    }
  }
}
