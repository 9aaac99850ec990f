/** Building runs of all terminals from runs of one incarnation. */
module WorldRuns {
  import opened Wrappers
  import opened Lifecycle
  import opened World

  /** A run can be prolonged by any step enabled at its end. */
  lemma {:induction false} OneMore(w: World, steps: seq<WorldStep>, end: World, s: WorldStep)
    returns (longer: seq<WorldStep>)
    requires Run(w, steps) == Some(end) && CanWorld(end, s)
    ensures longer == steps + [s] && Run(w, longer) == Some(DoWorld(end, s))
    decreases steps
  {
    longer := steps + [s];
    if steps == [] {
      assert longer[1..] == [];
    } else {
      var rest := OneMore(DoWorld(w, steps[0]), steps[1..], end, s);
      assert longer[1..] == rest;
    }
  }

  predicate OwnSteps(steps: seq<Step>) {
    forall k | 0 <= k < |steps| :: OwnStep(steps[k])
  }

  predicate SameOutside(w: World, w': World) {
    w'.control == w.control && w'.sweeps == w.sweeps
  }

  /** What one incarnation can do by itself, it can do in the world. */
  lemma {:induction false} Lift(w: World, i: nat, steps: seq<Step>) returns (lifted: seq<WorldStep>, end: World)
    requires i < |w.sessions| && OwnSteps(steps) && Steps(w.sessions[i].life, steps).Some?
    ensures Run(w, lifted) == Some(end) && SameOutside(w, end)
    ensures end.sessions == w.sessions[i := w.sessions[i].(life := Steps(w.sessions[i].life, steps).value)]
    ensures Closing(Delete) !in steps ==> end.terminals == w.terminals
    decreases steps
  {
    if steps == [] {
      lifted, end := [], w;
    } else {
      var s := Inside(i, steps[0]);
      var rest;
      rest, end := Lift(DoWorld(w, s), i, steps[1..]);
      lifted := [s] + rest;
      assert lifted[1..] == rest;
    }
  }

  /** Two runs, one after the other. */
  lemma {:induction false} Join(w: World, a: seq<WorldStep>, middle: World, b: seq<WorldStep>, end: World)
    returns (both: seq<WorldStep>)
    requires Run(w, a) == Some(middle) && Run(middle, b) == Some(end)
    ensures both == a + b && Run(w, both) == Some(end)
    decreases a
  {
    both := a + b;
    if a == [] {
      assert both == b;
    } else {
      var rest := Join(DoWorld(w, a[0]), a[1..], middle, b, end);
      assert both[1..] == rest;
    }
  }
}
