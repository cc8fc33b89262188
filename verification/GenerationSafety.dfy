/** What every run of builds, incremental builds and rollbacks keeps, and what an
    interrupted activation breaks. */
module GenerationSafety {
  import opened Wrappers
  import opened Generations

  // ----- the invariant -----

  ghost predicate DistinctIds(gs: seq<Generation>) {
    forall i, k :: 0 <= i < k < |gs| ==> gs[i].id != gs[k].id
  }

  /** A generation is active exactly when its workspace points to it. */
  ghost predicate ActiveIsPointer(r: Repo) {
    && (forall g :: g in r.generations ==>
          (g.state == Active <==> g.workspace in r.active && r.active[g.workspace] == g.id))
    && (forall w :: w in r.active ==> Holds(r, w, r.active[w]))
  }

  ghost predicate Holds(r: Repo, w: Workspace, id: GenerationId) {
    exists g :: g in r.generations && g.id == id && g.workspace == w
  }

  /** `g` forked from an earlier generation of its workspace that was active then. */
  ghost predicate ForkedAt(gs: seq<Generation>, i: nat, j: nat) {
    && j < i < |gs| && gs[i].previous == Some(gs[j].id)
    && gs[j].workspace == gs[i].workspace && gs[j].state in {Active, Retired}
  }

  ghost predicate Forks(gs: seq<Generation>) {
    forall i: nat :: i < |gs| && gs[i].previous.Some? ==> exists j: nat :: ForkedAt(gs, i, j)
  }

  ghost predicate Safe(r: Repo) {
    && DistinctIds(r.generations) && ActiveIsPointer(r) && Forks(r.generations)
    && (forall g :: g in r.generations ==> g.state !in {Pending, Superseded})
    && (forall g :: g in r.generations && g.state == Retired ==> g.workspace in r.active)
  }

  // ----- lookups -----

  lemma FoundIs(gs: seq<Generation>, i: nat)
    requires DistinctIds(gs) && i < |gs|
    ensures Get(gs, gs[i].id) == Some(gs[i])
  {
    var f := Find(gs, gs[i].id);
    assert f <= i && gs[f].id == gs[i].id;
  }

  lemma FoundIn(gs: seq<Generation>, id: GenerationId)
    ensures Get(gs, id).Some? ==> Get(gs, id).value in gs && Get(gs, id).value.id == id
    ensures Get(gs, id).None? <==> forall g :: g in gs ==> g.id != id
  {
    var f := Find(gs, id);
    if f < |gs| { assert gs[f] in gs; }
  }

  /** The pointer resolves to the one active generation of the workspace. */
  lemma PointerResolves(r: Repo, w: Workspace)
    requires Safe(r)
    ensures ActiveOf(r, w).Some? <==> w in r.active
    ensures w in r.active ==>
              var g := ActiveOf(r, w).value;
              g in r.generations && g.id == r.active[w] && g.workspace == w && g.state == Active
  {
    if w in r.active {
      var g :| g in r.generations && g.id == r.active[w] && g.workspace == w;
      var i :| 0 <= i < |r.generations| && r.generations[i] == g;
      FoundIs(r.generations, i);
    }
  }

  /** One active generation per workspace, at most. */
  lemma OneActive(r: Repo, a: Generation, b: Generation)
    requires Safe(r) && a in r.generations && b in r.generations
    requires a.state == Active && b.state == Active && a.workspace == b.workspace
    ensures a == b
  {
    var i :| 0 <= i < |r.generations| && r.generations[i] == a;
    var k :| 0 <= k < |r.generations| && r.generations[k] == b;
    assert a.id == b.id;
  }

  // ----- single steps -----

  /** Appending a building generation that forks from the active one. */
  lemma AppendIsSafe(r: Repo, g: Generation)
    requires Safe(r) && Get(r.generations, g.id).None? && g.state == Building
    requires g.previous == (if ActiveOf(r, g.workspace).Some? then Some(ActiveOf(r, g.workspace).value.id) else None)
    ensures Safe(r.(generations := r.generations + [g]))
  {
    var gs := r.generations + [g];
    var next := r.(generations := gs);
    FoundIn(r.generations, g.id);
    PointerResolves(r, g.workspace);
    hide Get, Find, ForkedAt;
    if ActiveOf(r, g.workspace).Some? {
      AppendForks(r.generations, g, ActiveOf(r, g.workspace).value);
    } else {
      AppendRoot(r.generations, g);
    }
    hide Forks, ActiveOf;
    assert forall i :: 0 <= i < |r.generations| ==> r.generations[i] in r.generations;
    forall w | w in next.active ensures Holds(next, w, next.active[w]) {
      var was :| was in r.generations && was.id == r.active[w] && was.workspace == w;
      assert was in gs;
    }
  }

  lemma ForksStay(gs: seq<Generation>, g: Generation, i: nat)
    requires Forks(gs) && i < |gs| && gs[i].previous.Some?
    ensures exists j: nat :: ForkedAt(gs + [g], i, j)
  {
    var j: nat :| ForkedAt(gs, i, j);
    assert ForkedAt(gs + [g], i, j);
  }

  lemma AppendRoot(gs: seq<Generation>, g: Generation)
    requires Forks(gs) && g.previous == None
    ensures Forks(gs + [g])
  {
    hide ForkedAt;
    forall i: nat | i < |gs| && gs[i].previous.Some? { ForksStay(gs, g, i); }
  }

  lemma AppendForks(gs: seq<Generation>, g: Generation, active: Generation)
    requires Forks(gs) && active in gs && g.previous == Some(active.id)
    requires active.workspace == g.workspace && active.state in {Active, Retired}
    ensures Forks(gs + [g])
  {
    var k: nat :| k < |gs| && gs[k] == active;
    assert ForkedAt(gs + [g], |gs|, k);
    hide ForkedAt;
    forall i: nat | i < |gs| && gs[i].previous.Some? { ForksStay(gs, g, i); }
  }

  /** Replacing the state of one generation keeps ids, workspaces and forks, as
      long as what was active or retired stays so. */
  lemma ReplaceKeeps(gs: seq<Generation>, g: Generation)
    requires DistinctIds(gs) && Get(gs, g.id).Some?
    requires var was := Get(gs, g.id).value;
             was.workspace == g.workspace && was.previous == g.previous
             && (was.state in {Active, Retired} ==> g.state in {Active, Retired})
    ensures DistinctIds(Replace(gs, g))
    ensures Forks(gs) ==> Forks(Replace(gs, g))
    ensures |Replace(gs, g)| == |gs|
    ensures forall i: nat :: i < |gs| ==>
              && Replace(gs, g)[i] == (if gs[i].id == g.id then g else gs[i])
              && (gs[i].id == g.id ==> gs[i] == Get(gs, g.id).value)
              && Replace(gs, g)[i].id == gs[i].id && Replace(gs, g)[i].workspace == gs[i].workspace
  {
    var next := Replace(gs, g);
    forall i: nat | i < |gs| && gs[i].id == g.id ensures gs[i] == Get(gs, g.id).value { FoundIs(gs, i); }
    if Forks(gs) {
      forall i: nat | i < |next| && next[i].previous.Some? ensures exists j: nat :: ForkedAt(next, i, j) {
        var j: nat :| ForkedAt(gs, i, j);
        assert ForkedAt(next, i, j);
      }
    }
  }

  lemma FoundAfter(gs: seq<Generation>, g: Generation, id: GenerationId)
    requires Get(gs, g.id).Some?
    ensures Get(Replace(gs, g), id) == if id == g.id then Some(g) else Get(gs, id)
  {
    var next := Replace(gs, g);
    var f, f' := Find(gs, id), Find(next, id);
    assert forall i :: 0 <= i < |gs| ==> next[i].id == gs[i].id;
    assert f == f';
  }

  /** A generation outside the pointers moves between states that are not pointed to. */
  lemma QuietTransition(r: Repo, g: Generation)
    requires Safe(r) && Get(r.generations, g.id).Some?
    requires var was := Get(r.generations, g.id).value;
             was.workspace == g.workspace && was.previous == g.previous && was.state in {Building, Validating}
    requires g.state in {Building, Validating, Failed}
    ensures Safe(r.(generations := Replace(r.generations, g)))
  {
    var gs, next := r.generations, r.(generations := Replace(r.generations, g));
    hide Get, Replace, DistinctIds, Forks, Holds;
    FoundIn(gs, g.id);
    ReplaceKeeps(gs, g);
    HoldsAfter(r, next);
    QuietStates(r, next, Get(gs, g.id).value, g);
  }

  lemma QuietStates(r: Repo, next: Repo, was: Generation, g: Generation)
    requires ActiveIsPointer(r) && was in r.generations && was.id == g.id && was.workspace == g.workspace
    requires was.state in {Building, Validating} && g.state in {Building, Validating, Failed}
    requires next.active == r.active && |next.generations| == |r.generations|
    requires forall i: nat :: i < |r.generations| ==>
               next.generations[i] == r.generations[i] || (r.generations[i] == was && next.generations[i] == g)
    ensures forall x :: x in next.generations ==>
              && (x.state == Active <==> x.workspace in next.active && next.active[x.workspace] == x.id)
              && (x in r.generations || x.state in {Building, Validating, Failed})
  {
    forall x | x in next.generations
      ensures x.state == Active <==> x.workspace in next.active && next.active[x.workspace] == x.id
      ensures x in r.generations || x.state in {Building, Validating, Failed}
    {
      var i: nat :| i < |r.generations| && next.generations[i] == x;
      assert r.generations[i] in r.generations;
    }
  }

  lemma HoldsAfter(r: Repo, next: Repo)
    requires Safe(r) && next.active == r.active && |next.generations| == |r.generations|
    requires forall i: nat :: i < |r.generations| ==>
               next.generations[i].id == r.generations[i].id && next.generations[i].workspace == r.generations[i].workspace
    ensures forall w :: w in next.active ==> Holds(next, w, next.active[w])
  {
    hide Forks, DistinctIds;
    forall w | w in next.active ensures Holds(next, w, next.active[w]) {
      PointerResolves(r, w);
      var i: nat :| i < |r.generations| && r.generations[i] == ActiveOf(r, w).value;
      assert next.generations[i] in next.generations;
    }
  }

  /** Retiring the current generation, activating the target and moving the
      pointer, all done. */
  ghost predicate Moved(r: Repo, next: Repo, target: Generation) {
    && |next.generations| == |r.generations|
    && next.active == r.active[target.workspace := target.id]
    && forall i: nat :: i < |r.generations| ==>
         var g := r.generations[i];
         next.generations[i] ==
           if g.id == target.id then g.(state := Active, failure := None)
           else if g.workspace == target.workspace && g.state == Active then g.(state := Retired, failure := None)
           else g
  }

  lemma MovedIsSafe(r: Repo, next: Repo, target: Generation)
    requires Safe(r) && target in r.generations && target.state in {Validating, Retired} && Moved(r, next, target)
    ensures Safe(next)
  {
    MovedForks(r, next, target);
    MovedHolds(r, next, target);
    forall x | x in next.generations
      ensures x.state == Active <==> x.workspace in next.active && next.active[x.workspace] == x.id
      ensures x.state !in {Pending, Superseded} && (x.state == Retired ==> x.workspace in next.active)
    {
      var i: nat :| i < |r.generations| && next.generations[i] == x;
      MovedOne(r, next, target, i);
    }
  }

  lemma MovedOne(r: Repo, next: Repo, target: Generation, i: nat)
    requires Safe(r) && target in r.generations && target.state in {Validating, Retired} && Moved(r, next, target)
    requires i < |r.generations|
    ensures var x := next.generations[i];
            && (x.state == Active <==> x.workspace in next.active && next.active[x.workspace] == x.id)
            && x.state !in {Pending, Superseded} && (x.state == Retired ==> x.workspace in next.active)
  {
    hide DistinctIds, Forks, Holds;
    var g := r.generations[i];
    assert g in r.generations;
    SameIdSame(r.generations, g, target);
  }

  lemma MovedForks(r: Repo, next: Repo, target: Generation)
    requires DistinctIds(r.generations) && Forks(r.generations) && Moved(r, next, target)
    requires target in r.generations && target.state in {Validating, Retired}
    ensures DistinctIds(next.generations) && Forks(next.generations)
  {
    var gs, ns := r.generations, next.generations;
    forall i: nat | i < |gs|
      ensures ns[i].id == gs[i].id && ns[i].workspace == gs[i].workspace && ns[i].previous == gs[i].previous
      ensures gs[i].state in {Active, Retired} ==> ns[i].state in {Active, Retired}
    {
      SameIdSame(gs, gs[i], target);
    }
    forall i: nat | i < |ns| && ns[i].previous.Some? ensures exists j: nat :: ForkedAt(ns, i, j) {
      var j: nat :| ForkedAt(gs, i, j);
      assert ForkedAt(ns, i, j);
    }
  }

  lemma MovedHolds(r: Repo, next: Repo, target: Generation)
    requires Safe(r) && target in r.generations && Moved(r, next, target)
    ensures forall w :: w in next.active ==> Holds(next, w, next.active[w])
  {
    hide Forks, DistinctIds;
    forall w | w in next.active ensures Holds(next, w, next.active[w]) {
      var g :| g in r.generations && g.id == next.active[w] && g.workspace == w by {
        if w == target.workspace { assert target in r.generations; } else { assert Holds(r, w, r.active[w]); }
      }
      var i: nat :| i < |r.generations| && r.generations[i] == g;
      var x := next.generations[i];
      assert x in next.generations && (g.id == target.id ==> x.id == target.id);
      SameIdSame(r.generations, g, target);
      assert x.id == g.id && x.workspace == w;
    }
  }

  lemma SameIdSame(gs: seq<Generation>, a: Generation, b: Generation)
    requires DistinctIds(gs) && a in gs && b in gs
    ensures a.id == b.id ==> a == b
  {
  }

  /** From a safe repository activation either refuses and changes nothing, or
      moves the pointer; it never stops half way. */
  lemma ActivateMoves(r: Repo, id: GenerationId)
    requires Safe(r)
    ensures var (next, outcome) := ActivateOn(r, id);
            var target := Get(r.generations, id);
            if target.Some? && target.value.state in {Validating, Retired}
            then outcome.Ok? && Moved(r, next, target.value) && target.value in r.generations
            else outcome.Err? && next == r
  {
    FoundIn(r.generations, id);
    var found := Get(r.generations, id);
    if found.Some? && found.value.state in {Validating, Retired} {
      var target := found.value;
      var w := target.workspace;
      PointerResolves(r, w);
      if w in r.active {
        var current := ActiveOf(r, w).value;
        var retired := current.(state := Retired, failure := None);
        FoundIn(r.generations, current.id);
        SameIdSame(r.generations, Get(r.generations, current.id).value, current);
        FoundAfter(r.generations, retired, id);
      }
      ActivateSteps(r, target);
    }
  }

  lemma ActivateSteps(r: Repo, target: Generation)
    requires Safe(r) && Get(r.generations, target.id) == Some(target) && target.state in {Validating, Retired}
    requires target.workspace in r.active ==>
               var current := ActiveOf(r, target.workspace);
               && current.Some? && current.value in r.generations && current.value.state == Active
               && current.value.id == r.active[target.workspace] && current.value.workspace == target.workspace
               && Get(r.generations, current.value.id) == current
               && Get(Replace(r.generations, current.value.(state := Retired, failure := None)), target.id) == Some(target)
    ensures ActivateOn(r, target.id).1.Ok? && Moved(r, ActivateOn(r, target.id).0, target)
  {
    var w := target.workspace;
    var next := ActivateOn(r, target.id).0;
    FoundIn(r.generations, target.id);
    forall i: nat | i < |r.generations|
      ensures r.generations[i] in r.generations
      ensures r.generations[i].id == target.id ==> r.generations[i] == target
      ensures w in r.active && r.generations[i].id == r.active[w] ==> r.generations[i] == ActiveOf(r, w).value
    {
      SameIdSame(r.generations, r.generations[i], target);
      if w in r.active { SameIdSame(r.generations, r.generations[i], ActiveOf(r, w).value); }
    }
  }

  // ----- every operation -----

  lemma CreateIsSafe(r: Repo, a: Attempt)
    requires Safe(r) && Get(r.generations, a.id).None?
    ensures var previous := ActiveOf(r, a.workspace);
            var g := Generation(a.id, a.workspace, Pending, if previous.Some? then Some(previous.value.id) else None, None);
            var created := CreateOn(r, g).0;
            Safe(created) && Get(created.generations, a.id) == Some(g.(state := Building)) && created.active == r.active
  {
    var previous := ActiveOf(r, a.workspace);
    var g := Generation(a.id, a.workspace, Building, if previous.Some? then Some(previous.value.id) else None, None);
    AppendIsSafe(r, g);
    FoundIs(r.generations + [g], |r.generations|);
  }

  lemma QuietStep(r: Repo, id: GenerationId, state: State, failure: Option<string>)
    requires Safe(r) && Get(r.generations, id).Some?
    requires var g := Get(r.generations, id).value;
             g.state in {Building, Validating} && state in Transitions(g.state) && state in {Validating, Failed}
    ensures var (next, outcome) := TransitionOn(r, id, state, failure);
            && outcome.Ok? && Safe(next) && next.active == r.active
            && Get(next.generations, id) == Some(Get(r.generations, id).value.(state := state, failure := failure))
  {
    FoundIn(r.generations, id);
    var updated := Get(r.generations, id).value.(state := state, failure := failure);
    QuietTransition(r, updated);
    FoundAfter(r.generations, updated, id);
  }

  lemma ActivateIsSafe(r: Repo, id: GenerationId)
    requires Safe(r)
    ensures Safe(ActivateOn(r, id).0)
    ensures forall w :: w in r.active ==> w in ActivateOn(r, id).0.active
    ensures ActivateOn(r, id).1.Err? ==> ActivateOn(r, id).0 == r
    ensures Get(r.generations, id).Some? && Get(r.generations, id).value.state == Validating ==> ActivateOn(r, id).1.Ok?
  {
    hide ActivateOn, Safe;
    ActivateMoves(r, id);
    var target := Get(r.generations, id);
    if target.Some? && target.value.state in {Validating, Retired} {
      MovedIsSafe(r, ActivateOn(r, id).0, target.value);
    }
  }

  lemma BuildIsSafe(r: Repo, a: Attempt)
    requires Safe(r)
    ensures Safe(BuildOn(r, a).0)
    ensures forall w :: w in r.active ==> w in BuildOn(r, a).0.active
  {
    hide Safe, ActivateOn, TransitionOn, Get, ActiveOf;
    if Get(r.generations, a.id).None? {
      CreateIsSafe(r, a);
      var previous := ActiveOf(r, a.workspace);
      var g := Generation(a.id, a.workspace, Pending, if previous.Some? then Some(previous.value.id) else None, None);
      var created := CreateOn(r, g).0;
      if a.engineError.Some? {
        QuietStep(created, a.id, Failed, a.engineError);
      } else {
        QuietStep(created, a.id, Validating, None);
        var validating := TransitionOn(created, a.id, Validating, None).0;
        if !a.valid {
          QuietStep(validating, a.id, Failed, Some("RuntimeError"));
        } else if a.activate {
          ActivateIsSafe(validating, a.id);
        }
      }
    }
  }

  /** One operation keeps the repository safe and no workspace loses its pointer. */
  lemma OpIsSafe(r: Repo, op: Op)
    requires Safe(r)
    ensures Safe(Run(r, op).0)
    ensures forall w :: w in r.active ==> w in Run(r, op).0.active
  {
    hide Safe, ActivateOn, BuildOn;
    match op
    case Build(a) => BuildIsSafe(r, a);
    case Incremental(a, deleting) => BuildIsSafe(r, a);
    case Rollback(w, id) => ActivateIsSafe(r, id);
  }

  lemma EmptyIsSafe()
    ensures Safe(Repo([], map[]))
  {
  }

  /** Every uninterrupted run is safe. */
  lemma {:induction false} RunsAreSafe(ops: seq<Op>)
    ensures Safe(Exec(ops))
  {
    EmptyIsSafe();
    if ops != [] {
      hide Safe, Run;
      RunsAreSafe(ops[..|ops| - 1]);
      OpIsSafe(Exec(ops[..|ops| - 1]), ops[|ops| - 1]);
    }
  }

  /** Once a workspace has an active generation it has one ever after. */
  lemma {:induction false} ActiveForever(ops: seq<Op>, more: seq<Op>, w: Workspace)
    requires ActiveOf(Exec(ops), w).Some?
    ensures ActiveOf(Exec(ops + more), w).Some?
  {
    hide Safe, Run, ActiveOf;
    RunsAreSafe(ops + more);
    PointerResolves(Exec(ops + more), w);
    if more == [] {
      assert ops + more == ops;
    } else {
      var front := ops + more[..|more| - 1];
      ActiveForever(ops, more[..|more| - 1], w);
      RunsAreSafe(front);
      PointerResolves(Exec(front), w);
      assert (ops + more)[..|ops + more| - 1] == front;
      OpIsSafe(Exec(front), more[|more| - 1]);
    }
  }

  // ----- the chain of previous generations -----

  /** The ids met by following `previous` from position `i`. */
  ghost function History(gs: seq<Generation>, i: nat): seq<nat>
    requires Forks(gs) && i < |gs|
  {
    if gs[i].previous.None? then [i]
    else
      var j: nat :| ForkedAt(gs, i, j);
      [i] + History(gs, j)
  }

  ghost predicate SoundHistory(gs: seq<Generation>, h: seq<nat>, i: nat)
    requires i < |gs|
  {
    && |h| > 0 && h[0] == i && (forall k :: 0 <= k < |h| ==> h[k] < |gs|)
    && (forall a, b :: 0 <= a < b < |h| && b == a + 1 ==>
          h[b] < h[a] && gs[h[a]].previous == Some(gs[h[b]].id) && gs[h[b]].state in {Active, Retired})
    && (forall k :: 0 <= k < |h| ==> gs[h[k]].workspace == gs[i].workspace)
    && gs[h[|h| - 1]].previous.None?
  }

  /** A history goes strictly back in creation order, stays in one workspace, ends
      at a generation without predecessor, and everything before its start was
      once active. */
  lemma {:induction false} HistoryIsSound(gs: seq<Generation>, i: nat)
    requires Forks(gs) && i < |gs|
    ensures SoundHistory(gs, History(gs, i), i)
  {
    if gs[i].previous.Some? {
      var h := History(gs, i);
      var j: nat :| ForkedAt(gs, i, j) && h == [i] + History(gs, j);
      HistoryIsSound(gs, j);
      HistoryCons(gs, i, j, History(gs, j));
    }
  }

  lemma HistoryCons(gs: seq<Generation>, i: nat, j: nat, rest: seq<nat>)
    requires ForkedAt(gs, i, j) && SoundHistory(gs, rest, j)
    ensures SoundHistory(gs, [i] + rest, i)
  {
    var h := [i] + rest;
    assert forall k :: 0 < k < |h| ==> h[k] == rest[k - 1];
    forall a, b | 0 <= a < b < |h| && b == a + 1
      ensures h[b] < h[a] && gs[h[a]].previous == Some(gs[h[b]].id) && gs[h[b]].state in {Active, Retired}
    {
      if a > 0 { assert h[a] == rest[a - 1] && h[b] == rest[b - 1]; }
    }
  }

  /** On every run the predecessor of the active generation can be rolled back to. */
  lemma RollbackToPreviousWorks(ops: seq<Op>, w: Workspace)
    requires ActiveOf(Exec(ops), w).Some? && ActiveOf(Exec(ops), w).value.previous.Some?
    ensures var previous := ActiveOf(Exec(ops), w).value.previous.value;
            var (next, outcome) := RollbackOn(Exec(ops), w, previous);
            outcome.Ok? && ActiveOf(next, w).Some? && ActiveOf(next, w).value.id == previous
  {
    RunsAreSafe(ops);
    RollbackFromSafe(Exec(ops), w);
  }

  lemma PreviousIsRetired(r: Repo, w: Workspace) returns (target: Generation)
    requires Safe(r) && ActiveOf(r, w).Some? && ActiveOf(r, w).value.previous.Some?
    ensures target in r.generations && target.workspace == w && target.state == Retired
    ensures ActiveOf(r, w).value.previous == Some(target.id) && Get(r.generations, target.id) == Some(target)
  {
    PointerResolves(r, w);
    var current := ActiveOf(r, w).value;
    var i: nat :| i < |r.generations| && r.generations[i] == current;
    var j: nat :| ForkedAt(r.generations, i, j);
    target := r.generations[j];
    FoundIs(r.generations, j);
    if target.state == Active { OneActive(r, target, current); }
  }

  lemma MovedTarget(r: Repo, next: Repo, target: Generation)
    requires Safe(r) && Safe(next) && target in r.generations && Moved(r, next, target)
    ensures ActiveOf(next, target.workspace) == Some(target.(state := Active, failure := None))
  {
    var i: nat :| i < |r.generations| && r.generations[i] == target;
    assert next.generations[i] == target.(state := Active, failure := None);
    FoundIs(next.generations, i);
  }

  lemma RollbackFromSafe(r: Repo, w: Workspace)
    requires Safe(r) && ActiveOf(r, w).Some? && ActiveOf(r, w).value.previous.Some?
    ensures var previous := ActiveOf(r, w).value.previous.value;
            var (next, outcome) := RollbackOn(r, w, previous);
            outcome.Ok? && ActiveOf(next, w).Some? && ActiveOf(next, w).value.id == previous
  {
    hide Safe, ActivateOn, ActiveOf, Moved;
    var target := PreviousIsRetired(r, w);
    ActivateMoves(r, target.id);
    var next := ActivateOn(r, target.id).0;
    MovedIsSafe(r, next, target);
    MovedTarget(r, next, target);
  }

  // ----- interruption inside activation -----

  function WithRetired(r: Repo, w: Workspace): Repo {
    if w in r.active then TransitionOn(r, r.active[w], Retired, None).0 else r
  }

  lemma RetiredStops(r: Repo, w: Workspace)
    requires Safe(r) && w in r.active
    ensures var current := ActiveOf(r, w);
            var broken := WithRetired(r, w);
            && current.Some? && current.value in r.generations && current.value.id == r.active[w]
            && current.value.workspace == w && current.value.state == Active
            && broken == r.(generations := Replace(r.generations, current.value.(state := Retired, failure := None)))
            && Get(broken.generations, r.active[w]) == Some(current.value.(state := Retired, failure := None))
            && !Safe(broken)
  {
    PointerResolves(r, w);
    var current := ActiveOf(r, w).value;
    var retired := current.(state := Retired, failure := None);
    FoundAfter(r.generations, retired, current.id);
    FoundIn(WithRetired(r, w).generations, current.id);
    assert retired in WithRetired(r, w).generations;
    assert !ActiveIsPointer(WithRetired(r, w));
  }

  /** A retired pointer cannot be retired again, so nothing else can take its place. */
  lemma RetireAgainFails(broken: Repo, w: Workspace)
    requires w in broken.active && Get(broken.generations, broken.active[w]).Some?
    requires Get(broken.generations, broken.active[w]).value.state == Retired
    ensures TransitionOn(broken, broken.active[w], Retired, None) == (broken, Err(IllegalTransition))
  {
  }

  lemma ReplaceTwice(gs: seq<Generation>, a: Generation, b: Generation)
    requires a.id == b.id
    ensures Replace(Replace(gs, a), b) == Replace(gs, b)
  {
  }

  /** The failure text of an active generation does not matter. */
  lemma CleanIsSafe(r: Repo, g: Generation)
    requires Safe(r) && Get(r.generations, g.id) == Some(g) && g.state == Active
    ensures Safe(r.(generations := Replace(r.generations, g.(failure := None))))
  {
    var clean := g.(failure := None);
    var next := r.(generations := Replace(r.generations, clean));
    hide Get, Replace, DistinctIds, Forks, Holds;
    FoundIn(r.generations, g.id);
    ReplaceKeeps(r.generations, clean);
    HoldsAfter(r, next);
    CleanStates(r, next, g, clean);
  }

  lemma CleanStates(r: Repo, next: Repo, was: Generation, g: Generation)
    requires ActiveIsPointer(r) && was in r.generations && g == was.(failure := None)
    requires next.active == r.active && |next.generations| == |r.generations|
    requires forall i: nat :: i < |r.generations| ==>
               next.generations[i] == r.generations[i] || (r.generations[i] == was && next.generations[i] == g)
    ensures forall x :: x in next.generations ==>
              && (x.state == Active <==> x.workspace in next.active && next.active[x.workspace] == x.id)
              && (x in r.generations || (x == g && was in r.generations))
  {
    forall x | x in next.generations
      ensures x.state == Active <==> x.workspace in next.active && next.active[x.workspace] == x.id
      ensures x in r.generations || (x == g && was in r.generations)
    {
      var i: nat :| i < |r.generations| && next.generations[i] == x;
      assert r.generations[i] in r.generations;
    }
  }

  /** The repository with the pointed but retired generation made active again. */
  function Mended(r: Repo, last: GenerationId): Repo {
    match Get(r.generations, last)
    case None => r
    case Some(g) => r.(generations := Replace(r.generations, g.(state := Active, failure := None)))
  }

  /** The pointer of `w` leads to a retired generation, and that is all that is wrong. */
  ghost predicate Halted(r: Repo, w: Workspace, last: GenerationId) {
    && w in r.active && r.active[w] == last
    && Get(r.generations, last).Some? && Get(r.generations, last).value.state == Retired
    && Safe(Mended(r, last))
  }

  lemma HaltedStart(r: Repo, w: Workspace)
    requires Safe(r) && w in r.active
    ensures Halted(WithRetired(r, w), w, r.active[w])
  {
    hide Safe, Find, Replace;
    RetiredStops(r, w);
    PointerResolves(r, w);
    var current := ActiveOf(r, w).value;
    CleanIsSafe(r, current);
    ReplaceTwice(r.generations, current.(state := Retired, failure := None), current.(failure := None));
  }

  lemma ReactivateMends(r: Repo, w: Workspace, last: GenerationId)
    requires w in r.active && r.active[w] == last && Get(r.generations, last).Some?
    requires Get(r.generations, last).value.state == Retired && Get(r.generations, last).value.workspace == w
    ensures ActivateOn(r, last).1.Ok? && ActivateOn(r, last).0 == Mended(r, last)
  {
    hide Find, Replace;
    FoundIn(r.generations, last);
    assert r.active[w := last] == r.active;
  }

  lemma MendedGet(r: Repo, last: GenerationId, id: GenerationId)
    requires Get(r.generations, last).Some?
    ensures Get(Mended(r, last).generations, id) ==
              if id == last then Some(Get(r.generations, last).value.(state := Active, failure := None))
              else Get(r.generations, id)
  {
    var g := Get(r.generations, last).value.(state := Active, failure := None);
    FoundIn(r.generations, last);
    hide Find, Get, Replace;
    FoundAfter(r.generations, g, id);
  }

  lemma HaltedIs(r: Repo, w: Workspace, last: GenerationId)
    requires Halted(r, w, last)
    ensures Safe(Mended(r, last)) && Mended(r, last).active == r.active && !Safe(r)
    ensures Get(r.generations, last).Some? && Get(r.generations, last).value.workspace == w
    ensures forall v :: v in r.active && v != w ==> r.active[v] != last
    ensures forall g :: g in r.generations && g.workspace == w ==> g.state != Active
  {
    var m := Mended(r, last);
    hide Find, Replace;
    FoundIn(r.generations, last);
    MendedGet(r, last, last);
    PointerResolves(m, w);
    forall v | v in r.active && v != w ensures r.active[v] != last { PointerResolves(m, v); }
    assert Get(r.generations, last).value in r.generations;
    forall g | g in r.generations && g.workspace == w ensures g.state != Active {
      NotActiveIn(r, w, last, g);
    }
  }

  lemma NotActiveIn(r: Repo, w: Workspace, last: GenerationId, g: Generation)
    requires Halted(r, w, last) && g in r.generations && g.workspace == w
    ensures g.state != Active
  {
    var m, was := Mended(r, last), Get(r.generations, last).value;
    FoundIn(r.generations, last);
    var i: nat :| i < |r.generations| && r.generations[i] == g;
    assert m.generations[i] in m.generations;
    if g.id == last {
      var f: nat :| f < |r.generations| && r.generations[f] == was;
      assert m.generations[f].id == m.generations[i].id;
    }
  }

  lemma ReplaceSwaps(gs: seq<Generation>, a: Generation, b: Generation)
    requires a.id != b.id
    ensures Replace(Replace(gs, a), b) == Replace(Replace(gs, b), a)
  {
  }

  /** Transitions of other generations and the mending commute. */
  lemma MendTransition(r: Repo, last: GenerationId, id: GenerationId, state: State, failure: Option<string>)
    requires Get(r.generations, last).Some? && id != last
    ensures var (next, outcome) := TransitionOn(r, id, state, failure);
            && TransitionOn(Mended(r, last), id, state, failure) == (Mended(next, last), outcome)
            && Get(next.generations, last) == Get(r.generations, last)
  {
    MendedGet(r, last, id);
    if Get(r.generations, id).Some? {
      FoundIn(r.generations, id);
      FoundIn(r.generations, last);
      var updated := Get(r.generations, id).value.(state := state, failure := failure);
      var mended := Get(r.generations, last).value.(state := Active, failure := None);
      hide Find, Get, Replace;
      FoundAfter(r.generations, updated, last);
      ReplaceSwaps(r.generations, updated, mended);
    }
  }

  lemma QuietHalted(r: Repo, w: Workspace, last: GenerationId, id: GenerationId, state: State, failure: Option<string>)
    requires Halted(r, w, last) && id != last && Get(r.generations, id).Some?
    requires var g := Get(r.generations, id).value;
             g.state in {Building, Validating} && state in Transitions(g.state) && state in {Validating, Failed}
    ensures var (next, outcome) := TransitionOn(r, id, state, failure);
            && outcome.Ok? && Halted(next, w, last) && next.active == r.active
            && Get(next.generations, id) == Some(Get(r.generations, id).value.(state := state, failure := failure))
  {
    hide Safe, Find, Get, Replace, TransitionOn, Mended, Transitions;
    MendTransition(r, last, id, state, failure);
    MendedGet(r, last, id);
    QuietStep(Mended(r, last), id, state, failure);
    var next := TransitionOn(r, id, state, failure).0;
    MendedGet(next, last, id);
    HaltedIs(r, w, last);
    MendedActive(next, last);
  }

  lemma MendedActive(r: Repo, last: GenerationId)
    ensures Mended(r, last).active == r.active
  {
  }

  /** While halted nothing but the old generation can be activated in `w`, and
      activations elsewhere change nothing about that. */
  lemma ActivateHalted(r: Repo, w: Workspace, last: GenerationId, id: GenerationId)
    requires Halted(r, w, last) && id != last
    ensures var (next, outcome) := ActivateOn(r, id);
            && Halted(next, w, last)
            && (Get(r.generations, id).Some? && Get(r.generations, id).value.workspace == w ==> outcome.Err? && next == r)
            && (Get(r.generations, id).Some? && Get(r.generations, id).value.state == Validating
                ==> (outcome.Ok? <==> Get(r.generations, id).value.workspace != w))
  {
    HaltedIs(r, w, last);
    hide Safe, Find, Replace;
    FoundIn(r.generations, id);
    var found := Get(r.generations, id);
    if found.Some? && found.value.state in {Validating, Retired, Superseded} {
      if found.value.workspace == w {
        RetireAgainFails(r, w);
        FoundIn(r.generations, last);
      } else {
        ActivateElsewhere(r, w, last, found.value);
      }
    }
  }

  lemma ActivateElsewhere(r: Repo, w: Workspace, last: GenerationId, target: Generation)
    requires Halted(r, w, last) && target.id != last && Get(r.generations, target.id) == Some(target)
    requires target.workspace != w && target.state in {Validating, Retired, Superseded}
    ensures Halted(ActivateOn(r, target.id).0, w, last) && ActivateOn(r, target.id).1.Ok?
  {
    hide Safe, Find, Replace;
    HaltedIs(r, w, last);
    MendActivate(r, w, last, target);
    ActivateIsSafe(Mended(r, last), target.id);
  }

  lemma MendActivate(r: Repo, w: Workspace, last: GenerationId, target: Generation)
    requires Halted(r, w, last) && target.id != last && Get(r.generations, target.id) == Some(target)
    requires target.workspace != w && target.state in {Validating, Retired, Superseded}
    ensures var next := ActivateOn(r, target.id).0;
            && ActivateOn(Mended(r, last), target.id).0 == Mended(next, last)
            && w in next.active && next.active[w] == last && Get(next.generations, last) == Get(r.generations, last)
            && ActivateOn(r, target.id).1.Ok?
  {
    var v, m := target.workspace, Mended(r, last);
    hide Safe, Get, TransitionOn, ActivateOn, Mended, Halted, ActiveOf;
    HaltedIs(r, w, last);
    HaltedGets(r, w, last, target);
    ActivateIs(r, target);
    ActivateIs(m, target);
    var retired := if v in r.active then TransitionOn(r, r.active[v], Retired, None).0 else r;
    if v in r.active { MendTransition(r, last, r.active[v], Retired, None); }
    MendTransition(retired, last, target.id, Active, None);
    PointerMends(TransitionOn(retired, target.id, Active, None).0, last, r.active[v := target.id]);
  }

  lemma HaltedGets(r: Repo, w: Workspace, last: GenerationId, target: Generation)
    requires Halted(r, w, last) && target.id != last && Get(r.generations, target.id) == Some(target)
    requires target.workspace != w && target.state in {Validating, Retired, Superseded}
    ensures Get(Mended(r, last).generations, target.id) == Some(target)
    ensures var v := target.workspace;
            v in r.active ==>
              && r.active[v] != target.id && r.active[v] != last
              && Get(r.generations, r.active[v]).Some? && Get(r.generations, r.active[v]).value.state == Active
              && Get(Mended(r, last).generations, r.active[v]) == Get(r.generations, r.active[v])
              && Mended(r, last).active == r.active && w in r.active && r.active[w] == last
    ensures Get(r.generations, last).Some? && w in r.active && r.active[w] == last
  {
    var v, m := target.workspace, Mended(r, last);
    HaltedIs(r, w, last);
    MendedGet(r, last, target.id);
    if v in r.active {
      MendedGet(r, last, r.active[v]);
      hide Safe, Find, Replace;
      PointerResolves(m, v);
    }
  }

  /** Activation written out for a target whose workspace, if it has a pointer,
      points to another, active generation. */
  lemma ActivateIs(r: Repo, target: Generation)
    requires Get(r.generations, target.id) == Some(target) && target.state in {Validating, Retired, Superseded}
    requires target.workspace in r.active ==>
               && r.active[target.workspace] != target.id && Get(r.generations, r.active[target.workspace]).Some?
               && Get(r.generations, r.active[target.workspace]).value.state == Active
    ensures var v := target.workspace;
            var retired := if v in r.active then TransitionOn(r, r.active[v], Retired, None).0 else r;
            var activated := TransitionOn(retired, target.id, Active, None);
            && activated.1.Ok? && retired.active == r.active
            && ActivateOn(r, target.id) == (activated.0.(active := r.active[v := target.id]), activated.1)
  {
    var v := target.workspace;
    FoundIn(r.generations, target.id);
    if v in r.active {
      FoundIn(r.generations, r.active[v]);
      var updated := Get(r.generations, r.active[v]).value.(state := Retired, failure := None);
      hide Find, Get, Replace;
      FoundAfter(r.generations, updated, target.id);
    }
  }

  lemma PointerMends(r: Repo, last: GenerationId, active: map<Workspace, GenerationId>)
    ensures Mended(r.(active := active), last) == Mended(r, last).(active := active)
  {
  }

  lemma CreateHalted(r: Repo, w: Workspace, last: GenerationId, a: Attempt)
    requires Halted(r, w, last) && Get(r.generations, a.id).None?
    ensures var previous := ActiveOf(r, a.workspace);
            var g := Generation(a.id, a.workspace, Pending, if previous.Some? then Some(previous.value.id) else None, None);
            var created := CreateOn(r, g).0;
            && a.id != last && Halted(created, w, last) && Get(created.generations, a.id) == Some(g.(state := Building))
  {
    var previous := ActiveOf(r, a.workspace);
    var g := Generation(a.id, a.workspace, Pending, if previous.Some? then Some(previous.value.id) else None, None);
    HaltedIs(r, w, last);
    MendedGet(r, last, a.id);
    if a.workspace in r.active {
      MendedGet(r, last, r.active[a.workspace]);
      FoundIn(r.generations, r.active[a.workspace]);
      FoundIn(Mended(r, last).generations, r.active[a.workspace]);
    }
    hide Safe, Find;
    AppendFound(r.generations, g.(state := Building), last);
    AppendFound(r.generations, g.(state := Building), a.id);
    CreateIsSafe(Mended(r, last), a);
    MendCreate(r, last, g.(state := Building));
  }

  lemma MendCreate(r: Repo, last: GenerationId, g: Generation)
    requires Get(r.generations, last).Some? && Get(r.generations, g.id).None?
    ensures Mended(r.(generations := r.generations + [g]), last) ==
            Mended(r, last).(generations := Mended(r, last).generations + [g])
  {
    FoundIn(r.generations, last);
    FoundIn(r.generations, g.id);
    AppendFound(r.generations, g, last);
    var mended := Get(r.generations, last).value.(state := Active, failure := None);
    assert mended.id != g.id;
    assert Replace(r.generations + [g], mended) == Replace(r.generations, mended) + [g];
  }

  lemma BuildHalted(r: Repo, w: Workspace, last: GenerationId, a: Attempt)
    requires Halted(r, w, last)
    ensures Halted(BuildOn(r, a).0, w, last)
  {
    hide Halted, ActivateOn, TransitionOn, Get, ActiveOf;
    if Get(r.generations, a.id).None? {
      CreateHalted(r, w, last, a);
      var previous := ActiveOf(r, a.workspace);
      var g := Generation(a.id, a.workspace, Pending, if previous.Some? then Some(previous.value.id) else None, None);
      var created := CreateOn(r, g).0;
      if a.engineError.Some? {
        QuietHalted(created, w, last, a.id, Failed, a.engineError);
      } else {
        QuietHalted(created, w, last, a.id, Validating, None);
        var validating := TransitionOn(created, a.id, Validating, None).0;
        QuietHalted(validating, w, last, a.id, Failed, Some("RuntimeError"));
        QuietHalted(validating, w, last, a.id, Failed, Some("ValueError"));
        ActivateHalted(validating, w, last, a.id);
      }
    }
  }

  predicate Reactivates(op: Op, last: GenerationId) {
    op.Rollback? && op.id == last
  }

  lemma RunHalted(r: Repo, w: Workspace, last: GenerationId, op: Op)
    requires Halted(r, w, last) && !Reactivates(op, last)
    ensures Halted(Run(r, op).0, w, last)
  {
    hide Halted, ActivateOn, BuildOn, Get;
    match op
    case Build(a) => BuildHalted(r, w, last, a);
    case Incremental(a, deleting) => BuildHalted(r, w, last, a);
    case Rollback(v, id) => ActivateHalted(r, w, last, id);
  }

  lemma {:induction false} HaltedForever(r: Repo, w: Workspace, last: GenerationId, ops: seq<Op>)
    requires Halted(r, w, last) && forall op :: op in ops ==> !Reactivates(op, last)
    ensures Halted(ExecFrom(r, ops), w, last)
  {
    hide Halted, Run;
    if ops != [] {
      var pre, op := ops[..|ops| - 1], ops[|ops| - 1];
      assert op in ops && forall o :: o in pre ==> o in ops;
      HaltedForever(r, w, last, pre);
      RunHalted(ExecFrom(r, pre), w, last, op);
    }
  }

  /** Stopped after the old generation is retired and before the new one is
      activated. Whatever is run afterwards, until the old generation is activated
      again nothing of the workspace is active and no other generation of it can be
      activated; and activating the old one repairs the repository at any time. */
  lemma StoppedAfterRetire(r: Repo, w: Workspace, ops: seq<Op>, id: GenerationId)
    requires Safe(r) && w in r.active && forall op :: op in ops ==> !Reactivates(op, r.active[w])
    ensures var last, later := r.active[w], ExecFrom(WithRetired(r, w), ops);
            && !Safe(later) && (forall g :: g in later.generations && g.workspace == w ==> g.state != Active)
            && (id != last && Get(later.generations, id).Some? && Get(later.generations, id).value.workspace == w
                ==> ActivateOn(later, id).1.Err? && ActivateOn(later, id).0 == later)
            && ActivateOn(later, last).1.Ok? && Safe(ActivateOn(later, last).0)
  {
    hide Halted, Safe, ActivateOn, Get, ExecFrom;
    var last, later := r.active[w], ExecFrom(WithRetired(r, w), ops);
    HaltedStart(r, w);
    HaltedForever(WithRetired(r, w), w, last, ops);
    HaltedIs(later, w, last);
    if id != last { ActivateHalted(later, w, last, id); }
    HaltedPointer(later, w, last);
    ReactivateMends(later, w, last);
  }

  lemma HaltedPointer(r: Repo, w: Workspace, last: GenerationId)
    requires Halted(r, w, last)
    ensures w in r.active && r.active[w] == last
    ensures Get(r.generations, last).Some? && Get(r.generations, last).value.state == Retired
  {
  }

  /** Stopped after the new generation is active and before the pointer moves:
      rolling back to the old one leaves two active generations. */
  lemma StoppedBeforePointer(r: Repo, target: Generation)
    requires Safe(r) && Get(r.generations, target.id) == Some(target)
    requires target.state in {Validating, Retired} && target.workspace in r.active
    ensures var stopped := TransitionOn(WithRetired(r, target.workspace), target.id, Active, None).0;
            var was := r.active[target.workspace];
            var (next, outcome) := ActivateOn(stopped, was);
            && outcome.Ok? && was != target.id
            && Get(next.generations, was).Some? && Get(next.generations, was).value.state == Active
            && Get(next.generations, target.id).Some? && Get(next.generations, target.id).value.state == Active
  {
    hide Safe, Find, Get, Replace, ActivateOn, TransitionOn;
    StoppedHolds(r, target);
    var stopped := TransitionOn(WithRetired(r, target.workspace), target.id, Active, None).0;
    var was := r.active[target.workspace];
    ReactivateKeeps(stopped, was, target.workspace, target.id);
  }

  lemma StoppedHolds(r: Repo, target: Generation)
    requires Safe(r) && Get(r.generations, target.id) == Some(target)
    requires target.state in {Validating, Retired} && target.workspace in r.active
    ensures var w := target.workspace;
            var stopped := TransitionOn(WithRetired(r, w), target.id, Active, None).0;
            && stopped.active == r.active && r.active[w] != target.id
            && Get(stopped.generations, target.id) == Some(target.(state := Active, failure := None))
            && Get(stopped.generations, r.active[w]).Some?
            && Get(stopped.generations, r.active[w]).value.state == Retired
            && Get(stopped.generations, r.active[w]).value.workspace == w
  {
    var w := target.workspace;
    PointerResolves(r, w);
    FoundIn(r.generations, target.id);
    var current := ActiveOf(r, w).value;
    var retired := current.(state := Retired, failure := None);
    hide Safe, Find, Get, Replace;
    FoundAfter(r.generations, retired, target.id);
    AfterTwo(r, retired, target.(state := Active, failure := None), target.id);
    AfterTwo(r, retired, target.(state := Active, failure := None), current.id);
  }

  /** The pointer's generation is activated again without retiring anything. */
  lemma ReactivateKeeps(stopped: Repo, was: GenerationId, w: Workspace, other: GenerationId)
    requires w in stopped.active && stopped.active[w] == was && was != other
    requires Get(stopped.generations, was).Some? && Get(stopped.generations, was).value.state == Retired
    requires Get(stopped.generations, was).value.workspace == w
    ensures var (next, outcome) := ActivateOn(stopped, was);
            && outcome.Ok? && Get(next.generations, was).Some? && Get(next.generations, was).value.state == Active
            && Get(next.generations, other) == Get(stopped.generations, other)
  {
    FoundIn(stopped.generations, was);
    var again := Get(stopped.generations, was).value.(state := Active, failure := None);
    hide Find, Get, Replace;
    FoundAfter(stopped.generations, again, was);
    FoundAfter(stopped.generations, again, other);
  }

  // ----- a first activation that stopped half way -----

  /** Active, but no workspace points to it. */
  ghost predicate Stuck(r: Repo, id: GenerationId) {
    && Get(r.generations, id).Some? && Get(r.generations, id).value.state == Active
    && forall w :: w in r.active ==> r.active[w] != id
  }

  /** Every pointer leads to an active generation of its workspace. */
  ghost predicate PointersActive(r: Repo) {
    forall w :: w in r.active ==>
      var g := Get(r.generations, r.active[w]);
      g.Some? && g.value.state == Active && g.value.workspace == w
  }

  lemma SafePointers(r: Repo)
    requires Safe(r)
    ensures PointersActive(r)
  {
    hide Safe;
    forall w | w in r.active
      ensures Get(r.generations, r.active[w]).Some?
      ensures var g := Get(r.generations, r.active[w]).value; g.state == Active && g.workspace == w
    {
      PointerResolves(r, w);
    }
  }

  /** A generation no pointer names moves between states that are not active. */
  lemma QuietStuck(r: Repo, id: GenerationId, other: GenerationId, state: State, failure: Option<string>)
    requires PointersActive(r) && Stuck(r, id) && id != other
    requires forall w :: w in r.active ==> r.active[w] != other
    ensures var next := TransitionOn(r, other, state, failure).0;
            && PointersActive(next) && Stuck(next, id) && next.active == r.active
            && Get(next.generations, id) == Get(r.generations, id)
  {
    hide Find;
    if Get(r.generations, other).Some? {
      FoundIn(r.generations, other);
      var updated := Get(r.generations, other).value.(state := state, failure := failure);
      hide Get, Replace;
      FoundAfter(r.generations, updated, id);
      forall w | w in r.active
        ensures Get(Replace(r.generations, updated), r.active[w]) == Get(r.generations, r.active[w])
      {
        FoundAfter(r.generations, updated, r.active[w]);
      }
    }
  }

  /** Activation refuses a stuck generation, works on any other candidate, and
      leaves the stuck one as it is. */
  lemma ActivateStuck(r: Repo, id: GenerationId, other: GenerationId)
    requires PointersActive(r) && Stuck(r, id)
    ensures var (next, outcome) := ActivateOn(r, other);
            && PointersActive(next) && Stuck(next, id) && Get(next.generations, id) == Get(r.generations, id)
            && (forall w :: w in r.active ==> w in next.active)
            && (other == id ==> outcome == Err(NotActivatable) && next == r)
            && var target := Get(r.generations, other);
               if target.Some? && target.value.state in {Validating, Retired, Superseded}
               then outcome.Ok? && target.value.workspace in next.active && next.active[target.value.workspace] == other
               else outcome.Err? && next == r
  {
    hide Find;
    FoundIn(r.generations, other);
    var found := Get(r.generations, other);
    if found.Some? && found.value.state in {Validating, Retired, Superseded} {
      ActivateOther(r, id, found.value);
    }
  }

  /** What an id leads to once the pointer of the target's workspace has moved. */
  ghost function AfterSwap(r: Repo, target: Generation, id: GenerationId): Option<Generation> {
    var current := ActiveOf(r, target.workspace);
    if id == target.id then Some(target.(state := Active, failure := None))
    else if current.Some? && current.value.id == id then Some(current.value.(state := Retired, failure := None))
    else Get(r.generations, id)
  }

  lemma ActivateSwaps(r: Repo, target: Generation, id: GenerationId)
    requires PointersActive(r) && Get(r.generations, target.id) == Some(target)
    requires target.state in {Validating, Retired, Superseded}
    ensures var (next, outcome) := ActivateOn(r, target.id);
            && outcome.Ok? && next.active == r.active[target.workspace := target.id]
            && Get(next.generations, id) == AfterSwap(r, target, id)
  {
    var w := target.workspace;
    var active := target.(state := Active, failure := None);
    if w in r.active {
      FoundIn(r.generations, r.active[w]);
      var retired := ActiveOf(r, w).value.(state := Retired, failure := None);
      hide Get, Replace;
      FoundAfter(r.generations, retired, target.id);
      AfterTwo(r, retired, active, id);
    } else {
      hide Get, Replace;
      FoundAfter(r.generations, active, id);
    }
  }

  lemma ActivateOther(r: Repo, id: GenerationId, target: Generation)
    requires PointersActive(r) && Stuck(r, id) && Get(r.generations, target.id) == Some(target)
    requires target.state in {Validating, Retired, Superseded}
    ensures var (next, outcome) := ActivateOn(r, target.id);
            && outcome.Ok? && PointersActive(next) && Stuck(next, id)
            && Get(next.generations, id) == Get(r.generations, id)
            && next.active == r.active[target.workspace := target.id]
  {
    var next := ActivateOn(r, target.id).0;
    ActivateSwaps(r, target, id);
    var current := ActiveOf(r, target.workspace);
    if current.Some? { FoundIn(r.generations, r.active[target.workspace]); }
    hide Get, ActivateOn;
    forall v | v in next.active
      ensures next.active[v] != id && Get(next.generations, next.active[v]).Some?
      ensures var g := Get(next.generations, next.active[v]).value; g.state == Active && g.workspace == v
    {
      ActivateSwaps(r, target, next.active[v]);
    }
  }

  lemma AfterTwo(r: Repo, a: Generation, b: Generation, id: GenerationId)
    requires Get(r.generations, a.id).Some? && Get(r.generations, b.id).Some?
    ensures Get(Replace(Replace(r.generations, a), b), id) ==
              if id == b.id then Some(b) else if id == a.id then Some(a) else Get(r.generations, id)
  {
    hide Get, Replace;
    FoundAfter(r.generations, a, b.id);
    FoundAfter(r.generations, a, id);
    FoundAfter(Replace(r.generations, a), b, id);
  }

  lemma CreateStuck(r: Repo, id: GenerationId, g: Generation)
    requires PointersActive(r) && Stuck(r, id) && Get(r.generations, g.id).None?
    ensures var next := CreateOn(r, g).0;
            && PointersActive(next) && Stuck(next, id) && next.active == r.active && g.id != id
            && Get(next.generations, id) == Get(r.generations, id)
            && Get(next.generations, g.id) == Some(g.(state := Building))
            && forall w :: w in next.active ==> next.active[w] != g.id
  {
    var next := CreateOn(r, g).0;
    AppendFound(r.generations, g.(state := Building), id);
    AppendFound(r.generations, g.(state := Building), g.id);
    forall w | w in r.active ensures Get(next.generations, r.active[w]) == Get(r.generations, r.active[w]) {
      AppendFound(r.generations, g.(state := Building), r.active[w]);
    }
  }

  lemma AppendFound(gs: seq<Generation>, g: Generation, id: GenerationId)
    requires Get(gs, g.id).None?
    ensures Get(gs + [g], id) == if id == g.id then Some(g) else Get(gs, id)
  {
    assert (gs + [g])[..|gs|] == gs;
  }

  lemma FailStuck(r: Repo, id: GenerationId, other: GenerationId, failure: string)
    requires PointersActive(r) && Stuck(r, id) && id != other
    requires forall w :: w in r.active ==> r.active[w] != other
    ensures var next := FailOn(r, other, failure).0;
            && PointersActive(next) && Stuck(next, id) && next.active == r.active
            && Get(next.generations, id) == Get(r.generations, id)
  {
    hide PointersActive, Stuck, TransitionOn, Get;
    QuietStuck(r, id, other, Failed, Some(failure));
  }

  lemma BuildStuck(r: Repo, id: GenerationId, a: Attempt)
    requires PointersActive(r) && Stuck(r, id)
    ensures var next := BuildOn(r, a).0;
            && PointersActive(next) && Stuck(next, id) && Get(next.generations, id) == Get(r.generations, id)
            && (forall w :: w in r.active ==> w in next.active)
  {
    hide PointersActive, Stuck, ActivateOn, TransitionOn, FailOn, Get, ActiveOf;
    if Get(r.generations, a.id).None? {
      var previous := ActiveOf(r, a.workspace);
      CreateStuck(r, id, Generation(a.id, a.workspace, Pending, if previous.Some? then Some(previous.value.id) else None, None));
      BuildRest(r, id, a);
    }
  }

  lemma BuildRest(r: Repo, id: GenerationId, a: Attempt)
    requires Get(r.generations, a.id).None? && a.id != id
    requires var previous := ActiveOf(r, a.workspace);
             var g := Generation(a.id, a.workspace, Pending, if previous.Some? then Some(previous.value.id) else None, None);
             var created := CreateOn(r, g).0;
             && PointersActive(created) && Stuck(created, id) && created.active == r.active
             && Get(created.generations, id) == Get(r.generations, id)
             && Get(created.generations, a.id) == Some(g.(state := Building))
             && forall w :: w in created.active ==> created.active[w] != a.id
    ensures var next := BuildOn(r, a).0;
            && PointersActive(next) && Stuck(next, id) && Get(next.generations, id) == Get(r.generations, id)
            && (forall w :: w in r.active ==> w in next.active)
  {
    var previous := ActiveOf(r, a.workspace);
    var g := Generation(a.id, a.workspace, Pending, if previous.Some? then Some(previous.value.id) else None, None);
    var created := CreateOn(r, g).0;
    StartsValidating(created, a.id);
    hide PointersActive, Stuck, ActivateOn, FailOn, ActiveOf, Get, TransitionOn;
    if a.engineError.Some? {
      FailStuck(created, id, a.id, a.engineError.value);
    } else {
      QuietStuck(created, id, a.id, Validating, None);
      var validating := TransitionOn(created, a.id, Validating, None).0;
      FailStuck(validating, id, a.id, "RuntimeError");
      ActivateStuck(validating, id, a.id);
    }
  }

  lemma StartsValidating(r: Repo, id: GenerationId)
    requires Get(r.generations, id).Some? && Get(r.generations, id).value.state == Building
    ensures var (next, outcome) := TransitionOn(r, id, Validating, None);
            outcome.Ok? && Get(next.generations, id).Some? && Get(next.generations, id).value.state == Validating
  {
    FoundIn(r.generations, id);
    var updated := Get(r.generations, id).value.(state := Validating, failure := None);
    hide Find, Get, Replace;
    FoundAfter(r.generations, updated, id);
  }

  lemma RunStuck(r: Repo, id: GenerationId, op: Op)
    requires PointersActive(r) && Stuck(r, id)
    ensures var next := Run(r, op).0;
            && PointersActive(next) && Stuck(next, id) && Get(next.generations, id) == Get(r.generations, id)
            && (forall w :: w in r.active ==> w in next.active)
  {
    hide PointersActive, Stuck, ActivateOn, BuildOn, Get;
    match op
    case Build(a) => BuildStuck(r, id, a);
    case Incremental(a, deleting) => BuildStuck(r, id, a);
    case Rollback(w, other) => ActivateStuck(r, id, other);
  }

  lemma {:induction false} StuckForever(r: Repo, id: GenerationId, ops: seq<Op>)
    requires PointersActive(r) && Stuck(r, id)
    ensures var later := ExecFrom(r, ops);
            && PointersActive(later) && Stuck(later, id) && Get(later.generations, id) == Get(r.generations, id)
  {
    hide PointersActive, Stuck, Run, Get;
    if ops != [] {
      StuckForever(r, id, ops[..|ops| - 1]);
      RunStuck(ExecFrom(r, ops[..|ops| - 1]), id, ops[|ops| - 1]);
    }
  }

  /** The first activation of a workspace, stopped after its generation is active
      and before the pointer is written. Whatever is run afterwards, the generation
      stays active and unreachable, activating it is refused, activating any other
      validated generation works, and once the workspace has a pointer it has two
      active generations. */
  lemma FirstActivationStopped(r: Repo, target: Generation, ops: seq<Op>, other: GenerationId)
    requires Safe(r) && Get(r.generations, target.id) == Some(target)
    requires target.state == Validating && target.workspace !in r.active
    ensures var w := target.workspace;
            var later := ExecFrom(TransitionOn(r, target.id, Active, None).0, ops);
            && Get(later.generations, target.id) == Some(target.(state := Active, failure := None))
            && !Safe(later) && ActivateOn(later, target.id) == (later, Err(NotActivatable))
            && (Get(later.generations, other).Some? && Get(later.generations, other).value.state in {Validating, Retired}
                ==> ActivateOn(later, other).1.Ok?)
            && (w in later.active ==>
                  var pointed := ActiveOf(later, w);
                  && pointed.Some? && pointed.value.id != target.id
                  && pointed.value.state == Active && pointed.value.workspace == w)
  {
    var stopped := TransitionOn(r, target.id, Active, None).0;
    FirstIsStuck(r, target);
    var later := ExecFrom(stopped, ops);
    hide PointersActive, Stuck, ExecFrom, ActivateOn, Get, Safe, TransitionOn;
    StuckForever(stopped, target.id, ops);
    ActivateStuck(later, target.id, target.id);
    ActivateStuck(later, target.id, other);
    StuckIsUnsafe(later, target.id);
    PointerIsActive(later, target.id, target.workspace);
  }

  lemma PointerIsActive(r: Repo, id: GenerationId, w: Workspace)
    requires PointersActive(r) && Stuck(r, id)
    ensures w in r.active ==>
              var pointed := ActiveOf(r, w);
              && pointed.Some? && pointed.value.id != id && pointed.value.state == Active && pointed.value.workspace == w
  {
    if w in r.active { FoundIn(r.generations, r.active[w]); }
  }

  lemma StuckIsUnsafe(r: Repo, id: GenerationId)
    requires Stuck(r, id)
    ensures !Safe(r)
  {
    FoundIn(r.generations, id);
  }

  lemma FirstIsStuck(r: Repo, target: Generation)
    requires Safe(r) && Get(r.generations, target.id) == Some(target)
    requires target.state == Validating && target.workspace !in r.active
    ensures var stopped := TransitionOn(r, target.id, Active, None).0;
            && PointersActive(stopped) && Stuck(stopped, target.id)
            && Get(stopped.generations, target.id) == Some(target.(state := Active, failure := None))
  {
    var active := target.(state := Active, failure := None);
    hide Safe, Find, Replace;
    SafePointers(r);
    FoundIn(r.generations, target.id);
    hide Get;
    FoundAfter(r.generations, active, target.id);
    forall w | w in r.active ensures r.active[w] != target.id {
      PointerResolves(r, w);
      FoundIn(r.generations, r.active[w]);
    }
    forall w | w in r.active { FoundAfter(r.generations, active, r.active[w]); }
  }
}
