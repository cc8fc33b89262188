/** The index generation state machine, its repository and the service that drives it. */
module Generations {
  import opened Wrappers

  type GenerationId = string
  type Workspace = string

  datatype State = Pending | Building | Validating | Active | Retired | Failed | Superseded

  datatype Generation = Generation(
    id: GenerationId, workspace: Workspace, state: State, previous: Option<GenerationId>, failure: Option<string>)

  datatype Repo = Repo(generations: seq<Generation>, active: map<Workspace, GenerationId>)

  datatype Error = AlreadyExists | Missing | IllegalTransition | NotActivatable | BuildRejected | NothingActive

  /** The transition table. */
  function Transitions(s: State): set<State> {
    match s
    case Pending => {Building, Failed}
    case Building => {Validating, Failed}
    case Validating => {Active, Failed}
    case Active => {Retired, Failed}
    case Retired => {Active}
    case Failed => {Building}
    case Superseded => {Active}
  }

  /** Every step a generation may take. */
  const STEPS: set<(State, State)> :=
    {(Pending, Building), (Building, Validating), (Validating, Active), (Active, Retired),
     (Retired, Active), (Superseded, Active), (Failed, Building),
     (Pending, Failed), (Building, Failed), (Validating, Failed), (Active, Failed)}

  lemma StepsAre(before: State, after: State)
    ensures after in Transitions(before) <==> (before, after) in STEPS
  {
  }

  // ----- the repository as functions of its contents -----

  /** The first position with the id, or the length. */
  function Find(gs: seq<Generation>, id: GenerationId): (r: nat)
    ensures r <= |gs|
    ensures r < |gs| ==> gs[r].id == id
    ensures forall i :: 0 <= i < r ==> gs[i].id != id
  {
    if gs == [] then 0
    else
      var r := Find(gs[..|gs| - 1], id);
      if r < |gs| - 1 || gs[|gs| - 1].id == id then r else |gs|
  }

  function Get(gs: seq<Generation>, id: GenerationId): Option<Generation> {
    if Find(gs, id) < |gs| then Some(gs[Find(gs, id)]) else None
  }

  function ActiveOf(r: Repo, w: Workspace): Option<Generation> {
    if w in r.active then Get(r.generations, r.active[w]) else None
  }

  function Replace(gs: seq<Generation>, g: Generation): seq<Generation> {
    seq(|gs|, i requires 0 <= i < |gs| => if gs[i].id == g.id then g else gs[i])
  }

  function CreateOn(r: Repo, g: Generation): (Repo, Result<Generation, Error>) {
    if Get(r.generations, g.id).Some? then (r, Err(AlreadyExists))
    else (r.(generations := r.generations + [g.(state := Building)]), Ok(g.(state := Building)))
  }

  function TransitionOn(r: Repo, id: GenerationId, state: State, failure: Option<string>): (Repo, Result<Generation, Error>) {
    match Get(r.generations, id)
    case None => (r, Err(Missing))
    case Some(g) =>
      if state !in Transitions(g.state) then (r, Err(IllegalTransition))
      else
        var updated := g.(state := state, failure := failure);
        (r.(generations := Replace(r.generations, updated)), Ok(updated))
  }

  function ActivateOn(r: Repo, id: GenerationId): (Repo, Result<Generation, Error>) {
    match Get(r.generations, id)
    case None => (r, Err(Missing))
    case Some(target) =>
      if target.state !in {Validating, Retired, Superseded} then (r, Err(NotActivatable))
      else
        var current := ActiveOf(r, target.workspace);
        var retired :=
          if current.Some? && current.value.id != id
          then TransitionOn(r, current.value.id, Retired, None)
          else (r, Ok(target));
        if retired.1.Err? then retired
        else
          var activated := TransitionOn(retired.0, id, Active, None);
          if activated.1.Err? then activated
          else (activated.0.(active := activated.0.active[target.workspace := id]), activated.1)
  }

  function FailOn(r: Repo, id: GenerationId, failure: string): (Repo, Result<Generation, Error>) {
    match Get(r.generations, id)
    case None => (r, Err(Missing))
    case Some(g) =>
      if g.state == Failed then (r, Ok(g)) else TransitionOn(r, id, Failed, Some(failure))
  }

  // ----- the service -----

  /** One build: the fresh id, how indexing ends, the validator's verdict, and
      whether a valid result is to be activated. */
  datatype Attempt = Attempt(
    workspace: Workspace, id: GenerationId, engineError: Option<string>, valid: bool, activate: bool)

  datatype Op =
    | Build(attempt: Attempt)
    | Incremental(attempt: Attempt, deleting: bool)
    | Rollback(workspace: Workspace, id: GenerationId)

  function BuildOn(r: Repo, a: Attempt): (Repo, Result<Generation, Error>) {
    var previous := ActiveOf(r, a.workspace);
    var g := Generation(a.id, a.workspace, Pending, if previous.Some? then Some(previous.value.id) else None, None);
    var created := CreateOn(r, g);
    if created.1.Err? then created
    else if a.engineError.Some? then (FailOn(created.0, a.id, a.engineError.value).0, Err(BuildRejected))
    else
      var validating := TransitionOn(created.0, a.id, Validating, None);
      if validating.1.Err? then (FailOn(validating.0, a.id, "ValueError").0, Err(validating.1.error))
      else if !a.valid then (FailOn(validating.0, a.id, "RuntimeError").0, Err(BuildRejected))
      else if !a.activate then validating
      else
        var activated := ActivateOn(validating.0, a.id);
        if activated.1.Err? then (FailOn(activated.0, a.id, "ValueError").0, Err(activated.1.error)) else activated
  }

  function IncrementalOn(r: Repo, a: Attempt, deleting: bool): (Repo, Result<Generation, Error>) {
    if ActiveOf(r, a.workspace).None? && deleting then (r, Err(NothingActive)) else BuildOn(r, a)
  }

  function RollbackOn(r: Repo, w: Workspace, id: GenerationId): (Repo, Result<Generation, Error>) {
    var target := Get(r.generations, id);
    if target.None? || target.value.workspace != w then (r, Err(Missing)) else ActivateOn(r, id)
  }

  function Run(r: Repo, op: Op): (Repo, Result<Generation, Error>) {
    match op
    case Build(a) => BuildOn(r, a)
    case Incremental(a, deleting) => IncrementalOn(r, a, deleting)
    case Rollback(w, id) => RollbackOn(r, w, id)
  }

  function ExecFrom(r: Repo, ops: seq<Op>): Repo {
    if ops == [] then r else Run(ExecFrom(r, ops[..|ops| - 1]), ops[|ops| - 1]).0
  }

  function Exec(ops: seq<Op>): Repo {
    ExecFrom(Repo([], map[]), ops)
  }

  // ----- the objects -----

  class IndexGenerationRepository {
    var generations: seq<Generation>
    var active: map<Workspace, GenerationId>

    constructor ()
      ensures State() == Repo([], map[])
    {
      generations, active := [], map[];
    }

    function State(): Repo
      reads this
    {
      Repo(generations, active)
    }

    method Lookup(id: GenerationId) returns (g: Option<Generation>)
      ensures g == Get(generations, id)
    {
      for i := 0 to |generations|
        invariant forall k :: 0 <= k < i ==> generations[k].id != id
      {
        if generations[i].id == id { return Some(generations[i]); }
      }
      return None;
    }

    method Current(w: Workspace) returns (g: Option<Generation>)
      ensures g == ActiveOf(State(), w)
    {
      if w !in active { return None; }
      g := Lookup(active[w]);
    }

    method Create(g: Generation) returns (r: Result<Generation, Error>)
      modifies this
      ensures (State(), r) == CreateOn(old(State()), g)
    {
      var present := Lookup(g.id);
      if present.Some? { return Err(AlreadyExists); }
      generations := generations + [g.(state := Building)];
      r := Ok(g.(state := Building));
    }

    method Transition(id: GenerationId, state: State, failure: Option<string>) returns (r: Result<Generation, Error>)
      modifies this
      ensures (State(), r) == TransitionOn(old(State()), id, state, failure)
      ensures var current := Get(old(generations), id);
              r.Ok? <==> current.Some? && (current.value.state, state) in STEPS
    {
      var current := Lookup(id);
      if current.None? { return Err(Missing); }
      StepsAre(current.value.state, state);
      if state !in Transitions(current.value.state) { return Err(IllegalTransition); }
      var updated := current.value.(state := state, failure := failure);
      var replaced: seq<Generation> := [];
      for i := 0 to |generations|
        invariant |replaced| == i && forall k :: 0 <= k < i ==> replaced[k] == Replace(generations, updated)[k]
        invariant generations == old(generations) && active == old(active)
      {
        replaced := replaced + [if generations[i].id == id then updated else generations[i]];
      }
      assert replaced == Replace(generations, updated);
      generations := replaced;
      r := Ok(updated);
    }

    method Activate(id: GenerationId) returns (r: Result<Generation, Error>)
      modifies this
      ensures (State(), r) == ActivateOn(old(State()), id)
    {
      var target := Lookup(id);
      if target.None? { return Err(Missing); }
      if target.value.state !in {Validating, Retired, Superseded} { return Err(NotActivatable); }
      var current := Current(target.value.workspace);
      if current.Some? && current.value.id != id {
        var retired := Transition(current.value.id, Retired, None);
        if retired.Err? { return retired; }
      }
      r := Transition(id, Active, None);
      if r.Err? { return; }
      active := active[target.value.workspace := id];
    }

    method Fail(id: GenerationId, failure: string) returns (r: Result<Generation, Error>)
      modifies this
      ensures (State(), r) == FailOn(old(State()), id, failure)
    {
      var current := Lookup(id);
      if current.None? { return Err(Missing); }
      if current.value.state == Failed { return Ok(current.value); }
      r := Transition(id, Failed, Some(failure));
    }
  }

  class KnowledgeIndexService {
    const repository: IndexGenerationRepository

    constructor (repository: IndexGenerationRepository)
      ensures this.repository == repository
    {
      this.repository := repository;
    }

    method BuildGeneration(a: Attempt) returns (r: Result<Generation, Error>)
      modifies repository
      ensures (repository.State(), r) == Run(old(repository.State()), Build(a))
    {
      var previous := repository.Current(a.workspace);
      var g := Generation(a.id, a.workspace, Pending, if previous.Some? then Some(previous.value.id) else None, None);
      r := repository.Create(g);
      if r.Err? { return; }
      if a.engineError.Some? {
        var _ := repository.Fail(a.id, a.engineError.value);
        return Err(BuildRejected);
      }
      r := repository.Transition(a.id, Validating, None);
      if r.Err? {
        var _ := repository.Fail(a.id, "ValueError");
        return;
      }
      if !a.valid {
        var _ := repository.Fail(a.id, "RuntimeError");
        return Err(BuildRejected);
      }
      if a.activate {
        r := repository.Activate(a.id);
        if r.Err? {
          var _ := repository.Fail(a.id, "ValueError");
        }
      }
    }

    method BuildIncremental(a: Attempt, deleting: bool) returns (r: Result<Generation, Error>)
      modifies repository
      ensures (repository.State(), r) == Run(old(repository.State()), Incremental(a, deleting))
    {
      var previous := repository.Current(a.workspace);
      if previous.None? && deleting { return Err(NothingActive); }
      r := BuildGeneration(a);
    }

    method RollbackTo(w: Workspace, id: GenerationId) returns (r: Result<Generation, Error>)
      modifies repository
      ensures (repository.State(), r) == Run(old(repository.State()), Rollback(w, id))
    {
      var target := repository.Lookup(id);
      if target.None? || target.value.workspace != w { return Err(Missing); }
      r := repository.Activate(id);
    }
  }
}
