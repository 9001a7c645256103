/**
 `validate_fabric_state`: one pass over the stored plans that decides the whole invariant,
 the uniqueness of action ids across plans included.
 */
module FabricValidation {
  import opened Wrappers
  import opened Bytes
  import opened Actions
  import opened Ordering
  import opened FabricModel
  import opened FabricInvariant
  import opened Fabric

  /** The ids of the first `n` actions. */
  ghost function IdsBelow(actions: seq<PlannedAction>, n: nat): set<u64>
    requires n <= |actions|
  {
    set i | 0 <= i < n :: actions[i].id
  }

  ghost function IdsOf(plans: map<u64, PlanState>, keys: set<u64>): set<u64>
    requires keys <= plans.Keys
  {
    set p, i | p in keys && 0 <= i < |plans[p].actions| :: plans[p].actions[i].id
  }

  /** Ids do not repeat among the first `n` actions, and none of them is in `others`. */
  ghost predicate NewIds(actions: seq<PlannedAction>, n: nat, others: set<u64>)
    requires n <= |actions|
  {
    && (forall i, j :: 0 <= i < j < n ==> actions[i].id != actions[j].id)
    && (forall i :: 0 <= i < n ==> actions[i].id !in others)
  }

  /** `m` is the largest of the ids, or 0. */
  ghost predicate IsMax(m: u64, ids: set<u64>) {
    (forall id :: id in ids ==> id <= m) && (m == 0 || m in ids)
  }

  lemma OneMoreId(actions: seq<PlannedAction>, i: nat, others: set<u64>)
    requires i < |actions| && NewIds(actions, i, others)
    ensures IdsBelow(actions, i + 1) == IdsBelow(actions, i) + {actions[i].id}
    ensures NewIds(actions, i + 1, others) <==> actions[i].id !in others + IdsBelow(actions, i)
  {
  }

  lemma RepeatedBelow(actions: seq<PlannedAction>, i: nat, n: nat, others: set<u64>)
    requires i <= n <= |actions| && !NewIds(actions, i, others)
    ensures !NewIds(actions, n, others)
  {
  }

  predicate Sound(registry: Registry, p: PlanState, i: nat)
    requires i < |p.actions|
  {
    SoundAction(registry, p.actions[i]) && SoundPlace(p, i)
  }

  ghost predicate SoundBelow(registry: Registry, p: PlanState, n: nat)
    requires n <= |p.actions|
  {
    forall i :: 0 <= i < n ==> Sound(registry, p, i)
  }

  lemma AllSound(registry: Registry, p: PlanState)
    ensures SoundBelow(registry, p, |p.actions|)
            <==> forall i :: 0 <= i < |p.actions| ==> SoundAction(registry, p.actions[i]) && SoundPlace(p, i)
  {
    if SoundBelow(registry, p, |p.actions|) {
      forall i | 0 <= i < |p.actions|
        ensures SoundAction(registry, p.actions[i]) && SoundPlace(p, i)
      {
        assert Sound(registry, p, i);
      }
    }
  }

  /** The checks at a place other than that the registry takes the action. */
  predicate Shaped(registry: Registry, p: PlanState, i: nat)
    requires i < |p.actions|
  {
    var a := p.actions[i];
    a.id != 0 && SoundPlace(p, i) && (registry.ValidateAction(a.capability, a.action).Ok? ==> SoundAction(registry, a))
  }

  /** A plan with nothing wrong, unless the registry refuses an action. */
  ghost predicate ShapedPlan(registry: Registry, key: u64, p: PlanState) {
    && key == p.id && p.id != 0 && p.taskId != 0
    && p.cursor <= |p.actions|
    && (forall i :: 0 <= i < |p.actions| ==> Shaped(registry, p, i))
    && (p.status == PlanCompleted ==> p.cursor == |p.actions| && AllCommitted(p))
    && (p.cursor < |p.actions| ==> SoundCurrent(p.status, p.actions[p.cursor]))
  }

  /** The registry refuses an action of the plan with that error. */
  ghost predicate RefusesIn(registry: Registry, p: PlanState, e: CapabilityError) {
    exists i :: 0 <= i < |p.actions| && registry.ValidateAction(p.actions[i].capability, p.actions[i].action) == Err(e)
  }

  /** The checks of one plan's actions; `seen` and `max` cover the plans already passed. */
  method ValidateActions(registry: Registry, p: PlanState, seen: set<u64>, max: u64)
    returns (fault: Option<FabricError>, seen': set<u64>, max': u64)
    requires IsMax(max, seen)
    ensures fault.None? <==> SoundBelow(registry, p, |p.actions|) && NewIds(p.actions, |p.actions|, seen)
    ensures fault.Some? ==> fault.value == InvalidState || (fault.value.Capability? && RefusesIn(registry, p, fault.value.error))
    ensures fault == Some(InvalidState) ==> !NewIds(p.actions, |p.actions|, seen) || exists i :: 0 <= i < |p.actions| && !Shaped(registry, p, i)
    ensures fault.None? ==> seen' == seen + IdsBelow(p.actions, |p.actions|) && IsMax(max', seen')
  {
    hide SoundAction, SoundPlace, Registry.ValidateAction;
    seen', max' := seen, max;
    var i := 0;
    while i < |p.actions|
      invariant i <= |p.actions|
      invariant seen' == seen + IdsBelow(p.actions, i) && IsMax(max', seen')
      invariant NewIds(p.actions, i, seen)
      invariant SoundBelow(registry, p, i)
    {
      var a := p.actions[i];
      OneMoreId(p.actions, i, seen);
      if a.id in seen' {
        RepeatedBelow(p.actions, i + 1, |p.actions|, seen);
        return Some(InvalidState), seen', max';
      }
      ShapedIsSound(registry, p, i);
      if a.id == 0 {
        return Some(InvalidState), seen', max';
      }
      seen' := seen' + {a.id};
      max' := if a.id > max' then a.id else max';
      var known := registry.ValidateAction(a.capability, a.action);
      if known.Err? {
        return Some(Capability(known.error)), seen', max';
      }
      if !Sound(registry, p, i) {
        return Some(InvalidState), seen', max';
      }
      i := i + 1;
    }
    fault := None;
  }

  lemma ShapedIsSound(registry: Registry, p: PlanState, i: nat)
    requires i < |p.actions|
    ensures Sound(registry, p, i)
            <==> Shaped(registry, p, i) && registry.ValidateAction(p.actions[i].capability, p.actions[i].action).Ok?
  {
  }

  method ValidateOnePlan(registry: Registry, key: u64, p: PlanState, seen: set<u64>, max: u64)
    returns (fault: Option<FabricError>, seen': set<u64>, max': u64)
    requires IsMax(max, seen)
    ensures fault.None? <==> ValidPlan(registry, key, p) && NewIds(p.actions, |p.actions|, seen)
    ensures fault.Some? ==> fault.value == InvalidState || (fault.value.Capability? && RefusesIn(registry, p, fault.value.error))
    ensures fault == Some(InvalidState) ==> !ShapedPlan(registry, key, p) || !NewIds(p.actions, |p.actions|, seen)
    ensures fault.None? ==> seen' == seen + IdsBelow(p.actions, |p.actions|) && IsMax(max', seen')
  {
    hide Shaped, SoundAction, SoundPlace, RefusesIn;
    seen', max' := seen, max;
    if key != p.id || p.id == 0 || p.taskId == 0 || p.cursor > |p.actions| {
      return Some(InvalidState), seen', max';
    }
    fault, seen', max' := ValidateActions(registry, p, seen, max);
    AllSound(registry, p);
    if fault.Some? {
      return;
    }
    if p.status == PlanCompleted && !(p.cursor == |p.actions| && AllCommitted(p)) {
      return Some(InvalidState), seen', max';
    }
    if p.cursor < |p.actions| && !SoundCurrent(p.status, p.actions[p.cursor]) {
      return Some(InvalidState), seen', max';
    }
  }

  predicate ValidAt(registry: Registry, plans: map<u64, PlanState>, p: u64)
    requires p in plans
  {
    ValidPlan(registry, p, plans[p])
  }

  /** The plans of `keys` are valid and no id repeats among them. */
  ghost predicate ValidAmong(registry: Registry, plans: map<u64, PlanState>, keys: set<u64>)
    requires keys <= plans.Keys
  {
    && (forall p :: p in keys ==> ValidAt(registry, plans, p))
    && DistinctAmong(plans, keys)
  }

  ghost predicate DistinctAmong(plans: map<u64, PlanState>, keys: set<u64>)
    requires keys <= plans.Keys
  {
    forall p, i, q, j ::
      (p in keys && q in keys && 0 <= i < |plans[p].actions| && 0 <= j < |plans[q].actions|
       && plans[p].actions[i].id == plans[q].actions[j].id)
      ==> p == q && i == j
  }

  lemma OneMoreDistinct(plans: map<u64, PlanState>, keys: set<u64>, p: u64)
    requires keys <= plans.Keys && p in plans && p !in keys && DistinctAmong(plans, keys)
    requires NewIds(plans[p].actions, |plans[p].actions|, IdsOf(plans, keys))
    ensures DistinctAmong(plans, keys + {p})
  {
    forall q, i, r, j | q in keys + {p} && r in keys + {p} && 0 <= i < |plans[q].actions| && 0 <= j < |plans[r].actions|
                        && plans[q].actions[i].id == plans[r].actions[j].id
      ensures q == r && i == j
    {
      if q != p {
        assert plans[q].actions[i].id in IdsOf(plans, keys);
      }
      if r != p {
        assert plans[r].actions[j].id in IdsOf(plans, keys);
      }
    }
  }

  lemma OneMorePlan(registry: Registry, plans: map<u64, PlanState>, keys: set<u64>, p: u64)
    requires keys <= plans.Keys && p in plans && p !in keys && ValidAmong(registry, plans, keys)
    requires ValidPlan(registry, p, plans[p]) && NewIds(plans[p].actions, |plans[p].actions|, IdsOf(plans, keys))
    ensures ValidAmong(registry, plans, keys + {p})
    ensures IdsOf(plans, keys + {p}) == IdsOf(plans, keys) + IdsBelow(plans[p].actions, |plans[p].actions|)
  {
    OneMoreDistinct(plans, keys, p);
  }

  lemma RepeatedId(plans: map<u64, PlanState>, keys: set<u64>, p: u64)
    requires keys <= plans.Keys && p in plans && p !in keys
    requires !NewIds(plans[p].actions, |plans[p].actions|, IdsOf(plans, keys))
    ensures !DistinctAmong(plans, plans.Keys)
  {
    if DistinctAmong(plans, plans.Keys) {
      forall i | 0 <= i < |plans[p].actions|
        ensures plans[p].actions[i].id !in IdsOf(plans, keys)
      {
      }
      assert false;
    }
  }

  lemma RefusedPlan(registry: Registry, plans: map<u64, PlanState>, keys: set<u64>, p: u64)
    requires keys <= plans.Keys && p in plans && p !in keys
    requires !ValidPlan(registry, p, plans[p]) || !NewIds(plans[p].actions, |plans[p].actions|, IdsOf(plans, keys))
    ensures !ValidAmong(registry, plans, plans.Keys)
  {
    if ValidPlan(registry, p, plans[p]) {
      RepeatedId(plans, keys, p);
    }
  }

  /** Something is wrong with the plans besides actions the registry refuses. */
  ghost predicate IllShaped(registry: Registry, plans: map<u64, PlanState>) {
    !DistinctAmong(plans, plans.Keys) || exists p :: p in plans && !ShapedPlan(registry, p, plans[p])
  }

  /** The error of a refused set of plans names something wrong with them. */
  ghost predicate Blames(registry: Registry, plans: map<u64, PlanState>, e: FabricError) {
    match e
    case InvalidState => IllShaped(registry, plans)
    case Capability(c) => exists p :: p in plans && RefusesIn(registry, plans[p], c)
    case _ => false
  }

  lemma PlanIsBlamed(registry: Registry, plans: map<u64, PlanState>, done: set<u64>, p: u64, e: FabricError)
    requires done <= plans.Keys && p in plans && p !in done
    requires e == InvalidState || (e.Capability? && RefusesIn(registry, plans[p], e.error))
    requires e == InvalidState ==> !ShapedPlan(registry, p, plans[p]) || !NewIds(plans[p].actions, |plans[p].actions|, IdsOf(plans, done))
    ensures Blames(registry, plans, e)
  {
    hide ShapedPlan, RefusesIn, NewIds, IdsOf, DistinctAmong;
    if !NewIds(plans[p].actions, |plans[p].actions|, IdsOf(plans, done)) {
      RepeatedId(plans, done, p);
    }
  }

  /** One more plan, `done` being those already passed. */
  method ValidateNext(registry: Registry, plans: map<u64, PlanState>, ghost done: set<u64>, p: u64, seen: set<u64>, max: u64)
    returns (fault: Option<FabricError>, seen': set<u64>, max': u64)
    requires done <= plans.Keys && p in plans && p !in done && ValidAmong(registry, plans, done)
    requires seen == IdsOf(plans, done) && IsMax(max, seen)
    ensures fault.None? ==> ValidAmong(registry, plans, done + {p}) && seen' == IdsOf(plans, done + {p}) && IsMax(max', seen')
    ensures fault.Some? ==> !ValidAmong(registry, plans, plans.Keys) && Blames(registry, plans, fault.value)
  {
    fault, seen', max' := ValidateOnePlan(registry, p, plans[p], seen, max);
    if fault.None? {
      OneMorePlan(registry, plans, done, p);
    } else {
      RefusedPlan(registry, plans, done, p);
      PlanIsBlamed(registry, plans, done, p, fault.value);
    }
  }

  lemma NothingPassed(registry: Registry, plans: map<u64, PlanState>)
    ensures ValidAmong(registry, plans, {}) && IdsOf(plans, {}) == {} && IsMax(0, {})
  {
  }

  /** The plans of the state in key order. */
  method ValidatePlans(registry: Registry, plans: map<u64, PlanState>) returns (fault: Option<FabricError>, max: u64)
    ensures fault.None? <==> ValidAmong(registry, plans, plans.Keys)
    ensures fault.Some? ==> Blames(registry, plans, fault.value)
    ensures fault.None? ==> IsMax(max, IdsOf(plans, plans.Keys))
  {
    hide ValidAmong, IdsOf, IsMax, Blames;
    NothingPassed(registry, plans);
    var todo := plans.Keys;
    var seen: set<u64> := {};
    ghost var done: set<u64> := {};
    max := 0;
    while todo != {}
      invariant todo !! done && todo + done == plans.Keys
      invariant ValidAmong(registry, plans, done)
      invariant seen == IdsOf(plans, done) && IsMax(max, seen)
      decreases |todo|
    {
      var p := Least(todo);
      var wrong, seen', max' := ValidateNext(registry, plans, done, p, seen, max);
      if wrong.Some? {
        return wrong, 0;
      }
      todo, done := todo - {p}, done + {p};
      seen, max := seen', max';
    }
    assert done == plans.Keys;
    fault := None;
  }

  /** What an error of the validation says about the state. */
  ghost predicate Accuses(registry: Registry, s: FabricState, e: FabricError) {
    Blames(registry, s.plans, e) || (e == InvalidState && !FreshCounters(s))
  }

  /** An error names an action the registry refuses, or says that something else is wrong. */
  method ValidateFabricState(registry: Registry, s: FabricState) returns (fault: Option<FabricError>)
    ensures fault.None? <==> ValidState(registry, s)
    ensures fault.Some? ==> Accuses(registry, s, fault.value)
  {
    hide Blames;
    if s.nextPlanId == 0 || s.nextActionId == 0 {
      return Some(InvalidState);
    }
    if exists p :: p in s.plans && s.nextPlanId <= p {
      return Some(InvalidState);
    }
    var max: u64;
    fault, max := ValidatePlans(registry, s.plans);
    assert (forall p :: p in s.plans ==> ValidAt(registry, s.plans, p))
           <==> forall p :: p in s.plans ==> ValidPlan(registry, p, s.plans[p]);
    if fault.None? {
      MaxDecides(s, IdsOf(s.plans, s.plans.Keys), max);
      if s.nextActionId <= max {
        return Some(InvalidState);
      }
    }
  }

  lemma MaxDecides(s: FabricState, seen: set<u64>, max: u64)
    requires seen == IdsOf(s.plans, s.plans.Keys) && IsMax(max, seen) && s.nextActionId > 0
    ensures (s.nextActionId > max) <==> forall p, i :: p in s.plans && 0 <= i < |s.plans[p].actions| ==> s.plans[p].actions[i].id < s.nextActionId
  {
    forall p, i | p in s.plans && 0 <= i < |s.plans[p].actions|
      ensures s.plans[p].actions[i].id <= max
    {
      assert s.plans[p].actions[i].id in seen;
    }
  }

  /** A fabric over a stored state, refused unless the state is valid. */
  method FromState<E>(tools: Tools<E>, state: FabricState, env: E) returns (r: Result<ActionFabric<E>, FabricError>)
    ensures r.Ok? <==> ValidState(tools.registry, state)
    ensures r.Err? ==> Accuses(tools.registry, state, r.error)
    ensures r.Ok? ==> fresh(r.value) && r.value.tools == tools && r.value.state == state && r.value.env == env && r.value.log == []
  {
    hide ValidState, Accuses;
    var fault := ValidateFabricState(tools.registry, state);
    if fault.Some? {
      return Err(fault.value);
    }
    var fabric := new ActionFabric(tools, state, env);
    r := Ok(fabric);
  }
}
