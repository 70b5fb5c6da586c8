/** Pipelines and their steps: the data every other part of the broker engine runs over. */
module Pipelines {
  import opened Basics
  import opened Json

  datatype Visibility = Surfaced | Internal | AuditOnly

  datatype AuditClass = Capability | Governance | MetaObservation

  datatype Step =
    | Leaf(leafOp: string)
    | SubPipeline(sub: string, subParams: ParamMap)
    | Guard(predicateText: string, inner: Step)
    | Branch(branchText: string, ifTrue: Step, ifFalse: Step)

  datatype Pipeline = Pipeline(
    id: string,
    visibility: Visibility,
    auditClass: AuditClass,
    schema: Json,
    preconditions: seq<string>,
    steps: seq<Step>,
    bypassesKillSwitch: bool)

  /** A broker together with the catalog its dispatches are resolved against. */
  datatype Scope = Scope(broker: string, catalog: seq<Pipeline>)

  /** First-match lookup by id. */
  function Find(catalog: seq<Pipeline>, id: string): (r: Option<Pipeline>)
    ensures r.Some? ==> r.value in catalog && r.value.id == id
    ensures r.None? ==> forall p :: p in catalog ==> p.id != id
  {
    if catalog == [] then None
    else if catalog[0].id == id then Some(catalog[0])
    else Find(catalog[1..], id)
  }

  /** The ids a step may call, in the order they are written. */
  ghost function StepCalls(s: Step): seq<string> {
    match s
    case Leaf(_) => []
    case SubPipeline(sub, _) => [sub]
    case Guard(_, inner) => StepCalls(inner)
    case Branch(_, t, f) => StepCalls(t) + StepCalls(f)
  }

  ghost function Calls(steps: seq<Step>): seq<string> {
    if steps == [] then [] else StepCalls(steps[0]) + Calls(steps[1..])
  }

  /** Every pipeline id a step may call, at any depth of guards and branches. */
  ghost function StepRefs(s: Step): set<string> {
    match s
    case Leaf(_) => {}
    case SubPipeline(sub, _) => {sub}
    case Guard(_, inner) => StepRefs(inner)
    case Branch(_, t, f) => StepRefs(t) + StepRefs(f)
  }

  ghost function Refs(steps: seq<Step>): set<string> {
    if steps == [] then {} else StepRefs(steps[0]) + Refs(steps[1..])
  }
}
