/** Resetting a person's plans to their facilities: every activity of a
    plan takes its coordinate and link from its facility, and every leg
    loses its route.

    A plan is a list of plan elements that should alternate activity (even
    index) and leg (odd index). The source casts each element to the kind
    its index calls for; a wrong kind throws a ClassCastException and an
    activity without a facility throws a NullPointerException, in both cases
    after the elements before it have been reset. */
module PersonReset {
  import opened Common

  datatype Coord = Coord(x: real, y: real)

  type LinkId = string

  datatype Route = Route(links: seq<LinkId>)

  /** A facility; the reset only reads its coordinate and link. */
  class Facility {
    const coord: Coord
    const link: Option<LinkId>

    constructor (coord: Coord, link: Option<LinkId>)
      ensures this.coord == coord && this.link == link
    {
      this.coord := coord;
      this.link := link;
    }
  }

  class Activity {
    var coord: Coord
    var link: Option<LinkId>
    /** The activity's facility; this model never changes it. */
    const facility: Facility?

    constructor (coord: Coord, link: Option<LinkId>, facility: Facility?)
      ensures this.coord == coord && this.link == link && this.facility == facility
    {
      this.coord := coord;
      this.link := link;
      this.facility := facility;
    }
  }

  class Leg {
    var route: Option<Route>

    constructor (route: Option<Route>)
      ensures this.route == route
    {
      this.route := route;
    }
  }

  datatype PlanElement = ActivityElement(activity: Activity) | LegElement(leg: Leg)

  /** A plan; the reset never changes its list of elements. */
  class Plan {
    const elements: seq<PlanElement>

    constructor (elements: seq<PlanElement>)
      ensures this.elements == elements
    {
      this.elements := elements;
    }
  }

  /** A person; the reset never changes its list of plans. */
  class Person {
    const plans: seq<Plan>

    constructor (plans: seq<Plan>)
      ensures this.plans == plans
    {
      this.plans := plans;
    }
  }

  /** The exceptions the reset throws, with the index of the element. */
  datatype ResetError = ClassCast(index: nat) | NullFacility(index: nat)

  function ActivitiesIn(els: seq<PlanElement>): set<Activity> {
    set i | 0 <= i < |els| && els[i].ActivityElement? :: els[i].activity
  }

  function LegsIn(els: seq<PlanElement>): set<Leg> {
    set i | 0 <= i < |els| && els[i].LegElement? :: els[i].leg
  }

  /** The exception thrown at element `i`, if any. */
  function ElementFailure(els: seq<PlanElement>, i: nat): Option<ResetError>
    requires i < |els|
  {
    if i % 2 == 0 then
      match els[i]
      case LegElement(_) => Some(ClassCast(i))
      case ActivityElement(a) => if a.facility == null then Some(NullFacility(i)) else None
    else
      match els[i]
      case ActivityElement(_) => Some(ClassCast(i))
      case LegElement(_) => None
  }

  /** The index of the first element at or after `from` whose reset throws,
      or |els| when there is none. */
  function FirstFailure(els: seq<PlanElement>, from: nat): (k: nat)
    requires from <= |els|
    ensures from <= k <= |els|
    ensures k < |els| ==> ElementFailure(els, k).Some?
    ensures forall j :: from <= j < k ==> ElementFailure(els, j).None?
    decreases |els| - from
  {
    if from == |els| then from
    else if ElementFailure(els, from).Some? then from
    else FirstFailure(els, from + 1)
  }

  /** The outcome of resetting a plan with elements `els`. */
  function PlanOutcome(els: seq<PlanElement>): Outcome<ResetError> {
    var k := FirstFailure(els, 0);
    if k < |els| then Fail(ElementFailure(els, k).value) else Pass
  }

  /** The activity sits where its facility is. */
  predicate AtFacility(a: Activity)
    reads a
  {
    a.facility != null && a.coord == a.facility.coord && a.link == a.facility.link
  }

  function Footprint(e: PlanElement): set<object> {
    match e
    case ActivityElement(a) => {a}
    case LegElement(l) => {l}
  }

  /** The element has been reset. */
  predicate IsReset(e: PlanElement)
    reads Footprint(e)
  {
    match e
    case ActivityElement(a) => AtFacility(a)
    case LegElement(l) => l.route.None?
  }

  lemma ElementsInSnoc(els: seq<PlanElement>, e: PlanElement)
    ensures ActivitiesIn(els + [e]) == ActivitiesIn(els) + (if e.ActivityElement? then {e.activity} else {})
    ensures LegsIn(els + [e]) == LegsIn(els) + (if e.LegElement? then {e.leg} else {})
  {
    var s := els + [e];
    assert forall i :: 0 <= i < |els| ==> s[i] == els[i];
    assert s[|els|] == e;
  }

  /** Takes the activity's coordinate and link from its facility. */
  method ResetActivity(a: Activity)
    requires a.facility != null
    modifies a
    ensures AtFacility(a)
    ensures old(AtFacility(a)) ==> a.coord == old(a.coord) && a.link == old(a.link)
  {
    a.coord := a.facility.coord;
    a.link := a.facility.link;
  }

  /** run(plan): resets the plan's elements in order, up to the first one
      whose reset throws. Activities and legs after that are left alone,
      and the list itself is not changed. An
      activity or leg that was already reset keeps its values, so running
      twice is running once. */
  method RunPlan(plan: Plan) returns (outcome: Outcome<ResetError>)
    modifies ActivitiesIn(plan.elements), LegsIn(plan.elements)
    ensures outcome == PlanOutcome(plan.elements)
    ensures forall j | 0 <= j < FirstFailure(plan.elements, 0) :: IsReset(plan.elements[j])
    ensures forall a | a in ActivitiesIn(plan.elements[..FirstFailure(plan.elements, 0)]) :: AtFacility(a)
    ensures forall l | l in LegsIn(plan.elements[..FirstFailure(plan.elements, 0)]) :: l.route == None
    ensures forall a | a in ActivitiesIn(plan.elements) && a !in ActivitiesIn(plan.elements[..FirstFailure(plan.elements, 0)]) ::
      a.coord == old(a.coord) && a.link == old(a.link)
    ensures forall l | l in LegsIn(plan.elements) && l !in LegsIn(plan.elements[..FirstFailure(plan.elements, 0)]) ::
      l.route == old(l.route)
    ensures forall a | a in ActivitiesIn(plan.elements) && old(AtFacility(a)) ::
      a.coord == old(a.coord) && a.link == old(a.link)
    ensures forall l | l in LegsIn(plan.elements) && old(l.route) == None :: l.route == None
  {
    var els := plan.elements;
    ghost var end := FirstFailure(els, 0);
    var i := 0;
    while i < |els|
      invariant 0 <= i <= end
      invariant forall a | a in ActivitiesIn(els[..i]) :: AtFacility(a)
      invariant forall l | l in LegsIn(els[..i]) :: l.route == None
      invariant forall a | a in ActivitiesIn(els) && a !in ActivitiesIn(els[..i]) ::
        a.coord == old(a.coord) && a.link == old(a.link)
      invariant forall l | l in LegsIn(els) && l !in LegsIn(els[..i]) :: l.route == old(l.route)
      invariant forall a | a in ActivitiesIn(els) && old(AtFacility(a)) ::
        a.coord == old(a.coord) && a.link == old(a.link)
    {
      assert els[..i + 1] == els[..i] + [els[i]];
      ElementsInSnoc(els[..i], els[i]);
      if i % 2 == 0 {
        match els[i] {
          case LegElement(_) =>
            assert ElementFailure(els, i) == Some(ClassCast(i));
            ResetPrefix(els, i);
            return Fail(ClassCast(i));
          case ActivityElement(a) =>
            if a.facility == null {
              assert ElementFailure(els, i) == Some(NullFacility(i));
              ResetPrefix(els, i);
              return Fail(NullFacility(i));
            }
            ResetActivity(a);
        }
      } else {
        match els[i] {
          case ActivityElement(_) =>
            assert ElementFailure(els, i) == Some(ClassCast(i));
            ResetPrefix(els, i);
            return Fail(ClassCast(i));
          case LegElement(l) =>
            l.route := None;
        }
      }
      i := i + 1;
    }
    assert els[..end] == els;
    ResetPrefix(els, end);
    return Pass;
  }

  /** Elements before the first failure are reset once their activities
      and legs are. */
  lemma ResetPrefix(els: seq<PlanElement>, end: nat)
    requires end <= |els|
    requires forall a | a in ActivitiesIn(els[..end]) :: AtFacility(a)
    requires forall l | l in LegsIn(els[..end]) :: l.route == None
    ensures forall j | 0 <= j < end :: IsReset(els[j])
  {
    forall j | 0 <= j < end
      ensures IsReset(els[j])
    {
      assert els[..end][j] == els[j];
    }
  }

  /** The index of the first plan at or after `from` whose reset throws, or
      |plans| when there is none. */
  function FirstFailingPlan(plans: seq<Plan>, from: nat): (k: nat)
    requires from <= |plans|
    ensures from <= k <= |plans|
    ensures k < |plans| ==> PlanOutcome(plans[k].elements).Fail?
    ensures forall q :: from <= q < k ==> PlanOutcome(plans[q].elements) == Pass
    decreases |plans| - from
  {
    if from == |plans| then from
    else if PlanOutcome(plans[from].elements).Fail? then from
    else FirstFailingPlan(plans, from + 1)
  }

  function PersonActivities(plans: seq<Plan>): set<Activity>
  {
    set q, a | 0 <= q < |plans| && a in ActivitiesIn(plans[q].elements) :: a
  }

  function PersonLegs(plans: seq<Plan>): set<Leg>
  {
    set q, l | 0 <= q < |plans| && l in LegsIn(plans[q].elements) :: l
  }

  /** The activities of the first `k` plans. */
  function ActivitiesBefore(plans: seq<Plan>, k: nat): set<Activity>
  {
    set q, a | 0 <= q < k && q < |plans| && a in ActivitiesIn(plans[q].elements) :: a
  }

  /** The legs of the first `k` plans. */
  function LegsBefore(plans: seq<Plan>, k: nat): set<Leg>
  {
    set q, l | 0 <= q < k && q < |plans| && l in LegsIn(plans[q].elements) :: l
  }

  lemma BeforeSnoc(plans: seq<Plan>, k: nat)
    requires k < |plans|
    ensures ActivitiesBefore(plans, k + 1) == ActivitiesBefore(plans, k) + ActivitiesIn(plans[k].elements)
    ensures LegsBefore(plans, k + 1) == LegsBefore(plans, k) + LegsIn(plans[k].elements)
  {
  }

  /** Up to the first failing plan, a plan fails exactly when it is that plan. */
  lemma FailingPlanAt(plans: seq<Plan>, k: nat)
    requires k < |plans| && k <= FirstFailingPlan(plans, 0)
    ensures PlanOutcome(plans[k].elements).Fail? <==> k == FirstFailingPlan(plans, 0)
  {
  }

  /** The activities the reset of a person reaches before it stops: those of
      every plan before the first failing one, and those of that plan before
      its failing element. */
  function ReachedActivities(plans: seq<Plan>): set<Activity>
  {
    var k := FirstFailingPlan(plans, 0);
    ActivitiesBefore(plans, k) +
      (if k < |plans| then ActivitiesIn(plans[k].elements[..FirstFailure(plans[k].elements, 0)]) else {})
  }

  /** The legs the reset of a person reaches before it stops. */
  function ReachedLegs(plans: seq<Plan>): set<Leg>
  {
    var k := FirstFailingPlan(plans, 0);
    LegsBefore(plans, k) +
      (if k < |plans| then LegsIn(plans[k].elements[..FirstFailure(plans[k].elements, 0)]) else {})
  }

  /** run(person): resets every plan of the person in order, and stops at
      the first plan whose reset throws, with that exception. Every plan
      before it ends up fully reset, and so do the failing plan's elements
      before its failing one. Activities and legs the reset does not reach
      keep their values, and one that was already reset keeps its values. */
  method RunPerson(person: Person) returns (outcome: Outcome<ResetError>)
    modifies PersonActivities(person.plans), PersonLegs(person.plans)
    ensures var k := FirstFailingPlan(person.plans, 0);
      outcome == if k < |person.plans| then PlanOutcome(person.plans[k].elements) else Pass
    ensures forall q, j | 0 <= q < FirstFailingPlan(person.plans, 0) && 0 <= j < |person.plans[q].elements| ::
      IsReset(person.plans[q].elements[j])
    ensures var k := FirstFailingPlan(person.plans, 0);
      k < |person.plans| ==>
        forall j | 0 <= j < FirstFailure(person.plans[k].elements, 0) :: IsReset(person.plans[k].elements[j])
    ensures forall a | a in PersonActivities(person.plans) && a !in ReachedActivities(person.plans) ::
      a.coord == old(a.coord) && a.link == old(a.link)
    ensures forall l | l in PersonLegs(person.plans) && l !in ReachedLegs(person.plans) ::
      l.route == old(l.route)
    ensures forall a | a in PersonActivities(person.plans) && old(AtFacility(a)) ::
      a.coord == old(a.coord) && a.link == old(a.link)
    ensures forall l | l in PersonLegs(person.plans) && old(l.route) == None :: l.route == None
  {
    var plans := person.plans;
    ghost var end := FirstFailingPlan(plans, 0);
    ghost var acts, legs := PersonActivities(plans), PersonLegs(plans);
    var k := 0;
    while k < |plans|
      invariant 0 <= k <= end
      invariant PlansDone(plans, k)
      invariant forall a | a in acts && a !in ActivitiesBefore(plans, k) ::
        a.coord == old(a.coord) && a.link == old(a.link)
      invariant forall l | l in legs && l !in LegsBefore(plans, k) :: l.route == old(l.route)
      invariant forall a | a in acts && old(AtFacility(a)) ::
        a.coord == old(a.coord) && a.link == old(a.link)
      invariant forall l | l in legs && old(l.route) == None :: l.route == None
    {
      outcome := RunNextPlan(plans, k);
      FailingPlanAt(plans, k);
      if outcome.Fail? {
        PlansReset(plans, k);
        return;
      }
      BeforeSnoc(plans, k);
      forall a | a in acts && a !in ActivitiesBefore(plans, k + 1)
        ensures a.coord == old(a.coord) && a.link == old(a.link)
      {
        assert a !in ActivitiesBefore(plans, k) && a !in ActivitiesIn(plans[k].elements);
      }
      forall l | l in legs && l !in LegsBefore(plans, k + 1)
        ensures l.route == old(l.route)
      {
        assert l !in LegsBefore(plans, k) && l !in LegsIn(plans[k].elements);
      }
      k := k + 1;
    }
    PlansReset(plans, k);
    outcome := Pass;
  }

  /** The activities and legs of the first `k` plans are all reset. */
  ghost predicate PlansDone(plans: seq<Plan>, k: nat)
    reads PersonActivities(plans), PersonLegs(plans)
  {
    && k <= |plans|
    && (forall q, a | 0 <= q < k && a in ActivitiesIn(plans[q].elements) :: AtFacility(a))
    && (forall q, l | 0 <= q < k && l in LegsIn(plans[q].elements) :: l.route == None)
  }

  /** Resets plan `k`; the plans before it stay reset, and plan `k` is
      reset up to its first failing element. Nothing else changes, and an
      activity or leg that was already reset keeps its values. */
  method RunNextPlan(plans: seq<Plan>, k: nat) returns (outcome: Outcome<ResetError>)
    requires k < |plans| && PlansDone(plans, k)
    modifies ActivitiesIn(plans[k].elements), LegsIn(plans[k].elements)
    ensures outcome == PlanOutcome(plans[k].elements)
    ensures PlansDone(plans, if outcome.Pass? then k + 1 else k)
    ensures forall j | 0 <= j < FirstFailure(plans[k].elements, 0) :: IsReset(plans[k].elements[j])
    ensures forall a | a in PersonActivities(plans) &&
        a !in ActivitiesIn(plans[k].elements[..FirstFailure(plans[k].elements, 0)]) ::
      a.coord == old(a.coord) && a.link == old(a.link)
    ensures forall l | l in PersonLegs(plans) &&
        l !in LegsIn(plans[k].elements[..FirstFailure(plans[k].elements, 0)]) ::
      l.route == old(l.route)
    ensures outcome.Pass? ==> forall a | a in PersonActivities(plans) && a !in ActivitiesIn(plans[k].elements) ::
      a.coord == old(a.coord) && a.link == old(a.link)
    ensures outcome.Pass? ==> forall l | l in PersonLegs(plans) && l !in LegsIn(plans[k].elements) ::
      l.route == old(l.route)
    ensures forall a | a in PersonActivities(plans) && old(AtFacility(a)) ::
      a.coord == old(a.coord) && a.link == old(a.link)
    ensures forall l | l in PersonLegs(plans) && old(l.route) == None :: l.route == None
  {
    var plan := plans[k];
    outcome := RunPlan(plan);
    forall q, a | 0 <= q < k && a in ActivitiesIn(plans[q].elements)
      ensures AtFacility(a)
    {
      assert old(AtFacility(a));
      if a !in ActivitiesIn(plan.elements) {
        assert a.coord == old(a.coord) && a.link == old(a.link);
      }
    }
    forall q, l | 0 <= q < k && l in LegsIn(plans[q].elements)
      ensures l.route == None
    {
      assert old(l.route) == None;
    }
    assert plan.elements[..|plan.elements|] == plan.elements;
  }

  /** Plans whose activities and legs are all reset are reset element by element. */
  lemma PlansReset(plans: seq<Plan>, k: nat)
    requires PlansDone(plans, k)
    ensures forall q, j | 0 <= q < k && 0 <= j < |plans[q].elements| :: IsReset(plans[q].elements[j])
  {
    forall q, j | 0 <= q < k && 0 <= j < |plans[q].elements|
      ensures IsReset(plans[q].elements[j])
    {
      var els := plans[q].elements;
      assert els[..|els|] == els;
      ResetPrefix(els, |els|);
    }
  }
}
