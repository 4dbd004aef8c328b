/** What any interleaving of calls keeps, whatever the provider, other writers and the
    scheduler do: the life of a stored transaction, and who may write. */
module DeliveryLifecycle {
  import opened DeliveryMachine

  datatype System = System(calls: seq<Call>, world: World)

  /** A call joins, one call takes a step, or something else moves the live pointers. A call that
      is interrupted simply takes no further step. */
  datatype Event =
    | Join(t: Transaction)
    | Step(i: nat, fault: Fault, smoke: Smoke)
    | Interfere(live: Pointer)

  function Next(s: System, e: Event): System {
    match e
    case Join(t) => s.(calls := s.calls + [NewCall(t)])
    case Step(i, fault, smoke) =>
      if i >= |s.calls| then s
      else
        var (c, w) := Advance(s.calls[i], s.world, fault, smoke);
        System(s.calls[i := c], w)
    case Interfere(live) => s.(world := s.world.(live := live))
  }

  function Run(s: System, events: seq<Event>): System {
    if |events| == 0 then s else Next(Run(s, events[..|events| - 1]), events[|events| - 1])
  }

  function Start(live: Pointer): System {
    System([], World(map[], live))
  }

  function KeyOf(c: Call): string {
    c.requested.id.key
  }

  /** The state a claimed call holds at each place. */
  predicate Holds(place: Place, s: State) {
    match place
    case WriteLambda | ReadLambda | WriteDescriptor | ReadDescriptor | EnterSmoking => s.APPLYING?
    case RunSmoke | Commit => s.SMOKING?
    case Compensate(_) => s.APPLYING? || s.SMOKING?
    case RestoreRead(_) | RestoreDescriptor(_, _) | CheckRead(_) | RestoreLambda(_, _) | FinalRead(_, _)
       | GiveUp | RollBack(_, _) => s.COMPENSATING?
    case _ => false
  }

  predicate Unclaimed(place: Place) {
    place.Create? || place.FirstRead? || place.Stale? || place.Claim?
  }

  /** What holds between one call and the store. */
  ghost predicate Local(c: Call, w: World) {
    && (!c.place.Create? ==>
          KeyOf(c) in w.store && c.own.id == w.store[KeyOf(c)].id && c.own.id.key == KeyOf(c))
    && (c.place.Create? ==> !c.claimed)
    && (c.place.FirstRead? || c.place.Stale? || c.place.Claim? ==> !c.claimed && c.own.state.PREPARED?)
    && (!Unclaimed(c.place) && !Done(c) ==>
          c.claimed && Holds(c.place, c.own.state) && w.store[KeyOf(c)].state == c.own.state)
    && (c.claimed ==> !w.store[KeyOf(c)].state.PREPARED?)
    && (c.writes > 0 ==> c.claimed)
  }

  ghost predicate Inv(s: System) {
    && Keyed(s.world)
    && (forall i :: 0 <= i < |s.calls| ==> Local(s.calls[i], s.world))
    && (forall i, j :: 0 <= i < j < |s.calls| && s.calls[i].claimed && s.calls[j].claimed
          ==> KeyOf(s.calls[i]) != KeyOf(s.calls[j]))
  }

  /** The transitions of a stored transaction. */
  predicate Edge(a: State, b: State) {
    match a
    case PREPARED => b.APPLYING? || b.PARTIAL_FAILURE?
    case APPLYING => b.SMOKING? || b.COMPENSATING?
    case SMOKING => b.COMMITTED? || b.COMPENSATING?
    case COMPENSATING => b.ROLLED_BACK? || b.PARTIAL_FAILURE?
    case _ => false
  }

  /** What one event may do to the store: transactions are kept under their keys with their
      identities, and change only along an edge. */
  ghost predicate StoreMoves(a: World, b: World) {
    forall k :: k in a.store ==>
      k in b.store && b.store[k].id == a.store[k].id
      && (b.store[k] == a.store[k] || Edge(a.store[k].state, b.store[k].state))
  }

  ghost predicate Keyed(w: World) {
    forall k :: k in w.store ==> w.store[k].id.key == k
  }

  /** What a step of call `c` to `d` may do, seen from the store. */
  ghost predicate Discipline(c: Call, w: World, d: Call, v: World) {
    var k := KeyOf(c);
    && Local(d, v) && KeyOf(d) == k
    && Keyed(v) && StoreMoves(w, v)
    && (forall other :: other in w.store && other != k ==> v.store[other] == w.store[other])
    && (forall other :: other in v.store && other != k ==> other in w.store)
    && (k in w.store && v.store[k] != w.store[k] ==> c.claimed || w.store[k].state.PREPARED?)
    && (c.claimed ==> d.claimed)
    && (d.claimed && !c.claimed ==> k in w.store && w.store[k].state.PREPARED?)
  }

  /** A step that leaves the store alone. */
  lemma QuietStep(c: Call, w: World, d: Call, v: World)
    requires Local(c, w) && Keyed(w) && !c.place.Create? && Quiet(c, w, d, v)
    ensures Discipline(c, w, d, v)
  {
  }

  /** A compare-and-swap step of a call. */
  lemma SwapStep(c: Call, w: World, t: Transaction, state: State, next: Place)
    requires Local(c, w) && Keyed(w) && !c.place.Create? && !Done(c)
    requires t.id == c.own.id && t.state == c.own.state && Edge(t.state, state)
    requires c.claimed ==> next.Returned? || (Holds(next, state) && !Unclaimed(next))
    requires !c.claimed ==> next.Returned?
    ensures Discipline(c, w, Replace(c, w, t, state, next).0, Replace(c, w, t, state, next).1)
  {
    var k := KeyOf(c);
    var (d, v) := Replace(c, w, t, state, next);
    if Swaps(w, t.(state := state), t.state) {
      assert v.store[k] == t.(state := state);
      assert Edge(w.store[k].state, v.store[k].state);
    }
  }

  /** The step that claims the transaction. */
  lemma ClaimStep(c: Call, w: World)
    requires Local(c, w) && Keyed(w) && c.place.Claim?
    ensures Discipline(c, w, Advance(c, w, NoFault, NotRun).0, Advance(c, w, NoFault, NotRun).1)
  {
  }

  lemma BeginStep(c: Call, w: World)
    requires Local(c, w) && Keyed(w) && c.place.Create?
    ensures Discipline(c, w, Begin(c, w).0, Begin(c, w).1)
  {
    var k := KeyOf(c);
    var (d, v) := Begin(c, w);
    assert k in w.store ==> v == w;
    assert k !in w.store ==> v.store == w.store[k := c.requested];
    assert forall other :: other in w.store ==> v.store[other] == w.store[other];
    assert d.own == v.store[k] && d.requested == c.requested && d.writes == c.writes;
  }

  /** What a step that leaves the store alone changes about the call. */
  ghost predicate Quiet(c: Call, w: World, d: Call, v: World) {
    && v.store == w.store
    && d.requested == c.requested && d.own.id == c.own.id && d.own.state == c.own.state && d.claimed == c.claimed
    && (d.writes > c.writes ==> !Unclaimed(c.place) && !Done(c))
    && (Unclaimed(c.place) ==> (Unclaimed(d.place) && !d.place.Create?) || Done(d))
    && (!Unclaimed(c.place) ==> !Unclaimed(d.place))
    && (!Unclaimed(c.place) && !Done(c) ==> forall s :: Holds(c.place, s) ==> Holds(d.place, s))
    && (Done(c) ==> Done(d))
  }

  predicate Promoting(place: Place) {
    place.FirstRead? || place.WriteLambda? || place.ReadLambda? || place.WriteDescriptor? || place.ReadDescriptor?
    || place.RunSmoke?
  }

  predicate Restoring(place: Place) {
    place.RestoreRead? || place.RestoreDescriptor? || place.CheckRead? || place.RestoreLambda? || place.FinalRead?
  }

  lemma PromotingIsQuiet(c: Call, w: World, fault: Fault, smoke: Smoke)
    requires Promoting(c.place)
    ensures Quiet(c, w, Advance(c, w, fault, smoke).0, Advance(c, w, fault, smoke).1)
  {
  }

  lemma RestoringIsQuiet(c: Call, w: World, fault: Fault, smoke: Smoke)
    requires Restoring(c.place)
    ensures Quiet(c, w, Advance(c, w, fault, smoke).0, Advance(c, w, fault, smoke).1)
  {
  }

  /** One step of one call, seen from the store. */
  lemma LocalStep(c: Call, w: World, fault: Fault, smoke: Smoke)
    requires Local(c, w) && Keyed(w)
    ensures Discipline(c, w, Advance(c, w, fault, smoke).0, Advance(c, w, fault, smoke).1)
  {
    var (d, v) := Advance(c, w, fault, smoke);
    if Promoting(c.place) {
      PromotingIsQuiet(c, w, fault, smoke);
      QuietStep(c, w, d, v);
    } else if Restoring(c.place) {
      RestoringIsQuiet(c, w, fault, smoke);
      QuietStep(c, w, d, v);
    } else if !Done(c) {
      StoreStep(c, w, fault, smoke);
    }
  }

  lemma StoreStep(c: Call, w: World, fault: Fault, smoke: Smoke)
    requires Local(c, w) && Keyed(w) && !Promoting(c.place) && !Restoring(c.place) && !Done(c)
    ensures Discipline(c, w, Advance(c, w, fault, smoke).0, Advance(c, w, fault, smoke).1)
  {
    match c.place
    case Create => BeginStep(c, w);
    case Claim => ClaimStep(c, w);
    case Stale(observed) =>
      SwapStep(c, w, c.own.(failure := Observed(STALE_PREVIOUS_POINTER, observed)), PARTIAL_FAILURE, Returned);
    case EnterSmoking => SwapStep(c, w, c.own, SMOKING, RunSmoke);
    case Commit => SwapStep(c, w, c.own, COMMITTED, Returned);
    case Compensate(code) => SwapStep(c, w, c.own, COMPENSATING, RestoreRead(code));
    case GiveUp => SwapStep(c, w, c.own.(failure := Failure(COMPENSATION_FAILED)), PARTIAL_FAILURE, Returned);
    case RollBack(code, seen) =>
      var kept := if HasCode(c.own.failure, code) then c.own.failure else Observed(code, seen);
      SwapStep(c, w, c.own.(failure := kept), ROLLED_BACK, Returned);
  }

  /** A step of one call leaves every other call in order. */
  lemma OthersUndisturbed(c: Call, other: Call, w: World, d: Call, v: World)
    requires Local(c, w) && Local(other, w) && Discipline(c, w, d, v)
    requires c.claimed && other.claimed ==> KeyOf(c) != KeyOf(other)
    ensures Local(other, v)
  {
  }

  lemma StepKeepsInv(s: System, i: nat, fault: Fault, smoke: Smoke)
    requires Inv(s) && i < |s.calls|
    ensures Inv(Next(s, Step(i, fault, smoke)))
    ensures StoreMoves(s.world, Next(s, Step(i, fault, smoke)).world)
  {
    var c := s.calls[i];
    var (d, v) := Advance(c, s.world, fault, smoke);
    var t := Next(s, Step(i, fault, smoke));
    LocalStep(c, s.world, fault, smoke);
    forall j | 0 <= j < |t.calls| ensures Local(t.calls[j], v) {
      if j != i {
        assert j < i ==> !(s.calls[j].claimed && c.claimed && KeyOf(s.calls[j]) == KeyOf(c));
        OthersUndisturbed(c, s.calls[j], s.world, d, v);
      }
    }
    forall a, b | 0 <= a < b < |t.calls| && t.calls[a].claimed && t.calls[b].claimed
      ensures KeyOf(t.calls[a]) != KeyOf(t.calls[b])
    {
      var other := if a == i then b else a;
      assert Local(s.calls[other], s.world);
    }
  }

  /** Every event keeps the invariant and moves the store along its edges only. */
  lemma NextKeepsInv(s: System, e: Event)
    requires Inv(s)
    ensures Inv(Next(s, e)) && StoreMoves(s.world, Next(s, e).world)
  {
    if e.Step? && e.i < |s.calls| {
      StepKeepsInv(s, e.i, e.fault, e.smoke);
    }
  }

  lemma {:induction false} RunKeepsInv(s: System, events: seq<Event>)
    requires Inv(s)
    ensures Inv(Run(s, events))
  {
    if |events| > 0 {
      RunKeepsInv(s, events[..|events| - 1]);
      NextKeepsInv(Run(s, events[..|events| - 1]), events[|events| - 1]);
    }
  }

  // ── Over whole runs ─────────────────────────────────────────────────────────

  /** States reachable from one another along the edges. */
  predicate Leads(a: State, b: State) {
    a == b || Edge(a, b)
    || (a.PREPARED? && !b.PREPARED?)
    || (a.APPLYING? && !b.PREPARED?)
    || (a.SMOKING? && (b.ROLLED_BACK? || b.PARTIAL_FAILURE?))
  }

  /** In any run of any calls, each event moves every stored transaction along an edge of its
      life or not at all. */
  lemma StatesFollowTheirEdges(live: Pointer, events: seq<Event>, e: Event)
    ensures StoreMoves(Run(Start(live), events).world, Run(Start(live), events + [e]).world)
  {
    RunKeepsInv(Start(live), events);
    NextKeepsInv(Run(Start(live), events), e);
    assert (events + [e])[..|events|] == events;
  }

  /** A transaction keeps its identity for ever, and once terminal it never changes again. */
  lemma {:induction false} TerminalIsForEver(live: Pointer, events: seq<Event>, more: seq<Event>, key: string)
    requires key in Run(Start(live), events).world.store
    ensures key in Run(Start(live), events + more).world.store
    ensures var a, b := Run(Start(live), events).world.store[key], Run(Start(live), events + more).world.store[key];
            b.id == a.id && Leads(a.state, b.state) && (Terminal(a.state) ==> b == a)
  {
    if |more| == 0 {
      assert events + more == events;
    } else {
      var head := events + more[..|more| - 1];
      TerminalIsForEver(live, events, more[..|more| - 1], key);
      StatesFollowTheirEdges(live, head, more[|more| - 1]);
      assert head + [more[|more| - 1]] == events + more;
    }
  }

  /** At most one call of a transaction ever issues provider writes, and while the stored state is
      PREPARED none has. */
  lemma OneWriter(live: Pointer, events: seq<Event>)
    ensures var s := Run(Start(live), events);
            && (forall i, j :: 0 <= i < j < |s.calls| && s.calls[i].writes > 0 && s.calls[j].writes > 0
                  ==> KeyOf(s.calls[i]) != KeyOf(s.calls[j]))
            && (forall c :: c in s.calls && KeyOf(c) in s.world.store && s.world.store[KeyOf(c)].state.PREPARED?
                  ==> c.writes == 0)
  {
    RunKeepsInv(Start(live), events);
    var s := Run(Start(live), events);
    forall i | 0 <= i < |s.calls| ensures Local(s.calls[i], s.world) {
    }
  }
}
