/** Two promotions race from the same previous pointers, interleaved at every access. Provider
    writes fail only on their preconditions. The Lambda coordinate works as a lock: at most one
    promotion commits, and the pointers never end up mixed. */
module DeliveryRace {
  import opened DeliveryMachine
  import opened DeliveryLifecycle
  import opened DeliveryFaults

  /** Two submitted transactions that may race, neither of them as committed already. */
  ghost predicate Rivals(a: Transaction, b: Transaction) {
    !a.state.COMMITTED? && !b.state.COMMITTED? && RivalPointers(a, b)
  }

  /** Their own keys, one previous pointer, and three different Lambda coordinates. */
  ghost predicate RivalPointers(a: Transaction, b: Transaction) {
    && Wellformed(a) && Wellformed(b)
    && a.id.key != b.id.key && a.id.previous == b.id.previous
    && a.id.target.lambda != b.id.target.lambda
    && a.id.target.lambda != a.id.previous.lambda && b.id.target.lambda != b.id.previous.lambda
  }

  function RaceStart(a: Transaction, b: Transaction): System {
    System([NewCall(a), NewCall(b)], World(map[], a.id.previous))
  }

  predicate RaceEvent(e: Event) {
    e.Step? && e.fault.NoFault?
  }

  /** A call that will write no more. */
  predicate Spent(place: Place) {
    place.FinalRead? || place.GiveUp? || place.RollBack? || place.Returned? || place.Raised?
  }

  predicate Holder(c: Call, live: Pointer) {
    live.lambda == c.requested.id.target.lambda
  }

  predicate Committed(c: Call, w: World) {
    KeyOf(c) in w.store && w.store[KeyOf(c)].state.COMMITTED?
  }

  /** What one rival knows of the live pointers at each place. */
  ghost predicate Racing(x: Call, y: Call, w: World) {
    var id, live := x.requested.id, w.live;
    && x.own.id == id && !x.requested.state.COMMITTED?
    && (Committed(x, w) ==> live == id.target && x.place.Returned?)
    && match x.place
       case ReadLambda | WriteDescriptor => live == HalfWay(id)
       case ReadDescriptor | EnterSmoking | RunSmoke | Commit => live == id.target
       case Compensate(_) | RestoreRead(_) =>
         live == id.target || (!Holder(x, live) && (Holder(y, live) || Spent(y.place)))
       case RestoreDescriptor(_, seen) => live == seen == id.target
       case CheckRead(_) => live == HalfWay(id) || (live == id.previous && Spent(y.place))
       case RestoreLambda(_, seen) => live == seen == HalfWay(id)
       case Returned => Holder(x, live) ==> Committed(x, w)
       case _ => !Holder(x, live)
  }

  /** The live Lambda is the previous one, with all its objects, or one of the two targets'. */
  ghost predicate Locked(x: Call, y: Call, live: Pointer) {
    && (live.lambda == x.requested.id.previous.lambda ==> live == x.requested.id.previous)
    && (live.lambda == x.requested.id.previous.lambda || Holder(x, live) || Holder(y, live))
  }

  ghost predicate Race(x: Call, y: Call, w: World) {
    && Rivals(x.requested, y.requested)
    && Keyed(w) && Local(x, w) && Local(y, w)
    && (x.place.Create? ==> KeyOf(x) !in w.store)
    && (y.place.Create? ==> KeyOf(y) !in w.store)
    && Racing(x, y, w) && Racing(y, x, w) && Locked(x, y, w.live)
  }

  /** What a step of `x` must show to keep the race in order. */
  lemma RaceKept(x: Call, y: Call, w: World, d: Call, v: World)
    requires Race(x, y, w) && Discipline(x, w, d, v)
    requires d.requested == x.requested && !d.place.Create?
    requires Racing(d, y, v) && Locked(d, y, v.live)
    // The live pointers only move while `x` holds the Lambda or takes it from the previous one.
    requires v.live == w.live || Holder(x, w.live) || (w.live == x.requested.id.previous && x.place.WriteLambda?)
    requires v.live != w.live && Holder(x, w.live) ==> Holder(d, v.live) || Spent(d.place)
    requires v.live != w.live ==> !Holder(y, v.live)
    requires Spent(x.place) ==> Spent(d.place)
    requires v.live == w.live && Holder(x, w.live) ==> Holder(d, v.live)
    ensures Race(d, y, v)
  {
    assert KeyOf(y) in w.store ==> v.store[KeyOf(y)] == w.store[KeyOf(y)];
    OthersUndisturbed(x, y, w, d, v);
  }

  lemma CreateRaceStep(x: Call, y: Call, w: World, smoke: Smoke)
    requires Race(x, y, w) && x.place.Create?
    ensures Race(Advance(x, w, NoFault, smoke).0, y, Advance(x, w, NoFault, smoke).1)
  {
    LocalStep(x, w, NoFault, smoke);
    var (d, v) := Advance(x, w, NoFault, smoke);
    assert (d, v) == Begin(x, w);
    RaceKept(x, y, w, d, v);
  }

  lemma EarlyRaceStep(x: Call, y: Call, w: World, smoke: Smoke)
    requires Race(x, y, w) && (x.place.FirstRead? || x.place.Stale? || x.place.Claim?)
    ensures Race(Advance(x, w, NoFault, smoke).0, y, Advance(x, w, NoFault, smoke).1)
  {
    LocalStep(x, w, NoFault, smoke);
    var (d, v) := Advance(x, w, NoFault, smoke);
    RaceKept(x, y, w, d, v);
  }

  lemma LambdaRaceStep(x: Call, y: Call, w: World, smoke: Smoke)
    requires Race(x, y, w) && (x.place.WriteLambda? || x.place.ReadLambda?)
    ensures Race(Advance(x, w, NoFault, smoke).0, y, Advance(x, w, NoFault, smoke).1)
  {
    LocalStep(x, w, NoFault, smoke);
    var (d, v) := Advance(x, w, NoFault, smoke);
    RaceKept(x, y, w, d, v);
  }

  lemma DescriptorRaceStep(x: Call, y: Call, w: World, smoke: Smoke)
    requires Race(x, y, w) && (x.place.WriteDescriptor? || x.place.ReadDescriptor?)
    ensures Race(Advance(x, w, NoFault, smoke).0, y, Advance(x, w, NoFault, smoke).1)
  {
    LocalStep(x, w, NoFault, smoke);
    var (d, v) := Advance(x, w, NoFault, smoke);
    RaceKept(x, y, w, d, v);
  }

  lemma SmokingRaceStep(x: Call, y: Call, w: World, smoke: Smoke)
    requires Race(x, y, w) && x.place.EnterSmoking?
    ensures Race(Advance(x, w, NoFault, smoke).0, y, Advance(x, w, NoFault, smoke).1)
  {
    LocalStep(x, w, NoFault, smoke);
    var (d, v) := Advance(x, w, NoFault, smoke);
    assert d.place.RunSmoke? && v.live == w.live && Racing(d, y, v);
    RaceKept(x, y, w, d, v);
  }

  lemma VerdictRaceStep(x: Call, y: Call, w: World, smoke: Smoke)
    requires Race(x, y, w) && x.place.RunSmoke?
    ensures Race(Advance(x, w, NoFault, smoke).0, y, Advance(x, w, NoFault, smoke).1)
  {
    LocalStep(x, w, NoFault, smoke);
    var (d, v) := Advance(x, w, NoFault, smoke);
    assert v == w && Racing(d, y, v);
    RaceKept(x, y, w, d, v);
  }

  lemma CommitRaceStep(x: Call, y: Call, w: World, smoke: Smoke)
    requires Race(x, y, w) && x.place.Commit?
    ensures Race(Advance(x, w, NoFault, smoke).0, y, Advance(x, w, NoFault, smoke).1)
  {
    LocalStep(x, w, NoFault, smoke);
    var (d, v) := Advance(x, w, NoFault, smoke);
    assert d.place.Returned? && v.live == w.live && Racing(d, y, v);
    RaceKept(x, y, w, d, v);
  }

  lemma RestoringRaceStep(x: Call, y: Call, w: World, smoke: Smoke)
    requires Race(x, y, w) && Restoring(x.place)
    ensures Race(Advance(x, w, NoFault, smoke).0, y, Advance(x, w, NoFault, smoke).1)
  {
    LocalStep(x, w, NoFault, smoke);
    var (d, v) := Advance(x, w, NoFault, smoke);
    RestoringIsQuiet(x, w, NoFault, smoke);
    RaceKept(x, y, w, d, v);
  }

  lemma CompensatingRaceStep(x: Call, y: Call, w: World, smoke: Smoke)
    requires Race(x, y, w) && x.place.Compensate?
    ensures Race(Advance(x, w, NoFault, smoke).0, y, Advance(x, w, NoFault, smoke).1)
  {
    LocalStep(x, w, NoFault, smoke);
    var (d, v) := Advance(x, w, NoFault, smoke);
    RaceKept(x, y, w, d, v);
  }

  lemma GiveUpRaceStep(x: Call, y: Call, w: World, smoke: Smoke)
    requires Race(x, y, w) && x.place.GiveUp?
    ensures Race(Advance(x, w, NoFault, smoke).0, y, Advance(x, w, NoFault, smoke).1)
  {
    LocalStep(x, w, NoFault, smoke);
    var (d, v) := Advance(x, w, NoFault, smoke);
    assert d.place.Returned? && v.live == w.live && Racing(d, y, v);
    RaceKept(x, y, w, d, v);
  }

  lemma RollBackRaceStep(x: Call, y: Call, w: World, smoke: Smoke)
    requires Race(x, y, w) && x.place.RollBack?
    ensures Race(Advance(x, w, NoFault, smoke).0, y, Advance(x, w, NoFault, smoke).1)
  {
    LocalStep(x, w, NoFault, smoke);
    var (d, v) := Advance(x, w, NoFault, smoke);
    assert d.place.Returned? && v.live == w.live && Racing(d, y, v);
    RaceKept(x, y, w, d, v);
  }

  /** A step of either rival keeps the race in order. */
  lemma RaceStep(x: Call, y: Call, w: World, smoke: Smoke)
    requires Race(x, y, w)
    ensures Race(Advance(x, w, NoFault, smoke).0, y, Advance(x, w, NoFault, smoke).1)
  {
    if x.place.Create? {
      CreateRaceStep(x, y, w, smoke);
    } else if x.place.FirstRead? || x.place.Stale? || x.place.Claim? {
      EarlyRaceStep(x, y, w, smoke);
    } else if x.place.WriteLambda? || x.place.ReadLambda? {
      LambdaRaceStep(x, y, w, smoke);
    } else if x.place.WriteDescriptor? || x.place.ReadDescriptor? {
      DescriptorRaceStep(x, y, w, smoke);
    } else if x.place.EnterSmoking? {
      SmokingRaceStep(x, y, w, smoke);
    } else if x.place.RunSmoke? {
      VerdictRaceStep(x, y, w, smoke);
    } else if x.place.Commit? {
      CommitRaceStep(x, y, w, smoke);
    } else if Restoring(x.place) {
      RestoringRaceStep(x, y, w, smoke);
    } else if x.place.Compensate? {
      CompensatingRaceStep(x, y, w, smoke);
    } else if x.place.GiveUp? {
      GiveUpRaceStep(x, y, w, smoke);
    } else if x.place.RollBack? {
      RollBackRaceStep(x, y, w, smoke);
    }
  }

  lemma RaceIsSymmetric(x: Call, y: Call, w: World)
    requires Race(x, y, w)
    ensures Race(y, x, w)
  {
  }

  ghost predicate InRace(s: System, a: Transaction, b: Transaction) {
    |s.calls| == 2 && s.calls[0].requested == a && s.calls[1].requested == b && Race(s.calls[0], s.calls[1], s.world)
  }

  lemma FirstStaysInRace(s: System, a: Transaction, b: Transaction, e: Event)
    requires InRace(s, a, b) && RaceEvent(e) && e.i == 0
    ensures InRace(Next(s, e), a, b)
  {
    RaceStep(s.calls[0], s.calls[1], s.world, e.smoke);
    LocalStep(s.calls[0], s.world, NoFault, e.smoke);
  }

  lemma SecondStaysInRace(s: System, a: Transaction, b: Transaction, e: Event)
    requires InRace(s, a, b) && RaceEvent(e) && e.i == 1
    ensures InRace(Next(s, e), a, b)
  {
    RaceIsSymmetric(s.calls[0], s.calls[1], s.world);
    RaceStep(s.calls[1], s.calls[0], s.world, e.smoke);
    LocalStep(s.calls[1], s.world, NoFault, e.smoke);
    RaceIsSymmetric(Next(s, e).calls[1], Next(s, e).calls[0], Next(s, e).world);
  }

  lemma NextStaysInRace(s: System, a: Transaction, b: Transaction, e: Event)
    requires InRace(s, a, b) && RaceEvent(e)
    ensures InRace(Next(s, e), a, b)
  {
    if e.i == 0 {
      FirstStaysInRace(s, a, b, e);
    } else if e.i == 1 {
      SecondStaysInRace(s, a, b, e);
    }
  }

  lemma RaceStarts(a: Transaction, b: Transaction)
    requires Rivals(a, b)
    ensures InRace(RaceStart(a, b), a, b)
  {
  }

  lemma {:induction false} RunStaysInRace(a: Transaction, b: Transaction, events: seq<Event>)
    requires Rivals(a, b) && forall e :: e in events ==> RaceEvent(e)
    ensures InRace(Run(RaceStart(a, b), events), a, b)
  {
    if |events| > 0 {
      var n := |events| - 1;
      assert events[n] in events;
      RunStaysInRace(a, b, events[..n]);
      NextStaysInRace(Run(RaceStart(a, b), events[..n]), a, b, events[n]);
    } else {
      RaceStarts(a, b);
    }
  }

  /** Never both committed; a committed promotion's target is live; and once both calls have ended the
      live pointers are exactly the committed target, or exactly the previous pointers when neither
      committed. */
  ghost predicate Safe(s: System, a: Transaction, b: Transaction) {
    && |s.calls| == 2
    && var ca, cb := Committed(s.calls[0], s.world), Committed(s.calls[1], s.world);
    && !(ca && cb)
    && (ca ==> s.world.live == a.id.target)
    && (cb ==> s.world.live == b.id.target)
    && (Done(s.calls[0]) && Done(s.calls[1]) && !ca && !cb ==> s.world.live == a.id.previous)
  }

  /** Every interleaving is safe. */
  lemma RaceIsSafe(a: Transaction, b: Transaction, events: seq<Event>)
    requires Rivals(a, b) && forall e :: e in events ==> RaceEvent(e)
    ensures Safe(Run(RaceStart(a, b), events), a, b)
  {
    RunStaysInRace(a, b, events);
  }

  /** All interleavings are safe exactly when neither transaction is submitted as committed. */
  lemma RaceIsSafeIff(a: Transaction, b: Transaction)
    requires RivalPointers(a, b)
    ensures (forall events :: (forall e :: e in events ==> RaceEvent(e)) ==> Safe(Run(RaceStart(a, b), events), a, b))
            <==> !a.state.COMMITTED? && !b.state.COMMITTED?
  {
    if !a.state.COMMITTED? && !b.state.COMMITTED? {
      forall events | forall e :: e in events ==> RaceEvent(e) ensures Safe(Run(RaceStart(a, b), events), a, b) {
        RaceIsSafe(a, b, events);
      }
    } else {
      CommittedAtOnce(a, b, if a.state.COMMITTED? then 0 else 1);
    }
  }

  lemma CommittedAtOnce(a: Transaction, b: Transaction, i: nat)
    requires RivalPointers(a, b) && if i == 0 then a.state.COMMITTED? else i == 1 && b.state.COMMITTED?
    ensures var events := [Step(i, NoFault, NotRun)];
            (forall e :: e in events ==> RaceEvent(e)) && !Safe(Run(RaceStart(a, b), events), a, b)
  {
    var events := [Step(i, NoFault, NotRun)];
    assert events[..0] == [] && Run(RaceStart(a, b), []) == RaceStart(a, b);
    assert Run(RaceStart(a, b), events) == Next(RaceStart(a, b), events[0]);
  }
}
