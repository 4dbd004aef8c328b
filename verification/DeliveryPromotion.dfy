/** `promote_staging` and `_compensate` of `scripts/release_delivery.py` in their own form:
    methods that drive a stateful store and a stateful provider, proved to take exactly the
    steps of the machine, whatever the provider raises. */
module DeliveryPromotion {
  import opened Options
  import opened DeliveryMachine
  import opened DeliveryLifecycle
  import opened DeliveryFaults
  import Records = DeliveryRecords

  /** How a call ends: with a transaction, or with an exception. */
  datatype Outcome = Returns(transaction: Transaction) | Raises

  /** Durable storage with create-if-absent and compare-and-swap on the state. */
  class TransactionStore {
    var items: map<string, Transaction>

    constructor ()
      ensures items == map[]
    {
      items := map[];
    }

    method Create(t: Transaction) returns (stored: Transaction)
      modifies this
      ensures t.id.key in old(items) ==> items == old(items) && stored == items[t.id.key]
      ensures t.id.key !in old(items) ==> items == old(items)[t.id.key := t] && stored == t
    {
      if t.id.key !in items {
        items := items[t.id.key := t];
      }
      stored := items[t.id.key];
    }

    method Replace(t: Transaction, expected: State) returns (stored: Option<Transaction>)
      modifies this
      ensures if t.id.key in old(items) && old(items)[t.id.key].state == expected
              then items == old(items)[t.id.key := t] && stored == Some(t)
              else items == old(items) && stored == None
    {
      if t.id.key !in items || items[t.id.key].state != expected {
        return None;
      }
      items := items[t.id.key := t];
      stored := Some(t);
    }
  }

  /** The provider: exact reads, conditional writes, and at any access a failure, or a change of
      the live pointers by someone else just before it, returned as `found`. */
  class DeliveryAdapter {
    var live: Pointer

    constructor (live: Pointer)
      ensures this.live == live
    {
      this.live := live;
    }

    method Read() returns (observed: Option<Pointer>, ghost found: Pointer, ghost fault: Fault)
      modifies this
      ensures live == found
      ensures observed == if fault.NoFault? then Some(live) else None
    {
      Disturbed();
      found := live;
      var raises: bool := *;
      if raises {
        return None, found, RaiseBefore;
      }
      return Some(live), found, NoFault;
    }

    method WriteLambda(target: Pointer, expected: Pointer)
      returns (done: bool, ghost found: Pointer, ghost fault: Fault)
      modifies this
      ensures var matches := LambdaMatches(found, expected);
              && live == (if matches && !fault.RaiseBefore? then WithLambda(found, target) else found)
              && done == Acknowledged(matches, fault)
    {
      Disturbed();
      found := live;
      var raises: bool, lost: bool := *, *;
      if raises {
        return false, found, RaiseBefore;
      }
      if live.lambda != expected.lambda {
        return false, found, NoFault;
      }
      live := live.(lambda := target.lambda);
      fault := if lost then RaiseAfter else NoFault;
      done := !lost;
    }

    method WriteDescriptor(target: Pointer, expected: Pointer)
      returns (done: bool, ghost found: Pointer, ghost fault: Fault)
      modifies this
      ensures var matches := DescriptorMatches(found, expected);
              && live == (if matches && !fault.RaiseBefore? then WithDescriptor(found, target) else found)
              && done == Acknowledged(matches, fault)
    {
      Disturbed();
      found := live;
      var raises: bool, lost: bool := *, *;
      if raises {
        return false, found, RaiseBefore;
      }
      if live.descriptor != expected.descriptor {
        return false, found, NoFault;
      }
      live := live.(descriptor := target.descriptor, runtimeConfig := target.runtimeConfig, web := target.web);
      fault := if lost then RaiseAfter else NoFault;
      done := !lost;
    }

    /** Anything may have moved the pointers since the last access. */
    method Disturbed()
      modifies this
    {
      var moved: bool, other: Pointer := *, *;
      if moved {
        live := other;
      }
    }
  }

  // ── Following the machine ───────────────────────────────────────────────────

  /** The events so far take the submitted call from the first world to this call and world. */
  ghost predicate Reached(t: Transaction, w0: World, events: seq<Event>, c: Call, w: World) {
    Run(System([NewCall(t)], w0), events) == System([c], w)
  }

  /** The events of one access: what moved the live pointers before it, if anything did, and the
      step itself. */
  ghost function Access(live: Pointer, found: Pointer, fault: Fault, smoke: Smoke): seq<Event> {
    if live == found then [Step(0, fault, smoke)] else [Interfere(found), Step(0, fault, smoke)]
  }

  lemma OneMoreStep(t: Transaction, w0: World, events: seq<Event>, c: Call, w: World, found: Pointer, fault: Fault,
                    smoke: Smoke)
    requires Reached(t, w0, events, c, w)
    ensures var (d, v) := Advance(c, w.(live := found), fault, smoke);
            Reached(t, w0, events + Access(w.live, found, fault, smoke), d, v)
  {
    var s := System([NewCall(t)], w0);
    StepOfOne(c, w.(live := found), fault, smoke);
    if found == w.live {
      RunOneMore(s, events, Step(0, fault, smoke));
      assert w.(live := found) == w;
    } else {
      RunOneMore(s, events, Interfere(found));
      RunOneMore(s, events + [Interfere(found)], Step(0, fault, smoke));
      TwoEvents(events, Interfere(found), Step(0, fault, smoke));
    }
  }

  lemma RunOneMore(s: System, events: seq<Event>, e: Event)
    ensures Run(s, events + [e]) == Next(Run(s, events), e)
  {
    assert (events + [e])[..|events|] == events;
  }

  lemma TwoEvents(events: seq<Event>, a: Event, b: Event)
    ensures events + [a, b] == events + [a] + [b]
  {
  }

  lemma StepOfOne(c: Call, w: World, fault: Fault, smoke: Smoke)
    ensures var (d, v) := Advance(c, w, fault, smoke);
            Next(System([c], w), Step(0, fault, smoke)) == System([d], v)
  {
  }

  /** What the caller sees of a call that has ended. */
  ghost predicate Ends(c: Call, outcome: Outcome) {
    match outcome
    case Returns(t) => c.place.Returned? && t == c.own
    case Raises => c.place.Raised?
  }

  /** The record of a call that returned is the one its accesses tell: its state, failure, smoke result
      and action log. */
  predicate TellsItsAccesses(t: Transaction, w0: World, events: seq<Event>, c: Call) {
    Records.Recorded(c, Records.Trace(System([NewCall(t)], w0), events, 0))
  }

  lemma ReachedIsTold(t: Transaction, w0: World, events: seq<Event>, c: Call, w: World)
    requires Reached(t, w0, events, c, w)
    ensures TellsItsAccesses(t, w0, events, c)
  {
    Records.RunRecords(System([NewCall(t)], w0), events, 0);
  }

  // ── Compensation ────────────────────────────────────────────────────────────

  /** `_compensate`: from the marked failure back to the recorded previous pointers. */
  method Compensation(transaction: Transaction, store: TransactionStore, delivery: DeliveryAdapter, code: Code,
                      ghost t: Transaction, ghost w0: World, ghost before: seq<Event>, ghost at: Call)
    returns (outcome: Outcome, ghost c: Call, ghost events: seq<Event>)
    requires Reached(t, w0, before, at, World(store.items, delivery.live))
    requires at.own == transaction && at.place == Compensate(code)
    modifies store, delivery
    ensures Reached(t, w0, events, c, World(store.items, delivery.live)) && Ends(c, outcome)
    ensures TellsItsAccesses(t, w0, events, c)
  {
    ghost var w := World(store.items, delivery.live);
    OneMoreStep(t, w0, before, at, w, delivery.live, NoFault, NotRun);
    c, events := Advance(at, w, NoFault, NotRun).0, before + Access(w.live, delivery.live, NoFault, NotRun);
    var stored := store.Replace(transaction.(state := COMPENSATING), transaction.state);
    if stored.None? {
      ReachedIsTold(t, w0, events, c, World(store.items, delivery.live));
      return Raises, c, events;
    }
    var own, observed;
    own, observed, c, events := RestoreObjects(stored.value, store, delivery, code, t, w0, events, c);
    var restored: Option<Pointer> := None;
    if observed {
      own, restored, c, events := RestoreAlias(own, store, delivery, code, t, w0, events, c);
    }
    outcome, c, events := Conclude(own, restored, store, delivery, code, t, w0, events, c);
    ReachedIsTold(t, w0, events, c, World(store.items, delivery.live));
  }

  /** The verdict of the compensation, recorded. */
  method Conclude(own: Transaction, restored: Option<Pointer>, store: TransactionStore, delivery: DeliveryAdapter,
                  code: Code, ghost t: Transaction, ghost w0: World, ghost before: seq<Event>, ghost at: Call)
    returns (outcome: Outcome, ghost c: Call, ghost events: seq<Event>)
    requires Reached(t, w0, before, at, World(store.items, delivery.live)) && at.own == own
    requires at.place == if restored.Some? then RollBack(code, restored.value) else GiveUp
    modifies store
    ensures Reached(t, w0, events, c, World(store.items, delivery.live)) && Ends(c, outcome)
  {
    ghost var w := World(store.items, delivery.live);
    OneMoreStep(t, w0, before, at, w, delivery.live, NoFault, NotRun);
    c, events := Advance(at, w, NoFault, NotRun).0, before + Access(w.live, delivery.live, NoFault, NotRun);
    var stored;
    if restored.None? {
      stored := store.Replace(own.(failure := Failure(COMPENSATION_FAILED), state := PARTIAL_FAILURE), own.state);
    } else {
      var kept := if HasCode(own.failure, code) then own.failure else Observed(code, restored.value);
      stored := store.Replace(own.(failure := kept, state := ROLLED_BACK), own.state);
    }
    outcome := if stored.Some? then Returns(stored.value) else Raises;
  }

  /** The first half of the guarded block: the served objects. */
  method RestoreObjects(transaction: Transaction, store: TransactionStore, delivery: DeliveryAdapter, code: Code,
                        ghost t: Transaction, ghost w0: World, ghost before: seq<Event>, ghost at: Call)
    returns (own: Transaction, done: bool, ghost c: Call, ghost events: seq<Event>)
    requires Reached(t, w0, before, at, World(store.items, delivery.live))
    requires at.own == transaction && at.place == RestoreRead(code)
    modifies delivery
    ensures Reached(t, w0, events, c, World(store.items, delivery.live)) && c.own == own
    ensures c.place == if done then CheckRead(code) else GiveUp
  {
    own := transaction;
    var previous, target := own.id.previous, own.id.target;
    ghost var w := World(store.items, delivery.live);
    var observed: Option<Pointer>;
    ghost var found, fault;
    observed, found, fault := delivery.Read();
    OneMoreStep(t, w0, before, at, w, found, fault, NotRun);
    c, events := Advance(at, w.(live := found), fault, NotRun).0, before + Access(w.live, found, fault, NotRun);
    if observed.None? || (observed.value.lambda != previous.lambda && observed.value.lambda != target.lambda) {
      return own, false, c, events;
    }
    if observed.value.descriptor != previous.descriptor || observed.value.runtimeConfig != previous.runtimeConfig
       || observed.value.web != previous.web {
      own, done, c, events := RewriteObjects(own, store, delivery, code, observed.value, t, w0, events, c);
    } else {
      own, done := WithAction(own, DESCRIPTOR_RESTORE, ALREADY_PREVIOUS), true;
    }
  }

  method RewriteObjects(transaction: Transaction, store: TransactionStore, delivery: DeliveryAdapter, ghost code: Code,
                        observed: Pointer,
                        ghost t: Transaction, ghost w0: World, ghost before: seq<Event>, ghost at: Call)
    returns (own: Transaction, done: bool, ghost c: Call, ghost events: seq<Event>)
    requires Reached(t, w0, before, at, World(store.items, delivery.live))
    requires at.own == transaction && at.place == RestoreDescriptor(code, observed)
    modifies delivery
    ensures Reached(t, w0, events, c, World(store.items, delivery.live)) && c.own == own
    ensures c.place == if done then CheckRead(code) else GiveUp
  {
    own := transaction;
    ghost var w, found, fault := World(store.items, delivery.live), delivery.live, NoFault;
    done, found, fault := delivery.WriteDescriptor(own.id.previous, observed);
    OneMoreStep(t, w0, before, at, w, found, fault, NotRun);
    c, events := Advance(at, w.(live := found), fault, NotRun).0, before + Access(w.live, found, fault, NotRun);
    if done {
      own := WithAction(own, DESCRIPTOR_RESTORE, RESTORED);
    }
  }

  /** The second half: the Lambda alias, and the final read-back. */
  method RestoreAlias(transaction: Transaction, store: TransactionStore, delivery: DeliveryAdapter, code: Code,
                      ghost t: Transaction, ghost w0: World, ghost before: seq<Event>, ghost at: Call)
    returns (own: Transaction, restored: Option<Pointer>, ghost c: Call, ghost events: seq<Event>)
    requires Reached(t, w0, before, at, World(store.items, delivery.live))
    requires at.own == transaction && at.place == CheckRead(code)
    modifies delivery
    ensures Reached(t, w0, events, c, World(store.items, delivery.live)) && c.own == own
    ensures c.place == if restored.Some? then RollBack(code, restored.value) else GiveUp
  {
    own := transaction;
    var previous := own.id.previous;
    ghost var w := World(store.items, delivery.live);
    var observed: Option<Pointer>;
    ghost var found, fault;
    observed, found, fault := delivery.Read();
    OneMoreStep(t, w0, before, at, w, found, fault, NotRun);
    c, events := Advance(at, w.(live := found), fault, NotRun).0, before + Access(w.live, found, fault, NotRun);
    if observed.None? {
      return own, None, c, events;
    }
    if observed.value.lambda != previous.lambda {
      w := World(store.items, delivery.live);
      var done;
      done, found, fault := delivery.WriteLambda(previous, observed.value);
      OneMoreStep(t, w0, events, c, w, found, fault, NotRun);
      c, events := Advance(c, w.(live := found), fault, NotRun).0, events + Access(w.live, found, fault, NotRun);
      if !done {
        return own, None, c, events;
      }
      own := WithAction(own, LAMBDA_RESTORE, RESTORED);
    } else {
      own := WithAction(own, LAMBDA_RESTORE, ALREADY_PREVIOUS);
    }
    w := World(store.items, delivery.live);
    var readBack;
    readBack, c, events := ReadBack(store, delivery, previous, code, observed.value, t, w0, events, c);
    restored := if readBack then observed else None;
  }

  /** Whether the pointers read back exactly as the previous ones. */
  method ReadBack(store: TransactionStore, delivery: DeliveryAdapter, previous: Pointer, ghost code: Code,
                  ghost seen: Pointer, ghost t: Transaction, ghost w0: World, ghost before: seq<Event>, ghost at: Call)
    returns (same: bool, ghost c: Call, ghost events: seq<Event>)
    requires Reached(t, w0, before, at, World(store.items, delivery.live)) && at.place == FinalRead(code, seen)
    requires at.own.id.previous == previous
    modifies delivery
    ensures Reached(t, w0, events, c, World(store.items, delivery.live)) && c.own == at.own
    ensures c.place == if same then RollBack(code, seen) else GiveUp
  {
    ghost var w, found, fault := World(store.items, delivery.live), delivery.live, NoFault;
    var observed;
    observed, found, fault := delivery.Read();
    OneMoreStep(t, w0, before, at, w, found, fault, NotRun);
    c, events := Advance(at, w.(live := found), fault, NotRun).0, before + Access(w.live, found, fault, NotRun);
    same := observed.Some? && observed.value == previous;
  }

  // ── Promotion ───────────────────────────────────────────────────────────────

  /** The guarded block of `promote_staging`, the Lambda alias: the failure code, if it failed. */
  method ApplyLambda(transaction: Transaction, store: TransactionStore, delivery: DeliveryAdapter,
                     ghost t: Transaction, ghost w0: World, ghost before: seq<Event>, ghost at: Call)
    returns (own: Transaction, failed: Option<Code>, ghost c: Call, ghost events: seq<Event>)
    requires Reached(t, w0, before, at, World(store.items, delivery.live))
    requires at.own == transaction && at.place == WriteLambda
    modifies delivery
    ensures Reached(t, w0, events, c, World(store.items, delivery.live)) && c.own == own
    ensures c.place == if failed.Some? then Compensate(failed.value) else WriteDescriptor
  {
    own, failed := transaction, None;
    var previous, target := own.id.previous, own.id.target;
    ghost var w := World(store.items, delivery.live);
    var done;
    ghost var found, fault;
    done, found, fault := delivery.WriteLambda(target, previous);
    OneMoreStep(t, w0, before, at, w, found, fault, NotRun);
    c, events := Advance(at, w.(live := found), fault, NotRun).0, before + Access(w.live, found, fault, NotRun);
    if !done {
      return own.(failure := Failure(POINTER_MUTATION_FAILED)), Some(POINTER_MUTATION_FAILED), c, events;
    }
    own := WithAction(own, LAMBDA_UPDATE, APPLIED);
    w := World(store.items, delivery.live);
    var observed;
    observed, found, fault := delivery.Read();
    OneMoreStep(t, w0, events, c, w, found, fault, NotRun);
    c, events := Advance(c, w.(live := found), fault, NotRun).0, events + Access(w.live, found, fault, NotRun);
    if observed.None? {
      return own.(failure := Failure(POINTER_MUTATION_FAILED)), Some(POINTER_MUTATION_FAILED), c, events;
    }
    if observed.value.lambda != target.lambda {
      own := own.(failure := Observed(POINTER_READBACK_MISMATCH, observed.value));
      failed := Some(POINTER_READBACK_MISMATCH);
    }
  }

  /** The guarded block of `promote_staging`, the descriptor. */
  method ApplyDescriptor(transaction: Transaction, store: TransactionStore, delivery: DeliveryAdapter,
                         ghost t: Transaction, ghost w0: World, ghost before: seq<Event>, ghost at: Call)
    returns (own: Transaction, failed: Option<Code>, ghost c: Call, ghost events: seq<Event>)
    requires Reached(t, w0, before, at, World(store.items, delivery.live))
    requires at.own == transaction && at.place == WriteDescriptor
    modifies delivery
    ensures Reached(t, w0, events, c, World(store.items, delivery.live)) && c.own == own
    ensures c.place == if failed.Some? then Compensate(failed.value) else EnterSmoking
  {
    own, failed := transaction, None;
    var previous, target := own.id.previous, own.id.target;
    ghost var w := World(store.items, delivery.live);
    var done;
    ghost var found, fault;
    done, found, fault := delivery.WriteDescriptor(target, previous);
    OneMoreStep(t, w0, before, at, w, found, fault, NotRun);
    c, events := Advance(at, w.(live := found), fault, NotRun).0, before + Access(w.live, found, fault, NotRun);
    if !done {
      return own.(failure := Failure(POINTER_MUTATION_FAILED)), Some(POINTER_MUTATION_FAILED), c, events;
    }
    own := WithAction(own, DESCRIPTOR_UPDATE, APPLIED);
    w := World(store.items, delivery.live);
    var observed;
    observed, found, fault := delivery.Read();
    OneMoreStep(t, w0, events, c, w, found, fault, NotRun);
    c, events := Advance(c, w.(live := found), fault, NotRun).0, events + Access(w.live, found, fault, NotRun);
    if observed.None? {
      return own.(failure := Failure(POINTER_MUTATION_FAILED)), Some(POINTER_MUTATION_FAILED), c, events;
    }
    if observed.value != target {
      own := own.(failure := Observed(POINTER_READBACK_MISMATCH, observed.value));
      failed := Some(POINTER_READBACK_MISMATCH);
    }
  }

  /** Reading the stored transaction and claiming it, or the reason the call ends at once. */
  method Claimed(candidate: Transaction, store: TransactionStore, delivery: DeliveryAdapter, ghost w0: World)
    returns (own: Transaction, ended: Option<Outcome>, ghost c: Call, ghost events: seq<Event>)
    requires w0 == World(store.items, delivery.live)
    modifies store, delivery
    ensures Reached(candidate, w0, events, c, World(store.items, delivery.live)) && c.own == own
    ensures if ended.Some? then Ends(c, ended.value) else c.place == WriteLambda
  {
    ghost var found, fault := delivery.live, NoFault;
    assert Reached(candidate, w0, [], NewCall(candidate), w0);
    OneMoreStep(candidate, w0, [], NewCall(candidate), w0, found, NoFault, NotRun);
    c, events := Begin(NewCall(candidate), w0).0, [] + Access(found, found, NoFault, NotRun);
    own := store.Create(candidate);
    if own.id != candidate.id {
      return own, Some(Raises), c, events;
    }
    if Terminal(own.state) {
      return own, Some(Returns(own)), c, events;
    }
    if !own.state.PREPARED? {
      return own, Some(Raises), c, events;
    }
    ghost var w := World(store.items, delivery.live);
    var observed;
    observed, found, fault := delivery.Read();
    OneMoreStep(candidate, w0, events, c, w, found, fault, NotRun);
    c, events := Advance(c, w.(live := found), fault, NotRun).0, events + Access(w.live, found, fault, NotRun);
    if observed.None? {
      return own, Some(Raises), c, events;
    }
    w := World(store.items, delivery.live);
    OneMoreStep(candidate, w0, events, c, w, delivery.live, NoFault, NotRun);
    events := events + Access(w.live, delivery.live, NoFault, NotRun);
    c := Advance(c, w, NoFault, NotRun).0;
    var stored: Option<Transaction>;
    if observed.value != own.id.previous {
      own := own.(failure := Observed(STALE_PREVIOUS_POINTER, observed.value));
      stored := store.Replace(own.(state := PARTIAL_FAILURE), own.state);
      own := own.(state := PARTIAL_FAILURE);
      return own, Some(if stored.Some? then Returns(stored.value) else Raises), c, events;
    }
    stored := store.Replace(own.(state := APPLYING), own.state);
    own := own.(state := APPLYING);
    ended := if stored.None? then Some(Raises) else None;
  }

  /** Apply an exact staging release, or restore the recorded known-good pointers. */
  method PromoteStaging(candidate: Transaction, store: TransactionStore, delivery: DeliveryAdapter,
                        smokeTest: Pointer -> Smoke)
    returns (outcome: Outcome, ghost c: Call, ghost events: seq<Event>)
    modifies store, delivery
    // A malformed candidate is refused before any access.
    ensures !Wellformed(candidate) ==>
              outcome.Raises? && store.items == old(store.items) && delivery.live == old(delivery.live)
    // Otherwise the call takes the steps of the machine, to its end.
    ensures Wellformed(candidate) ==>
              && Reached(candidate, World(old(store.items), old(delivery.live)), events, c,
                         World(store.items, delivery.live))
              && Ends(c, outcome)
    // What it stores tells what those steps met.
    ensures Wellformed(candidate) ==>
              TellsItsAccesses(candidate, World(old(store.items), old(delivery.live)), events, c)
  {
    if candidate.id.previous == candidate.id.target {
      return Raises, NewCall(candidate), [];
    }
    ghost var w0 := World(store.items, delivery.live);
    var own, ended;
    own, ended, c, events := Claimed(candidate, store, delivery, w0);
    if ended.Some? {
      ReachedIsTold(candidate, w0, events, c, World(store.items, delivery.live));
      return ended.value, c, events;
    }
    var failed;
    own, failed, c, events := ApplyLambda(own, store, delivery, candidate, w0, events, c);
    if failed.None? {
      own, failed, c, events := ApplyDescriptor(own, store, delivery, candidate, w0, events, c);
    }
    if failed.Some? {
      outcome, c, events := Compensation(own, store, delivery, failed.value, candidate, w0, events, c);
      return;
    }
    outcome, c, events := SmokeAndCommit(own, store, delivery, smokeTest, candidate, w0, events, c);
    ReachedIsTold(candidate, w0, events, c, World(store.items, delivery.live));
  }

  /** The smoke test of the applied target, and the verdict. */
  method SmokeAndCommit(transaction: Transaction, store: TransactionStore, delivery: DeliveryAdapter,
                        smokeTest: Pointer -> Smoke,
                        ghost t: Transaction, ghost w0: World, ghost before: seq<Event>, ghost at: Call)
    returns (outcome: Outcome, ghost c: Call, ghost events: seq<Event>)
    requires Reached(t, w0, before, at, World(store.items, delivery.live))
    requires at.own == transaction && at.place == EnterSmoking
    modifies store, delivery
    ensures Reached(t, w0, events, c, World(store.items, delivery.live)) && Ends(c, outcome)
  {
    ghost var w, found := World(store.items, delivery.live), delivery.live;
    OneMoreStep(t, w0, before, at, w, found, NoFault, NotRun);
    c, events := Advance(at, w, NoFault, NotRun).0, before + Access(w.live, found, NoFault, NotRun);
    var stored := store.Replace(transaction.(state := SMOKING), transaction.state);
    if stored.None? {
      return Raises, c, events;
    }
    var own := stored.value;
    w := World(store.items, delivery.live);
    var smoke := smokeTest(own.id.target);
    OneMoreStep(t, w0, events, c, w, found, NoFault, smoke);
    c, events := Advance(c, w, NoFault, smoke).0, events + Access(w.live, found, NoFault, smoke);
    own := own.(smoke := smoke);
    if !smoke.SmokeResult? || !smoke.pass || smoke.release != own.id.release {
      outcome, c, events := Compensation(own, store, delivery, SMOKE_FAILED, t, w0, events, c);
      return;
    }
    OneMoreStep(t, w0, events, c, w, found, NoFault, NotRun);
    c, events := Advance(c, w, NoFault, NotRun).0, events + Access(w.live, found, NoFault, NotRun);
    stored := store.Replace(own.(state := COMMITTED), own.state);
    outcome := if stored.Some? then Returns(stored.value) else Raises;
  }

  // ── What the caller may believe ─────────────────────────────────────────────

  lemma {:induction false} JoinedFirst(t: Transaction, live: Pointer, events: seq<Event>)
    ensures Run(Start(live), [Join(t)] + events) == Run(System([NewCall(t)], World(map[], live)), events)
  {
    var all := [Join(t)] + events;
    if |events| == 0 {
      assert all == [Join(t)] && all[..0] == [];
      assert Run(Start(live), []) == Start(live);
      assert Run(Start(live), all) == Next(Start(live), Join(t));
    } else {
      assert all[..|all| - 1] == [Join(t)] + events[..|events| - 1];
      JoinedFirst(t, live, events[..|events| - 1]);
    }
  }

  /** A promotion that nobody disturbs, of a transaction whose submitted state says nothing false: committed
      means the target is live and passed its smoke test, rolled back means the previous pointers are live. */
  lemma UndisturbedPromotionIsTrue(t: Transaction, live: Pointer, events: seq<Event>, c: Call, w: World)
    requires Truthful(t, live) && Reached(t, World(map[], live), events, c, w)
    requires forall e :: e in events ==> e.Step?
    requires t.id.key in w.store
    ensures w.store[t.id.key].state.COMMITTED? ==> w.live == w.store[t.id.key].id.target && Passed(w.store[t.id.key])
    ensures w.store[t.id.key].state.ROLLED_BACK? ==> w.live == w.store[t.id.key].id.previous
    ensures c.claimed && Done(c) && !c.struck ==>
              w.store[t.id.key].state.COMMITTED? || w.store[t.id.key].state.ROLLED_BACK?
  {
    JoinedFirst(t, live, events);
    VerdictsAreTrue(live, [Join(t)] + events, t.id.key);
    assert Run(Start(live), [Join(t)] + events) == System([c], w);
    assert c in System([c], w).calls;
  }
}
