/** One transaction against a faulty provider and no other writer: however often it is retried,
    interrupted or struck, what its terminal state says about the live pointers is true. */
module DeliveryFaults {
  import opened DeliveryMachine
  import opened DeliveryLifecycle

  /** The smoke test passed, for the release of the transaction. */
  predicate Passed(t: Transaction) {
    t.smoke.SmokeResult? && t.smoke.pass && t.smoke.release == t.id.release
  }

  /** The pointers half-way: the target's Lambda before the previous objects. */
  function HalfWay(id: Identity): Pointer {
    id.previous.(lambda := id.target.lambda)
  }

  /** What the live pointers are while a claimed call stands at each place. */
  ghost predicate LiveAt(place: Place, id: Identity, live: Pointer) {
    match place
    case WriteLambda => live == id.previous
    case ReadLambda | WriteDescriptor => live == HalfWay(id)
    case ReadDescriptor | EnterSmoking | RunSmoke | Commit => live == id.target
    case Compensate(_) | RestoreRead(_) => live == id.previous || live == HalfWay(id) || live == id.target
    case RestoreDescriptor(_, seen) => live == seen && (live == HalfWay(id) || live == id.target || live == id.previous)
    case CheckRead(_) => live == id.previous || live == HalfWay(id)
    case RestoreLambda(_, seen) => live == seen == HalfWay(id)
    case FinalRead(_, _) | RollBack(_, _) => live == id.previous
    case _ => true
  }

  /** What holds of one call and the live pointers when its transaction is the only writer. */
  ghost predicate Faithful(c: Call, w: World)
    requires Local(c, w)
  {
    && (c.place.Claim? && w.store[KeyOf(c)].state.PREPARED? ==> w.live == c.own.id.previous)
    && (c.claimed ==>
          && !c.place.Raised?
          && LiveAt(c.place, c.own.id, w.live)
          && (c.place.Commit? ==> Passed(c.own))
          && (c.place.GiveUp? ==> c.struck)
          && (c.place.Returned? ==>
                w.store[KeyOf(c)].state.COMMITTED? || w.store[KeyOf(c)].state.ROLLED_BACK? || c.struck))
  }

  /** What a terminal state says about the live pointers. */
  ghost predicate Truthful(t: Transaction, live: Pointer) {
    && (t.state.COMMITTED? ==> live == t.id.target && Passed(t))
    && (t.state.ROLLED_BACK? ==> live == t.id.previous)
  }

  /** One call of the transaction among the others. */
  ghost predicate Member(c: Call, w: World, key: string) {
    KeyOf(c) == key && Local(c, w) && Faithful(c, w)
  }

  /** The transaction is stored, what its state says is true, and its calls are the only writers. */
  ghost predicate SingleWriter(s: System, key: string) {
    && Inv(s)
    && (forall c :: c in s.calls ==> Member(c, s.world, key))
    && key in s.world.store && Truthful(s.world.store[key], s.world.live)
  }

  /** What every step must leave true of its own call and of the stored state. */
  ghost predicate StillTrue(c: Call, d: Call, v: World) {
    && KeyOf(d) == KeyOf(c) && Local(d, v) && Faithful(d, v)
    && KeyOf(c) in v.store && Truthful(v.store[KeyOf(c)], v.live)
  }

  /** A step before the claim moves nothing. */
  lemma UnclaimedStep(c: Call, w: World, fault: Fault, smoke: Smoke)
    requires Local(c, w) && Keyed(w) && Faithful(c, w) && !c.claimed
    requires KeyOf(c) in w.store && Truthful(w.store[KeyOf(c)], w.live)
    ensures var (d, v) := Advance(c, w, fault, smoke);
            v.live == w.live && StillTrue(c, d, v)
  {
    LocalStep(c, w, fault, smoke);
    if c.place.Create? {
      assert Advance(c, w, fault, smoke) == Begin(c, w);
    }
  }

  /** A step of the claimed promotion, up to its verdict. */
  lemma PromotingStep(c: Call, w: World, fault: Fault, smoke: Smoke)
    requires Local(c, w) && Keyed(w) && Faithful(c, w) && c.claimed
    requires Promoting(c.place) || c.place.EnterSmoking? || c.place.Commit?
    requires Truthful(w.store[KeyOf(c)], w.live)
    ensures var (d, v) := Advance(c, w, fault, smoke);
            StillTrue(c, d, v)
  {
    LocalStep(c, w, fault, smoke);
  }

  /** A step of its compensation that reads or writes the pointers. */
  lemma RestoringStep(c: Call, w: World, fault: Fault, smoke: Smoke)
    requires Local(c, w) && Keyed(w) && Faithful(c, w) && c.claimed
    requires Restoring(c.place)
    requires Truthful(w.store[KeyOf(c)], w.live)
    ensures var (d, v) := Advance(c, w, fault, smoke);
            StillTrue(c, d, v)
  {
    LocalStep(c, w, fault, smoke);
    RestoringIsQuiet(c, w, fault, smoke);
  }

  /** A step of its compensation that records where it stands. */
  lemma CompensatingStep(c: Call, w: World, fault: Fault, smoke: Smoke)
    requires Local(c, w) && Keyed(w) && Faithful(c, w) && c.claimed
    requires c.place.Compensate? || c.place.GiveUp? || c.place.RollBack?
    requires Truthful(w.store[KeyOf(c)], w.live)
    ensures var (d, v) := Advance(c, w, fault, smoke);
            StillTrue(c, d, v)
  {
    LocalStep(c, w, fault, smoke);
  }

  lemma FaithfulStep(c: Call, w: World, fault: Fault, smoke: Smoke)
    requires Local(c, w) && Keyed(w) && Faithful(c, w)
    requires KeyOf(c) in w.store && Truthful(w.store[KeyOf(c)], w.live)
    ensures var (d, v) := Advance(c, w, fault, smoke);
            StillTrue(c, d, v) && (!c.claimed ==> v.live == w.live)
  {
    if !c.claimed {
      UnclaimedStep(c, w, fault, smoke);
    } else if Promoting(c.place) || c.place.EnterSmoking? || c.place.Commit? {
      PromotingStep(c, w, fault, smoke);
    } else if Restoring(c.place) {
      RestoringStep(c, w, fault, smoke);
    } else if !Done(c) {
      CompensatingStep(c, w, fault, smoke);
    }
  }

  /** The other calls of the transaction never wait for the live pointers to move. */
  lemma OtherStaysFaithful(c: Call, other: Call, w: World, d: Call, v: World)
    requires Local(c, w) && Local(other, w) && Discipline(c, w, d, v) && Faithful(other, w)
    requires KeyOf(other) == KeyOf(c) && !(c.claimed && other.claimed)
    requires c.claimed || v.live == w.live
    ensures Local(other, v) && Faithful(other, v)
  {
  }

  predicate OwnEvent(e: Event, key: string) {
    match e
    case Join(t) => t.id.key == key
    case Step(_, _, _) => true
    case Interfere(_) => false
  }

  lemma OwnStepStaysMember(c: Call, w: World, key: string, fault: Fault, smoke: Smoke)
    requires Keyed(w) && Member(c, w, key) && key in w.store && Truthful(w.store[key], w.live)
    ensures Member(Advance(c, w, fault, smoke).0, Advance(c, w, fault, smoke).1, key)
  {
    LocalStep(c, w, fault, smoke);
    FaithfulStep(c, w, fault, smoke);
  }

  lemma OtherStaysMember(c: Call, other: Call, w: World, key: string, fault: Fault, smoke: Smoke)
    requires Keyed(w) && Member(c, w, key) && key in w.store && Truthful(w.store[key], w.live)
    requires Member(other, w, key) && !(c.claimed && other.claimed)
    ensures Member(other, Advance(c, w, fault, smoke).1, key)
  {
    var (d, v) := Advance(c, w, fault, smoke);
    LocalStep(c, w, fault, smoke);
    FaithfulStep(c, w, fault, smoke);
    OtherStaysFaithful(c, other, w, d, v);
  }

  lemma StepStaysSingleWriter(s: System, key: string, e: Event, j: nat)
    requires SingleWriter(s, key) && e.Step? && e.i < |s.calls| && j < |s.calls|
    ensures Member(Next(s, e).calls[j], Next(s, e).world, key)
  {
    var c := s.calls[e.i];
    assert c in s.calls && s.calls[j] in s.calls;
    if j == e.i {
      OwnStepStaysMember(c, s.world, key, e.fault, e.smoke);
    } else {
      OtherStaysMember(c, s.calls[j], s.world, key, e.fault, e.smoke);
    }
  }

  lemma StepStaysTruthful(s: System, key: string, e: Event)
    requires SingleWriter(s, key) && e.Step? && e.i < |s.calls|
    ensures key in Next(s, e).world.store && Truthful(Next(s, e).world.store[key], Next(s, e).world.live)
  {
    var c := s.calls[e.i];
    assert c in s.calls;
    FaithfulStep(c, s.world, e.fault, e.smoke);
  }

  lemma NextStaysSingleWriter(s: System, key: string, e: Event)
    requires SingleWriter(s, key) && OwnEvent(e, key)
    ensures SingleWriter(Next(s, e), key)
  {
    NextKeepsInv(s, e);
    if e.Step? && e.i < |s.calls| {
      StepStaysTruthful(s, key, e);
      forall c | c in Next(s, e).calls ensures Member(c, Next(s, e).world, key) {
        var j :| 0 <= j < |Next(s, e).calls| && Next(s, e).calls[j] == c;
        StepStaysSingleWriter(s, key, e, j);
      }
    } else if e.Join? {
      forall c | c in Next(s, e).calls ensures c in s.calls || c == NewCall(e.t) {
      }
    }
  }

  /** Before the transaction is stored its calls have done nothing. */
  ghost predicate Unstored(s: System, key: string, live: Pointer) {
    Inv(s) && key !in s.world.store && s.world.live == live && forall c :: c in s.calls ==> KeyOf(c) == key
  }

  /** What the store holds of the transaction right after it was first stored: a submission, word for
      word, with the live pointers still untouched. */
  ghost predicate JustStored(s: System, key: string, live: Pointer) {
    && Inv(s) && s.world.live == live && key in s.world.store
    && (forall c :: c in s.calls ==> Member(c, s.world, key))
  }

  lemma FirstStep(c: Call, w: World, key: string, fault: Fault, smoke: Smoke)
    requires Keyed(w) && Local(c, w) && KeyOf(c) == key && key !in w.store
    ensures c.place.Create?
    ensures var (d, v) := Advance(c, w, fault, smoke);
            v == Stored(w, c.requested) && Member(d, v, key)
  {
    LocalStep(c, w, fault, smoke);
    assert Advance(c, w, fault, smoke) == Begin(c, w);
  }

  lemma NextFromUnstored(s: System, key: string, live: Pointer, e: Event)
    requires Unstored(s, key, live) && OwnEvent(e, key)
    ensures key !in Next(s, e).world.store ==> Unstored(Next(s, e), key, live)
    ensures key in Next(s, e).world.store ==>
              && JustStored(Next(s, e), key, live) && e.Step? && e.i < |s.calls|
              && Next(s, e).world.store[key] == s.calls[e.i].requested
  {
    NextKeepsInv(s, e);
    forall i | 0 <= i < |s.calls| ensures s.calls[i] in s.calls && Local(s.calls[i], s.world) {
    }
    if e.Step? && e.i < |s.calls| {
      FirstStep(s.calls[e.i], s.world, key, e.fault, e.smoke);
      var t := Next(s, e);
      forall c | c in t.calls ensures Member(c, t.world, key) {
        var j :| 0 <= j < |t.calls| && t.calls[j] == c;
        if j != e.i {
          FirstStep(c, s.world, key, e.fault, e.smoke);
        }
      }
    }
  }

  /** The event by which the transaction is first stored. */
  ghost predicate FirstStored(live: Pointer, events: seq<Event>, key: string, n: nat) {
    && 0 < n <= |events|
    && key !in Run(Start(live), events[..n - 1]).world.store && key in Run(Start(live), events[..n]).world.store
  }

  lemma {:induction false} RunFromUnstored(live: Pointer, events: seq<Event>, key: string)
    requires forall e :: e in events ==> OwnEvent(e, key)
    requires key !in Run(Start(live), events).world.store
    ensures Unstored(Run(Start(live), events), key, live)
  {
    if |events| > 0 {
      var n := |events| - 1;
      assert events[n] in events && events[..n] + [events[n]] == events;
      if key in Run(Start(live), events[..n]).world.store {
        RunKeepsInv(Start(live), events[..n]);
        NextKeepsInv(Run(Start(live), events[..n]), events[n]);
      } else {
        RunFromUnstored(live, events[..n], key);
        NextFromUnstored(Run(Start(live), events[..n]), key, live, events[n]);
      }
    }
  }

  lemma RunJustStored(live: Pointer, events: seq<Event>, key: string, n: nat)
    requires forall e :: e in events ==> OwnEvent(e, key)
    requires FirstStored(live, events, key, n)
    ensures JustStored(Run(Start(live), events[..n]), key, live)
  {
    RunFromUnstored(live, events[..n - 1], key);
    assert events[n - 1] in events && events[..n][..n - 1] == events[..n - 1];
    NextFromUnstored(Run(Start(live), events[..n - 1]), key, live, events[n - 1]);
  }

  lemma {:induction false} RunStaysSingleWriter(live: Pointer, events: seq<Event>, key: string, n: nat, m: nat)
    requires forall e :: e in events ==> OwnEvent(e, key)
    requires FirstStored(live, events, key, n) && n <= m <= |events|
    requires Truthful(Run(Start(live), events[..n]).world.store[key], live)
    ensures SingleWriter(Run(Start(live), events[..m]), key)
    decreases m
  {
    if m == n {
      RunJustStored(live, events, key, n);
    } else {
      RunStaysSingleWriter(live, events, key, n, m - 1);
      assert events[m - 1] in events && events[..m][..m - 1] == events[..m - 1];
      NextStaysSingleWriter(Run(Start(live), events[..m - 1]), key, events[m - 1]);
    }
  }

  /** What a stored state says is true at one moment of a run. */
  ghost predicate TrueAt(s: System, key: string) {
    key in s.world.store ==> Truthful(s.world.store[key], s.world.live)
  }

  /** In every run of one transaction's calls, with any faults and interruptions, from its first
      being stored on: committed means the target is live and the smoke test passed for this release,
      and rolled back means the previous pointers are live, throughout the run exactly when that was
      true of the transaction as it was submitted. */
  lemma VerdictsAreTrueIff(live: Pointer, events: seq<Event>, key: string, n: nat)
    requires forall e :: e in events ==> OwnEvent(e, key)
    requires FirstStored(live, events, key, n)
    ensures (forall m :: n <= m <= |events| ==> TrueAt(Run(Start(live), events[..m]), key))
            <==> Truthful(Run(Start(live), events[..n]).world.store[key], live)
  {
    RunJustStored(live, events, key, n);
    if Truthful(Run(Start(live), events[..n]).world.store[key], live) {
      forall m | n <= m <= |events| ensures TrueAt(Run(Start(live), events[..m]), key) {
        RunStaysSingleWriter(live, events, key, n, m);
      }
    } else {
      assert !TrueAt(Run(Start(live), events[..n]), key);
    }
  }

  /** The same over all runs, by what is submitted: they are all true exactly when the submission
      that is stored first is neither COMMITTED nor ROLLED_BACK, or is already true. */
  lemma SubmissionDecides(live: Pointer, t: Transaction)
    ensures (forall more :: (forall e :: e in more ==> OwnEvent(e, t.id.key)) ==>
               TrueAt(Run(Start(live), Submitted(t) + more), t.id.key))
            <==> (t.state.COMMITTED? ==> live == t.id.target && Passed(t))
                 && (t.state.ROLLED_BACK? ==> live == t.id.previous)
  {
    var key := t.id.key;
    SubmittedIsStored(live, t);
    if Truthful(t, live) {
      forall more | forall e :: e in more ==> OwnEvent(e, key)
        ensures TrueAt(Run(Start(live), Submitted(t) + more), key)
      {
        var events := Submitted(t) + more;
        assert events[..2] == Submitted(t) && events[..1] == [Join(t)] && events[..|events|] == events;
        RunStaysSingleWriter(live, events, key, 2, |events|);
      }
    } else {
      assert Submitted(t) + [] == Submitted(t);
      assert !TrueAt(Run(Start(live), Submitted(t) + []), key);
    }
  }

  /** A call joins and takes its first step. */
  function Submitted(t: Transaction): seq<Event> {
    [Join(t), Step(0, NoFault, NotRun)]
  }

  lemma SubmittedIsStored(live: Pointer, t: Transaction)
    ensures Run(Start(live), [Join(t)]) == System([NewCall(t)], World(map[], live))
    ensures Run(Start(live), Submitted(t)).world == World(map[t.id.key := t], live)
  {
    assert Run(Start(live), []) == Start(live);
    assert [Join(t)][..0] == [] && Submitted(t)[..1] == [Join(t)];
    assert [] + [NewCall(t)] == [NewCall(t)];
  }

  /** It does happen: a transaction submitted as COMMITTED is stored so, while its target is not live. */
  lemma SubmittedVerdictIsKept(live: Pointer, t: Transaction)
    requires t.state.COMMITTED? && live != t.id.target
    ensures var w := Run(Start(live), Submitted(t)).world;
            t.id.key in w.store && w.store[t.id.key].state.COMMITTED? && w.live != w.store[t.id.key].id.target
  {
    SubmittedIsStored(live, t);
  }

  /** What the verdicts of a run say when every submission is true of the live pointers: and a claimed
      call that returned without a fault in its compensation left one of the two. */
  lemma VerdictsAreTrue(live: Pointer, events: seq<Event>, key: string)
    requires forall e :: e in events ==> OwnEvent(e, key) && (e.Join? ==> Truthful(e.t, live))
    ensures var s := Run(Start(live), events);
            key in s.world.store ==>
              && (s.world.store[key].state.COMMITTED? ==>
                    s.world.live == s.world.store[key].id.target && Passed(s.world.store[key]))
              && (s.world.store[key].state.ROLLED_BACK? ==> s.world.live == s.world.store[key].id.previous)
              && (forall c :: c in s.calls && c.claimed && Done(c) && !c.struck ==>
                    s.world.store[key].state.COMMITTED? || s.world.store[key].state.ROLLED_BACK?)
  {
    if key in Run(Start(live), events).world.store {
      var n := StoredAt(live, events, key);
      SubmissionsAreStored(live, events, key, n);
      RunStaysSingleWriter(live, events, key, n, |events|);
      assert events[..|events|] == events;
      var s := Run(Start(live), events);
      forall c | c in s.calls ensures Member(c, s.world, key) {
      }
    }
  }

  lemma {:induction false} StoredAt(live: Pointer, events: seq<Event>, key: string) returns (n: nat)
    requires key in Run(Start(live), events).world.store
    ensures FirstStored(live, events, key, n)
  {
    n := |events|;
    assert events[..n] == events;
    if key in Run(Start(live), events[..n - 1]).world.store {
      var before := events[..n - 1];
      n := StoredAt(live, before, key);
      assert before[..n] == events[..n] && before[..n - 1] == events[..n - 1];
    }
  }

  /** What is stored first was submitted by one of the calls. */
  lemma SubmissionsAreStored(live: Pointer, events: seq<Event>, key: string, n: nat)
    requires forall e :: e in events ==> OwnEvent(e, key)
    requires FirstStored(live, events, key, n)
    ensures exists e :: e in events && e.Join? && Run(Start(live), events[..n]).world.store[key] == e.t
  {
    RunFromUnstored(live, events[..n - 1], key);
    assert events[n - 1] in events && events[..n][..n - 1] == events[..n - 1];
    var s := Run(Start(live), events[..n - 1]);
    NextFromUnstored(s, key, live, events[n - 1]);
    var e := CallsJoined(live, events[..n - 1], s.calls[events[n - 1].i]);
    assert e in events;
  }

  lemma {:induction false} CallsJoined(live: Pointer, events: seq<Event>, c: Call) returns (e: Event)
    requires c in Run(Start(live), events).calls
    ensures e in events && e.Join? && e.t == c.requested
  {
    var n := |events| - 1;
    var s, last := Run(Start(live), events[..n]), events[n];
    if last.Join? && c == NewCall(last.t) {
      e := last;
    } else if c in s.calls {
      e := CallsJoined(live, events[..n], c);
    } else {
      RequestIsKept(s.calls[last.i], s.world, last.fault, last.smoke);
      e := CallsJoined(live, events[..n], s.calls[last.i]);
    }
  }

  lemma RequestIsKept(c: Call, w: World, fault: Fault, smoke: Smoke)
    ensures Advance(c, w, fault, smoke).0.requested == c.requested
  {
  }

  // ── Progress ────────────────────────────────────────────────────────────────

  /** How many steps a call still takes at most. */
  function Remaining(place: Place): nat {
    match place
    case Create => 18
    case FirstRead => 17
    case Stale(_) => 1
    case Claim => 16
    case WriteLambda => 15
    case ReadLambda => 14
    case WriteDescriptor => 13
    case ReadDescriptor => 12
    case EnterSmoking => 11
    case RunSmoke => 10
    case Commit => 1
    case Compensate(_) => 9
    case RestoreRead(_) => 8
    case RestoreDescriptor(_, _) => 7
    case CheckRead(_) => 6
    case RestoreLambda(_, _) => 5
    case FinalRead(_, _) => 4
    case GiveUp => 1
    case RollBack(_, _) => 1
    case Returned => 0
    case Raised => 0
  }

  /** Every step of a call brings it nearer its end. */
  lemma StepsCountDown(c: Call, w: World, fault: Fault, smoke: Smoke)
    requires !Done(c)
    ensures Remaining(Advance(c, w, fault, smoke).0.place) < Remaining(c.place)
  {
    if Promoting(c.place) {
      PromotingCountsDown(c, w, fault, smoke);
    } else if Restoring(c.place) {
      RestoringCountsDown(c, w, fault, smoke);
    } else {
      StoreCountsDown(c, w, fault, smoke);
    }
  }

  lemma PromotingCountsDown(c: Call, w: World, fault: Fault, smoke: Smoke)
    requires Promoting(c.place)
    ensures Remaining(Advance(c, w, fault, smoke).0.place) < Remaining(c.place)
  {
  }

  lemma RestoringCountsDown(c: Call, w: World, fault: Fault, smoke: Smoke)
    requires Restoring(c.place)
    ensures Remaining(Advance(c, w, fault, smoke).0.place) < Remaining(c.place)
  {
  }

  lemma StoreCountsDown(c: Call, w: World, fault: Fault, smoke: Smoke)
    requires !Promoting(c.place) && !Restoring(c.place) && !Done(c)
    ensures Remaining(Advance(c, w, fault, smoke).0.place) < Remaining(c.place)
  {
  }

  /** What a call is after `n` steps of its own with nothing in between. */
  function Steps(c: Call, w: World, faults: seq<Fault>, smoke: Smoke): (Call, World)
    decreases |faults|
  {
    if |faults| == 0 then (c, w)
    else
      var (d, v) := Advance(c, w, faults[0], smoke);
      Steps(d, v, faults[1..], smoke)
  }

  lemma {:induction false} EnoughStepsFinish(c: Call, w: World, faults: seq<Fault>, smoke: Smoke)
    requires |faults| >= Remaining(c.place)
    ensures Done(Steps(c, w, faults, smoke).0)
    decreases |faults|
  {
    if |faults| > 0 {
      var (d, v) := Advance(c, w, faults[0], smoke);
      if !Done(c) {
        StepsCountDown(c, w, faults[0], smoke);
      }
      EnoughStepsFinish(d, v, faults[1..], smoke);
    }
  }

  /** A call between two of its steps, its transaction stored and the stored state true. */
  ghost predicate Settled(c: Call, w: World) {
    && Keyed(w) && Member(c, w, KeyOf(c))
    && KeyOf(c) in w.store && Truthful(w.store[KeyOf(c)], w.live)
  }

  lemma StepStaysSettled(c: Call, w: World, fault: Fault, smoke: Smoke)
    requires Settled(c, w)
    ensures var (d, v) := Advance(c, w, fault, smoke);
            Settled(d, v) && KeyOf(d) == KeyOf(c) && (c.claimed ==> d.claimed)
  {
    LocalStep(c, w, fault, smoke);
    FaithfulStep(c, w, fault, smoke);
  }

  lemma {:induction false} StepsStaySettled(c: Call, w: World, faults: seq<Fault>, smoke: Smoke)
    requires Settled(c, w)
    ensures var (d, v) := Steps(c, w, faults, smoke);
            Settled(d, v) && KeyOf(d) == KeyOf(c) && (c.claimed ==> d.claimed)
    decreases |faults|
  {
    if |faults| > 0 {
      var (d, v) := Advance(c, w, faults[0], smoke);
      StepStaysSettled(c, w, faults[0], smoke);
      StepsStaySettled(d, v, faults[1..], smoke);
    }
  }

  lemma CalmStepDoesNotStrike(c: Call, w: World, smoke: Smoke)
    ensures Advance(c, w, NoFault, smoke).0.struck == c.struck
  {
  }

  lemma {:induction false} CalmIsNotStruck(c: Call, w: World, n: nat, smoke: Smoke)
    ensures Steps(c, w, seq(n, _ => NoFault), smoke).0.struck == c.struck
    decreases n
  {
    if n > 0 {
      var calm := seq(n, _ => NoFault);
      var (d, v) := Advance(c, w, NoFault, smoke);
      assert calm[0] == NoFault && calm[1..] == seq(n - 1, _ => NoFault);
      CalmStepDoesNotStrike(c, w, smoke);
      CalmIsNotStruck(d, v, n - 1, smoke);
    }
  }

  /** From any point of its compensation, with no fault from there on, a promotion that has not
      been struck ends rolled back on the previous pointers. */
  lemma CalmCompensationRollsBack(c: Call, w: World, smoke: Smoke)
    requires Settled(c, w) && !c.struck
    requires c.place.Compensate? || Restoring(c.place) || c.place.RollBack?
    ensures var (d, v) := Steps(c, w, seq(9, _ => NoFault), smoke);
            && d.place.Returned? && KeyOf(c) in v.store
            && v.store[KeyOf(c)].state.ROLLED_BACK? && v.live == v.store[KeyOf(c)].id.previous
  {
    var calm := seq(9, _ => NoFault);
    var (d, v) := Steps(c, w, calm, smoke);
    EnoughStepsFinish(c, w, calm, smoke);
    StepsStaySettled(c, w, calm, smoke);
    CalmIsNotStruck(c, w, 9, smoke);
    CompensationDoesNotCommit(c, w, calm, smoke);
  }

  predicate InCompensation(place: Place) {
    place.Compensate? || Restoring(place) || place.GiveUp? || place.RollBack? || place.Returned? || place.Raised?
  }

  lemma {:induction false} CompensationDoesNotCommit(c: Call, w: World, faults: seq<Fault>, smoke: Smoke)
    requires Local(c, w) && Keyed(w) && InCompensation(c.place) && KeyOf(c) in w.store
             && !w.store[KeyOf(c)].state.COMMITTED?
    ensures var v := Steps(c, w, faults, smoke).1;
            KeyOf(c) in v.store && !v.store[KeyOf(c)].state.COMMITTED?
    decreases |faults|
  {
    if |faults| > 0 {
      LocalStep(c, w, faults[0], smoke);
      CompensatingPlaces(c, w, faults[0], smoke);
      var (d, v) := Advance(c, w, faults[0], smoke);
      CompensationDoesNotCommit(d, v, faults[1..], smoke);
    }
  }

  lemma CompensatingPlaces(c: Call, w: World, fault: Fault, smoke: Smoke)
    requires Local(c, w) && InCompensation(c.place) && KeyOf(c) in w.store && !w.store[KeyOf(c)].state.COMMITTED?
    ensures var (d, v) := Advance(c, w, fault, smoke);
            InCompensation(d.place) && KeyOf(c) in v.store && !v.store[KeyOf(c)].state.COMMITTED?
  {
  }

  // ── The undisturbed promotion ───────────────────────────────────────────────

  /** How many steps an undisturbed promotion still takes. */
  function StepsLeft(place: Place): nat {
    match place
    case Create => 10
    case FirstRead => 9
    case Claim => 8
    case WriteLambda => 7
    case ReadLambda => 6
    case WriteDescriptor => 5
    case ReadDescriptor => 4
    case EnterSmoking => 3
    case RunSmoke => 2
    case Commit => 1
    case _ => 0
  }

  predicate Passes(smoke: Smoke, id: Identity) {
    smoke.SmokeResult? && smoke.pass && smoke.release == id.release
  }

  /** A promotion that went well so far: the live pointers as its place says, and its own copy stored. */
  ghost predicate OnTrack(c: Call, w: World, id: Identity) {
    && c.own.id == id && StepsLeft(c.place) > 0
    && (StepsLeft(c.place) >= 8 ==> w.live == id.previous)
    && LiveAt(c.place, id, w.live)
    && (if c.place.Create? then c.requested == c.own && c.own.state.PREPARED? && id.key !in w.store
        else id.key in w.store && w.store[id.key].state == c.own.state)
  }

  lemma OnTrackStep(c: Call, w: World, id: Identity, smoke: Smoke)
    requires OnTrack(c, w, id) && Passes(smoke, id)
    ensures var (d, v) := Advance(c, w, NoFault, smoke);
            if c.place.Commit? then d.place.Returned? && id.key in v.store && v.store[id.key].state.COMMITTED?
               && v.live == id.target
            else OnTrack(d, v, id) && StepsLeft(d.place) == StepsLeft(c.place) - 1
  {
  }

  lemma {:induction false} OnTrackCommits(c: Call, w: World, id: Identity, smoke: Smoke)
    requires OnTrack(c, w, id) && Passes(smoke, id)
    ensures var (d, v) := Steps(c, w, seq(StepsLeft(c.place), _ => NoFault), smoke);
            d.place.Returned? && id.key in v.store && v.store[id.key].state.COMMITTED? && v.live == id.target
    decreases StepsLeft(c.place)
  {
    var n := StepsLeft(c.place);
    var calm := seq(n, _ => NoFault);
    OnTrackStep(c, w, id, smoke);
    assert calm[0] == NoFault && calm[1..] == seq(n - 1, _ => NoFault);
    var (d, v) := Advance(c, w, NoFault, smoke);
    if c.place.Commit? {
      assert Steps(d, v, calm[1..], smoke) == (d, v);
    } else {
      OnTrackCommits(d, v, id, smoke);
    }
  }

  /** Undisturbed, a new promotion from its previous pointers whose smoke test passes is committed
      after ten steps, with the target live. */
  lemma CleanPromotionCommits(t: Transaction, w: World, smoke: Smoke)
    requires t.state.PREPARED? && t.id.key !in w.store && w.live == t.id.previous && Passes(smoke, t.id)
    ensures var (d, v) := Steps(NewCall(t), w, seq(10, _ => NoFault), smoke);
            d.place.Returned? && t.id.key in v.store && v.store[t.id.key].state.COMMITTED? && v.live == t.id.target
  {
    OnTrackCommits(NewCall(t), w, t.id, smoke);
  }
}
