/** What the stored record of a promotion tells: its failure, its smoke result and its action log,
    read off what the accesses of its call met. */
module DeliveryRecords {
  import opened DeliveryMachine
  import opened DeliveryLifecycle

  // ── The accesses of a call ──────────────────────────────────────────────────

  /** One access: where the call stood, the world it met, and what it was answered. */
  datatype Access = Access(place: Place, world: World, fault: Fault, smoke: Smoke)

  /** The access that an event makes for call `i`, if it is a step of that call and the call goes on. */
  function Made(s: System, e: Event, i: nat): seq<Access> {
    if e.Step? && e.i == i && i < |s.calls| && !Done(s.calls[i]) then
      [Access(s.calls[i].place, s.world, e.fault, e.smoke)]
    else []
  }

  /** The accesses of call `i` in a run. */
  function Trace(start: System, events: seq<Event>, i: nat): seq<Access> {
    if |events| == 0 then []
    else
      var n := |events| - 1;
      Trace(start, events[..n], i) + Made(Run(start, events[..n]), events[n], i)
  }

  // ── What an access means for the record ─────────────────────────────────────

  /** The pointers an access met. */
  function Live(a: Access): Pointer {
    a.world.live
  }

  predicate Passing(smoke: Smoke, id: Identity) {
    smoke.SmokeResult? && smoke.pass && smoke.release == id.release
  }

  /** Whether a provider write was acknowledged: nothing raised, and its coordinate was the expected one. */
  predicate WroteLambda(a: Access, expected: Pointer) {
    a.fault.NoFault? && Live(a).lambda == expected.lambda
  }

  predicate WroteDescriptor(a: Access, expected: Pointer) {
    a.fault.NoFault? && Live(a).descriptor == expected.descriptor
  }

  /** Whether the served objects were the recorded previous ones. */
  predicate ServesPrevious(a: Access, id: Identity) {
    && Live(a).descriptor == id.previous.descriptor && Live(a).runtimeConfig == id.previous.runtimeConfig
    && Live(a).web == id.previous.web
  }

  predicate KnownLambda(a: Access, id: Identity) {
    Live(a).lambda == id.previous.lambda || Live(a).lambda == id.target.lambda
  }

  /** The log entries of an access: one for each acknowledged write, and one for each read of the
      compensation that found what it would have restored in place. */
  function Entries(id: Identity, a: Access): seq<Action> {
    match a.place
    case WriteLambda => if WroteLambda(a, id.previous) then [Action(LAMBDA_UPDATE, APPLIED)] else []
    case WriteDescriptor => if WroteDescriptor(a, id.previous) then [Action(DESCRIPTOR_UPDATE, APPLIED)] else []
    case RestoreRead(_) =>
      if a.fault.NoFault? && KnownLambda(a, id) && ServesPrevious(a, id)
      then [Action(DESCRIPTOR_RESTORE, ALREADY_PREVIOUS)] else []
    case RestoreDescriptor(_, seen) => if WroteDescriptor(a, seen) then [Action(DESCRIPTOR_RESTORE, RESTORED)] else []
    case CheckRead(_) =>
      if a.fault.NoFault? && Live(a).lambda == id.previous.lambda
      then [Action(LAMBDA_RESTORE, ALREADY_PREVIOUS)] else []
    case RestoreLambda(_, seen) => if WroteLambda(a, seen) then [Action(LAMBDA_RESTORE, RESTORED)] else []
    case _ => []
  }

  /** Whether what an access met turns the promotion, or its compensation, from its way. */
  predicate Fails(id: Identity, a: Access) {
    match a.place
    case FirstRead => a.fault.NoFault? && Live(a) != id.previous
    case WriteLambda => !WroteLambda(a, id.previous)
    case ReadLambda => !a.fault.NoFault? || Live(a).lambda != id.target.lambda
    case WriteDescriptor => !WroteDescriptor(a, id.previous)
    case ReadDescriptor => !a.fault.NoFault? || Live(a) != id.target
    case RunSmoke => !Passing(a.smoke, id)
    case RestoreRead(_) => !a.fault.NoFault? || !KnownLambda(a, id)
    case RestoreDescriptor(_, seen) => !WroteDescriptor(a, seen)
    case CheckRead(_) => !a.fault.NoFault?
    case RestoreLambda(_, seen) => !WroteLambda(a, seen)
    case FinalRead(_, _) => !a.fault.NoFault? || Live(a) != id.previous
    case _ => false
  }

  /** What the accesses so far add up to: the places they were made at, the log, the accesses that
      failed, whether the smoke test was run and its last result, and what the last look at the Lambda
      alias found. */
  datatype Story = Story(path: seq<Place>, log: seq<Action>, failures: seq<Access>, ran: bool, smoke: Smoke,
                         seen: Pointer)

  function Untold(base: Transaction): Story {
    Story([], [], [], false, base.smoke, base.id.previous)
  }

  function Continued(id: Identity, story: Story, a: Access): Story {
    Story(story.path + [a.place],
          story.log + Entries(id, a),
          if Fails(id, a) then story.failures + [a] else story.failures,
          story.ran || a.place.RunSmoke?,
          if a.place.RunSmoke? then a.smoke else story.smoke,
          if a.place.CheckRead? then Live(a) else story.seen)
  }

  function StoryOf(base: Transaction, trace: seq<Access>): Story {
    if |trace| == 0 then Untold(base)
    else Continued(base.id, StoryOf(base, trace[..|trace| - 1]), trace[|trace| - 1])
  }

  /** The transaction the call read from the store: the one stored already, or its own. */
  function Base(requested: Transaction, trace: seq<Access>): Transaction
    requires |trace| > 0
  {
    var store := trace[0].world.store;
    if requested.id.key in store then store[requested.id.key] else requested
  }

  /** The reason of a failure that sends the promotion into compensation. */
  function Reason(a: Access): Code {
    if a.place.RunSmoke? then SMOKE_FAILED
    else if (a.place.ReadLambda? || a.place.ReadDescriptor?) && a.fault.NoFault? then POINTER_READBACK_MISMATCH
    else POINTER_MUTATION_FAILED
  }

  /** The failure noted before compensating: a mismatch with the pointers read, a failed write or read
      without, and nothing yet for a smoke test. */
  function Noted(base: Transaction, a: Access): Failure {
    match Reason(a)
    case SMOKE_FAILED => base.failure
    case POINTER_READBACK_MISMATCH => Failure.Observed(POINTER_READBACK_MISMATCH, Live(a))
    case _ => Failure.Failure(POINTER_MUTATION_FAILED)
  }

  /** The failure a rollback records: the noted one, and for a smoke test the pointers last seen, unless
      the submitted transaction named that reason already. */
  function RolledBackFailure(base: Transaction, a: Access, seen: Pointer): Failure {
    if Reason(a).SMOKE_FAILED? && !HasCode(base.failure, SMOKE_FAILED) then Failure.Observed(SMOKE_FAILED, seen)
    else Noted(base, a)
  }

  // ── What every step keeps ───────────────────────────────────────────────────

  predicate Applying(place: Place) {
    place.FirstRead? || place.Claim? || place.WriteLambda? || place.ReadLambda? || place.WriteDescriptor?
    || place.ReadDescriptor? || place.EnterSmoking? || place.RunSmoke? || place.Commit?
  }

  predicate Restores(place: Place) {
    place.Compensate? || place.RestoreRead? || place.RestoreDescriptor? || place.CheckRead? || place.RestoreLambda?
    || place.FinalRead? || place.RollBack?
  }

  predicate Guarded(place: Place) {
    place.WriteLambda? || place.ReadLambda? || place.WriteDescriptor? || place.ReadDescriptor? || place.RunSmoke?
  }

  /** The reason a compensation carries along. */
  function CodeAt(place: Place): Code
    requires Restores(place)
  {
    match place
    case Compensate(code) => code
    case RestoreRead(code) => code
    case RestoreDescriptor(code, _) => code
    case CheckRead(code) => code
    case RestoreLambda(code, _) => code
    case FinalRead(code, _) => code
    case RollBack(code, _) => code
  }

  predicate Looked(place: Place) {
    place.RestoreLambda? || place.FinalRead? || place.RollBack?
  }

  function SeenAt(place: Place): Pointer
    requires Looked(place)
  {
    match place
    case RestoreLambda(_, seen) => seen
    case FinalRead(_, seen) => seen
    case RollBack(_, seen) => seen
  }

  /** One failure before the compensation, and none in it. */
  predicate OneFailure(story: Story) {
    && |story.failures| == 1 && Guarded(story.failures[0].place)
    && (story.ran <==> story.failures[0].place.RunSmoke?)
  }

  /** One failure before the compensation, and one in it. */
  predicate TwoFailures(story: Story) {
    && |story.failures| == 2 && Guarded(story.failures[0].place) && Restoring(story.failures[1].place)
    && (story.ran <==> story.failures[0].place.RunSmoke?)
  }

  /** What the record of a call tells once it has ended with a verdict. */
  predicate TellsVerdict(t: Transaction, base: Transaction, story: Story, claimed: bool) {
    match t.state
    case COMMITTED => claimed && story.failures == [] && story.ran && t.failure == base.failure
    case ROLLED_BACK =>
      claimed && OneFailure(story) && t.failure == RolledBackFailure(base, story.failures[0], story.seen)
    case PARTIAL_FAILURE =>
      if claimed then TwoFailures(story) && t.failure == Failure.Failure(COMPENSATION_FAILED)
      else
        && |story.failures| == 1 && story.failures[0].place.FirstRead? && !story.ran
        && t.failure == Failure.Observed(STALE_PREVIOUS_POINTER, Live(story.failures[0]))
    case _ => false
  }

  /** The record of a call that goes on, by where it stands. */
  predicate TellsPlace(c: Call, base: Transaction, story: Story) {
    if Applying(c.place) then
      && story.failures == [] && c.own.failure == base.failure && (story.ran <==> c.place.Commit?)
      && (c.claimed <==> !c.place.FirstRead? && !c.place.Claim?)
    else if c.place.Stale? then
      && |story.failures| == 1 && story.failures[0].place.FirstRead? && !c.claimed && !story.ran
      && c.place.observed == Live(story.failures[0])
    else if Restores(c.place) then
      && OneFailure(story) && c.claimed
      && CodeAt(c.place) == Reason(story.failures[0]) && c.own.failure == Noted(base, story.failures[0])
      && (Looked(c.place) ==> SeenAt(c.place) == story.seen)
    else if c.place.GiveUp? then TwoFailures(story) && c.claimed
    else if c.place.Returned? then TellsVerdict(c.own, base, story, c.claimed)
    else c.place.Raised?
  }

  /** What the call's copy of the transaction owes to its accesses. */
  predicate Tells(c: Call, base: Transaction, story: Story) {
    c.place.Raised? || (
      && c.own.id == base.id && c.own.actions == base.actions + story.log && c.own.smoke == story.smoke
      && TellsPlace(c, base, story))
  }

  // ── The action log ──────────────────────────────────────────────────────────

  /** The updates acknowledged by the time the promotion stands, or fails, at a place. */
  function Updates(place: Place): seq<Action> {
    if place.ReadLambda? || place.WriteDescriptor? then [Action(LAMBDA_UPDATE, APPLIED)]
    else if place.ReadDescriptor? || place.EnterSmoking? || place.RunSmoke? || place.Commit? then
      [Action(LAMBDA_UPDATE, APPLIED), Action(DESCRIPTOR_UPDATE, APPLIED)]
    else []
  }

  /** How many restores are logged at a place of the compensation. */
  function Restored(place: Place): nat {
    if place.CheckRead? || place.RestoreLambda? then 1 else if place.FinalRead? || place.RollBack? then 2 else 0
  }

  /** The updates up to the failure, and then so many restores: the objects, and the Lambda alias. */
  predicate UpdatesThenRestores(log: seq<Action>, updates: seq<Action>, restores: nat) {
    && |log| == |updates| + restores && updates <= log
    && (restores >= 1 ==> log[|updates|].kind == DESCRIPTOR_RESTORE)
    && (restores >= 2 ==> log[|updates| + 1].kind == LAMBDA_RESTORE)
  }

  /** The accesses of a promotion that is committed, one by one. */
  const Way: seq<Place> := [Create, FirstRead, Claim, WriteLambda, ReadLambda, WriteDescriptor, ReadDescriptor,
                            EnterSmoking, RunSmoke, Commit]

  /** How many accesses lie before a place on that way. */
  function Ahead(place: Place): (n: nat)
    ensures n <= |Way|
  {
    match place
    case FirstRead => 1
    case Claim => 2
    case WriteLambda => 3
    case ReadLambda => 4
    case WriteDescriptor => 5
    case ReadDescriptor => 6
    case EnterSmoking => 7
    case RunSmoke => 8
    case Commit => 9
    case _ => 0
  }

  /** The path of a verdict: of a commit, every access on the way; of a rollback, a last read before it
      is recorded. */
  predicate PathOfVerdict(state: State, path: seq<Place>) {
    && (state.COMMITTED? ==> path == Way)
    && (state.ROLLED_BACK? ==> |path| > 1 && path[|path| - 2].FinalRead?)
  }

  predicate PathFits(c: Call, path: seq<Place>) {
    && (Applying(c.place) ==> path == Way[..Ahead(c.place)])
    && (c.place.RollBack? ==> |path| > 0 && path[|path| - 1].FinalRead?)
    && (c.place.Returned? ==> PathOfVerdict(c.own.state, path))
  }

  /** The log of a verdict: both updates and nothing else of a commit, and the updates with both
      restores of a rollback. */
  predicate LogOfVerdict(state: State, story: Story) {
    match state
    case COMMITTED => story.log == [Action(LAMBDA_UPDATE, APPLIED), Action(DESCRIPTOR_UPDATE, APPLIED)]
    case ROLLED_BACK =>
      |story.failures| > 0 && UpdatesThenRestores(story.log, Updates(story.failures[0].place), 2)
    case _ => true
  }

  predicate LogFits(c: Call, story: Story) {
    if Applying(c.place) then story.log == Updates(c.place)
    else if Restores(c.place) then
      |story.failures| > 0 && UpdatesThenRestores(story.log, Updates(story.failures[0].place), Restored(c.place))
    else if c.place.Returned? then LogOfVerdict(c.own.state, story)
    else true
  }

  /** The record of a call and its log are those of its accesses. */
  predicate Recorded(c: Call, trace: seq<Access>) {
    if c.place.Create? then trace == [] && !c.claimed
    else
      && |trace| > 0
      && var base := Base(c.requested, trace);
         if |trace| == 1 && Done(c) then c.own == base && !c.claimed
         else
           && base.state.PREPARED? && base.id == c.requested.id
           && Tells(c, base, StoryOf(base, trace)) && LogFits(c, StoryOf(base, trace))
           && PathFits(c, StoryOf(base, trace).path)
  }

  /** The first access: the stored transaction is taken. */
  lemma CreateRecords(c: Call, w: World, fault: Fault, smoke: Smoke)
    requires c.place.Create? && !c.claimed
    ensures Recorded(Advance(c, w, fault, smoke).0, [Access(c.place, w, fault, smoke)])
  {
    var a := Access(c.place, w, fault, smoke);
    assert [a][..0] == [];
    assert StoryOf(Base(c.requested, [a]), [a]).log == [] && StoryOf(Base(c.requested, [a]), [a]).path == Way[..1];
  }

  /** Up to the claim. */
  lemma ReadyTells(c: Call, w: World, fault: Fault, smoke: Smoke, base: Transaction, story: Story)
    requires c.place.FirstRead? || c.place.Claim?
    requires Tells(c, base, story)
    ensures Tells(Advance(c, w, fault, smoke).0, base, Continued(base.id, story, Access(c.place, w, fault, smoke)))
  {
  }

  /** The guarded block of the promotion. */
  lemma LambdaTells(c: Call, w: World, fault: Fault, smoke: Smoke, base: Transaction, story: Story)
    requires c.place.WriteLambda? || c.place.ReadLambda?
    requires Tells(c, base, story)
    ensures Tells(Advance(c, w, fault, smoke).0, base, Continued(base.id, story, Access(c.place, w, fault, smoke)))
  {
  }

  lemma DescriptorTells(c: Call, w: World, fault: Fault, smoke: Smoke, base: Transaction, story: Story)
    requires c.place.WriteDescriptor? || c.place.ReadDescriptor?
    requires Tells(c, base, story)
    ensures Tells(Advance(c, w, fault, smoke).0, base, Continued(base.id, story, Access(c.place, w, fault, smoke)))
  {
  }

  /** The smoke test and the commit. */
  lemma SmokeTells(c: Call, w: World, fault: Fault, smoke: Smoke, base: Transaction, story: Story)
    requires c.place.EnterSmoking? || c.place.RunSmoke? || c.place.Commit?
    requires Tells(c, base, story)
    ensures Tells(Advance(c, w, fault, smoke).0, base, Continued(base.id, story, Access(c.place, w, fault, smoke)))
  {
  }

  /** The guarded block of the compensation. */
  lemma RestoreTells(c: Call, w: World, fault: Fault, smoke: Smoke, base: Transaction, story: Story)
    requires c.place.RestoreRead? || c.place.RestoreDescriptor?
    requires Tells(c, base, story)
    ensures Tells(Advance(c, w, fault, smoke).0, base, Continued(base.id, story, Access(c.place, w, fault, smoke)))
  {
  }

  lemma AliasTells(c: Call, w: World, fault: Fault, smoke: Smoke, base: Transaction, story: Story)
    requires c.place.CheckRead? || c.place.RestoreLambda? || c.place.FinalRead?
    requires Tells(c, base, story)
    ensures Tells(Advance(c, w, fault, smoke).0, base, Continued(base.id, story, Access(c.place, w, fault, smoke)))
  {
  }

  /** Entering the compensation, and the verdicts that end a call. */
  lemma TurnTells(c: Call, w: World, fault: Fault, smoke: Smoke, base: Transaction, story: Story)
    requires c.place.Stale? || c.place.Compensate?
    requires Tells(c, base, story)
    ensures Tells(Advance(c, w, fault, smoke).0, base, Continued(base.id, story, Access(c.place, w, fault, smoke)))
  {
  }

  lemma VerdictTells(c: Call, w: World, fault: Fault, smoke: Smoke, base: Transaction, story: Story)
    requires c.place.GiveUp? || c.place.RollBack?
    requires Tells(c, base, story)
    ensures Tells(Advance(c, w, fault, smoke).0, base, Continued(base.id, story, Access(c.place, w, fault, smoke)))
  {
  }

  lemma StepTells(c: Call, w: World, fault: Fault, smoke: Smoke, base: Transaction, story: Story)
    requires !Done(c) && !c.place.Create? && Tells(c, base, story)
    ensures Tells(Advance(c, w, fault, smoke).0, base, Continued(base.id, story, Access(c.place, w, fault, smoke)))
  {
    match c.place
    case FirstRead | Claim => ReadyTells(c, w, fault, smoke, base, story);
    case WriteLambda | ReadLambda => LambdaTells(c, w, fault, smoke, base, story);
    case WriteDescriptor | ReadDescriptor => DescriptorTells(c, w, fault, smoke, base, story);
    case EnterSmoking | RunSmoke | Commit => SmokeTells(c, w, fault, smoke, base, story);
    case RestoreRead(_) | RestoreDescriptor(_, _) => RestoreTells(c, w, fault, smoke, base, story);
    case CheckRead(_) | RestoreLambda(_, _) | FinalRead(_, _) => AliasTells(c, w, fault, smoke, base, story);
    case Stale(_) | Compensate(_) => TurnTells(c, w, fault, smoke, base, story);
    case GiveUp | RollBack(_, _) => VerdictTells(c, w, fault, smoke, base, story);
  }

  lemma ReadyLogs(c: Call, w: World, fault: Fault, smoke: Smoke, base: Transaction, story: Story)
    requires c.place.FirstRead? || c.place.Claim?
    requires Tells(c, base, story) && LogFits(c, story)
    ensures LogFits(Advance(c, w, fault, smoke).0, Continued(base.id, story, Access(c.place, w, fault, smoke)))
  {
  }

  lemma LambdaLogs(c: Call, w: World, fault: Fault, smoke: Smoke, base: Transaction, story: Story)
    requires c.place.WriteLambda? || c.place.ReadLambda?
    requires Tells(c, base, story) && LogFits(c, story)
    ensures LogFits(Advance(c, w, fault, smoke).0, Continued(base.id, story, Access(c.place, w, fault, smoke)))
  {
  }

  lemma DescriptorLogs(c: Call, w: World, fault: Fault, smoke: Smoke, base: Transaction, story: Story)
    requires c.place.WriteDescriptor? || c.place.ReadDescriptor?
    requires Tells(c, base, story) && LogFits(c, story)
    ensures LogFits(Advance(c, w, fault, smoke).0, Continued(base.id, story, Access(c.place, w, fault, smoke)))
  {
  }

  lemma SmokeLogs(c: Call, w: World, fault: Fault, smoke: Smoke, base: Transaction, story: Story)
    requires c.place.EnterSmoking? || c.place.RunSmoke? || c.place.Commit?
    requires Tells(c, base, story) && LogFits(c, story)
    ensures LogFits(Advance(c, w, fault, smoke).0, Continued(base.id, story, Access(c.place, w, fault, smoke)))
  {
  }

  lemma RestoreLogs(c: Call, w: World, fault: Fault, smoke: Smoke, base: Transaction, story: Story)
    requires c.place.RestoreRead? || c.place.RestoreDescriptor?
    requires Tells(c, base, story) && LogFits(c, story)
    ensures LogFits(Advance(c, w, fault, smoke).0, Continued(base.id, story, Access(c.place, w, fault, smoke)))
  {
  }

  lemma AliasLogs(c: Call, w: World, fault: Fault, smoke: Smoke, base: Transaction, story: Story)
    requires c.place.CheckRead? || c.place.RestoreLambda? || c.place.FinalRead?
    requires Tells(c, base, story) && LogFits(c, story)
    ensures LogFits(Advance(c, w, fault, smoke).0, Continued(base.id, story, Access(c.place, w, fault, smoke)))
  {
  }

  lemma TurnLogs(c: Call, w: World, fault: Fault, smoke: Smoke, base: Transaction, story: Story)
    requires c.place.Stale? || c.place.Compensate?
    requires Tells(c, base, story) && LogFits(c, story)
    ensures LogFits(Advance(c, w, fault, smoke).0, Continued(base.id, story, Access(c.place, w, fault, smoke)))
  {
  }

  lemma VerdictLogs(c: Call, w: World, fault: Fault, smoke: Smoke, base: Transaction, story: Story)
    requires c.place.GiveUp? || c.place.RollBack?
    requires Tells(c, base, story) && LogFits(c, story)
    ensures LogFits(Advance(c, w, fault, smoke).0, Continued(base.id, story, Access(c.place, w, fault, smoke)))
  {
  }

  // ── Over whole runs ─────────────────────────────────────────────────────────

  /** Nothing has happened yet but calls that joined. */
  predicate Fresh(s: System) {
    forall c :: c in s.calls ==> c.place.Create? && !c.claimed
  }

  lemma StepRecords(c: Call, w: World, fault: Fault, smoke: Smoke, trace: seq<Access>)
    requires !Done(c) && Recorded(c, trace)
    ensures Recorded(Advance(c, w, fault, smoke).0, trace + [Access(c.place, w, fault, smoke)])
  {
    var a := Access(c.place, w, fault, smoke);
    if c.place.Create? {
      assert trace + [a] == [a];
      CreateRecords(c, w, fault, smoke);
    } else {
      var base := Base(c.requested, trace);
      StepTells(c, w, fault, smoke, base, StoryOf(base, trace));
      StepLogs(c, w, fault, smoke, base, StoryOf(base, trace));
      StepPath(c, w, fault, smoke, StoryOf(base, trace).path);
      KeepsRequest(c, w, fault, smoke);
      StillRecorded(c, Advance(c, w, fault, smoke).0, trace, a);
    }
  }

  lemma StillRecorded(c: Call, d: Call, trace: seq<Access>, a: Access)
    requires !c.place.Create? && !Done(c) && Recorded(c, trace) && d.requested == c.requested
    requires var base := Base(c.requested, trace);
             var story := Continued(base.id, StoryOf(base, trace), a);
             Tells(d, base, story) && LogFits(d, story) && PathFits(d, story.path)
    ensures Recorded(d, trace + [a])
  {
    assert (trace + [a])[..|trace|] == trace;
  }

  lemma StepLogs(c: Call, w: World, fault: Fault, smoke: Smoke, base: Transaction, story: Story)
    requires !Done(c) && !c.place.Create? && Tells(c, base, story) && LogFits(c, story)
    ensures LogFits(Advance(c, w, fault, smoke).0, Continued(base.id, story, Access(c.place, w, fault, smoke)))
  {
    match c.place
    case FirstRead | Claim => ReadyLogs(c, w, fault, smoke, base, story);
    case WriteLambda | ReadLambda => LambdaLogs(c, w, fault, smoke, base, story);
    case WriteDescriptor | ReadDescriptor => DescriptorLogs(c, w, fault, smoke, base, story);
    case EnterSmoking | RunSmoke | Commit => SmokeLogs(c, w, fault, smoke, base, story);
    case RestoreRead(_) | RestoreDescriptor(_, _) => RestoreLogs(c, w, fault, smoke, base, story);
    case CheckRead(_) | RestoreLambda(_, _) | FinalRead(_, _) => AliasLogs(c, w, fault, smoke, base, story);
    case Stale(_) | Compensate(_) => TurnLogs(c, w, fault, smoke, base, story);
    case GiveUp | RollBack(_, _) => VerdictLogs(c, w, fault, smoke, base, story);
  }

  /** Where a step leads from, by where it ends. */
  predicate ComesFrom(d: Call, c: Call) {
    && (Applying(d.place) ==> Applying(c.place) && Ahead(d.place) == Ahead(c.place) + 1)
    && (d.place.RollBack? ==> c.place.FinalRead?)
    && (d.place.Returned? && d.own.state.COMMITTED? ==> c.place.Commit?)
    && (d.place.Returned? && d.own.state.ROLLED_BACK? ==> c.place.RollBack?)
  }

  lemma ApplyingLeadsOn(c: Call, w: World, fault: Fault, smoke: Smoke)
    requires Applying(c.place)
    ensures ComesFrom(Advance(c, w, fault, smoke).0, c)
  {
  }

  lemma RestoringLeadsOn(c: Call, w: World, fault: Fault, smoke: Smoke)
    requires Restoring(c.place)
    ensures ComesFrom(Advance(c, w, fault, smoke).0, c)
  {
  }

  lemma StoringLeadsOn(c: Call, w: World, fault: Fault, smoke: Smoke)
    requires c.place.Stale? || c.place.Compensate? || c.place.GiveUp? || c.place.RollBack?
    ensures ComesFrom(Advance(c, w, fault, smoke).0, c)
  {
  }

  lemma StepPath(c: Call, w: World, fault: Fault, smoke: Smoke, path: seq<Place>)
    requires !Done(c) && !c.place.Create? && PathFits(c, path)
    ensures PathFits(Advance(c, w, fault, smoke).0, path + [c.place])
  {
    if Applying(c.place) {
      ApplyingLeadsOn(c, w, fault, smoke);
    } else if Restoring(c.place) {
      RestoringLeadsOn(c, w, fault, smoke);
    } else {
      StoringLeadsOn(c, w, fault, smoke);
    }
    PathGoesOn(c, Advance(c, w, fault, smoke).0, path);
  }

  lemma PathGoesOn(c: Call, d: Call, path: seq<Place>)
    requires PathFits(c, path) && ComesFrom(d, c)
    ensures PathFits(d, path + [c.place])
  {
    if Applying(c.place) {
      assert Way[Ahead(c.place)] == c.place;
      assert Way[..Ahead(c.place) + 1] == Way[..Ahead(c.place)] + [c.place];
      assert Way[..|Way|] == Way;
    }
  }

  lemma KeepsRequest(c: Call, w: World, fault: Fault, smoke: Smoke)
    ensures Advance(c, w, fault, smoke).0.requested == c.requested
  {
  }

  lemma {:induction false} NoTraceYet(start: System, events: seq<Event>, i: nat)
    requires i >= |Run(start, events).calls|
    ensures Trace(start, events, i) == []
  {
    if |events| > 0 {
      NoTraceYet(start, events[..|events| - 1], i);
    }
  }

  /** In any run of any calls, every call's record is that of its accesses. */
  lemma {:induction false} RunRecords(start: System, events: seq<Event>, i: nat)
    requires Fresh(start) && i < |Run(start, events).calls|
    ensures Recorded(Run(start, events).calls[i], Trace(start, events, i))
  {
    if |events| == 0 {
      assert start.calls[i] in start.calls;
    } else {
      var n := |events| - 1;
      var s, e := Run(start, events[..n]), events[n];
      if i < |s.calls| {
        RunRecords(start, events[..n], i);
        NextRecords(s, e, i, Trace(start, events[..n], i));
      } else {
        NoTraceYet(start, events[..n], i);
      }
    }
  }

  lemma NextRecords(s: System, e: Event, i: nat, trace: seq<Access>)
    requires i < |s.calls| && Recorded(s.calls[i], trace)
    ensures i < |Next(s, e).calls| && Recorded(Next(s, e).calls[i], trace + Made(s, e, i))
  {
    if e.Step? && e.i == i && !Done(s.calls[i]) {
      StepRecords(s.calls[i], s.world, e.fault, e.smoke, trace);
    } else {
      assert trace + [] == trace;
    }
  }

  // ── Verdicts ────────────────────────────────────────────────────────────────

  /** An event moves the stored transaction of a key to a terminal state. */
  predicate Ends(s: System, e: Event, key: string) {
    && key in s.world.store && key in Next(s, e).world.store
    && Next(s, e).world.store[key] != s.world.store[key] && Terminal(Next(s, e).world.store[key].state)
  }

  /** Only a step of a call moves a stored transaction, and what it stores is its own copy. */
  lemma OwnCopyIsStored(c: Call, w: World, fault: Fault, smoke: Smoke, key: string)
    requires !Done(c) && key in w.store
    ensures var (d, v) := Advance(c, w, fault, smoke);
            key in v.store && (v.store[key] != w.store[key] && Terminal(v.store[key].state) ==>
                                 v.store[key] == d.own && d.place.Returned? && !c.place.Create?)
  {
    var (d, v) := Advance(c, w, fault, smoke);
    if Promoting(c.place) {
      PromotingIsQuiet(c, w, fault, smoke);
    } else if Restoring(c.place) {
      RestoringIsQuiet(c, w, fault, smoke);
    }
  }

  /** A verdict as the accesses of its call tell it: the state, the failure, the smoke result and the log. */
  predicate Told(t: Transaction, c: Call, trace: seq<Access>) {
    && |trace| > 1
    && var base := Base(c.requested, trace);
       var story := StoryOf(base, trace);
       && base.state.PREPARED? && t.id == base.id == c.requested.id
       && TellsVerdict(t, base, story, c.claimed) && LogOfVerdict(t.state, story) && PathOfVerdict(t.state, story.path)
       && t.actions == base.actions + story.log && t.smoke == story.smoke
  }

  lemma ReturnedIsTold(c: Call, trace: seq<Access>)
    requires Recorded(c, trace) && |trace| > 1 && c.place.Returned?
    ensures Told(c.own, c, trace)
  {
  }

  /** The verdict of a run: whichever event moved the transaction to it was a step of a call, and the
      stored record is what that call's accesses tell. */
  lemma VerdictIsTold(start: System, events: seq<Event>, e: Event, key: string)
    requires Fresh(start) && Ends(Run(start, events), e, key)
    ensures e.Step? && e.i < |Next(Run(start, events), e).calls|
    ensures var s := Next(Run(start, events), e);
            Told(s.world.store[key], s.calls[e.i], Trace(start, events + [e], e.i))
  {
    var s := Run(start, events);
    assert e.Step? && e.i < |s.calls| && !Done(s.calls[e.i]);
    OwnCopyIsStored(s.calls[e.i], s.world, e.fault, e.smoke, key);
    HasTrace(start, events, e);
    RunRecords(start, events + [e], e.i);
    ReturnedIsTold(Next(s, e).calls[e.i], Trace(start, events + [e], e.i));
  }

  lemma HasTrace(start: System, events: seq<Event>, e: Event)
    requires Fresh(start) && e.Step? && e.i < |Run(start, events).calls|
    requires !Done(Run(start, events).calls[e.i]) && !Run(start, events).calls[e.i].place.Create?
    ensures |Trace(start, events + [e], e.i)| > 1 && Run(start, events + [e]) == Next(Run(start, events), e)
  {
    RunRecords(start, events, e.i);
    assert (events + [e])[..|events|] == events;
  }

  lemma {:induction false} RanIff(base: Transaction, trace: seq<Access>)
    ensures StoryOf(base, trace).ran <==> exists k :: 0 <= k < |trace| && trace[k].place.RunSmoke?
  {
    if |trace| > 0 {
      var n := |trace| - 1;
      RanIff(base, trace[..n]);
      assert forall k :: 0 <= k < n ==> trace[..n][k] == trace[k];
    }
  }

  /** A rollback names why: never that the compensation failed; the smoke test exactly when it was run;
      and else a mismatch or a failed mutation. */
  predicate NamesRollback(failure: Failure, trace: seq<Access>) {
    && (HasCode(failure, SMOKE_FAILED) <==> exists k :: 0 <= k < |trace| && trace[k].place.RunSmoke?)
    && (HasCode(failure, SMOKE_FAILED) || HasCode(failure, POINTER_READBACK_MISMATCH)
        || HasCode(failure, POINTER_MUTATION_FAILED))
  }

  lemma ToldRollback(t: Transaction, c: Call, trace: seq<Access>)
    requires Told(t, c, trace) && t.state.ROLLED_BACK?
    ensures NamesRollback(t.failure, trace)
  {
    RanIff(Base(c.requested, trace), trace);
  }

  lemma RollbackNamesItsReason(start: System, events: seq<Event>, e: Event, key: string)
    requires Fresh(start) && Ends(Run(start, events), e, key)
    requires Next(Run(start, events), e).world.store[key].state.ROLLED_BACK?
    ensures e.Step?
    ensures NamesRollback(Next(Run(start, events), e).world.store[key].failure, Trace(start, events + [e], e.i))
  {
    VerdictIsTold(start, events, e, key);
    var s := Next(Run(start, events), e);
    ToldRollback(s.world.store[key], s.calls[e.i], Trace(start, events + [e], e.i));
  }

  /** A partial failure names why: a stale pointer exactly when the call never claimed, and else that
      the compensation failed. */
  lemma PartialFailureNamesItsReason(start: System, events: seq<Event>, e: Event, key: string)
    requires Fresh(start) && Ends(Run(start, events), e, key)
    requires Next(Run(start, events), e).world.store[key].state.PARTIAL_FAILURE?
    ensures e.Step? && e.i < |Next(Run(start, events), e).calls|
    ensures var s := Next(Run(start, events), e);
            var failure := s.world.store[key].failure;
            && (HasCode(failure, STALE_PREVIOUS_POINTER) <==> !s.calls[e.i].claimed)
            && (HasCode(failure, COMPENSATION_FAILED) <==> s.calls[e.i].claimed)
  {
    VerdictIsTold(start, events, e, key);
    var s := Next(Run(start, events), e);
    ToldPartialFailure(s.world.store[key], s.calls[e.i], Trace(start, events + [e], e.i));
  }

  lemma ToldPartialFailure(t: Transaction, c: Call, trace: seq<Access>)
    requires Told(t, c, trace) && t.state.PARTIAL_FAILURE?
    ensures HasCode(t.failure, STALE_PREVIOUS_POINTER) <==> !c.claimed
    ensures HasCode(t.failure, COMPENSATION_FAILED) <==> c.claimed
  {
  }
}
