/** The promotion protocol of `scripts/release_delivery.py` as a state machine: one step of a
    call is one access to the transaction store, to the provider, or to the smoke test. */
module DeliveryMachine {

  // ── Data ────────────────────────────────────────────────────────────────────

  type Coordinate = string

  /** The served release: the Lambda alias and the descriptor with the objects it selects. */
  datatype Pointer = Pointer(lambda: Coordinate, descriptor: Coordinate, runtimeConfig: Coordinate, web: Coordinate)

  datatype State = PREPARED | APPLYING | SMOKING | COMPENSATING | COMMITTED | ROLLED_BACK | PARTIAL_FAILURE

  predicate Terminal(s: State) {
    s.COMMITTED? || s.ROLLED_BACK? || s.PARTIAL_FAILURE?
  }

  /** What a transaction may never change: its keys, its release, and the two pointers. */
  datatype Identity = Identity(key: string, details: string, release: string, previous: Pointer, target: Pointer)

  datatype Kind = LAMBDA_UPDATE | DESCRIPTOR_UPDATE | DESCRIPTOR_RESTORE | LAMBDA_RESTORE

  datatype Mark = APPLIED | RESTORED | ALREADY_PREVIOUS

  datatype Action = Action(kind: Kind, mark: Mark)

  datatype Code =
    | STALE_PREVIOUS_POINTER
    | POINTER_READBACK_MISMATCH
    | POINTER_MUTATION_FAILED
    | SMOKE_FAILED
    | COMPENSATION_FAILED

  datatype Failure = NoFailure | Failure(code: Code) | Observed(code: Code, pointer: Pointer)

  predicate HasCode(f: Failure, code: Code) {
    !f.NoFailure? && f.code == code
  }

  datatype Smoke = NotRun | SmokeResult(pass: bool, release: string)

  datatype Transaction = Transaction(id: Identity, state: State, actions: seq<Action>, smoke: Smoke, failure: Failure)

  function WithAction(t: Transaction, kind: Kind, mark: Mark): Transaction {
    t.(actions := t.actions + [Action(kind, mark)])
  }

  /** A transaction as a caller submits it; the policy refuses equal pointers. */
  predicate Wellformed(t: Transaction) {
    t.id.previous != t.id.target
  }

  // ── The world ───────────────────────────────────────────────────────────────

  /** The durable store, by idempotency key, and the live pointers. */
  datatype World = World(store: map<string, Transaction>, live: Pointer)

  /** Conditional writes: each takes effect only on the coordinate it expects. */
  predicate LambdaMatches(live: Pointer, expected: Pointer) {
    live.lambda == expected.lambda
  }

  predicate DescriptorMatches(live: Pointer, expected: Pointer) {
    live.descriptor == expected.descriptor
  }

  function WithLambda(live: Pointer, target: Pointer): Pointer {
    live.(lambda := target.lambda)
  }

  function WithDescriptor(live: Pointer, target: Pointer): Pointer {
    target.(lambda := live.lambda)
  }

  /** Whether the served objects, the Lambda apart, are those of `p`. */
  predicate ServesObjects(live: Pointer, p: Pointer) {
    live.descriptor == p.descriptor && live.runtimeConfig == p.runtimeConfig && live.web == p.web
  }

  /** What the adversary does to a provider access: let it work, raise before it, or raise after
      it has taken effect. */
  datatype Fault = NoFault | RaiseBefore | RaiseAfter

  // ── One call ────────────────────────────────────────────────────────────────

  /** Where a call of `promote_staging` stands, with the values it still holds. */
  datatype Place =
    | Create
    | FirstRead
    | Stale(observed: Pointer)
    | Claim
    | WriteLambda
    | ReadLambda
    | WriteDescriptor
    | ReadDescriptor
    | EnterSmoking
    | RunSmoke
    | Commit
    | Compensate(code: Code)
    | RestoreRead(code: Code)
    | RestoreDescriptor(code: Code, seen: Pointer)
    | CheckRead(code: Code)
    | RestoreLambda(code: Code, seen: Pointer)
    | FinalRead(code: Code, seen: Pointer)
    | GiveUp
    | RollBack(code: Code, seen: Pointer)
    | Returned
    | Raised

  /** A call: the submitted transaction, its own copy of the stored one, and where it stands.
      `claimed`, `writes` and `struck` only record what happened: whether its claim to apply went
      through, how many provider writes it issued, and whether a fault struck its compensation. */
  datatype Call = Call(requested: Transaction, own: Transaction, place: Place, claimed: bool, writes: nat, struck: bool)

  function NewCall(t: Transaction): Call {
    Call(t, t, Create, false, 0, false)
  }

  predicate Done(c: Call) {
    c.place.Returned? || c.place.Raised?
  }

  /** Compare-and-swap of the stored transaction on its state. */
  predicate Swaps(w: World, t: Transaction, expected: State) {
    t.id.key in w.store && w.store[t.id.key].state == expected
  }

  function Stored(w: World, t: Transaction): World {
    w.(store := w.store[t.id.key := t])
  }

  /** One compare-and-swap step: on success the call goes on, otherwise it raises. */
  function Replace(c: Call, w: World, t: Transaction, state: State, next: Place): (Call, World) {
    var updated := t.(state := state);
    if Swaps(w, updated, t.state) then (c.(own := updated, place := next), Stored(w, updated))
    else (c.(own := updated, place := Raised), w)
  }

  function Begin(c: Call, w: World): (Call, World) {
    var absent := c.requested.id.key !in w.store;
    var after := if absent then Stored(w, c.requested) else w;
    var stored := after.store[c.requested.id.key];
    if stored.id != c.requested.id then (c.(own := stored, place := Raised), after)
    else if Terminal(stored.state) then (c.(own := stored, place := Returned), after)
    else if !stored.state.PREPARED? then (c.(own := stored, place := Raised), after)
    else (c.(own := stored, place := FirstRead), after)
  }

  /** A provider write: issued in any case, effective when its precondition holds and nothing
      was raised before it, and acknowledged when nothing was raised at all. */
  function Written(w: World, matches: bool, live: Pointer, fault: Fault): World {
    if matches && !fault.RaiseBefore? then w.(live := live) else w
  }

  predicate Acknowledged(matches: bool, fault: Fault) {
    matches && fault.NoFault?
  }

  function Failed(c: Call, failure: Failure, code: Code): Call {
    c.(own := c.own.(failure := failure), place := Compensate(code))
  }

  /** One step of a call: the next access, under the given fault and smoke result. */
  function Advance(c: Call, w: World, fault: Fault, smoke: Smoke): (Call, World) {
    var id := c.own.id;
    match c.place
    case Create => Begin(c, w)
    case FirstRead =>
      if !fault.NoFault? then (c.(place := Raised), w)
      else if w.live != id.previous then (c.(place := Stale(w.live)), w)
      else (c.(place := Claim), w)
    case Stale(observed) =>
      Replace(c, w, c.own.(failure := Observed(STALE_PREVIOUS_POINTER, observed)), PARTIAL_FAILURE, Returned)
    case Claim =>
      var (claimed, after) := Replace(c, w, c.own, APPLYING, WriteLambda);
      (claimed.(claimed := claimed.place.WriteLambda?), after)
    case WriteLambda =>
      var matches := LambdaMatches(w.live, id.previous);
      var after := Written(w, matches, WithLambda(w.live, id.target), fault);
      var issued := c.(writes := c.writes + 1);
      if Acknowledged(matches, fault)
      then (issued.(own := WithAction(c.own, LAMBDA_UPDATE, APPLIED), place := ReadLambda), after)
      else (Failed(issued, Failure(POINTER_MUTATION_FAILED), POINTER_MUTATION_FAILED), after)
    case ReadLambda =>
      if !fault.NoFault? then (Failed(c, Failure(POINTER_MUTATION_FAILED), POINTER_MUTATION_FAILED), w)
      else if w.live.lambda != id.target.lambda
      then (Failed(c, Observed(POINTER_READBACK_MISMATCH, w.live), POINTER_READBACK_MISMATCH), w)
      else (c.(place := WriteDescriptor), w)
    case WriteDescriptor =>
      var matches := DescriptorMatches(w.live, id.previous);
      var after := Written(w, matches, WithDescriptor(w.live, id.target), fault);
      var issued := c.(writes := c.writes + 1);
      if Acknowledged(matches, fault)
      then (issued.(own := WithAction(c.own, DESCRIPTOR_UPDATE, APPLIED), place := ReadDescriptor), after)
      else (Failed(issued, Failure(POINTER_MUTATION_FAILED), POINTER_MUTATION_FAILED), after)
    case ReadDescriptor =>
      if !fault.NoFault? then (Failed(c, Failure(POINTER_MUTATION_FAILED), POINTER_MUTATION_FAILED), w)
      else if w.live != id.target
      then (Failed(c, Observed(POINTER_READBACK_MISMATCH, w.live), POINTER_READBACK_MISMATCH), w)
      else (c.(place := EnterSmoking), w)
    case EnterSmoking => Replace(c, w, c.own, SMOKING, RunSmoke)
    case RunSmoke =>
      var smoked := c.(own := c.own.(smoke := smoke));
      if smoke.SmokeResult? && smoke.pass && smoke.release == id.release then (smoked.(place := Commit), w)
      else (smoked.(place := Compensate(SMOKE_FAILED)), w)
    case Commit => Replace(c, w, c.own, COMMITTED, Returned)
    case Compensate(code) => Replace(c, w, c.own, COMPENSATING, RestoreRead(code))
    case RestoreRead(code) =>
      if !fault.NoFault? then (c.(place := GiveUp, struck := true), w)
      else if w.live.lambda != id.previous.lambda && w.live.lambda != id.target.lambda then (c.(place := GiveUp), w)
      else if !ServesObjects(w.live, id.previous) then (c.(place := RestoreDescriptor(code, w.live)), w)
      else (c.(own := WithAction(c.own, DESCRIPTOR_RESTORE, ALREADY_PREVIOUS), place := CheckRead(code)), w)
    case RestoreDescriptor(code, seen) =>
      var matches := DescriptorMatches(w.live, seen);
      var after := Written(w, matches, WithDescriptor(w.live, id.previous), fault);
      var issued := c.(writes := c.writes + 1);
      if Acknowledged(matches, fault)
      then (issued.(own := WithAction(c.own, DESCRIPTOR_RESTORE, RESTORED), place := CheckRead(code)), after)
      else (issued.(place := GiveUp, struck := c.struck || !fault.NoFault?), after)
    case CheckRead(code) =>
      if !fault.NoFault? then (c.(place := GiveUp, struck := true), w)
      else if w.live.lambda != id.previous.lambda then (c.(place := RestoreLambda(code, w.live)), w)
      else (c.(own := WithAction(c.own, LAMBDA_RESTORE, ALREADY_PREVIOUS), place := FinalRead(code, w.live)), w)
    case RestoreLambda(code, seen) =>
      var matches := LambdaMatches(w.live, seen);
      var after := Written(w, matches, WithLambda(w.live, id.previous), fault);
      var issued := c.(writes := c.writes + 1);
      if Acknowledged(matches, fault)
      then (issued.(own := WithAction(c.own, LAMBDA_RESTORE, RESTORED), place := FinalRead(code, seen)), after)
      else (issued.(place := GiveUp, struck := c.struck || !fault.NoFault?), after)
    case FinalRead(code, seen) =>
      if !fault.NoFault? then (c.(place := GiveUp, struck := true), w)
      else if w.live != id.previous then (c.(place := GiveUp), w)
      else (c.(place := RollBack(code, seen)), w)
    case GiveUp => Replace(c, w, c.own.(failure := Failure(COMPENSATION_FAILED)), PARTIAL_FAILURE, Returned)
    case RollBack(code, seen) =>
      var kept := if HasCode(c.own.failure, code) then c.own.failure else Observed(code, seen);
      Replace(c, w, c.own.(failure := kept), ROLLED_BACK, Returned)
    case Returned => (c, w)
    case Raised => (c, w)
  }
}
