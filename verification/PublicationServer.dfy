/** The server side of `scripts/publish_curriculum_drafts.py`: versions, live pointers and the steps
    between them, as `src/stoa/services/curriculum_ops_service.py` takes them. A request may be
    refused, lost before or after it took effect, or torn between moving the pointer and writing the
    version's state. The server here need not check a version's state before a step: what holds of
    the client holds whatever the server refuses. */
module PublicationServer {

  import opened Options

  datatype State =
    | Draft
    | InReview
    | Approved
    | Published
    | ChangesRequested
    | Archived
    | Superseded
    | Other(name: string)

  datatype Step = SubmitReview | Approve | Publish

  /** A lesson and one of its versions. */
  datatype Key = Key(publicId: string, versionId: string)

  /** `log` holds the transitions each version has taken. */
  datatype World = World(states: map<Key, State>, pointers: map<string, string>, log: map<Key, seq<Step>>)

  /** What each state still needs to be live, in order. */
  function Remaining(state: State): seq<Step> {
    match state
    case Draft => [SubmitReview, Approve, Publish]
    case InReview => [Approve, Publish]
    case Approved => [Publish]
    case _ => []
  }

  function StateAfter(step: Step): State {
    match step
    case SubmitReview => InReview
    case Approve => Approved
    case Publish => Published
  }

  function Logged(w: World, key: Key): seq<Step> {
    if key in w.log then w.log[key] else []
  }

  function Pointer(w: World, publicId: string): Option<string> {
    if publicId in w.pointers then Some(w.pointers[publicId]) else None
  }

  /** Whether a version is the live one of its lesson. */
  predicate IsLive(w: World, key: Key) {
    Pointer(w, key.publicId) == Some(key.versionId)
  }

  function Moved(w: World, key: Key, step: Step): World {
    w.(states := w.states[key := StateAfter(step)], log := w.log[key := Logged(w, key) + [step]])
  }

  /** Whether a request that arrives is answered with success. */
  predicate Accepted(w: World, step: Step, key: Key, expected: Option<string>) {
    key in w.states &&
    (step == Publish ==> IsLive(w, key) || Pointer(w, key.publicId) == expected)
  }

  /** The world after a request that arrives. A publish of the live version changes nothing, and one
      against another live version than expected is refused. */
  function Performed(w: World, step: Step, key: Key, expected: Option<string>, torn: bool): World {
    if !Accepted(w, step, key, expected) then w
    else if step != Publish then Moved(w, key, step)
    else if IsLive(w, key) then w
    else
      var pointed := w.(pointers := w.pointers[key.publicId := key.versionId]);
      if torn then pointed.(log := pointed.log[key := Logged(w, key) + [Publish]]) else Moved(pointed, key, Publish)
  }

  // ── What every reachable world keeps ────────────────────────────────────────

  /** When versions were made: a version is imported after the version it names as live. */
  type Ages = Key -> nat

  /** The live version of a lesson is not older than this one. */
  predicate LiveSince(w: World, ages: Ages, key: Key) {
    var live := Pointer(w, key.publicId);
    live.Some? && ages(Key(key.publicId, live.value)) >= ages(key)
  }

  /** A publish that moved the pointer without writing the version's state. */
  predicate Torn(w: World, ages: Ages, key: Key)
    requires key in w.states
  {
    w.states[key] == Approved && LiveSince(w, ages, key)
  }

  function Reached(start: State, log: seq<Step>): State {
    if |log| == 0 then start else StateAfter(log[|log| - 1])
  }

  /** The transitions a version took since the start are the first ones it needed, each once and in
      order, and its state is what they lead to, unless its publish was torn. */
  predicate KeepsTo(start: State, w: World, ages: Ages, key: Key)
    requires key in w.states
  {
    && Logged(w, key) <= Remaining(start)
    && (w.states[key] == Reached(start, Logged(w, key)) || (Logged(w, key) == Remaining(start) && Torn(w, ages, key)))
  }

  ghost predicate Orderly(start: map<Key, State>, ages: Ages, w: World) {
    && w.states.Keys == start.Keys
    && (forall key :: key in w.log ==> key in start)
    && (forall key :: key in start ==> KeepsTo(start[key], w, ages, key))
  }

  /** A client's step: the first one the version's state still needs. */
  predicate IsNext(w: World, key: Key, step: Step) {
    key in w.states && |Remaining(w.states[key])| > 0 && Remaining(w.states[key])[0] == step
  }

  predicate ExpectsOlder(ages: Ages, key: Key, expected: Option<string>) {
    expected.Some? ==> ages(Key(key.publicId, expected.value)) < ages(key)
  }

  /** Nothing of another version of the lesson, or of another lesson, changes but the live pointer. */
  lemma OthersStay(w: World, step: Step, key: Key, expected: Option<string>, torn: bool, other: Key)
    requires other != key
    ensures var w' := Performed(w, step, key, expected, torn);
            && (other in w'.states <==> other in w.states)
            && (other in w.states ==> w'.states[other] == w.states[other])
            && Logged(w', other) == Logged(w, other)
            && (other.publicId != key.publicId ==> Pointer(w', other.publicId) == Pointer(w, other.publicId))
  {
  }

  /** The live version never gets older. */
  lemma LiveStays(w: World, ages: Ages, step: Step, key: Key, expected: Option<string>, torn: bool, other: Key)
    requires ExpectsOlder(ages, key, expected) && LiveSince(w, ages, other)
    ensures LiveSince(Performed(w, step, key, expected, torn), ages, other)
  {
  }

  lemma OwnStepKeeps(start: State, ages: Ages, w: World, step: Step, key: Key, expected: Option<string>, torn: bool)
    requires key in w.states && KeepsTo(start, w, ages, key) && IsNext(w, key, step)
             && ExpectsOlder(ages, key, expected)
    ensures var w' := Performed(w, step, key, expected, torn);
            key in w'.states && KeepsTo(start, w', ages, key)
  {
    var log := Logged(w, key);
    var w' := Performed(w, step, key, expected, torn);
    if w' != w {
      assert |log| == 0 || |log| == 1 || |log| == 2 || |log| == 3;
      assert Logged(w', key) == log + [step];
      NextIsNeeded(start, ages, w, key, step);
    }
  }

  /** Where a step is next and can still take effect, it is the one the start leads to. */
  lemma NextIsNeeded(start: State, ages: Ages, w: World, key: Key, step: Step)
    requires key in w.states && KeepsTo(start, w, ages, key) && IsNext(w, key, step)
    requires w.states[key] == Reached(start, Logged(w, key))
    ensures Logged(w, key) + [step] <= Remaining(start)
    ensures step == Publish ==> Logged(w, key) + [step] == Remaining(start)
  {
    var log, needed := Logged(w, key), Remaining(start);
    assert needed == [SubmitReview, Approve, Publish] || needed == [Approve, Publish] || needed == [Publish]
           || needed == [];
    if |log| > 0 {
      assert log[|log| - 1] == needed[|log| - 1];
    }
  }

  /** A client that takes the step a version's state needs next keeps the world orderly, whether the
      request is answered, refused or torn. */
  lemma ClientStepKeeps(start: map<Key, State>, ages: Ages, w: World, step: Step, key: Key, expected: Option<string>,
                        torn: bool)
    requires Orderly(start, ages, w) && IsNext(w, key, step) && ExpectsOlder(ages, key, expected)
    ensures Orderly(start, ages, Performed(w, step, key, expected, torn))
  {
    var w' := Performed(w, step, key, expected, torn);
    forall other | other in start ensures other in w'.states && KeepsTo(start[other], w', ages, other) {
      if other == key {
        OwnStepKeeps(start[key], ages, w, step, key, expected, torn);
      } else {
        OthersStay(w, step, key, expected, torn, other);
        if LiveSince(w, ages, other) {
          LiveStays(w, ages, step, key, expected, torn, other);
        }
      }
    }
  }

  /** A publish moves the live pointer exactly from the version expected, and to its own; against any
      other live version it is refused and changes nothing. */
  lemma PublishSwapsPointer(w: World, key: Key, expected: Option<string>, torn: bool)
    requires key in w.states
    ensures var after := Performed(w, Publish, key, expected, torn);
            && (Pointer(w, key.publicId) == expected ==> Pointer(after, key.publicId) == Some(key.versionId))
            && (Pointer(w, key.publicId) != expected && !IsLive(w, key) ==>
                  !Accepted(w, Publish, key, expected) && after == w)
            && forall lesson :: lesson != key.publicId ==> Pointer(after, lesson) == Pointer(w, lesson)
  {
  }

  /** A publish that is answered makes an approved version published exactly when it is not the live
      one already: torn before, it is answered as published and stays approved. */
  lemma PublishedIff(w: World, key: Key, expected: Option<string>)
    requires key in w.states && w.states[key] == Approved && Accepted(w, Publish, key, expected)
    ensures Performed(w, Publish, key, expected, false).states[key] == Published <==> !IsLive(w, key)
  {
  }

  /** A torn publish stays torn: every later publish of the version is answered with success and
      changes nothing, so the version is approved for ever though it is the live one. */
  lemma TornStaysApproved(w: World, key: Key, expected: Option<string>, torn: bool)
    requires key in w.states && w.states[key] == Approved && IsLive(w, key)
    ensures Accepted(w, Publish, key, expected)
    ensures Performed(w, Publish, key, expected, torn) == w
    ensures IsNext(w, key, Publish)
  {
  }

  /** It does happen to a draft that is approved and torn. */
  lemma TearingLeavesApproved(w: World, key: Key, expected: Option<string>)
    requires key in w.states && w.states[key] == Approved && Pointer(w, key.publicId) == expected
    requires expected != Some(key.versionId)
    ensures var w' := Performed(w, Publish, key, expected, true);
            w'.states[key] == Approved && Pointer(w', key.publicId) == Some(key.versionId)
            && Logged(w', key) == Logged(w, key) + [Publish]
  {
  }
}
