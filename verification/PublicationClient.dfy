/** The bulk publication client, `scripts/publish_curriculum_drafts.py`: what it selects, plans and
    applies, run again and again against a server that may refuse, lose or tear any request. */
module PublicationClient {
  import opened Options
  import opened Filters = Lists
  import opened PublicationServer

  /** What happens to a request: answered, refused, lost before or after it took effect, torn, or
      the client itself stopped before or after it took effect. */
  datatype Fate = Answer | Refuse | LoseBefore | LoseAfter | Tear | KillBefore | KillAfter | KillTorn

  datatype Reply = Answered | Failed | Killed

  datatype Read<T> = Got(value: T) | NotFound | ReadFailed | ReadKilled

  /** A row of a migration's evidence; an absent version is empty. */
  datatype EvidenceRow = EvidenceRow(publicId: string, versionId: string, applied: bool, previous: Option<string>)

  datatype Evidence = Evidence(applied: bool, rows: seq<EvidenceRow>)

  /** The server as the client sees it: every request, read or write, meets the next fate. */
  class Server {
    var world: World
    var requests: nat
    const fates: nat -> Fate
    const evidence: map<string, Evidence>
    const ready: Key -> bool

    constructor (world: World, fates: nat -> Fate, evidence: map<string, Evidence>, ready: Key -> bool)
      ensures this.world == world && this.fates == fates && this.evidence == evidence && this.ready == ready
    {
      this.world, this.requests, this.fates, this.evidence, this.ready := world, 0, fates, evidence, ready;
    }

    method Next() returns (fate: Fate)
      modifies this`requests
    {
      fate := fates(requests);
      requests := requests + 1;
    }

    method MigrationEvidence(id: string) returns (read: Read<Evidence>)
      modifies this`requests
      ensures read.Got? ==> id in evidence && read.value == evidence[id]
    {
      var fate := Next();
      read := ReadBy(fate, id in evidence, if id in evidence then evidence[id] else Evidence(false, []));
    }

    method Preview(key: Key) returns (read: Read<State>)
      modifies this`requests
      ensures read.Got? ==> key in world.states && read.value == world.states[key]
      ensures read.NotFound? ==> key !in world.states
    {
      var fate := Next();
      read := ReadBy(fate, key in world.states, if key in world.states then world.states[key] else Draft);
    }

    method ValidationPreview(key: Key) returns (read: Read<bool>)
      modifies this`requests
      ensures read.Got? ==> read.value == ready(key)
    {
      var fate := Next();
      read := ReadBy(fate, key in world.states, ready(key));
    }

    /** One admin call of a step. */
    method Take(step: Step, key: Key, expected: Option<string>) returns (reply: Reply)
      modifies this
      ensures world == old(world) || exists torn :: world == Performed(old(world), step, key, expected, torn)
      ensures reply.Answered? ==>
                Accepted(old(world), step, key, expected) && world == Performed(old(world), step, key, expected, false)
    {
      var fate := Next();
      match fate {
        case Refuse | LoseBefore =>
          return Failed;
        case KillBefore =>
          return Killed;
        case _ =>
      }
      var torn := fate.Tear? || fate.KillTorn?;
      var accepted := Accepted(world, step, key, expected);
      world := Performed(world, step, key, expected, torn);
      reply := if fate.KillAfter? || fate.KillTorn? then Killed
      else if !accepted || fate.LoseAfter? || fate.Tear? then Failed
      else Answered;
    }
  }

  function ReadBy<T>(fate: Fate, found: bool, value: T): Read<T> {
    if fate.KillBefore? || fate.KillAfter? || fate.KillTorn? then ReadKilled
    else if !fate.Answer? then ReadFailed
    else if found then Got(value)
    else NotFound
  }

  // ── Selecting ───────────────────────────────────────────────────────────────

  datatype Candidate = Candidate(key: Key, migrationId: string, expected: Option<string>)

  datatype Lists = Lists(only: Option<set<string>>, exclude: set<string>)

  predicate Wanted(row: EvidenceRow, lists: Lists) {
    && row.applied && row.versionId != ""
    && (lists.only.Some? ==> row.publicId in lists.only.value)
    && row.publicId !in lists.exclude
  }

  function CandidateOf(row: EvidenceRow, migrationId: string): Candidate {
    Candidate(Key(row.publicId, row.versionId), migrationId, row.previous)
  }

  ghost predicate DistinctVersions(chosen: seq<Candidate>) {
    forall i, j :: 0 <= i < j < |chosen| ==> chosen[i].key != chosen[j].key
  }

  ghost predicate FromEvidence(c: Candidate, evidence: map<string, Evidence>, lists: Lists, migrationIds: seq<string>) {
    && c.migrationId in migrationIds && c.migrationId in evidence && evidence[c.migrationId].applied
    && exists k :: 0 <= k < |evidence[c.migrationId].rows| && Wanted(evidence[c.migrationId].rows[k], lists)
                   && c == CandidateOf(evidence[c.migrationId].rows[k], c.migrationId)
  }

  ghost predicate Chosen(chosen: seq<Candidate>, key: Key) {
    exists i :: 0 <= i < |chosen| && chosen[i].key == key
  }

  ghost predicate AllChosen(chosen: seq<Candidate>, rows: seq<EvidenceRow>, lists: Lists) {
    forall k :: 0 <= k < |rows| && Wanted(rows[k], lists) ==> Chosen(chosen, Key(rows[k].publicId, rows[k].versionId))
  }

  /** Where a row stands: in which migration, and where in its evidence. */
  datatype Spot = Spot(migration: nat, row: nat)

  predicate Before(a: Spot, b: Spot) {
    a.migration < b.migration || (a.migration == b.migration && a.row < b.row)
  }

  predicate WantedAt(evidence: map<string, Evidence>, lists: Lists, migrationIds: seq<string>, spot: Spot) {
    && spot.migration < |migrationIds| && migrationIds[spot.migration] in evidence
    && spot.row < |evidence[migrationIds[spot.migration]].rows|
    && Wanted(evidence[migrationIds[spot.migration]].rows[spot.row], lists)
  }

  function CandidateAt(evidence: map<string, Evidence>, lists: Lists, migrationIds: seq<string>, spot: Spot): Candidate
    requires WantedAt(evidence, lists, migrationIds, spot)
  {
    CandidateOf(evidence[migrationIds[spot.migration]].rows[spot.row], migrationIds[spot.migration])
  }

  /** The wanted rows before a spot, in their order, each version where it is first named and once. */
  ghost predicate Selects(chosen: seq<Candidate>, at: seq<Spot>, evidence: map<string, Evidence>, lists: Lists,
                          migrationIds: seq<string>, end: Spot)
  {
    && |at| == |chosen|
    && (forall i :: 0 <= i < |at| ==>
          && WantedAt(evidence, lists, migrationIds, at[i]) && Before(at[i], end)
          && chosen[i] == CandidateAt(evidence, lists, migrationIds, at[i]))
    && (forall i, j :: 0 <= i < j < |at| ==> Before(at[i], at[j]))
    && (forall i, spot :: 0 <= i < |at| && Before(spot, at[i]) && WantedAt(evidence, lists, migrationIds, spot) ==>
          CandidateAt(evidence, lists, migrationIds, spot).key != chosen[i].key)
    && (forall spot :: Before(spot, end) && WantedAt(evidence, lists, migrationIds, spot) ==>
          Chosen(chosen, CandidateAt(evidence, lists, migrationIds, spot).key))
  }

  /** What a selection is, with the spots its candidates were taken from. */
  ghost predicate Selected(chosen: seq<Candidate>, evidence: map<string, Evidence>, lists: Lists,
                           migrationIds: seq<string>)
  {
    && (forall m :: 0 <= m < |migrationIds| ==> migrationIds[m] in evidence && evidence[migrationIds[m]].applied)
    && exists at :: Selects(chosen, at, evidence, lists, migrationIds, Spot(|migrationIds|, 0))
  }

  /** One spot further: a row not wanted, or named before. */
  lemma SpotPassed(chosen: seq<Candidate>, at: seq<Spot>, evidence: map<string, Evidence>, lists: Lists,
                   migrationIds: seq<string>, end: Spot)
    requires Selects(chosen, at, evidence, lists, migrationIds, end)
    requires WantedAt(evidence, lists, migrationIds, end) ==>
               Chosen(chosen, CandidateAt(evidence, lists, migrationIds, end).key)
    ensures Selects(chosen, at, evidence, lists, migrationIds, end.(row := end.row + 1))
  {
    forall spot | Before(spot, end.(row := end.row + 1)) && WantedAt(evidence, lists, migrationIds, spot)
      ensures Chosen(chosen, CandidateAt(evidence, lists, migrationIds, spot).key)
    {
      assert spot == end || Before(spot, end);
    }
  }

  /** One spot further: a version named for the first time. */
  lemma SpotChosen(chosen: seq<Candidate>, at: seq<Spot>, evidence: map<string, Evidence>, lists: Lists,
                   migrationIds: seq<string>, end: Spot)
    requires Selects(chosen, at, evidence, lists, migrationIds, end)
    requires WantedAt(evidence, lists, migrationIds, end)
    requires !Chosen(chosen, CandidateAt(evidence, lists, migrationIds, end).key)
    ensures Selects(chosen + [CandidateAt(evidence, lists, migrationIds, end)], at + [end], evidence, lists,
                    migrationIds, end.(row := end.row + 1))
  {
    var c := CandidateAt(evidence, lists, migrationIds, end);
    var more := chosen + [c];
    forall spot | Before(spot, end.(row := end.row + 1)) && WantedAt(evidence, lists, migrationIds, spot)
      ensures Chosen(more, CandidateAt(evidence, lists, migrationIds, spot).key)
    {
      assert more[|chosen|] == c;
      if spot != end {
        var k :| 0 <= k < |chosen| && chosen[k].key == CandidateAt(evidence, lists, migrationIds, spot).key;
        assert more[k] == chosen[k];
      }
    }
  }

  /** After the last row of a migration comes the first of the next. */
  lemma MigrationPassed(chosen: seq<Candidate>, at: seq<Spot>, evidence: map<string, Evidence>, lists: Lists,
                        migrationIds: seq<string>, end: Spot)
    requires Selects(chosen, at, evidence, lists, migrationIds, end)
    requires end.migration < |migrationIds| && migrationIds[end.migration] in evidence
    requires end.row == |evidence[migrationIds[end.migration]].rows|
    ensures Selects(chosen, at, evidence, lists, migrationIds, Spot(end.migration + 1, 0))
  {
    forall spot | Before(spot, Spot(end.migration + 1, 0)) && WantedAt(evidence, lists, migrationIds, spot)
      ensures Before(spot, end)
    {
    }
  }

  /** What a selection holds: every version once, from the evidence, and all that is wanted. */
  lemma SelectionHolds(chosen: seq<Candidate>, evidence: map<string, Evidence>, lists: Lists, migrationIds: seq<string>)
    requires Selected(chosen, evidence, lists, migrationIds)
    ensures DistinctVersions(chosen) && forall c :: c in chosen ==> FromEvidence(c, evidence, lists, migrationIds)
    ensures forall m :: 0 <= m < |migrationIds| ==> AllChosen(chosen, evidence[migrationIds[m]].rows, lists)
  {
    var at :| Selects(chosen, at, evidence, lists, migrationIds, Spot(|migrationIds|, 0));
    forall i, j | 0 <= i < j < |chosen| ensures chosen[i].key != chosen[j].key {
      assert Before(at[i], at[j]);
    }
    forall c | c in chosen ensures FromEvidence(c, evidence, lists, migrationIds) {
      var i :| 0 <= i < |chosen| && chosen[i] == c;
      SpotIsEvidence(evidence, lists, migrationIds, at[i], c);
    }
    forall m, k | 0 <= m < |migrationIds| && 0 <= k < |evidence[migrationIds[m]].rows|
                  && Wanted(evidence[migrationIds[m]].rows[k], lists)
      ensures var row := evidence[migrationIds[m]].rows[k];
              Chosen(chosen, Key(row.publicId, row.versionId))
    {
      assert WantedAt(evidence, lists, migrationIds, Spot(m, k));
    }
  }

  lemma SpotIsEvidence(evidence: map<string, Evidence>, lists: Lists, migrationIds: seq<string>, spot: Spot,
                       c: Candidate)
    requires WantedAt(evidence, lists, migrationIds, spot) && c == CandidateAt(evidence, lists, migrationIds, spot)
    requires evidence[migrationIds[spot.migration]].applied
    ensures FromEvidence(c, evidence, lists, migrationIds)
  {
    assert Wanted(evidence[c.migrationId].rows[spot.row], lists);
  }

  datatype Selection = Selection(chosen: seq<Candidate>) | Stopped | Interrupted

  /** The wanted rows of one migration, a version seen before left out. */
  method SelectRows(evidence: map<string, Evidence>, lists: Lists, migrationIds: seq<string>, m: nat,
                    before: seq<Candidate>, seenBefore: set<Key>, ghost atBefore: seq<Spot>)
    returns (chosen: seq<Candidate>, seen: set<Key>, ghost at: seq<Spot>)
    requires m < |migrationIds| && migrationIds[m] in evidence
    requires Selects(before, atBefore, evidence, lists, migrationIds, Spot(m, 0))
    requires forall key :: key in seenBefore <==> Chosen(before, key)
    ensures Selects(chosen, at, evidence, lists, migrationIds, Spot(m + 1, 0))
    ensures forall key :: key in seen <==> Chosen(chosen, key)
  {
    chosen, seen, at := before, seenBefore, atBefore;
    var rows := evidence[migrationIds[m]].rows;
    for k := 0 to |rows|
      invariant Selects(chosen, at, evidence, lists, migrationIds, Spot(m, k))
      invariant forall key :: key in seen <==> Chosen(chosen, key)
    {
      var c := CandidateOf(rows[k], migrationIds[m]);
      if Wanted(rows[k], lists) && c.key !in seen {
        SpotChosen(chosen, at, evidence, lists, migrationIds, Spot(m, k));
        OneMoreChosen(chosen, c);
        chosen, seen, at := chosen + [c], seen + {c.key}, at + [Spot(m, k)];
      } else {
        SpotPassed(chosen, at, evidence, lists, migrationIds, Spot(m, k));
      }
    }
    MigrationPassed(chosen, at, evidence, lists, migrationIds, Spot(m, |rows|));
  }

  lemma OneMoreChosen(chosen: seq<Candidate>, c: Candidate)
    ensures forall key :: Chosen(chosen + [c], key) <==> Chosen(chosen, key) || key == c.key
  {
    var more := chosen + [c];
    assert more[|chosen|] == c;
    forall key ensures Chosen(more, key) <==> Chosen(chosen, key) || key == c.key {
      if Chosen(chosen, key) {
        var i :| 0 <= i < |chosen| && chosen[i].key == key;
        assert more[i].key == key;
      }
    }
  }

  /** Every version the migrations applied, once, in their order, narrowed by the lists. */
  method Select(server: Server, migrationIds: seq<string>, lists: Lists) returns (selection: Selection)
    modifies server`requests
    ensures selection.Selection? ==>
              && Selected(selection.chosen, server.evidence, lists, migrationIds)
              && DistinctVersions(selection.chosen)
              && (forall c :: c in selection.chosen ==> FromEvidence(c, server.evidence, lists, migrationIds))
              && forall m :: 0 <= m < |migrationIds| ==>
                   migrationIds[m] in server.evidence && server.evidence[migrationIds[m]].applied
                   && AllChosen(selection.chosen, server.evidence[migrationIds[m]].rows, lists)
  {
    var chosen: seq<Candidate> := [];
    var seen: set<Key> := {};
    ghost var at: seq<Spot> := [];
    for m := 0 to |migrationIds|
      invariant Selects(chosen, at, server.evidence, lists, migrationIds, Spot(m, 0))
      invariant forall key :: key in seen <==> Chosen(chosen, key)
      invariant forall i :: 0 <= i < m ==>
                  migrationIds[i] in server.evidence && server.evidence[migrationIds[i]].applied
    {
      var read := server.MigrationEvidence(migrationIds[m]);
      match read {
        case ReadKilled => return Interrupted;
        case ReadFailed | NotFound => return Stopped;
        case Got(found) =>
          if !found.applied {
            return Stopped;
          }
      }
      chosen, seen, at := SelectRows(server.evidence, lists, migrationIds, m, chosen, seen, at);
    }
    SelectionHolds(chosen, server.evidence, lists, migrationIds);
    return Selection(chosen);
  }

  // ── Planning ────────────────────────────────────────────────────────────────

  /** What one version still needs, why it stays where it is, and the steps done. */
  class PlanRow {
    const candidate: Candidate
    const state: Option<State>
    const steps: seq<Step>
    const skipReason: string
    var done: seq<Step>

    constructor (candidate: Candidate, state: Option<State>, steps: seq<Step>, skipReason: string)
      ensures this.candidate == candidate && this.state == state && this.steps == steps && this.skipReason == skipReason
      ensures done == []
    {
      this.candidate, this.state, this.steps, this.skipReason, this.done := candidate, state, steps, skipReason, [];
    }

    predicate Moves() {
      steps != []
    }
  }

  /** The steps a version would take: those its state still needs, when it passes validation. */
  function StepsFor(w: World, ready: Key -> bool, key: Key): seq<Step> {
    if key in w.states && ready(key) then Remaining(w.states[key]) else []
  }

  ghost predicate DistinctRows(rows: seq<PlanRow>) {
    forall i, j :: 0 <= i < j < |rows| ==> rows[i] != rows[j] && rows[i].candidate.key != rows[j].candidate.key
  }

  ghost predicate PlannedFrom(rows: seq<PlanRow>, candidates: seq<Candidate>, w: World, ready: Key -> bool)
    reads rows
  {
    && |rows| <= |candidates|
    && forall i :: 0 <= i < |rows| ==>
         rows[i].candidate == candidates[i] && rows[i].done == []
         && rows[i].steps == StepsFor(w, ready, candidates[i].key)
  }

  function CandidatesOf(rows: seq<PlanRow>): (candidates: seq<Candidate>)
    ensures |candidates| == |rows|
  {
    seq(|rows|, k requires 0 <= k < |rows| => rows[k].candidate)
  }

  /** The steps a row needs, said of the version's state and its validation. */
  ghost predicate NeedsSteps(row: PlanRow, w: World, ready: Key -> bool) {
    var key := row.candidate.key;
    && (key in w.states ==> row.state == Some(w.states[key]))
    && (key !in w.states ==> row.state == None && row.steps == [])
    && (key in w.states && !ready(key) ==> row.steps == [])
    && (key in w.states && ready(key) ==>
          row.steps == match w.states[key]
                       case Draft => [SubmitReview, Approve, Publish]
                       case InReview => [Approve, Publish]
                       case Approved => [Publish]
                       case _ => [])
  }

  /** A plan: one row for each version selected, in order, with the steps it needs. */
  ghost predicate IsPlan(rows: seq<PlanRow>, evidence: map<string, Evidence>, lists: Lists, migrationIds: seq<string>,
                         w: World, ready: Key -> bool)
  {
    && Selected(CandidatesOf(rows), evidence, lists, migrationIds)
    && forall i :: 0 <= i < |rows| ==> NeedsSteps(rows[i], w, ready)
  }

  /** Every row of a plan is for a row that a named migration applied, that wrote a version, and that the
      lists let through, and says of it its version and what it expects to be live. */
  lemma PlanHasOnly(rows: seq<PlanRow>, evidence: map<string, Evidence>, lists: Lists, migrationIds: seq<string>,
                    w: World, ready: Key -> bool, i: nat) returns (m: nat, k: nat)
    requires IsPlan(rows, evidence, lists, migrationIds, w, ready) && i < |rows|
    ensures m < |migrationIds| && migrationIds[m] in evidence && evidence[migrationIds[m]].applied
    ensures k < |evidence[migrationIds[m]].rows|
    ensures var row, c := evidence[migrationIds[m]].rows[k], rows[i].candidate;
            && row.applied && row.versionId != "" && row.publicId !in lists.exclude
            && (lists.only.None? || row.publicId in lists.only.value)
            && c.key.publicId == row.publicId && c.key.versionId == row.versionId
            && c.migrationId == migrationIds[m] && c.expected == row.previous
  {
    var at: seq<Spot> :| Selects(CandidatesOf(rows), at, evidence, lists, migrationIds, Spot(|migrationIds|, 0));
    var spot := at[i];
    assert CandidatesOf(rows)[i] == CandidateAt(evidence, lists, migrationIds, spot);
    m, k := spot.migration, spot.row;
  }

  /** Every row applied by a named migration that wrote a version and that the lists let through has
      exactly one row of the plan. */
  lemma PlanHasAll(rows: seq<PlanRow>, evidence: map<string, Evidence>, lists: Lists, migrationIds: seq<string>,
                   w: World, ready: Key -> bool, m: nat, k: nat)
    requires IsPlan(rows, evidence, lists, migrationIds, w, ready)
    requires m < |migrationIds| && k < |evidence[migrationIds[m]].rows|
    requires var row := evidence[migrationIds[m]].rows[k];
             && row.applied && row.versionId != "" && row.publicId !in lists.exclude
             && (lists.only.None? || row.publicId in lists.only.value)
    ensures evidence[migrationIds[m]].applied
    ensures var row := evidence[migrationIds[m]].rows[k];
            exists i :: 0 <= i < |rows| && rows[i].candidate.key == Key(row.publicId, row.versionId)
              && forall j :: 0 <= j < |rows| && rows[j].candidate.key == rows[i].candidate.key ==> j == i
  {
    var candidates, row := CandidatesOf(rows), evidence[migrationIds[m]].rows[k];
    SelectionHolds(candidates, evidence, lists, migrationIds);
    assert AllChosen(candidates, evidence[migrationIds[m]].rows, lists);
    var i :| 0 <= i < |candidates| && candidates[i].key == Key(row.publicId, row.versionId);
    forall j | 0 <= j < |rows| && rows[j].candidate.key == rows[i].candidate.key ensures j == i {
      assert candidates[j].key == candidates[i].key;
    }
  }

  datatype Planned = Rows(rows: seq<PlanRow>) | PlanStopped | PlanInterrupted

  /** What one version still needs, or why it stays where it is. Reads only. */
  method PlanOne(server: Server, candidate: Candidate) returns (read: Read<PlanRow>)
    modifies server`requests
    ensures !read.NotFound?
    ensures read.Got? ==>
              && fresh(read.value) && read.value.candidate == candidate && read.value.done == []
              && NeedsSteps(read.value, server.world, server.ready)
              && read.value.steps == StepsFor(server.world, server.ready, candidate.key)
  {
    var state := server.Preview(candidate.key);
    match state
    case ReadKilled => return ReadKilled;
    case ReadFailed => return ReadFailed;
    case NotFound =>
      var row := new PlanRow(candidate, None, [], "version not found");
      return Got(row);
    case Got(found) =>
      if Remaining(found) == [] {
        var row := new PlanRow(candidate, Some(found), [], "nothing left to do");
        return Got(row);
      }
      var valid := server.ValidationPreview(candidate.key);
      match valid
      case ReadKilled => return ReadKilled;
      case ReadFailed | NotFound => return ReadFailed;
      case Got(publishReady) =>
        var row := new PlanRow(candidate, Some(found), if publishReady then Remaining(found) else [],
                               if publishReady then "" else "validation issues");
        return Got(row);
  }

  /** What each version still needs. Reads only. */
  method Plan(server: Server, candidates: seq<Candidate>) returns (planned: Planned)
    requires DistinctVersions(candidates)
    modifies server`requests
    ensures planned.Rows? ==>
              && |planned.rows| == |candidates| && DistinctRows(planned.rows)
              && (forall r :: r in planned.rows ==> fresh(r))
              && PlannedFrom(planned.rows, candidates, server.world, server.ready)
              && CandidatesOf(planned.rows) == candidates
              && forall i :: 0 <= i < |planned.rows| ==> NeedsSteps(planned.rows[i], server.world, server.ready)
  {
    var rows: seq<PlanRow> := [];
    for n := 0 to |candidates|
      invariant |rows| == n && DistinctRows(rows) && forall r :: r in rows ==> fresh(r)
      invariant PlannedFrom(rows, candidates, server.world, server.ready)
      invariant forall i :: 0 <= i < n ==> NeedsSteps(rows[i], server.world, server.ready)
    {
      var read := PlanOne(server, candidates[n]);
      match read {
        case ReadKilled => return PlanInterrupted;
        case ReadFailed => return PlanStopped;
        case Got(row) => rows := rows + [row];
      }
    }
    return Rows(rows);
  }

  // ── Confirming ──────────────────────────────────────────────────────────────

  /** A version that would move, and the steps it would take. */
  datatype Move = Move(key: Key, expected: Option<string>, steps: seq<Step>)

  function Moving(rows: seq<PlanRow>): seq<PlanRow> {
    if |rows| == 0 then []
    else
      var n := |rows| - 1;
      Moving(rows[..n]) + if rows[n].Moves() then [rows[n]] else []
  }

  function MovesOf(moving: seq<PlanRow>): (moves: seq<Move>)
    ensures |moves| == |moving|
  {
    seq(|moving|,
        k requires 0 <= k < |moving| => Move(moving[k].candidate.key, moving[k].candidate.expected, moving[k].steps))
  }

  /** Names exactly the versions that would move and the steps each would take. */
  function ConfirmationCode(rows: seq<PlanRow>, digest: seq<Move> -> string): string {
    digest(MovesOf(Moving(rows)))
  }

  /** The same code, unless the digest collides on the two plans, is the same moves of the same versions
      in the same order. */
  lemma SameCodeSameMoves(a: seq<PlanRow>, b: seq<PlanRow>, digest: seq<Move> -> string)
    requires ConfirmationCode(a, digest) == ConfirmationCode(b, digest)
    requires digest(MovesOf(Moving(a))) == digest(MovesOf(Moving(b))) ==> MovesOf(Moving(a)) == MovesOf(Moving(b))
    ensures |Moving(a)| == |Moving(b)|
    ensures forall k :: 0 <= k < |Moving(a)| ==>
              && Moving(a)[k].candidate.key == Moving(b)[k].candidate.key
              && Moving(a)[k].candidate.expected == Moving(b)[k].candidate.expected
              && Moving(a)[k].steps == Moving(b)[k].steps
  {
    forall k | 0 <= k < |Moving(a)|
      ensures && Moving(a)[k].candidate.key == Moving(b)[k].candidate.key
              && Moving(a)[k].candidate.expected == Moving(b)[k].candidate.expected
              && Moving(a)[k].steps == Moving(b)[k].steps
    {
      assert MovesOf(Moving(a))[k] == MovesOf(Moving(b))[k];
    }
  }

  /** The moving rows are picked in order. */
  lemma {:induction false} MovingPick(rows: seq<PlanRow>)
    ensures Picks(Moving(rows), rows, (r: PlanRow) => r.Moves())
  {
    if |rows| == 0 {
      PicksNone<PlanRow>((r: PlanRow) => r.Moves());
    } else {
      MovingPick(rows[..|rows| - 1]);
      PicksOneMore(Moving(rows[..|rows| - 1]), rows, (r: PlanRow) => r.Moves());
    }
  }

  lemma {:induction false} MovingAre(rows: seq<PlanRow>, r: PlanRow)
    ensures r in Moving(rows) <==> r in rows && r.Moves()
  {
    if |rows| > 0 {
      var n := |rows| - 1;
      MovingAre(rows[..n], r);
      assert rows == rows[..n] + [rows[n]];
    }
  }

  lemma {:induction false} MovingIsDistinct(rows: seq<PlanRow>)
    requires DistinctRows(rows)
    ensures DistinctRows(Moving(rows))
  {
    if |rows| > 0 {
      var n := |rows| - 1;
      MovingIsDistinct(rows[..n]);
      forall r | r in Moving(rows[..n]) ensures r != rows[n] && r.candidate.key != rows[n].candidate.key {
        MovingAre(rows[..n], r);
        var i :| 0 <= i < n && rows[..n][i] == r;
        assert rows[i] == r;
      }
    }
  }

  // ── Applying ────────────────────────────────────────────────────────────────

  /** A version taken through its steps in a run that began in world `first`: published, unless it was
      the live one already, and then still approved with nothing older live. */
  predicate Complete(first: World, w: World, ages: Ages, key: Key) {
    && key in w.states
    && (w.states[key] == Published <==> !IsLive(first, key))
    && (w.states[key] == Published || Torn(w, ages, key))
  }

  /** Whether a version is live, as far as its own publish can tell: it was at first and nothing older
      is now, or it was not and is not. */
  predicate LiveAsBefore(first: World, w: World, ages: Ages, key: Key) {
    if IsLive(first, key) then LiveSince(w, ages, key) else !IsLive(w, key)
  }

  /** Between two worlds nothing happened to a version, and what is live did not get older. */
  ghost predicate Spared(w: World, w': World, ages: Ages, key: Key) {
    && (key in w.states <==> key in w'.states)
    && (key in w.states ==> w'.states[key] == w.states[key])
    && Logged(w', key) == Logged(w, key)
    && (LiveSince(w, ages, key) ==> LiveSince(w', ages, key))
    && (!IsLive(w, key) ==> !IsLive(w', key))
  }

  /** Only one version was touched. */
  ghost predicate OnlyTouched(w: World, w': World, ages: Ages, key: Key) {
    forall other :: other != key ==> Spared(w, w', ages, other)
  }

  lemma StepTouchesOne(w: World, ages: Ages, step: Step, key: Key, expected: Option<string>, torn: bool)
    requires ExpectsOlder(ages, key, expected)
    ensures OnlyTouched(w, Performed(w, step, key, expected, torn), ages, key)
  {
    forall other | other != key ensures Spared(w, Performed(w, step, key, expected, torn), ages, other) {
      OthersStay(w, step, key, expected, torn, other);
      if LiveSince(w, ages, other) {
        LiveStays(w, ages, step, key, expected, torn, other);
      }
    }
  }

  lemma TouchedTwice(a: World, b: World, c: World, ages: Ages, key: Key)
    requires OnlyTouched(a, b, ages, key) && OnlyTouched(b, c, ages, key)
    ensures OnlyTouched(a, c, ages, key)
  {
    forall other | other != key ensures Spared(a, c, ages, other) {
      assert Spared(a, b, ages, other) && Spared(b, c, ages, other);
    }
  }

  /** Once a step is answered, the version needs the steps after it, or is complete. */
  lemma AnsweredStep(w: World, ages: Ages, step: Step, key: Key, expected: Option<string>)
    requires IsNext(w, key, step) && Accepted(w, step, key, expected)
    ensures var w' := Performed(w, step, key, expected, false);
            && key in w'.states
            && (step != Publish ==> Remaining(w'.states[key]) == Remaining(w.states[key])[1..])
            && (step != Publish ==> w'.pointers == w.pointers)
            && (step == Publish ==> |Remaining(w.states[key])| == 1
                                    && if IsLive(w, key) then w' == w else w'.states[key] == Published)
  {
  }

  /** A row on its way through its steps: the world orderly, nothing else touched, and the version
      needing the steps from `n` on, or complete after the last. The run began in world `run` and the
      row in world `first`. */
  ghost predicate Underway(start: map<Key, State>, ages: Ages, run: World, first: World, w: World, key: Key,
                           steps: seq<Step>, n: nat) {
    && Orderly(start, ages, w) && OnlyTouched(first, w, ages, key)
    && n <= |steps|
    && (if n < |steps| then key in w.states && Remaining(w.states[key]) == steps[n..] && LiveAsBefore(run, w, ages, key)
        else Complete(run, w, ages, key))
  }

  /** However a step's request ends, the world stays orderly and nothing else is touched. */
  lemma StepTaken(start: map<Key, State>, ages: Ages, run: World, first: World, w: World, w': World, key: Key,
                  steps: seq<Step>, n: nat, expected: Option<string>)
    requires Underway(start, ages, run, first, w, key, steps, n) && n < |steps| && ExpectsOlder(ages, key, expected)
    requires w' == w || exists torn :: w' == Performed(w, steps[n], key, expected, torn)
    ensures Orderly(start, ages, w') && OnlyTouched(first, w', ages, key)
  {
    assert IsNext(w, key, steps[n]);
    if torn :| w' == Performed(w, steps[n], key, expected, torn) {
      ClientStepKeeps(start, ages, w, steps[n], key, expected, torn);
      StepTouchesOne(w, ages, steps[n], key, expected, torn);
      TouchedTwice(first, w, w', ages, key);
    }
  }

  lemma StepAnswered(start: map<Key, State>, ages: Ages, run: World, first: World, w: World, w': World, key: Key,
                     steps: seq<Step>, n: nat, expected: Option<string>)
    requires Underway(start, ages, run, first, w, key, steps, n) && n < |steps| && ExpectsOlder(ages, key, expected)
    requires Accepted(w, steps[n], key, expected) && w' == Performed(w, steps[n], key, expected, false)
    ensures Underway(start, ages, run, first, w', key, steps, n + 1)
  {
    StepTaken(start, ages, run, first, w, w', key, steps, n, expected);
    assert IsNext(w, key, steps[n]);
    AnsweredStep(w, ages, steps[n], key, expected);
    RestOfSteps(steps, n);
    if steps[n] == Publish {
      PublishCompletes(run, w, ages, key, expected);
    }
  }

  /** An answered publish completes its version. */
  lemma PublishCompletes(run: World, w: World, ages: Ages, key: Key, expected: Option<string>)
    requires IsNext(w, key, Publish) && LiveAsBefore(run, w, ages, key) && ExpectsOlder(ages, key, expected)
    requires Accepted(w, Publish, key, expected)
    ensures Complete(run, Performed(w, Publish, key, expected, false), ages, key)
  {
    PublishedIff(w, key, expected);
  }

  lemma RestOfSteps(steps: seq<Step>, n: nat)
    requires n < |steps|
    ensures |steps[n..]| == |steps| - n && steps[n..][0] == steps[n] && steps[n..][1..] == steps[n + 1..]
  {
  }

  lemma RowStarts(start: map<Key, State>, ages: Ages, run: World, w: World, key: Key, steps: seq<Step>)
    requires Orderly(start, ages, w) && key in w.states && steps == Remaining(w.states[key]) && |steps| > 0
    requires LiveAsBefore(run, w, ages, key)
    ensures Underway(start, ages, run, w, w, key, steps, 0)
  {
    assert steps[0..] == steps;
  }

  lemma RowEnds(start: map<Key, State>, ages: Ages, run: World, first: World, w: World, key: Key, steps: seq<Step>)
    requires Underway(start, ages, run, first, w, key, steps, |steps|)
    ensures Orderly(start, ages, w) && OnlyTouched(first, w, ages, key) && Complete(run, w, ages, key)
  {
  }

  lemma OneStepMore(steps: seq<Step>, n: nat)
    requires n < |steps|
    ensures steps[..n] + [steps[n]] == steps[..n + 1]
  {
  }

  /** The steps of one row, the first refusal or failure ending it. */
  method MoveRow(server: Server, row: PlanRow, ghost run: World, ghost start: map<Key, State>, ghost ages: Ages)
    returns (reply: Reply)
    requires Orderly(start, ages, server.world) && ExpectsOlder(ages, row.candidate.key, row.candidate.expected)
    requires row.candidate.key in server.world.states && row.steps == Remaining(server.world.states[row.candidate.key])
    requires row.Moves() && row.done == [] && LiveAsBefore(run, server.world, ages, row.candidate.key)
    modifies server, row`done
    ensures Orderly(start, ages, server.world) && OnlyTouched(old(server.world), server.world, ages, row.candidate.key)
    ensures row.done <= row.steps
    ensures reply.Answered? ==> row.done == row.steps && Complete(run, server.world, ages, row.candidate.key)
    ensures !reply.Answered? ==> |row.done| < |row.steps|
  {
    var key, expected, steps := row.candidate.key, row.candidate.expected, row.steps;
    ghost var first := server.world;
    RowStarts(start, ages, run, first, key, steps);
    for n := 0 to |steps|
      invariant Underway(start, ages, run, first, server.world, key, steps, n)
      invariant row.done == steps[..n]
    {
      ghost var before := server.world;
      reply := server.Take(steps[n], key, expected);
      StepTaken(start, ages, run, first, before, server.world, key, steps, n, expected);
      if !reply.Answered? {
        return;
      }
      StepAnswered(start, ages, run, first, before, server.world, key, steps, n, expected);
      OneStepMore(steps, n);
      row.done := row.done + [steps[n]];
    }
    RowEnds(start, ages, run, first, server.world, key, steps);
    reply := Answered;
  }

  // ── A whole apply ───────────────────────────────────────────────────────────

  /** A row still to be taken: its steps are what its version needs, and none is done. */
  ghost predicate Pending(w: World, ages: Ages, row: PlanRow)
    reads row
  {
    && row.candidate.key in w.states && row.steps == Remaining(w.states[row.candidate.key]) && row.Moves()
    && row.done == [] && ExpectsOlder(ages, row.candidate.key, row.candidate.expected)
  }

  function KeysOf(moving: seq<PlanRow>): (keys: seq<Key>)
    ensures |keys| == |moving|
  {
    seq(|moving|, k requires 0 <= k < |moving| => moving[k].candidate.key)
  }

  /** Where the versions stand while row `at` is under way: those before it complete, nothing having
      happened to those from `rest` on. */
  ghost predicate VersionsStand(first: World, w: World, ages: Ages, keys: seq<Key>, at: nat, rest: nat) {
    && (forall k :: 0 <= k < |keys| && k < at ==> Complete(first, w, ages, keys[k]))
    && (forall k :: rest <= k < |keys| ==> Spared(first, w, ages, keys[k]))
  }

  /** The steps done while row `at` is under way: all of every row before it, none of those after. */
  predicate DoneStands(moving: seq<PlanRow>, at: nat)
    reads moving
  {
    && (forall k :: 0 <= k < |moving| && k < at ==> moving[k].done == moving[k].steps)
    && (forall k :: at < k < |moving| ==> moving[k].done == [])
  }

  lemma SparedKeeps(a: World, b: World, c: World, ages: Ages, key: Key)
    requires Spared(b, c, ages, key)
    ensures Complete(a, b, ages, key) ==> Complete(a, c, ages, key)
    ensures Spared(a, b, ages, key) ==> Spared(a, c, ages, key)
  {
  }

  /** While one row moves, the versions of the others stand. */
  lemma OthersStand(first: World, w: World, w': World, ages: Ages, keys: seq<Key>, n: nat, complete: bool)
    requires n < |keys| && OnlyTouched(w, w', ages, keys[n])
    requires forall i, j :: 0 <= i < j < |keys| ==> keys[i] != keys[j]
    requires VersionsStand(first, w, ages, keys, n, n)
    requires complete ==> Complete(first, w', ages, keys[n])
    ensures complete ==> VersionsStand(first, w', ages, keys, n + 1, n + 1)
    ensures VersionsStand(first, w', ages, keys, n, n + 1)
  {
    forall k | 0 <= k < |keys| && k != n ensures Spared(w, w', ages, keys[k]) {
    }
    forall k | 0 <= k < n ensures Complete(first, w', ages, keys[k]) {
      SparedKeeps(first, w, w', ages, keys[k]);
    }
    forall k | n < k < |keys| ensures Spared(first, w', ages, keys[k]) {
      SparedKeeps(first, w, w', ages, keys[k]);
    }
  }

  lemma NextIsPending(first: World, w: World, ages: Ages, keys: seq<Key>, n: nat, steps: seq<Step>)
    requires n < |keys| && VersionsStand(first, w, ages, keys, n, n)
    requires keys[n] in first.states && steps == Remaining(first.states[keys[n]])
    ensures keys[n] in w.states && steps == Remaining(w.states[keys[n]]) && LiveAsBefore(first, w, ages, keys[n])
  {
    assert Spared(first, w, ages, keys[n]);
  }

  lemma KeysAreDistinct(moving: seq<PlanRow>)
    requires DistinctRows(moving)
    ensures forall i, j :: 0 <= i < j < |moving| ==> KeysOf(moving)[i] != KeysOf(moving)[j]
  {
  }

  ghost predicate AllPending(w: World, ages: Ages, moving: seq<PlanRow>)
    reads moving
  {
    forall k :: 0 <= k < |moving| ==> Pending(w, ages, moving[k])
  }

  /** Rows before `at` all done, rows from `at` on not begun. */
  predicate DoneUpTo(moving: seq<PlanRow>, at: nat)
    reads moving
  {
    && (forall k :: 0 <= k < |moving| && k < at ==> moving[k].done == moving[k].steps)
    && (forall k :: at <= k < |moving| ==> moving[k].done == [])
  }

  /** One moving row through its steps, the others standing where they stood. */
  method MoveNth(server: Server, moving: seq<PlanRow>, at: nat, row: PlanRow, ghost first: World,
                 ghost start: map<Key, State>, ghost ages: Ages)
    returns (reply: Reply)
    requires at < |moving| && row == moving[at] && DistinctRows(moving) && DoneUpTo(moving, at)
    requires Orderly(start, ages, server.world) && VersionsStand(first, server.world, ages, KeysOf(moving), at, at)
    requires row.candidate.key in first.states && row.steps == Remaining(first.states[row.candidate.key])
    requires row.Moves() && ExpectsOlder(ages, row.candidate.key, row.candidate.expected)
    modifies server, row`done
    ensures Orderly(start, ages, server.world)
    ensures reply.Answered? ==> VersionsStand(first, server.world, ages, KeysOf(moving), at + 1, at + 1)
    ensures VersionsStand(first, server.world, ages, KeysOf(moving), at, at + 1)
    ensures reply.Answered? ==> DoneUpTo(moving, at + 1)
    ensures !reply.Answered? ==> DoneStands(moving, at) && row.done <= row.steps && |row.done| < |row.steps|
  {
    KeysAreDistinct(moving);
    assert forall k :: 0 <= k < |moving| && k != at ==> moving[k] != row;
    reply := MoveAmong(server, row, KeysOf(moving), at, first, start, ages);
    assert forall k :: 0 <= k < at ==> moving[k].done == moving[k].steps;
  }

  /** One row through its steps, the versions of the others standing where they stood. */
  method MoveAmong(server: Server, row: PlanRow, ghost keys: seq<Key>, ghost at: nat, ghost first: World,
                   ghost start: map<Key, State>, ghost ages: Ages) returns (reply: Reply)
    requires at < |keys| && keys[at] == row.candidate.key && forall i, j :: 0 <= i < j < |keys| ==> keys[i] != keys[j]
    requires Orderly(start, ages, server.world) && VersionsStand(first, server.world, ages, keys, at, at)
    requires row.candidate.key in first.states && row.steps == Remaining(first.states[row.candidate.key])
    requires row.Moves() && row.done == [] && ExpectsOlder(ages, row.candidate.key, row.candidate.expected)
    modifies server, row`done
    ensures Orderly(start, ages, server.world)
    ensures reply.Answered? ==> VersionsStand(first, server.world, ages, keys, at + 1, at + 1) && row.done == row.steps
    ensures VersionsStand(first, server.world, ages, keys, at, at + 1)
    ensures !reply.Answered? ==> row.done <= row.steps && |row.done| < |row.steps|
  {
    ghost var before := server.world;
    NextIsPending(first, before, ages, keys, at, row.steps);
    reply := MoveRow(server, row, first, start, ages);
    OthersStand(first, before, server.world, ages, keys, at, reply.Answered?);
  }

  /** Every moving row through its steps; the first that is not answered ends it. */
  method Apply(server: Server, moving: seq<PlanRow>, ghost start: map<Key, State>, ghost ages: Ages)
    returns (reply: Reply, at: nat)
    requires Orderly(start, ages, server.world) && DistinctRows(moving) && AllPending(server.world, ages, moving)
    modifies server, moving
    ensures Orderly(start, ages, server.world)
    ensures at <= |moving| && (reply.Answered? <==> at == |moving|)
    ensures VersionsStand(old(server.world), server.world, ages, KeysOf(moving), at, at + 1)
    ensures DoneStands(moving, at)
    ensures at < |moving| ==> moving[at].done <= moving[at].steps && |moving[at].done| < |moving[at].steps|
  {
    ghost var first := server.world;
    at := 0;
    while at < |moving|
      invariant at <= |moving| && DoneUpTo(moving, at)
      invariant Orderly(start, ages, server.world) && VersionsStand(first, server.world, ages, KeysOf(moving), at, at)
    {
      reply := MoveNth(server, moving, at, moving[at], first, start, ages);
      if !reply.Answered? {
        return;
      }
      at := at + 1;
    }
    reply := Answered;
  }

  // ── A run, and runs after runs ──────────────────────────────────────────────

  datatype Ending =
    | Listed(code: string)
    | NotConfirmed
    | AllDone(published: nat)
    | StoppedAt(row: nat, step: Step, published: nat)
    | ReadsStopped | ClientKilled

  /** What every evidence row names as live was imported before the row's own version. */
  ghost predicate EvidenceIsOrdered(evidence: map<string, Evidence>, ages: Ages) {
    forall m :: m in evidence ==> RowsAreOrdered(evidence[m].rows, ages)
  }

  ghost predicate RowsAreOrdered(rows: seq<EvidenceRow>, ages: Ages) {
    forall k :: 0 <= k < |rows| ==> ExpectsOlder(ages, Key(rows[k].publicId, rows[k].versionId), rows[k].previous)
  }

  lemma CandidateIsOrdered(c: Candidate, evidence: map<string, Evidence>, lists: Lists, migrationIds: seq<string>,
                           ages: Ages)
    requires EvidenceIsOrdered(evidence, ages) && FromEvidence(c, evidence, lists, migrationIds)
    ensures ExpectsOlder(ages, c.key, c.expected)
  {
    assert RowsAreOrdered(evidence[c.migrationId].rows, ages);
  }

  /** A fresh plan's moving rows are ready to be taken. */
  lemma PlanIsPending(rows: seq<PlanRow>, candidates: seq<Candidate>, server: Server, lists: Lists,
                      migrationIds: seq<string>, ages: Ages)
    requires DistinctRows(rows) && PlannedFrom(rows, candidates, server.world, server.ready) && |rows| == |candidates|
    requires EvidenceIsOrdered(server.evidence, ages)
    requires forall c :: c in candidates ==> FromEvidence(c, server.evidence, lists, migrationIds)
    ensures DistinctRows(Moving(rows)) && AllPending(server.world, ages, Moving(rows))
    ensures forall k :: 0 <= k < |Moving(rows)| ==> Moving(rows)[k] in rows && Moving(rows)[k].Moves()
  {
    MovingIsDistinct(rows);
    forall k | 0 <= k < |Moving(rows)|
      ensures Moving(rows)[k] in rows && Moving(rows)[k].Moves() && Pending(server.world, ages, Moving(rows)[k])
    {
      var r := Moving(rows)[k];
      assert r in Moving(rows);
      MovingAre(rows, r);
      var i :| 0 <= i < |rows| && rows[i] == r;
      assert candidates[i] in candidates;
      CandidateIsOrdered(candidates[i], server.evidence, lists, migrationIds, ages);
    }
  }

  /** How many moving rows have all their steps done, and the first that has not. */
  method Progress(moving: seq<PlanRow>, ghost at: nat) returns (published: nat, stopped: nat)
    requires at <= |moving| && DoneStands(moving, at)
    requires forall k :: at <= k < |moving| ==> moving[k].done != moving[k].steps
    ensures published == at == stopped
  {
    published, stopped := 0, |moving|;
    for k := 0 to |moving|
      invariant published == if k < at then k else at
      invariant stopped == if k <= at then |moving| else at
    {
      if moving[k].done == moving[k].steps {
        published := published + 1;
      } else if stopped == |moving| {
        stopped := k;
      }
    }
  }

  /** What the migrations applied, planned anew. */
  method FreshPlan(server: Server, migrationIds: seq<string>, lists: Lists, ghost ages: Ages) returns (planned: Planned)
    requires EvidenceIsOrdered(server.evidence, ages)
    modifies server`requests
    ensures planned.Rows? ==>
              var moving := Moving(planned.rows);
              && (forall r :: r in planned.rows ==> fresh(r)) && (forall k :: 0 <= k < |moving| ==> fresh(moving[k]))
              && DistinctRows(moving) && AllPending(server.world, ages, moving)
              && IsPlan(planned.rows, server.evidence, lists, migrationIds, server.world, server.ready)
  {
    var selection := Select(server, migrationIds, lists);
    match selection
    case Stopped => return PlanStopped;
    case Interrupted => return PlanInterrupted;
    case Selection(chosen) =>
      planned := Plan(server, chosen);
      if planned.Rows? {
        PlanIsPending(planned.rows, chosen, server, lists, migrationIds, ages);
      }
  }

  /** Exactly the versions that were not live already are published. */
  ghost predicate AllPublishedButLive(first: World, w: World, keys: seq<Key>) {
    forall k :: 0 <= k < |keys| ==> keys[k] in w.states && (w.states[keys[k]] == Published <==> !IsLive(first, keys[k]))
  }

  /** How an apply ended: all done, or stopped at a row with the rows before it done and its version
      complete, and the rows after it and their versions untouched. */
  ghost predicate EndsAs(ending: Ending, first: World, w: World, ages: Ages, moving: seq<PlanRow>)
    reads moving
  {
    match ending
    case AllDone(published) =>
      && published == |moving| && DoneStands(moving, |moving|)
      && VersionsStand(first, w, ages, KeysOf(moving), |moving|, |moving|)
      && AllPublishedButLive(first, w, KeysOf(moving))
    case StoppedAt(row, step, published) =>
      && row < |moving| && published == row && DoneStands(moving, row)
      && VersionsStand(first, w, ages, KeysOf(moving), row, row + 1)
      && moving[row].done <= moving[row].steps && |moving[row].done| < |moving[row].steps|
      && step == moving[row].steps[|moving[row].done|]
    case _ => true
  }

  method ApplyConfirmed(server: Server, moving: seq<PlanRow>, ghost start: map<Key, State>, ghost ages: Ages)
    returns (ending: Ending)
    requires Orderly(start, ages, server.world) && DistinctRows(moving) && AllPending(server.world, ages, moving)
    modifies server, moving
    ensures Orderly(start, ages, server.world)
    ensures ending.AllDone? || ending.StoppedAt? || ending.ClientKilled?
    ensures EndsAs(ending, old(server.world), server.world, ages, moving)
  {
    var reply, at := Apply(server, moving, start, ages);
    if reply.Killed? {
      return ClientKilled;
    }
    var published, stopped := Progress(moving, at);
    if reply.Failed? {
      return StoppedAt(stopped, moving[stopped].steps[|moving[stopped].done|], published);
    }
    return AllDone(published);
  }

  /** The dry run without a code, the apply with one. */
  method Run(server: Server, migrationIds: seq<string>, lists: Lists, confirm: Option<string>,
             digest: seq<Move> -> string,
             ghost start: map<Key, State>, ghost ages: Ages) returns (ending: Ending, rows: seq<PlanRow>)
    requires Orderly(start, ages, server.world) && EvidenceIsOrdered(server.evidence, ages)
    modifies server
    ensures Orderly(start, ages, server.world)
    ensures forall r :: r in rows ==> fresh(r)
    ensures confirm.None? || ending.NotConfirmed? || ending.ReadsStopped? ==> server.world == old(server.world)
    ensures ending.Listed? ==> confirm.None? && ending.code == ConfirmationCode(rows, digest)
    ensures ending.AllDone? || ending.StoppedAt? ==> confirm == Some(ConfirmationCode(rows, digest))
    ensures ending.NotConfirmed? ==> confirm.Some? && confirm.value != ConfirmationCode(rows, digest)
    ensures EndsAs(ending, old(server.world), server.world, ages, Moving(rows))
    // Whatever was listed, refused, done or stopped was the whole plan.
    ensures ending.Listed? || ending.NotConfirmed? || ending.AllDone? || ending.StoppedAt? ==>
              IsPlan(rows, server.evidence, lists, migrationIds, old(server.world), server.ready)
  {
    rows := [];
    var planned := FreshPlan(server, migrationIds, lists, ages);
    if planned.PlanStopped? {
      return ReadsStopped, rows;
    }
    if planned.PlanInterrupted? {
      return ClientKilled, rows;
    }
    rows := planned.rows;
    var code := ConfirmationCode(rows, digest);
    if confirm.None? {
      return Listed(code), rows;
    }
    if confirm.value != code {
      return NotConfirmed, rows;
    }
    ending := ApplyConfirmed(server, Moving(rows), start, ages);
  }

  /** One call of the script. */
  datatype Call = Call(migrationIds: seq<string>, lists: Lists, confirm: Option<string>)

  /** The transitions of every version are the first ones it needed, each once and in order. */
  ghost predicate OncePerStep(start: map<Key, State>, w: World) {
    forall key :: key in start ==> Logged(w, key) <= Remaining(start[key])
  }

  lemma OrderlyAtStart(w: World, ages: Ages)
    requires w.log == map[]
    ensures Orderly(w.states, ages, w)
  {
  }

  lemma OrderlyIsOnce(start: map<Key, State>, ages: Ages, w: World)
    requires Orderly(start, ages, w)
    ensures OncePerStep(start, w)
  {
    forall key | key in start ensures Logged(w, key) <= Remaining(start[key]) {
      assert KeepsTo(start[key], w, ages, key);
    }
  }

  /** A version that started as a draft took a prefix of submit, approve, publish. */
  lemma DraftsTakeAPrefix(start: map<Key, State>, w: World, key: Key)
    requires OncePerStep(start, w) && key in start
    ensures start[key] == Draft ==> Logged(w, key) <= [SubmitReview, Approve, Publish]
    ensures Remaining(start[key]) == [] ==> Logged(w, key) == []
    ensures forall i, j :: 0 <= i < j < |Logged(w, key)| ==> Logged(w, key)[i] != Logged(w, key)[j]
  {
    var needed := Remaining(start[key]);
    assert forall i, j :: 0 <= i < j < |needed| ==> needed[i] != needed[j];
    assert Logged(w, key) <= needed;
  }

  /** Run after run, whatever becomes of each. */
  method Campaign(server: Server, calls: seq<Call>, digest: seq<Move> -> string, ghost ages: Ages)
    requires server.world.log == map[] && EvidenceIsOrdered(server.evidence, ages)
    modifies server
    ensures OncePerStep(old(server.world).states, server.world)
    ensures Orderly(old(server.world).states, ages, server.world)
  {
    ghost var start := server.world.states;
    OrderlyAtStart(server.world, ages);
    for n := 0 to |calls|
      invariant Orderly(start, ages, server.world)
    {
      var ending, rows := Run(server, calls[n].migrationIds, calls[n].lists, calls[n].confirm, digest, start, ages);
    }
    OrderlyIsOnce(start, ages, server.world);
  }
}
