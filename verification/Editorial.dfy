/** Turning an editorial batch into lesson drafts, `scripts/editorial_batch_to_migration.py`: one
    report row for every record, the convertible ones filed under their knowledge card, and each
    card's exercises cut into lessons of near-equal size. */
module Editorial {
  import opened Options
  import opened Lists
  import opened Sorting
  import opened Counting
  import opened Grouping
  import opened Division
  import opened Decimals

  const SCHEMA_VERSION := "stoa-editorial-1.0"
  const FIRST_IMPORTED_ORDER: nat := 101
  const MINUTES_PER_EXERCISE: nat := 3

  /** An exercise record. `problem` is what makes it not answerable here, `textProblem` what is wrong
      with its texts; `steps` counts the lines of its explanation. */
  datatype Exercise = Exercise(id: string, exerciseId: string, problem: Option<string>, textProblem: Option<string>,
                               steps: nat, promptLength: nat)

  /** A knowledge card with its platform references; an absent reference is empty. */
  datatype Card = Card(lessonId: string, unit: string, skill: string, proposedSkill: string, textTooLong: bool)

  datatype Link = Link(exerciseId: string, knowledgeId: string, primary: bool)

  /** `owners` are the registered skills with the unit each belongs to. */
  datatype Batch = Batch(schema: string, id: string, cards: map<string, Card>, links: seq<Link>,
                         exercises: seq<Exercise>, owners: map<string, string>)

  datatype Reason =
    | NotAnswerable(what: string)
    | PrimaryLinks(count: nat)
    | CardMissing(knowledgeId: string)
    | SkillElsewhere(skill: string)
    | SkillUnregistered
    | BadText(what: string)
    | CardTextTooLong(knowledgeId: string)

  datatype Decision = Skip(reason: Reason) | Convert(knowledgeId: string, skill: string)

  // ── What becomes of a record ────────────────────────────────────────────────

  /** The knowledge points a record is primarily linked to. */
  function Primary(links: seq<Link>, id: string): seq<string> {
    if |links| == 0 then []
    else
      var n := |links| - 1;
      Primary(links[..n], id) + if links[n].exerciseId == id && links[n].primary then [links[n].knowledgeId] else []
  }

  /** The first of a card's skills that is registered decides, the proposed one last. */
  function RegisteredSkill(card: Card, owners: map<string, string>): Decision {
    if card.skill != "" && card.skill in owners then
      if owners[card.skill] == card.unit then Convert("", card.skill) else Skip(SkillElsewhere(card.skill))
    else if card.proposedSkill != "" && card.proposedSkill in owners then
      if owners[card.proposedSkill] == card.unit then Convert("", card.proposedSkill)
         else Skip(SkillElsewhere(card.proposedSkill))
    else Skip(SkillUnregistered)
  }

  function Decide(batch: Batch, e: Exercise): Decision {
    var primary := Primary(batch.links, e.id);
    if e.problem.Some? then Skip(NotAnswerable(e.problem.value))
    else if |primary| != 1 then Skip(PrimaryLinks(|primary|))
    else if primary[0] !in batch.cards then Skip(CardMissing(primary[0]))
    else
      var card := batch.cards[primary[0]];
      var skill := RegisteredSkill(card, batch.owners);
      if skill.Skip? then skill
      else if e.textProblem.Some? then Skip(BadText(e.textProblem.value))
      else if card.textTooLong then Skip(CardTextTooLong(primary[0]))
      else Convert(primary[0], skill.skill)
  }

  // ── What that means ─────────────────────────────────────────────────────────

  /** Link `k` names the record, and does so primarily. */
  predicate PrimaryAt(links: seq<Link>, id: string, k: int) {
    0 <= k < |links| && links[k].exerciseId == id && links[k].primary
  }

  ghost predicate OnlyPrimary(links: seq<Link>, id: string, k: int) {
    PrimaryAt(links, id, k) && forall j :: PrimaryAt(links, id, j) ==> j == k
  }

  function PrimaryLinksOf(links: seq<Link>, id: string): set<int> {
    set k | 0 <= k < |links| && PrimaryAt(links, id, k)
  }

  lemma MorePrimary(links: seq<Link>, id: string)
    requires |links| > 0
    ensures var n := |links| - 1;
            && (forall k :: PrimaryAt(links[..n], id, k) <==> PrimaryAt(links, id, k) && k != n)
            && PrimaryLinksOf(links, id) == PrimaryLinksOf(links[..n], id) + if PrimaryAt(links, id, n) then {n} else {}
  {
    var n := |links| - 1;
    forall k ensures PrimaryAt(links[..n], id, k) <==> PrimaryAt(links, id, k) && k != n {
      assert 0 <= k < n ==> links[..n][k] == links[k];
    }
  }

  /** There is a primary card for each primary link of the record. */
  lemma {:induction false} PrimaryCount(links: seq<Link>, id: string)
    ensures |Primary(links, id)| == |PrimaryLinksOf(links, id)|
  {
    if |links| > 0 {
      PrimaryCount(links[..|links| - 1], id);
      MorePrimary(links, id);
    }
  }

  lemma {:induction false} PrimaryOnly(links: seq<Link>, id: string, k: int)
    requires OnlyPrimary(links, id, k)
    ensures Primary(links, id) == [links[k].knowledgeId]
  {
    var n := |links| - 1;
    MorePrimary(links, id);
    if k < n {
      PrimaryOnly(links[..n], id, k);
    } else {
      NoPrimaryBefore(links[..n], id);
    }
  }

  lemma {:induction false} NoPrimaryBefore(links: seq<Link>, id: string)
    requires forall k :: !PrimaryAt(links, id, k)
    ensures Primary(links, id) == []
  {
    if |links| > 0 {
      MorePrimary(links, id);
      NoPrimaryBefore(links[..|links| - 1], id);
      assert !PrimaryAt(links, id, |links| - 1);
    }
  }

  lemma OneIsOnly(links: seq<Link>, id: string)
    ensures |Primary(links, id)| == 1 <==> exists k :: OnlyPrimary(links, id, k)
  {
    PrimaryCount(links, id);
    var at := PrimaryLinksOf(links, id);
    if k :| OnlyPrimary(links, id, k) {
      PrimaryOnly(links, id, k);
    }
    if |at| == 1 {
      var k :| k in at;
      assert |at - {k}| == 0;
      assert OnlyPrimary(links, id, k) by {
        forall j | PrimaryAt(links, id, j) ensures j == k {
          assert j in at && (j != k ==> j in at - {k});
        }
      }
    }
  }

  /** A reference that the register knows. */
  predicate Known(skill: string, owners: map<string, string>) {
    skill != "" && skill in owners
  }

  /** The skill that decides for a card: the platform's where it is known, else the proposed one. */
  predicate Decides(skill: string, card: Card, owners: map<string, string>) {
    || (Known(card.skill, owners) && skill == card.skill)
    || (!Known(card.skill, owners) && Known(card.proposedSkill, owners) && skill == card.proposedSkill)
  }

  /** The one card of a record: no other primary link, and the card is there. */
  ghost predicate FiledUnder(batch: Batch, e: Exercise, knowledgeId: string) {
    exists k :: OnlyPrimary(batch.links, e.id, k) && batch.links[k].knowledgeId == knowledgeId
  }

  /** When a record converts. */
  ghost predicate Eligible(batch: Batch, e: Exercise, knowledgeId: string, skill: string) {
    && e.problem.None? && e.textProblem.None?
    && FiledUnder(batch, e, knowledgeId) && knowledgeId in batch.cards
    && var card := batch.cards[knowledgeId];
       && !card.textTooLong && Decides(skill, card, batch.owners) && batch.owners[skill] == card.unit
  }

  /** When a record is skipped, and why. */
  ghost predicate SkippedFor(batch: Batch, e: Exercise, reason: Reason) {
    match reason
    case NotAnswerable(what) => e.problem == Some(what)
    case PrimaryLinks(count) =>
      e.problem.None? && count != 1 && count == |PrimaryLinksOf(batch.links, e.id)|
    case CardMissing(knowledgeId) =>
      e.problem.None? && FiledUnder(batch, e, knowledgeId) && knowledgeId !in batch.cards
    case SkillElsewhere(skill) =>
      e.problem.None? && exists knowledgeId ::
        && FiledUnder(batch, e, knowledgeId) && knowledgeId in batch.cards
        && Decides(skill, batch.cards[knowledgeId], batch.owners)
        && batch.owners[skill] != batch.cards[knowledgeId].unit
    case SkillUnregistered =>
      e.problem.None? && exists knowledgeId ::
        && FiledUnder(batch, e, knowledgeId) && knowledgeId in batch.cards
        && !Known(batch.cards[knowledgeId].skill, batch.owners)
        && !Known(batch.cards[knowledgeId].proposedSkill, batch.owners)
    case BadText(what) =>
      e.problem.None? && e.textProblem == Some(what) && exists knowledgeId, skill ::
        FiledUnder(batch, e, knowledgeId) && HasSkill(batch, knowledgeId, skill)
    case CardTextTooLong(knowledgeId) =>
      && e.problem.None? && e.textProblem.None? && FiledUnder(batch, e, knowledgeId)
      && (exists skill :: HasSkill(batch, knowledgeId, skill)) && batch.cards[knowledgeId].textTooLong
  }

  /** A card of the batch whose deciding skill belongs to its unit. */
  predicate HasSkill(batch: Batch, knowledgeId: string, skill: string) {
    && knowledgeId in batch.cards && Decides(skill, batch.cards[knowledgeId], batch.owners)
    && batch.owners[skill] == batch.cards[knowledgeId].unit
  }

  lemma FiledUnderIff(batch: Batch, e: Exercise, knowledgeId: string)
    ensures FiledUnder(batch, e, knowledgeId) <==> Primary(batch.links, e.id) == [knowledgeId]
  {
    OneIsOnly(batch.links, e.id);
    if k :| OnlyPrimary(batch.links, e.id, k) {
      PrimaryOnly(batch.links, e.id, k);
    }
  }

  lemma RegisteredIff(card: Card, owners: map<string, string>)
    ensures forall skill :: RegisteredSkill(card, owners) == Skip(SkillElsewhere(skill))
                            <==> Decides(skill, card, owners) && owners[skill] != card.unit
    ensures RegisteredSkill(card, owners) == Skip(SkillUnregistered)
            <==> !Known(card.skill, owners) && !Known(card.proposedSkill, owners)
    ensures forall skill :: RegisteredSkill(card, owners) == Convert("", skill)
                            <==> Decides(skill, card, owners) && owners[skill] == card.unit
  {
  }

  /** A record converts to a card and a skill exactly when one and only one of its links is primary,
      that link's card is in the batch, and the skill that decides for the card belongs to its unit. */
  lemma ConvertedIsEligible(batch: Batch, e: Exercise, knowledgeId: string, skill: string)
    ensures Decide(batch, e) == Convert(knowledgeId, skill) <==> Eligible(batch, e, knowledgeId, skill)
  {
    FiledUnderIff(batch, e, knowledgeId);
    if knowledgeId in batch.cards {
      RegisteredIff(batch.cards[knowledgeId], batch.owners);
    }
    var primary := Primary(batch.links, e.id);
    assert |primary| == 1 ==> primary == [primary[0]];
  }

  /** And it is skipped for a reason exactly when that reason holds. */
  lemma SkippedIff(batch: Batch, e: Exercise, reason: Reason)
    ensures Decide(batch, e) == Skip(reason) <==> SkippedFor(batch, e, reason)
  {
    var primary := Primary(batch.links, e.id);
    PrimaryCount(batch.links, e.id);
    forall knowledgeId ensures FiledUnder(batch, e, knowledgeId) <==> primary == [knowledgeId] {
      FiledUnderIff(batch, e, knowledgeId);
    }
    assert |primary| == 1 ==> primary == [primary[0]];
    if |primary| == 1 && primary[0] in batch.cards {
      RegisteredIff(batch.cards[primary[0]], batch.owners);
      SomeSkill(batch, primary[0]);
    }
  }

  lemma SomeSkill(batch: Batch, knowledgeId: string)
    requires knowledgeId in batch.cards
    ensures RegisteredSkill(batch.cards[knowledgeId], batch.owners).Convert?
            <==> exists skill :: HasSkill(batch, knowledgeId, skill)
  {
    var card := batch.cards[knowledgeId];
    RegisteredIff(card, batch.owners);
    if RegisteredSkill(card, batch.owners).Convert? {
      assert HasSkill(batch, knowledgeId, RegisteredSkill(card, batch.owners).skill);
    }
  }

  /** The card a record is filed under, if it converts. */
  function CardOf(batch: Batch): Exercise -> Option<string> {
    (e: Exercise) => match Decide(batch, e) case Skip(_) => None case Convert(knowledgeId, _) => Some(knowledgeId)
  }

  // ── Filing ──────────────────────────────────────────────────────────────────

  datatype Status =
    | Skipped(reason: Reason)
    | Converted(exerciseId: string, knowledgeId: string, skill: string, lessonId: string)

  /** One report row. */
  datatype Row = Row(id: string, status: Status)

  /** The row says what became of the record. */
  predicate Tells(row: Row, batch: Batch, e: Exercise) {
    && row.id == e.id
    && match Decide(batch, e)
       case Skip(reason) => row.status == Skipped(reason)
       case Convert(knowledgeId, skill) =>
         && row.status.Converted?
         && row.status.exerciseId == e.exerciseId && row.status.knowledgeId == knowledgeId && row.status.skill == skill
  }

  /** A card's lesson while it is being filled. The place it gives an exercise is overwritten by the
      split, so it is not kept. */
  type Lesson = Group<Exercise>

  /** The row of a record; the lesson of a converted one is named later. */
  function RowOf(e: Exercise, decision: Decision): Row {
    match decision
    case Skip(reason) => Row(e.id, Skipped(reason))
    case Convert(knowledgeId, skill) => Row(e.id, Converted(e.exerciseId, knowledgeId, skill, ""))
  }

  lemma KeyOfDecision(batch: Batch, e: Exercise)
    ensures Tells(RowOf(e, Decide(batch, e)), batch, e)
    ensures CardOf(batch)(e)
         == match Decide(batch, e)
            case Skip(_) => None
            case Convert(knowledgeId, _) => Some(knowledgeId)
  {
  }

  /** The first loop: a row for every record, and the converted ones filed under their cards. */
  method FileRecords(batch: Batch) returns (lessons: seq<Lesson>, rows: seq<Row>)
    ensures |rows| == |batch.exercises| && forall n :: 0 <= n < |rows| ==> Tells(rows[n], batch, batch.exercises[n])
    ensures Grouped(batch.exercises, CardOf(batch), lessons)
  {
    lessons, rows := [], [];
    var exercises := batch.exercises;
    for n := 0 to |exercises|
      invariant |rows| == n && forall i :: 0 <= i < n ==> Tells(rows[i], batch, exercises[i])
      invariant Grouped(exercises[..n], CardOf(batch), lessons)
    {
      var e := exercises[n];
      assert exercises[..n + 1] == exercises[..n] + [e];
      var decision := Decide(batch, e);
      KeyOfDecision(batch, e);
      match decision {
        case Skip(reason) =>
          OneMoreUnkeyed(exercises[..n], CardOf(batch), lessons, e);
        case Convert(knowledgeId, skill) =>
          OneMoreGrouped(exercises[..n], CardOf(batch), lessons, e);
          lessons := Added(lessons, knowledgeId, e);
      }
      rows := rows + [RowOf(e, decision)];
    }
    assert exercises[..|exercises|] == exercises;
  }

  // ── Splitting a card's exercises ────────────────────────────────────────────

  datatype Numbered = Numbered(record: Exercise, order: nat)

  /** One lesson draft; `number` is its part, zero when the card makes one lesson. */
  datatype Part = Part(lessonId: string, number: nat, unit: string, minutes: nat, exercises: seq<Numbered>)

  /** Fewer solution steps first, then the shorter prompt. */
  function Easier(): (Exercise, Exercise) -> bool {
    (a: Exercise, b: Exercise) => a.steps < b.steps || (a.steps == b.steps && a.promptLength <= b.promptLength)
  }

  function Records(exercises: seq<Numbered>): (records: seq<Exercise>)
    ensures |records| == |exercises|
  {
    seq(|exercises|, k requires 0 <= k < |exercises| => exercises[k].record)
  }

  function AllRecords(parts: seq<Part>): seq<Exercise> {
    if |parts| == 0 then [] else AllRecords(parts[..|parts| - 1]) + Records(parts[|parts| - 1].exercises)
  }

  function NumberedFrom(chunk: seq<Exercise>): seq<Numbered> {
    seq(|chunk|, k requires 0 <= k < |chunk| => Numbered(chunk[k], k + 1))
  }

  function PartOf(card: Card, count: nat, index: nat, chunk: seq<Exercise>): Part {
    Part(if count > 1 then card.lessonId + "-" + Text(index + 1) else card.lessonId,
         if count > 1 then index + 1 else 0,
         card.unit,
         if MINUTES_PER_EXERCISE * |chunk| > 5 then MINUTES_PER_EXERCISE * |chunk| else 5,
         NumberedFrom(chunk))
  }

  function PartsOf(card: Card, count: nat, chunks: seq<seq<Exercise>>): (parts: seq<Part>)
    ensures |parts| == |chunks|
  {
    seq(|chunks|, k requires 0 <= k < |chunks| => PartOf(card, count, k, chunks[k]))
  }

  /** As few chunks as hold the exercises, of one to `most` each, no chunk more than one longer than
      another and the longer ones first. */
  ghost predicate IsCut(chunks: seq<seq<Exercise>>, exercises: seq<Exercise>, most: nat)
    requires most > 0
  {
    && |chunks| == CeilingDivide(|exercises|, most)
    && Joined(chunks) == exercises
    && (forall k :: 0 <= k < |chunks| ==> 1 <= |chunks[k]| <= most)
    && (forall j, k :: 0 <= j < k < |chunks| ==> |chunks[k]| <= |chunks[j]| <= |chunks[k]| + 1)
  }

  /** The parts of a card: its exercises, easiest first, cut evenly. */
  ghost predicate IsSplit(parts: seq<Part>, exercises: seq<Exercise>, card: Card, most: nat)
    requires most > 0
  {
    exists chunks :: IsCut(chunks, Sorted(exercises, Easier()), most) && parts == PartsOf(card, |chunks|, chunks)
  }

  lemma {:induction false} PartsHoldChunks(card: Card, count: nat, chunks: seq<seq<Exercise>>)
    ensures AllRecords(PartsOf(card, count, chunks)) == Joined(chunks)
  {
    if |chunks| > 0 {
      var n := |chunks| - 1;
      var parts := PartsOf(card, count, chunks);
      PartsHoldChunks(card, count, chunks[..n]);
      assert parts[..n] == PartsOf(card, count, chunks[..n]);
      assert Records(parts[n].exercises) == chunks[n];
    }
  }

  /** A split keeps its exercises, easiest first. */
  lemma SplitKeeps(parts: seq<Part>, exercises: seq<Exercise>, card: Card, most: nat)
    requires most > 0 && IsSplit(parts, exercises, card, most)
    ensures multiset(AllRecords(parts)) == multiset(exercises)
    // Fewer solution steps first, then the shorter prompt, then the order they came in.
    ensures forall i, j :: 0 <= i < j < |AllRecords(parts)| ==>
              var a, b := AllRecords(parts)[i], AllRecords(parts)[j];
              a.steps < b.steps || (a.steps == b.steps && a.promptLength <= b.promptLength)
    ensures forall e :: AsEasy(AllRecords(parts), e) == AsEasy(exercises, e)
  {
    var chunks :| IsCut(chunks, Sorted(exercises, Easier()), most) && parts == PartsOf(card, |chunks|, chunks);
    PartsHoldChunks(card, |chunks|, chunks);
    SortPermutes(exercises, Easier());
    EasiestFirst(exercises);
    forall e ensures AsEasy(AllRecords(parts), e) == AsEasy(exercises, e) {
      SortIsStable(exercises, Easier(), e);
      AlikeAreAsEasy(exercises, e);
      AlikeAreAsEasy(AllRecords(parts), e);
    }
  }

  /** The exercises with as many steps and as long a prompt as another, in order. */
  function AsEasy(exercises: seq<Exercise>, e: Exercise): seq<Exercise> {
    if |exercises| == 0 then []
    else
      (if exercises[0].steps == e.steps && exercises[0].promptLength == e.promptLength then [exercises[0]] else [])
      + AsEasy(exercises[1..], e)
  }

  lemma {:induction false} AlikeAreAsEasy(exercises: seq<Exercise>, e: Exercise)
    ensures Alike(exercises, Easier(), e) == AsEasy(exercises, e)
  {
    if |exercises| > 0 {
      AlikeAreAsEasy(exercises[1..], e);
    }
  }

  /** The parts of a split hold one to `most` exercises each, numbered from 1, no part more than one
      longer than another and the longer ones first. */
  lemma SplitIsEven(parts: seq<Part>, exercises: seq<Exercise>, card: Card, most: nat)
    requires most > 0 && IsSplit(parts, exercises, card, most)
    ensures |parts| == CeilingDivide(|exercises|, most)
    ensures forall k :: 0 <= k < |parts| ==> 1 <= |parts[k].exercises| <= most && parts[k].unit == card.unit
    ensures forall k, i :: 0 <= k < |parts| && 0 <= i < |parts[k].exercises| ==> parts[k].exercises[i].order == i + 1
    ensures forall j, k :: 0 <= j < k < |parts| ==>
              |parts[k].exercises| <= |parts[j].exercises| <= |parts[k].exercises| + 1
  {
    var chunks :| IsCut(chunks, Sorted(exercises, Easier()), most) && parts == PartsOf(card, |chunks|, chunks);
    SortPermutes(exercises, Easier());
  }

  /** The parts of a card have different names: its own when it makes one lesson, and else its own with
      their numbers. None is shorter than five minutes, or than three an exercise. */
  lemma PartsAreNamed(parts: seq<Part>, exercises: seq<Exercise>, card: Card, most: nat)
    requires most > 0 && IsSplit(parts, exercises, card, most)
    ensures |parts| == 1 ==> parts[0].lessonId == card.lessonId
    ensures |parts| > 1 ==> forall k :: 0 <= k < |parts| ==>
              parts[k].number == k + 1 && parts[k].lessonId == card.lessonId + "-" + Text(k + 1)
    ensures forall j, k :: 0 <= j < k < |parts| ==> parts[j].lessonId != parts[k].lessonId
    ensures forall k :: 0 <= k < |parts| ==>
              && parts[k].minutes >= 5 && parts[k].minutes >= 3 * |parts[k].exercises|
              && (parts[k].minutes == 5 || parts[k].minutes == 3 * |parts[k].exercises|)
  {
    var chunks :| IsCut(chunks, Sorted(exercises, Easier()), most) && parts == PartsOf(card, |chunks|, chunks);
    forall j, k | 0 <= j < k < |parts| ensures parts[j].lessonId != parts[k].lessonId {
      PartIdsDiffer(card, |chunks|, j, chunks[j], k, chunks[k]);
    }
  }

  lemma PartIdsDiffer(card: Card, count: nat, j: nat, one: seq<Exercise>, k: nat, other: seq<Exercise>)
    requires j != k && count > 1
    ensures PartOf(card, count, j, one).lessonId != PartOf(card, count, k, other).lessonId
  {
    SuffixesDiffer(card.lessonId + "-", j + 1, k + 1);
  }

  lemma SuffixesDiffer(prefix: string, i: nat, j: nat)
    requires i != j
    ensures prefix + Text(i) != prefix + Text(j)
  {
    if prefix + Text(i) == prefix + Text(j) {
      assert (prefix + Text(i))[|prefix|..] == Text(i) && (prefix + Text(j))[|prefix|..] == Text(j);
      TextsDiffer(i, j);
    }
  }

  lemma EasiestFirst(exercises: seq<Exercise>)
    ensures SortedBy(Sorted(exercises, Easier()), Easier())
  {
    SortOrders(exercises, Easier());
  }

  lemma PartCount(n: nat, most: nat)
    requires n > 0 && most > 0
    ensures var count := CeilingDivide(n, most); count > 0 && (count - 1) * most < n <= count * most
  {
    var count := CeilingDivide(n, most);
    DivisionBounds(n + most - 1, most);
    assert count * most == most * count && (count - 1) * most == count * most - most;
    assert count == 0 ==> most * count == 0;
  }

  lemma Grows(a: nat, b: nat, c: nat)
    requires a >= b
    ensures a * c >= b * c
  {
  }

  /** Near-equal sizes fit: at least one exercise to a part and no more than the most. */
  lemma SizesFit(n: nat, most: nat, count: nat, size: nat, extra: nat)
    requires most > 0 && count > 0 && (count - 1) * most < n <= count * most
    requires n == count * size + extra && extra < count
    ensures 1 <= size <= most && (extra > 0 ==> size < most)
  {
    Grows(most, 1, count - 1);
    assert (count - 1) * 1 == count - 1 && most * (count - 1) == (count - 1) * most;
    assert size == 0 ==> count * size == 0;
    assert size * count == count * size && most * count == count * most && (most + 1) * count == count * most + count;
    if size > most {
      Grows(size, most + 1, count);
    }
    if extra > 0 && size >= most {
      Grows(size, most, count);
    }
  }

  /** Where a part starts. */
  function StartOf(index: nat, size: nat, extra: nat): nat {
    if index == 0 then 0 else StartOf(index - 1, size, extra) + size + if index - 1 < extra then 1 else 0
  }

  /** The last part ends where the exercises do. */
  lemma {:induction false} StartsReach(index: nat, size: nat, extra: nat)
    ensures StartOf(index, size, extra) == index * size + if index < extra then index else extra
  {
    if index > 0 {
      StartsReach(index - 1, size, extra);
      assert index * size == (index - 1) * size + size;
    }
  }

  lemma {:induction false} StartsGrow(index: nat, count: nat, size: nat, extra: nat)
    requires index <= count
    ensures StartOf(index, size, extra) <= StartOf(count, size, extra)
  {
    if index < count {
      StartsGrow(index, count - 1, size, extra);
    }
  }

  lemma StartsEnd(n: nat, count: nat)
    requires count > 0
    ensures StartOf(count, n / count, n % count) == n
  {
    StartsReach(count, n / count, n % count);
    DivisionBounds(n, count);
  }

  /** The exercises shared out in `count` chunks, the first `extra` of them one longer. */
  ghost predicate SharedOut(chunks: seq<seq<Exercise>>, exercises: seq<Exercise>, count: nat, size: nat, extra: nat) {
    && |chunks| == count && Joined(chunks) == exercises
    && forall k :: 0 <= k < count ==> |chunks[k]| == size + if k < extra then 1 else 0
  }

  lemma ChunkAdded(chunks: seq<seq<Exercise>>, exercises: seq<Exercise>, start: nat, end: nat, count: nat, size: nat,
                   extra: nat)
    requires start <= end <= |exercises| && SharedOut(chunks, exercises[..start], count, size, extra)
    requires end == start + size + if count < extra then 1 else 0
    ensures SharedOut(chunks + [exercises[start..end]], exercises[..end], count + 1, size, extra)
  {
    assert (chunks + [exercises[start..end]])[..|chunks|] == chunks;
    assert exercises[..start] + exercises[start..end] == exercises[..end];
  }

  lemma PartAdded(card: Card, count: nat, chunks: seq<seq<Exercise>>, chunk: seq<Exercise>)
    ensures PartsOf(card, count, chunks + [chunk])
         == PartsOf(card, count, chunks) + [PartOf(card, count, |chunks|, chunk)]
  {
  }

  /** The sorted exercises cut into `count` parts, the first `extra` of them one longer. */
  method CutParts(exercises: seq<Exercise>, card: Card, count: nat, size: nat, extra: nat)
    returns (parts: seq<Part>)
    requires StartOf(count, size, extra) == |exercises|
    ensures exists chunks :: SharedOut(chunks, exercises, count, size, extra) && parts == PartsOf(card, count, chunks)
  {
    parts := [];
    ghost var chunks: seq<seq<Exercise>> := [];
    var start := 0;
    for index := 0 to count
      invariant start == StartOf(index, size, extra) <= |exercises|
      invariant SharedOut(chunks, exercises[..start], index, size, extra)
      invariant parts == PartsOf(card, count, chunks)
    {
      StartsGrow(index + 1, count, size, extra);
      var end := start + size + (if index < extra then 1 else 0);
      var chunk := exercises[start..end];
      ChunkAdded(chunks, exercises, start, end, index, size, extra);
      PartAdded(card, count, chunks, chunk);
      parts, chunks := parts + [PartOf(card, count, index, chunk)], chunks + [chunk];
      start := end;
    }
    assert exercises[..|exercises|] == exercises;
    assert SharedOut(chunks, exercises, count, size, extra);
  }

  /** Dividing the exercises among their parts: the shares fit and are all of them. */
  lemma SharesFit(n: nat, most: nat)
    requires n > 0 && most > 0
    ensures var count := CeilingDivide(n, most);
            && count > 0
            && StartOf(count, n / count, n % count) == n
            && 1 <= n / count <= most && (n % count > 0 ==> n / count < most)
  {
    var count := CeilingDivide(n, most);
    PartCount(n, most);
    DivisionBounds(n, count);
    SizesFit(n, most, count, n / count, n % count);
    StartsEnd(n, count);
  }

  method Split(lesson: Lesson, card: Card, most: nat) returns (parts: seq<Part>)
    requires most > 0 && |lesson.items| > 0
    ensures IsSplit(parts, lesson.items, card, most)
  {
    var exercises := Sorted(lesson.items, Easier());
    SortPermutes(lesson.items, Easier());
    var count := CeilingDivide(|exercises|, most);
    SharesFit(|exercises|, most);
    var size, extra := |exercises| / count, |exercises| % count;
    parts := CutParts(exercises, card, count, size, extra);
    ghost var chunks :| SharedOut(chunks, exercises, count, size, extra) && parts == PartsOf(card, count, chunks);
    assert IsCut(chunks, exercises, most);
  }

  // ── Places in a unit ────────────────────────────────────────────────────────

  /** A lesson draft with its place in its unit. */
  datatype Placed = Placed(part: Part, order: nat)

  function PartsIn(placed: seq<Placed>): (parts: seq<Part>)
    ensures |parts| == |placed|
  {
    seq(|placed|, k requires 0 <= k < |placed| => placed[k].part)
  }

  function InUnit(parts: seq<Part>, unit: string): nat {
    if |parts| == 0 then 0
    else InUnit(parts[..|parts| - 1], unit) + if parts[|parts| - 1].unit == unit then 1 else 0
  }

  /** Each unit's lessons are numbered from 101 without a gap. */
  ghost predicate Consecutive(placed: seq<Placed>) {
    forall k :: 0 <= k < |placed| ==> HasOrder(placed, k)
  }

  ghost predicate HasOrder(placed: seq<Placed>, k: nat)
    requires k < |placed|
  {
    placed[k].order == FIRST_IMPORTED_ORDER + InUnit(PartsIn(placed)[..k], placed[k].part.unit)
  }

  function NextOrder(next: map<string, nat>, unit: string): nat {
    if unit in next then next[unit] else FIRST_IMPORTED_ORDER
  }

  ghost predicate Follows(next: map<string, nat>, placed: seq<Placed>) {
    forall unit :: NextOrder(next, unit) == FIRST_IMPORTED_ORDER + InUnit(PartsIn(placed), unit)
  }

  lemma OneMorePlaced(placed: seq<Placed>, next: map<string, nat>, part: Part)
    requires Consecutive(placed) && Follows(next, placed)
    ensures var order := NextOrder(next, part.unit);
            Consecutive(placed + [Placed(part, order)])
            && Follows(next[part.unit := order + 1], placed + [Placed(part, order)])
  {
    var order := NextOrder(next, part.unit);
    var more := placed + [Placed(part, order)];
    assert PartsIn(more) == PartsIn(placed) + [part];
    forall k | 0 <= k < |more| ensures HasOrder(more, k) {
      if k < |placed| {
        assert HasOrder(placed, k) && PartsIn(more)[..k] == PartsIn(placed)[..k];
      } else {
        assert PartsIn(more)[..k] == PartsIn(placed);
      }
    }
    assert PartsIn(more)[..|placed|] == PartsIn(placed);
    forall unit
      ensures NextOrder(next[part.unit := order + 1], unit) == FIRST_IMPORTED_ORDER + InUnit(PartsIn(more), unit)
    {
      assert NextOrder(next, unit) == FIRST_IMPORTED_ORDER + InUnit(PartsIn(placed), unit);
    }
  }

  /** The places of a unit's lessons: different ones, and every one from 101 up to the last is taken. */
  lemma {:induction false} PlacesHaveNoGap(placed: seq<Placed>, unit: string, order: nat)
    requires Consecutive(placed)
    ensures (exists k :: 0 <= k < |placed| && placed[k].part.unit == unit && placed[k].order == order)
            <==> FIRST_IMPORTED_ORDER <= order < FIRST_IMPORTED_ORDER + InUnit(PartsIn(placed), unit)
  {
    if |placed| > 0 {
      var n := |placed| - 1;
      var before := placed[..n];
      assert PartsIn(before) == PartsIn(placed)[..n];
      forall k | 0 <= k < n ensures HasOrder(before, k) {
        assert HasOrder(placed, k) && PartsIn(before)[..k] == PartsIn(placed)[..k];
      }
      PlacesHaveNoGap(before, unit, order);
      assert HasOrder(placed, n);
      if k :| 0 <= k < n && before[k].part.unit == unit && before[k].order == order {
        assert placed[k] == before[k];
      }
      if k :| 0 <= k < n && placed[k].part.unit == unit && placed[k].order == order {
        assert before[k] == placed[k];
      }
    }
  }

  // ── The whole conversion ────────────────────────────────────────────────────

  function AllParts(splits: seq<seq<Part>>): seq<Part> {
    if |splits| == 0 then [] else AllParts(splits[..|splits| - 1]) + splits[|splits| - 1]
  }

  ghost predicate SplitsOf(batch: Batch, lessons: seq<Lesson>, splits: seq<seq<Part>>, most: nat)
    requires most > 0
  {
    |splits| > 0 ==>
      var n := |splits| - 1;
      |splits| <= |lessons| && SplitOf(batch, lessons[n], splits[n], most)
      && SplitsOf(batch, lessons, splits[..n], most)
  }

  ghost predicate SplitOf(batch: Batch, lesson: Lesson, parts: seq<Part>, most: nat)
    requires most > 0
  {
    lesson.key in batch.cards && IsSplit(parts, lesson.items, batch.cards[lesson.key], most)
  }

  /** The drafts: every card's records, split, and the parts placed in their units. */
  ghost predicate IsDraft(batch: Batch, most: nat, lessons: seq<Lesson>, splits: seq<seq<Part>>, placed: seq<Placed>)
    requires most > 0
  {
    && Grouped(batch.exercises, CardOf(batch), lessons)
    && |splits| == |lessons| && SplitsOf(batch, lessons, splits, most)
    && PartsIn(placed) == AllParts(splits) && Consecutive(placed)
  }

  lemma {:induction false} RecordsAppend(a: seq<Part>, b: seq<Part>)
    ensures AllRecords(a + b) == AllRecords(a) + AllRecords(b)
  {
    if |b| == 0 {
      assert a + b == a;
    } else {
      RecordsAppend(a, b[..|b| - 1]);
      ShorterByOne(a, b);
    }
  }

  lemma {:induction false} SplitsKeep(batch: Batch, lessons: seq<Lesson>, splits: seq<seq<Part>>, most: nat)
    requires most > 0 && SplitsOf(batch, lessons, splits, most)
    ensures multiset(AllRecords(AllParts(splits))) == multiset(AllItems(lessons[..|splits|]))
  {
    if |splits| > 0 {
      var n := |splits| - 1;
      SplitsKeep(batch, lessons, splits[..n], most);
      RecordsAppend(AllParts(splits[..n]), splits[n]);
      SplitKeeps(splits[n], lessons[n].items, batch.cards[lessons[n].key], most);
      assert lessons[..n + 1][..n] == lessons[..n];
    }
  }

  ghost predicate Drafts(batch: Batch, most: nat, placed: seq<Placed>)
    requires most > 0
  {
    exists lessons, splits :: IsDraft(batch, most, lessons, splits, placed)
  }

  /** Nothing is lost or doubled: the drafts hold exactly the records that convert, each as often as
      it was given. */
  lemma ConversionKeepsAll(batch: Batch, most: nat, placed: seq<Placed>)
    requires most > 0 && Drafts(batch, most, placed)
    ensures multiset(AllRecords(PartsIn(placed))) == multiset(Keyed(batch.exercises, CardOf(batch)))
    ensures forall e :: e in AllRecords(PartsIn(placed)) <==> e in batch.exercises && Decide(batch, e).Convert?
  {
    var lessons, splits :| IsDraft(batch, most, lessons, splits, placed);
    SplitsKeep(batch, lessons, splits, most);
    assert lessons[..|splits|] == lessons;
    GroupsKeepAll(batch.exercises, CardOf(batch), lessons);
    forall e ensures e in AllRecords(PartsIn(placed)) <==> e in batch.exercises && Decide(batch, e).Convert? {
      KeyedAre(batch.exercises, CardOf(batch), e);
      SameMembers(AllRecords(PartsIn(placed)), Keyed(batch.exercises, CardOf(batch)), e);
    }
  }

  lemma SameMembers(a: seq<Exercise>, b: seq<Exercise>, e: Exercise)
    requires multiset(a) == multiset(b)
    ensures e in a <==> e in b
  {
    assert e in multiset(a) <==> e in a;
    assert e in multiset(b) <==> e in b;
  }

  /** Part `p` is the lesson of that name, and holds an exercise of that id. */
  ghost predicate Names(parts: seq<Part>, p: nat, lessonId: string, exerciseId: string) {
    p < |parts| && parts[p].lessonId == lessonId
    && exists i :: 0 <= i < |parts[p].exercises| && parts[p].exercises[i].record.exerciseId == exerciseId
  }

  ghost predicate Located(lessonOf: map<string, string>, parts: seq<Part>) {
    && (forall x :: x in lessonOf ==> exists p :: Names(parts, p, lessonOf[x], x))
    && (forall e :: e in AllRecords(parts) ==> e.exerciseId in lessonOf)
  }

  /** Where every exercise id is; a part that comes later wins. */
  method LessonOf(parts: seq<Part>) returns (lessonOf: map<string, string>)
    ensures Located(lessonOf, parts)
  {
    lessonOf := map[];
    for p := 0 to |parts|
      invariant Located(lessonOf, parts[..p])
    {
      var ids := set i | 0 <= i < |parts[p].exercises| :: parts[p].exercises[i].record.exerciseId;
      ghost var before := lessonOf;
      lessonOf := lessonOf + map x | x in ids :: parts[p].lessonId;
      OneMoreLocated(before, lessonOf, parts, p);
    }
    assert parts[..|parts|] == parts;
  }

  lemma OneMoreLocated(before: map<string, string>, lessonOf: map<string, string>, parts: seq<Part>, p: nat)
    requires p < |parts| && Located(before, parts[..p])
    requires var ids := set i | 0 <= i < |parts[p].exercises| :: parts[p].exercises[i].record.exerciseId;
             lessonOf == before + map x | x in ids :: parts[p].lessonId
    ensures Located(lessonOf, parts[..p + 1])
  {
    var more := parts[..p + 1];
    assert more[..p] == parts[..p];
    forall x | x in lessonOf ensures exists q :: Names(more, q, lessonOf[x], x) {
      if exists i :: 0 <= i < |parts[p].exercises| && parts[p].exercises[i].record.exerciseId == x {
        assert Names(more, p, lessonOf[x], x);
      } else {
        var q :| Names(parts[..p], q, before[x], x);
        assert Names(more, q, lessonOf[x], x);
      }
    }
    forall e | e in AllRecords(more) ensures e.exerciseId in lessonOf {
      if e in Records(parts[p].exercises) {
        var i :| 0 <= i < |parts[p].exercises| && parts[p].exercises[i].record == e;
        assert parts[p].exercises[i].record.exerciseId == e.exerciseId;
      } else {
        assert e in AllRecords(parts[..p]);
      }
    }
  }

  datatype Outcome = Refused(what: string) | Drafted(placed: seq<Placed>, rows: seq<Row>)

  /** The drafts and the report of a batch. */
  method ConvertBatch(batch: Batch, most: int) returns (outcome: Outcome)
    ensures outcome.Refused? <==> most < 1 || batch.schema != SCHEMA_VERSION || batch.id == ""
    ensures outcome.Drafted? ==> Drafts(batch, most, outcome.placed)
    ensures outcome.Drafted? ==> |outcome.rows| == |batch.exercises|
    ensures outcome.Drafted? ==> forall n :: 0 <= n < |outcome.rows| ==>
              Tells(outcome.rows[n], batch, batch.exercises[n])
    ensures outcome.Drafted? ==> forall n :: 0 <= n < |outcome.rows| && outcome.rows[n].status.Converted? ==>
              exists p ::
                Names(PartsIn(outcome.placed), p, outcome.rows[n].status.lessonId, outcome.rows[n].status.exerciseId)
  {
    if most < 1 {
      return Refused("a lesson holds at least one exercise");
    }
    if batch.schema != SCHEMA_VERSION {
      return Refused("another schema");
    }
    if batch.id == "" {
      return Refused("no batch id");
    }
    var filed, rows := FileRecords(batch);
    var placed := PlaceLessons(batch, most, filed);
    ConversionKeepsAll(batch, most, placed);
    rows := NameLessons(batch, placed, rows);
    outcome := Drafted(placed, rows);
  }

  /** Every card's lesson split, and the parts placed. */
  method PlaceLessons(batch: Batch, most: nat, lessons: seq<Lesson>) returns (placed: seq<Placed>)
    requires most > 0 && Grouped(batch.exercises, CardOf(batch), lessons)
    ensures exists splits :: IsDraft(batch, most, lessons, splits, placed)
  {
    placed := [];
    ghost var splits: seq<seq<Part>> := [];
    var next: map<string, nat> := map[];
    for k := 0 to |lessons|
      invariant |splits| == k && SplitsOf(batch, lessons, splits, most)
      invariant PartsIn(placed) == AllParts(splits) && Consecutive(placed) && Follows(next, placed)
    {
      LessonHasCard(batch, lessons, k);
      var parts := Split(lessons[k], batch.cards[lessons[k].key], most);
      placed, next := PlaceParts(placed, next, parts);
      OneMoreSplit(batch, lessons, splits, parts, most);
      OneMoreList(splits, parts);
      splits := splits + [parts];
    }
    assert IsDraft(batch, most, lessons, splits, placed);
  }

  lemma OneMoreSplit(batch: Batch, lessons: seq<Lesson>, splits: seq<seq<Part>>, parts: seq<Part>, most: nat)
    requires most > 0 && |splits| < |lessons| && SplitsOf(batch, lessons, splits, most)
    requires SplitOf(batch, lessons[|splits|], parts, most)
    ensures SplitsOf(batch, lessons, splits + [parts], most)
  {
    var n, more := |splits|, splits + [parts];
    assert |more| - 1 == n && more[..n] == splits && more[n] == parts;
    assert SplitOf(batch, lessons[n], more[n], most);
  }

  lemma OneMoreList(splits: seq<seq<Part>>, parts: seq<Part>)
    ensures AllParts(splits + [parts]) == AllParts(splits) + parts
  {
    assert (splits + [parts])[..|splits|] == splits;
  }

  lemma LessonHasCard(batch: Batch, lessons: seq<Lesson>, k: nat)
    requires Grouped(batch.exercises, CardOf(batch), lessons) && k < |lessons|
    ensures lessons[k].key in batch.cards && |lessons[k].items| > 0
  {
    assert HoldsItsOwn(batch.exercises, CardOf(batch), lessons[k]);
    var e := lessons[k].items[0];
    UnderAre(batch.exercises, CardOf(batch), lessons[k].key, e);
  }

  method PlaceParts(before: seq<Placed>, next: map<string, nat>, parts: seq<Part>)
    returns (placed: seq<Placed>, next': map<string, nat>)
    requires Consecutive(before) && Follows(next, before)
    ensures PartsIn(placed) == PartsIn(before) + parts && Consecutive(placed) && Follows(next', placed)
  {
    placed, next' := before, next;
    for k := 0 to |parts|
      invariant PartsIn(placed) == PartsIn(before) + parts[..k] && Consecutive(placed) && Follows(next', placed)
    {
      var order := NextOrder(next', parts[k].unit);
      OneMorePlaced(placed, next', parts[k]);
      assert PartsIn(placed + [Placed(parts[k], order)]) == PartsIn(placed) + [parts[k]];
      placed, next' := placed + [Placed(parts[k], order)], next'[parts[k].unit := order + 1];
    }
  }

  /** The rows of converted records named after the lessons that hold them. */
  method NameLessons(batch: Batch, placed: seq<Placed>, rows: seq<Row>) returns (named: seq<Row>)
    requires |rows| == |batch.exercises| && forall n :: 0 <= n < |rows| ==> Tells(rows[n], batch, batch.exercises[n])
    requires forall e :: e in batch.exercises && Decide(batch, e).Convert? ==> e in AllRecords(PartsIn(placed))
    ensures |named| == |rows| && forall n :: 0 <= n < |named| ==> Tells(named[n], batch, batch.exercises[n])
    ensures forall n :: 0 <= n < |named| && named[n].status.Converted? ==>
              exists p :: Names(PartsIn(placed), p, named[n].status.lessonId, named[n].status.exerciseId)
  {
    var lessonOf := LessonOf(PartsIn(placed));
    named := [];
    for n := 0 to |rows|
      invariant |named| == n && forall i :: 0 <= i < n ==> Tells(named[i], batch, batch.exercises[i])
      invariant forall i :: 0 <= i < n && named[i].status.Converted? ==>
                  exists p :: Names(PartsIn(placed), p, named[i].status.lessonId, named[i].status.exerciseId)
    {
      var row := rows[n];
      if row.status.Converted? {
        TellsOfConversion(row, batch, batch.exercises[n]);
        row := row.(status := row.status.(lessonId := lessonOf[row.status.exerciseId]));
      }
      named := named + [row];
    }
  }

  lemma TellsOfConversion(row: Row, batch: Batch, e: Exercise)
    requires Tells(row, batch, e)
    ensures row.status.Converted? <==> Decide(batch, e).Convert?
    ensures row.status.Converted? ==> row.status.exerciseId == e.exerciseId
    ensures forall id :: row.status.Converted? ==> Tells(row.(status := row.status.(lessonId := id)), batch, e)
  {
  }

  /** When no two convertible records share an exercise id, the lesson a row names holds its record. */
  lemma RowNamesItsLesson(batch: Batch, parts: seq<Part>, e: Exercise, p: nat, lessonId: string)
    requires Names(parts, p, lessonId, e.exerciseId) && e in AllRecords(parts)
    requires forall x, y :: x in AllRecords(parts) && y in AllRecords(parts) && x.exerciseId == y.exerciseId ==> x == y
    ensures exists i :: 0 <= i < |parts[p].exercises| && parts[p].exercises[i].record == e
  {
    var i :| 0 <= i < |parts[p].exercises| && parts[p].exercises[i].record.exerciseId == e.exerciseId;
    PartRecordsAreIn(parts, p, i);
  }

  lemma {:induction false} PartRecordsAreIn(parts: seq<Part>, p: nat, i: nat)
    requires p < |parts| && i < |parts[p].exercises|
    ensures parts[p].exercises[i].record in AllRecords(parts)
  {
    if p < |parts| - 1 {
      PartRecordsAreIn(parts[..|parts| - 1], p, i);
    } else {
      assert Records(parts[p].exercises)[i] == parts[p].exercises[i].record;
    }
  }
}
