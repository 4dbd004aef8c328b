# Proofs about Stoa's delivery and curriculum scripts

Six scripts of the repository hold real algorithms or protocols behind thin input and output.
This project models them in Dafny and proves what they are for.

- **Star map layout** (`scripts/layout_starmap.py`). All-pairs shortest paths in place, stress
  majorisation, overlap separation, the frame with its rounding, the renderer, the validator, the
  carry-over rule and the planned writes. Coordinates are exact reals; the square root is any
  function that is a non-negative root of its square, angles are any directions of length one, and
  the starting ring is any list of points. Rounding is to six digits, ties to the even digit.
- **Promotion with compensation** (`scripts/release_delivery.py`). A state machine with one step per
  access, for any interleaving of calls, interruptions, faults and another writer; and the two
  functions in their own form, as methods over a stateful store and a stateful provider, proved to
  take exactly the machine's steps.
- **Curriculum builder** (`scripts/knowledge_base_import.py`). The greedy cycle-free prerequisites,
  the layers by longest chain, the two partition passes, the question type check, stages and parts,
  and the practice sets.
- **Release gate codecs** (`scripts/release_gate.py`). The byte tree and the blob batch.
- **Editorial conversion** (`scripts/editorial_batch_to_migration.py`). From records to lessons.
- **Bulk publication** (`scripts/publish_curriculum_drafts.py`). A resumable client, run again and
  again against a server that refuses, loses or tears requests.

Code that works step by step is a method proved against a specification; code made of expressions is
a function with lemmas. `Options`, `Lists`, `Lookup`, `Iteration`, `Reals`, `Sorting`, `Counting`,
`Grouping`, `Division`, `Decimals`, `Graphs` and `Encoding` hold what several scripts share.

## Where the code falls short of its own words

Each of these is proved, with the exact condition under which the code does meet the property.

- `parts` promises no leftover question or two. It leaves some for n = 1, n = 2, and from n = 82 on
  whenever n ends in 2, and from n = 91 on whenever n ends in 1 (`NoLeftoverIff`,
  `EightyTwoLeaveTwo`).
- `manifests` orders a star's sets "layer first, so a star is worked through from what needs nothing
  before it". Within a question type the walk always climbs; across types it does exactly when no
  stage of one type reaches past the start of a later set of another (`WalkClimbsIff`). The stages are
  a function of the exercises, their points and the edges (`StarWalk`), and two points, one edge and
  three exercises are enough for a walk that goes back (`WalkCanStepBack`).
- `apply_merges` keeps a star of an unmerged nebula under its old name without looking whether a
  merged star has that name. With one batch for a nebula and no problems, the points are split exactly
  when no kept star has one of the names the batches make, which are a matter of the nebulae and the
  slugs alone (`MergeSplitsIff`, `MergedNames`). Two points in two nebulae, each a star, and one merge
  of one star lose a point (`MergedStarLost`). A batch for a nebula without stars that offers a sound
  one raises (`MergeNebula`).
- The merge pass promises stars of six points or more. It accepts five (`FiveAreAccepted`); without
  problems it keeps the promise exactly when the nebula has six and no offer joins just five
  (`MinimumIff`).
- `_separate` pushes two coincident centres as though they were one unit apart. One push clears a
  pair exactly when its centres were apart (`PushClearsIffApart`, `SettleClearsIffApart`), and the
  separation settles exactly when the placement is clear after fewer than 400 passes (`SettlesIff`).
- `promote_staging` stores a submitted transaction in whatever state it is submitted. One submitted as
  COMMITTED is stored so while its target is not live (`SubmittedVerdictIsKept`). Every run from a
  submission on is true exactly when what it says, if COMMITTED or ROLLED_BACK, is true already
  (`SubmissionDecides`), and a race of two is safe exactly when neither is submitted as COMMITTED
  (`RaceIsSafeIff`).
- A publish that moved the live pointer but did not write the version's state stays approved for
  ever: every later publish of it is answered with success and changes nothing (`TornStaysApproved`).
  An answered publish makes an approved version published exactly when it was not the live one
  (`PublishedIff`), and after a run that reports all done exactly the versions that were not live when
  it began are published (`Run`).
- The blob reader takes sizes as Python reads integers, so a whole answer with a signed and padded
  size is accepted (`LenientAnswerIsRead`); which bytes it takes as a batch is exact
  (`ReadsExactlyBatches`).

## Model

| member | source | states |
|---|---|---|
| StarmapDistances.TargetDistances | scripts/layout_starmap.py:398-432 | relaxing the matrix in place gives the shortest distance of every connected pair and one larger distance to all others |
| StarmapDistances.Relax | scripts/layout_starmap.py:418-423 | one round in place is one step of the recurrence, although the row and column it reads are being rewritten |
| StarmapDistances.AddLink | scripts/layout_starmap.py:411-417 | a link shortens the distance of its two topics both ways, the shortest of several links counting |
| StarmapDistances.Spread | scripts/layout_starmap.py:424-432 | the distance for unconnected pairs is beyond the longest connected one |
| StarmapDistances.LengthSquared | scripts/layout_starmap.py:414 | the square of a link's length times its weight is the same for every link |
| StarmapDistances.HeavierIsShorter | scripts/layout_starmap.py:414 | a heavier link is a strictly shorter edge |
| StarmapDistances.LeastPath | scripts/layout_starmap.py:418-423 | no path is shorter than the distance computed |
| StarmapDistances.PathAttained | scripts/layout_starmap.py:418-423 | some path is exactly as long as the distance computed |
| StarmapDistances.UnrelatedIsFarther | scripts/layout_starmap.py:424-432 | every unconnected pair lies strictly farther than any connected one |
| StarmapDistances.TargetsAreSymmetricAndPositive | scripts/layout_starmap.py:398-432 | the targets are symmetric, zero on the diagonal and positive elsewhere |
| StarmapDistances.ConnectedTriangle | scripts/layout_starmap.py:398-432 | connected triples obey the triangle inequality |
| StarmapDistances.TargetsAreDetermined | scripts/layout_starmap.py:398-432 | the links determine the targets, whatever their order |
| StarmapStress.SweepLowersStress | scripts/layout_starmap.py:452-486 | one sweep from the old positions never raises the total stress, coincident points included |
| StarmapStress.SweepsLowerStress | scripts/layout_starmap.py:452-486 | no number of sweeps raises it, and more sweeps are never worse than fewer |
| StarmapStress.StressMajorise | scripts/layout_starmap.py:452-486 | the nested loops compute exactly that many sweeps |
| StarmapStress.MajoriseLowersStress | scripts/layout_starmap.py:452-486 | the placement of four hundred sweeps has no more stress than the one given |
| StarmapStress.PairBound | scripts/layout_starmap.py:452-486 | the squared error of a pair after a move lies under the majorising parabola |
| StarmapStress.StressIsRelative | scripts/layout_starmap.py:465-467 | a pair weighs the inverse square of its target, so its stress is how far it is off relative to it, squared |
| StarmapStress.MoveBalancesGaps | scripts/layout_starmap.py:462-486 | a swept point moves by the weighted sum of its gaps |
| StarmapSeparation.Separate | scripts/layout_starmap.py:489-513 | the loop applies passes of mutual pushes until a placement is clear, or all of them; clear points are not moved, and the centroid stays |
| StarmapSeparation.Pass | scripts/layout_starmap.py:494-512 | a pass settles every pair in order, moves nothing exactly when every pair was clear, and keeps the sum of the points |
| StarmapSeparation.PushGoesAlong | scripts/layout_starmap.py:501-509 | a pair is pushed along the line between its centres, a coincident one along the turned direction of its first |
| StarmapSeparation.ApartPushClears | scripts/layout_starmap.py:497-510 | a pair in different places ends beyond its clearance |
| StarmapSeparation.SamePlacePushFallsShort | scripts/layout_starmap.py:501-510 | a coincident pair ends short of its clearance |
| StarmapSeparation.PushClearsIffApart | scripts/layout_starmap.py:497-510 | one push clears an overlapping pair exactly when its centres were apart |
| StarmapSeparation.SettleClearsIffApart | scripts/layout_starmap.py:497-510 | within a placement, settling a pair that was too close clears it exactly when its centres were apart |
| StarmapSeparation.SettlesIff | scripts/layout_starmap.py:489-513 | the separation settles exactly when fewer than 400 passes make every pair clear, and where it ends either way |
| StarmapFrame.StarReach | scripts/layout_starmap.py:516-532 | every star of a spiral lies well inside its nebula |
| StarmapFrame.SkillReach | scripts/layout_starmap.py:535-543 | a skill point stays within the nebula of its star |
| StarmapFrame.InsideFrame | scripts/layout_starmap.py:546-577 | what lies between the framed edges is in the unit square, rounding included |
| StarmapFrame.NebulaInsideFrame | scripts/layout_starmap.py:546-577 | whatever stays within a nebula's radius is inside the frame |
| StarmapFrame.Render | scripts/layout_starmap.py:580-628 | the renderer's loops give the map of the subject in that frame with those centres |
| StarmapFrame.ValidateLayout | scripts/layout_starmap.py:638-654 | all problems of a map are reported, and nothing else |
| StarmapFrame.FreshMapIsInsideFrame | scripts/layout_starmap.py:546-628 | no nebula, star or skill point of a fresh map is outside the frame |
| StarmapFrame.ClearPairIsNotClose | scripts/layout_starmap.py:638-654 | scaling and the rounding of places and radii keep a clear pair within the tolerance |
| StarmapFrame.SettledMapIsValid | scripts/layout_starmap.py:489-654 | a fresh map whose separation settled has no problem at all |
| StarmapShape.StarLiesOnSpiral | scripts/layout_starmap.py:516-532 | star `k` lies along its direction at 0.78 times the root of `k`, whatever the number of stars |
| StarmapShape.SpiralDistance | scripts/layout_starmap.py:516-532 | its squared distance from the centre is 0.78 squared times `k` |
| StarmapShape.SpiralGrows | scripts/layout_starmap.py:516-532 | stars in order lie strictly farther out |
| StarmapShape.AppendedUnitsMoveNothing | scripts/layout_starmap.py:516-532 | units appended to a topic leave the raw places of its earlier stars alone |
| StarmapShape.AppendedUnitsKeepStars | scripts/layout_starmap.py:580-628 | and their places on a map that is carried over |
| StarmapShape.OrbitDistance | scripts/layout_starmap.py:535-543 | a skill point lies at 0.22 from its star |
| StarmapShape.RoundedIff | scripts/layout_starmap.py:361-362 | rounding gives the nearest multiple of a millionth, the even one of two equally near |
| StarmapShape.ApplyKeepsShape | scripts/layout_starmap.py:580-628 | places on the map differ as the raw ones do, scaled, up to the rounding of both |
| StarmapShape.NebulaKeepsSize | scripts/layout_starmap.py:375-376 | a nebula's radius is the scaled root of its number of stars, up to rounding |
| StarmapShape.FrameFills | scripts/layout_starmap.py:546-577 | the map is centred, and its longer side with its headroom fills the square up to the padding |
| StarmapShape.TopicIsDrawn | scripts/layout_starmap.py:580-602 | every topic has its nebula and every unit its star, on the spiral around the centre |
| StarmapShape.StarsAreUnits | scripts/layout_starmap.py:580-602 | there are as many stars as units |
| StarmapShape.SkillIsDrawn | scripts/layout_starmap.py:604-615 | every skill of a unit on the map has its point on the circle, at its position among the unit's skills |
| StarmapShape.DrawnIsSkill | scripts/layout_starmap.py:604-615 | and every skill point is that of such a skill |
| StarmapShape.SkillPointsByName | scripts/layout_starmap.py:615 | the skill points come by the id of their skill |
| StarmapBuild.NebulaEdges | scripts/layout_starmap.py:379-395 | every pair of topics weighs as many prerequisites as cross it |
| StarmapBuild.CrossingsAreOrdered | scripts/layout_starmap.py:379-395 | a weighed pair names two topics in order and weighs at least one |
| StarmapShape.CrossedIff | scripts/layout_starmap.py:385-394 | a prerequisite links two topics exactly when its units lie in two different ones, the lesser named first |
| StarmapBuild.OwnTargetsAreUnique | scripts/layout_starmap.py:379-432 | a subject has one matrix of target distances |
| StarmapBuild.Place | scripts/layout_starmap.py:657-700 | fresh centres are the separated, majorised ring of the subject, clear whenever the separation settles |
| StarmapBuild.Recompute | scripts/layout_starmap.py:657-717 | a fresh map has at most nebulae too close to each other, and no problem when the separation settles |
| StarmapBuild.BuildLayout | scripts/layout_starmap.py:657-717 | a valid previous layout is carried over as it is, else the map is recomputed from the separated, majorised ring of its own targets, for the first reason that applies |
| StarmapShape.RecomputingRaisesVersion | scripts/layout_starmap.py:631-635 | a layout has the next version exactly when it was recomputed, and is the previous frame and centres otherwise |
| StarmapBuild.OtherTopicsStayPut | scripts/layout_starmap.py:580-717 | while the layout carries over, changing one topic leaves nebula, stars and skill points of every other topic identical |
| StarmapBuild.Run | scripts/layout_starmap.py:803-818 | the run plans the rows that differ and writes them only when asked and when the map has no problem |
| StarmapBuild.WrittenHolds | scripts/layout_starmap.py:787-800 | what was just written is not planned again |
| StarmapShape.PlannedIff | scripts/layout_starmap.py:787-800 | a row is planned exactly when it is stored, belongs to the map, and lacks one of its values |
| StarmapShape.RowsAfterRun | scripts/layout_starmap.py:787-818 | after an applied run every stored row of the map holds its values, and nothing else has changed |
| StarmapBuild.RecordReproduces | scripts/layout_starmap.py:738-753 | the stored record gives back the layout it was written from |
| StarmapBuild.SecondRunPlansNothing | scripts/layout_starmap.py:331-355 | after an applied run the next one carries the layout over and plans no writes |
| StarmapEdits.EditRewritesOwnRows | scripts/layout_starmap.py:738-818 | after an applied run and an edit of one topic, a run that carries the layout over writes no row of any other topic |
| StarmapEdits.NebulaHasRow | scripts/layout_starmap.py:756-784 | the row of a nebula holds its place, its radius and the version |
| StarmapEdits.StarHasRow | scripts/layout_starmap.py:756-784 | the row of a star holds its place, its nebula and the version |
| StarmapEdits.SkillHasRow | scripts/layout_starmap.py:756-784 | the row of a skill holds its place and the version |
| DeliveryLifecycle.StatesFollowTheirEdges | scripts/release_delivery.py:157-163 | in any interleaving a stored transaction keeps its identity and moves only along the edges of its life |
| DeliveryLifecycle.TerminalIsForEver | scripts/release_delivery.py:232-238 | immutable fields never change, and a terminal transaction never changes again |
| DeliveryLifecycle.OneWriter | scripts/release_delivery.py:226-271 | at most one call of a transaction ever issues provider writes, and none has while PREPARED is stored |
| DeliveryFaults.VerdictsAreTrue | scripts/release_delivery.py:183-271 | with no other writer and true submissions, COMMITTED means the target is live and its smoke test passed, ROLLED_BACK means the previous pointers are live |
| DeliveryFaults.VerdictsAreTrueIff | scripts/release_delivery.py:183-271 | in any run the verdicts are true throughout exactly when the transaction stored first was true of the live pointers |
| DeliveryFaults.SubmissionDecides | scripts/release_delivery.py:226-238 | all runs from a submission are true exactly when it is neither COMMITTED nor ROLLED_BACK, or is already true |
| DeliveryFaults.SubmittedVerdictIsKept | scripts/release_delivery.py:226-238 | a transaction submitted as COMMITTED is stored so while its target is not live |
| DeliveryFaults.CalmCompensationRollsBack | scripts/release_delivery.py:183-223 | from any point of a compensation, no fault striking it ends it ROLLED_BACK on the previous pointers |
| DeliveryFaults.CompensationDoesNotCommit | scripts/release_delivery.py:183-223 | a promotion in compensation never becomes committed |
| DeliveryFaults.EnoughStepsFinish | scripts/release_delivery.py:226-271 | every call ends after a bounded number of accesses |
| DeliveryFaults.CleanPromotionCommits | scripts/release_delivery.py:226-271 | undisturbed, from its previous pointers and with a passing smoke test, a new promotion is committed with its target live |
| DeliveryRace.RaceIsSafe | scripts/release_delivery.py:183-271 | of two racing promotions not submitted as committed at most one commits, and once both ended the live pointers are exactly one target or exactly the previous pointers |
| DeliveryRace.RaceIsSafeIff | scripts/release_delivery.py:183-271 | all interleavings are safe exactly when neither is submitted as committed |
| DeliveryRecords.RunRecords | scripts/release_delivery.py:150-271 | in any run of any calls, a call's state, failure, smoke result and action log are those its accesses tell |
| DeliveryRecords.VerdictIsTold | scripts/release_delivery.py:150-271 | whatever stores a verdict is a call: a commit met no failure on all ten accesses and logged both updates; a rollback met one before its compensation, none in it, logged both restores and read back last; a partial failure met one in each, or found a stale pointer |
| DeliveryRecords.RollbackNamesItsReason | scripts/release_delivery.py:177-223 | a rollback names the smoke test exactly when it was run, else a mismatch or a failed mutation, and never the compensation |
| DeliveryRecords.PartialFailureNamesItsReason | scripts/release_delivery.py:177-214 | a partial failure names the stale pointer exactly when the call never claimed, and else the compensation |
| DeliveryPromotion.PromoteStaging | scripts/release_delivery.py:226-271 | the code takes exactly the machine's steps, and what it stores and returns tells what those steps met |
| DeliveryPromotion.Compensation | scripts/release_delivery.py:183-223 | so does the compensation, from the marked failure to its verdict |
| DeliveryPromotion.TransactionStore.Create | scripts/release_delivery.py:35-40 | create-if-absent: the stored transaction, or the new one |
| DeliveryPromotion.TransactionStore.Replace | scripts/release_delivery.py:157-163 | a replacement takes effect exactly when the stored state is the expected one |
| DeliveryPromotion.DeliveryAdapter.WriteLambda | scripts/release_delivery.py:43-50 | a conditional write moves only the Lambda coordinate, and only from the expected one |
| DeliveryPromotion.DeliveryAdapter.WriteDescriptor | scripts/release_delivery.py:43-50 | a conditional write moves the descriptor with its objects, and only from the expected descriptor |
| DeliveryPromotion.UndisturbedPromotionIsTrue | scripts/release_delivery.py:226-271 | what the caller may believe of the verdict of a promotion nobody else disturbed |
| Graphs.ClosesCycle | scripts/knowledge_base_import.py:526-536 | the search ends, and is true exactly when the target leads back to the start |
| Graphs.AddingKeepsAcyclic | scripts/knowledge_base_import.py:552-556 | a link that closes no cycle keeps the graph acyclic |
| CurriculumGraph.CountLinks | scripts/knowledge_base_import.py:545-551 | every link weighs the hard edges between points of its two stars |
| CurriculumGraph.Ranked | scripts/knowledge_base_import.py:552-553 | exactly the weighted links, heaviest first and by name among equals |
| CurriculumGraph.HeavierFirstIff | scripts/knowledge_base_import.py:552-553 | one link is ranked before another when it is heavier, or as heavy and lesser by the first character in which their names differ |
| CurriculumGraph.KeepLinks | scripts/knowledge_base_import.py:552-556 | taking links heaviest first keeps a greedy acyclic graph |
| CurriculumGraph.StarPrerequisites | scripts/knowledge_base_import.py:539-557 | the prerequisites are acyclic, each drawn from a hard edge between points of its two stars, each once and by name; each link left out closes a cycle of kept links heavier than it, or as heavy and before it by name |
| CurriculumGraph.GreedyIsUnique | scripts/knowledge_base_import.py:539-557 | only one graph does that |
| CurriculumLayers.KeepInner | scripts/knowledge_base_import.py:756-768 | the inner edges stay acyclic, and each left out closes a cycle of kept ones |
| CurriculumLayers.KeptInnerIsInner | scripts/knowledge_base_import.py:756-768 | the inner graph is acyclic, and each edge left out closes a cycle of kept edges that all come before it |
| CurriculumLayers.InnerIsUnique | scripts/knowledge_base_import.py:756-768 | only one graph does that |
| CurriculumLayers.LayerMemo.Layer | scripts/knowledge_base_import.py:769-774 | the memoised recursion ends and gives the length of the longest chain |
| CurriculumLayers.PointLayers | scripts/knowledge_base_import.py:756-776 | every point has its capped longest-chain layer |
| CurriculumLayers.LayerIsUnique | scripts/knowledge_base_import.py:769-774 | a point has one layer only |
| CurriculumLayers.LayersAreUnique | scripts/knowledge_base_import.py:756-776 | the layers of a star are determined by its inner graph |
| CurriculumLayers.LayersRespectEdges | scripts/knowledge_base_import.py:756-776 | along every kept edge the dependent point is strictly higher, unless both are at the cap |
| CurriculumStages.Stages | scripts/knowledge_base_import.py:779-794 | the loop gives the stages as a function of the layers: a stage takes in another layer only while it is thin, and a thin last one joins the one before |
| CurriculumStages.StagesAreExactly | scripts/knowledge_base_import.py:779-794 | the stages are exactly the runs cut when full, a thin last run joining the one before it |
| CurriculumStages.StagesAreRuns | scripts/knowledge_base_import.py:779-794 | the stages are runs of layers, and none is thin unless it is the only one |
| CurriculumStages.StagesKeepOrder | scripts/knowledge_base_import.py:779-794 | the stages hold all exercises in layer order |
| CurriculumStages.StagesAreInOrder | scripts/knowledge_base_import.py:779-794 | the stages are disjoint runs of layers, one after the other |
| CurriculumStages.StagesCover | scripts/knowledge_base_import.py:779-794 | every layer is in a stage |
| CurriculumStages.PartsAreEven | scripts/knowledge_base_import.py:797-803 | as many parts as sets of ten need, of one size but the last, which falls short by less than their number, joining to the input |
| CurriculumStages.NoLeftoverIff | scripts/knowledge_base_import.py:797-803 | exactly which numbers of exercises leave a question or two over |
| CurriculumStages.EightyTwoLeaveTwo | scripts/knowledge_base_import.py:797-803 | eighty-two exercises leave two |
| CurriculumStructure.FreshName | scripts/knowledge_base_import.py:602-605 | the renaming loop ends with the first candidate that is not taken |
| CurriculumStructure.BaseNameIs | scripts/knowledge_base_import.py:602 | a name starts from the nebula and the slug, cut to forty-eight characters |
| CurriculumStructure.PlaceStar | scripts/knowledge_base_import.py:597-616 | a sound offer becomes a star of its own points and grades under the first free name, and raises exactly when it has no point |
| CurriculumStructure.PlaceGroup | scripts/knowledge_base_import.py:585-616 | a group is split into exactly the stars of its offers when they place every member exactly once |
| CurriculumStructure.Structure | scripts/knowledge_base_import.py:560-616 | without problems the stars partition the points and the point map agrees with them; which stars and problems there are, and when it raises |
| CurriculumStructure.NoStructureProblems | scripts/knowledge_base_import.py:585-600 | there are no problems exactly when every group is well offered |
| CurriculumStructure.GroupsInOrder | scripts/knowledge_base_import.py:571-573 | the groups come in the order in which they first appear |
| CurriculumStructure.MembersPick | scripts/knowledge_base_import.py:571-573 | a group's members are the ids of its points, all of them and in order |
| CurriculumStructure.OffersPick | scripts/knowledge_base_import.py:575-579 | a group's offers are all of its offers, in order |
| CurriculumStructure.CheckTypes | scripts/knowledge_base_import.py:617-623 | which exercises have no question type of their point's subject, and that an unknown point raises |
| CurriculumStructure.NoTypeProblems | scripts/knowledge_base_import.py:617-623 | there are none exactly when every exercise has one |
| CurriculumMerge.MergeStar | scripts/knowledge_base_import.py:711-735 | a joinable offer becomes the star of the points it joins, ordered, under the first free name, and raises exactly when it joins no point |
| CurriculumMerge.JoinedStarIsInOrder | scripts/knowledge_base_import.py:714-726 | a merged star holds the points of its stars, each as often, by grade and then source id, alike ones as they came |
| CurriculumMerge.MergeNebula | scripts/knowledge_base_import.py:693-736 | a nebula is merged into exactly the stars of its offers when they take every star of it once, and raises exactly when it has no star and a sound offer |
| CurriculumMerge.NoMergeProblems | scripts/knowledge_base_import.py:709-718 | the offers of a batch have no problems exactly when each joins enough points and is sound |
| CurriculumMerge.MinimumIff | scripts/knowledge_base_import.py:711-718 | the merged stars of a batch without problems hold six points or more exactly when the nebula does and no offer joins just five |
| CurriculumMerge.FiveAreAccepted | scripts/knowledge_base_import.py:712-716 | five points are accepted |
| CurriculumMerge.SomeHollowIff | scripts/knowledge_base_import.py:711-735 | an offer joins no point and passes the checks exactly when its nebula has no star and it is sound |
| CurriculumMerge.MergedNames | scripts/knowledge_base_import.py:722-725 | the names of the merged stars are the first free ones of the nebulae and slugs in turn, and nothing else |
| CurriculumMerge.CarriedSplitsIff | scripts/knowledge_base_import.py:737-741 | after a merge the stars partition the points exactly when no kept star overwrites a merged one |
| CurriculumMerge.MergeSplitsIff | scripts/knowledge_base_import.py:687-741 | for stars and batches: the partition holds exactly when no star of an unmerged nebula has a name the batches make |
| CurriculumMerge.LostPoint | scripts/knowledge_base_import.py:737-739 | every point of an overwritten star is in no star any more |
| CurriculumMerge.MergedStarLost | scripts/knowledge_base_import.py:687-741 | two points, their offers and one batch for which it happens: no problem is reported and a point is in no star |
| CurriculumMerge.ApplyMerges | scripts/knowledge_base_import.py:687-741 | exactly which stars and problems come out and when it raises; with one batch per nebula the partition is kept exactly without a clash of names, and the point map then agrees |
| CurriculumMerge.StructureAndMerge | scripts/knowledge_base_import.py:560-628 | the same for both passes and the question type check together |
| CurriculumManifests.FileExercises | scripts/knowledge_base_import.py:948-956 | an exercise too long is skipped, every other filed under its star and question type |
| CurriculumManifests.FiledPick | scripts/knowledge_base_import.py:948-956 | the exercises filed under a star and a type are all of them, in order |
| CurriculumManifests.ByLayer | scripts/knowledge_base_import.py:974-977 | grouping by layer and sorting gives the layers that hold exercises, in order |
| CurriculumManifests.StageType | scripts/knowledge_base_import.py:966-977 | the exercises of one question type, sorted, layered and staged, give exactly the stages of those layers |
| CurriculumManifests.TypeComesInOrder | scripts/knowledge_base_import.py:966-1019 | set after set, the exercises of a type come by layer, then by grade, source id and number |
| CurriculumManifests.CutType | scripts/knowledge_base_import.py:978-1019 | the loops over stages and parts give each stage's parts with their places |
| CurriculumManifests.StarManifest | scripts/knowledge_base_import.py:962-1024 | the rows of one star are the cut stages of its own exercises, layered by its own points |
| CurriculumManifests.Manifests | scripts/knowledge_base_import.py:933-1024 | so for every star, and the skipped list holds what was too long |
| CurriculumManifests.ManifestCounts | scripts/knowledge_base_import.py:933-1024 | how often each exercise is in the practice sets |
| CurriculumManifests.ManifestsKeepIff | scripts/knowledge_base_import.py:933-1024 | nothing is lost or doubled exactly when every kept exercise's type is one of its star's subject |
| CurriculumManifests.StructuredIsWellBuilt | scripts/knowledge_base_import.py:560-660 | a structure without problems is what a manifest needs: every exercise has a star and a type of its subject |
| CurriculumManifests.StructuredManifestsKeep | scripts/knowledge_base_import.py:560-1024 | so from the structure to the practice sets no exercise is lost or doubled |
| CurriculumManifests.StarWalk | scripts/knowledge_base_import.py:977-1019 | a star's sets have different places, and walking them climbs within a type always and across types exactly without overlap |
| CurriculumManifests.WalkCanStepBack | scripts/knowledge_base_import.py:933-1024 | two points, one edge and three exercises of two types for which the walk goes back |
| CurriculumWalk.StagesSpan | scripts/knowledge_base_import.py:779-794 | each stage runs in layer order from its first layer to its last |
| CurriculumWalk.SetsFollow | scripts/knowledge_base_import.py:978-1019 | the sets of a stage are its parts, numbered from 1, their places following on one another from the stage's first layer and type |
| CurriculumWalk.PlacesDiffer | scripts/knowledge_base_import.py:1009-1011 | no two sets of a star share a place |
| CurriculumWalk.TypeWalkClimbs | scripts/knowledge_base_import.py:977-1019 | within one question type the walk never goes back to a lower layer |
| CurriculumWalk.WalkClimbsIff | scripts/knowledge_base_import.py:977-1019 | across question types it does not exactly when no stage reaches past the start of a later set of another type |
| TreeIdentity.TreeDigest.Visit | scripts/release_gate.py:1417-1477 | the recursive visit feeds the records of the listing in order, or stops at the first problem |
| TreeIdentity.AcceptedIff | scripts/release_gate.py:1417-1477 | a tree is accepted exactly when every entry of it is: its name, its kind, its size |
| TreeIdentity.StreamByBytes | scripts/release_gate.py:1440-1475 | the stream of a directory and a file, byte by byte |
| TreeIdentity.RecordsSplit | scripts/release_gate.py:1440-1475 | a record gives itself and what follows it back, whatever bytes the file holds |
| TreeIdentity.RecordsTellListing | scripts/release_gate.py:1417-1477 | the records of a listing tell its names, nesting, empty directories, executable bits and contents |
| TreeIdentity.StreamTellsTree | scripts/release_gate.py:1386-1489 | two accepted trees have equal streams exactly when they are equal, up to the generated roots when excluded |
| TreeIdentity.RecordsOfVisible | scripts/release_gate.py:1431-1436 | generated roots are passed over at the top and nowhere else |
| TreeIdentity.WebTreeIdentity | scripts/release_gate.py:1386-1489 | the identity is the hash of the stream with the counts of files and bytes, or the first problem |
| TreeIdentity.IdentityTellsTree | scripts/release_gate.py:1386-1489 | unless the hash collides, equal identities are equal trees |
| BlobBatch.BatchGitBlobs | scripts/release_gate.py:2645-2677 | moving a cursor over the answer reads the frames of the requested blobs |
| BlobBatch.ReadsExactlyBatches | scripts/release_gate.py:2656-2677 | an answer is accepted as these blobs exactly when it is their frames in request order, without gap, truncation or trailing bytes |
| BlobBatch.BatchRoundTrip | scripts/release_gate.py:2645-2677 | the frames git writes for any contents are read back as those contents |
| BlobBatch.HeaderSplitsIff | scripts/release_gate.py:2663 | a header splits in three exactly when it is three fields |
| BlobBatch.SizesAreLenient | scripts/release_gate.py:2664 | a padded and signed text reads as a size |
| BlobBatch.LenientAnswerIsRead | scripts/release_gate.py:2645-2677 | a whole answer with such a size is accepted |
| BlobBatch.NumeralsRoundTrip | scripts/release_gate.py:2664 | a decimal numeral is read as its number |
| Editorial.ConvertedIsEligible | scripts/editorial_batch_to_migration.py:108-262 | a record converts to a card and a skill exactly when one and only one link is primary for it, its card is in the batch, and the skill that decides for the card, the platform's before the proposed one, belongs to the card's unit |
| Editorial.SkippedIff | scripts/editorial_batch_to_migration.py:108-320 | it is skipped for a reason exactly when that reason holds |
| Editorial.FileRecords | scripts/editorial_batch_to_migration.py:217-340 | one row for every record saying what became of it, and the converted ones under their cards |
| Editorial.Split | scripts/editorial_batch_to_migration.py:170-193 | a card's exercises, easiest first, are cut evenly |
| Editorial.SplitKeeps | scripts/editorial_batch_to_migration.py:170-193 | a split loses nothing and goes by solution steps, then prompt length, then the order given |
| Editorial.SplitIsEven | scripts/editorial_batch_to_migration.py:170-193 | as few parts as fit, each of one to the most exercises numbered from 1, differing by at most one |
| Editorial.PartsAreNamed | scripts/editorial_batch_to_migration.py:170-193 | the parts of a card have different names and numbers, and no part is shorter than five minutes or three an exercise |
| Editorial.PlacesHaveNoGap | scripts/editorial_batch_to_migration.py:342-349 | the lessons of a unit are numbered from 101 without a gap |
| Editorial.ConversionKeepsAll | scripts/editorial_batch_to_migration.py:196-349 | the manifest holds exactly the records that convert, each as often as given |
| Editorial.ConvertBatch | scripts/editorial_batch_to_migration.py:196-390 | the whole conversion, and exactly when it refuses the batch |
| Editorial.RowNamesItsLesson | scripts/editorial_batch_to_migration.py:350-355 | the lesson a row names holds its record when exercise ids are distinct |
| Grouping.GroupsKeepAll | scripts/editorial_batch_to_migration.py:288-330 | filing under keys of first appearance loses nothing |
| PublicationClient.Select | scripts/publish_curriculum_drafts.py:184-216 | every wanted version the migrations applied, each once, where it is first named and in that order |
| PublicationClient.Plan | scripts/publish_curriculum_drafts.py:219-249 | one row for each, in order, with the steps its state needs when it passes validation and none otherwise, read without changing anything |
| PublicationClient.PlanHasAll | scripts/publish_curriculum_drafts.py:184-249 | every wanted row of every named migration has exactly one row in a plan |
| PublicationClient.PlanHasOnly | scripts/publish_curriculum_drafts.py:184-249 | and every row of a plan is for such a row, with its version and what it expects to be live |
| PublicationClient.SameCodeSameMoves | scripts/publish_curriculum_drafts.py:252-265 | unless the digest collides on the two plans, the same confirmation code is the same moves in the same order |
| PublicationClient.MoveRow | scripts/publish_curriculum_drafts.py:268-289 | a row's steps in order, stopping at the first that is not answered |
| PublicationClient.Apply | scripts/publish_curriculum_drafts.py:268-289 | rows before the stopping row are complete, rows after it and their versions untouched |
| PublicationClient.Run | scripts/publish_curriculum_drafts.py:292-339 | whatever is listed, refused, done or stopped is the whole plan; nothing is written without its code; the stopped row, its step and the number published are as reported; all done leaves exactly the versions published that were not live before |
| PublicationClient.Campaign | scripts/publish_curriculum_drafts.py:55-59 | over any runs the transitions of every version are the first ones it needed, each once and in order |
| PublicationClient.DraftsTakeAPrefix | scripts/publish_curriculum_drafts.py:55-59 | a draft takes a prefix of submit, approve, publish; a version that needs nothing takes nothing |
| PublicationServer.ClientStepKeeps | src/stoa/services/curriculum_ops_service.py:242-342 | the step a version needs next keeps every version's history in order, answered, refused, lost or torn |
| PublicationServer.TornStaysApproved | src/stoa/services/curriculum_ops_service.py:289-299 | a torn publish is answered with success ever after and never becomes published |
| PublicationServer.PublishedIff | src/stoa/services/curriculum_ops_service.py:289-333 | an answered publish makes an approved version published exactly when it was not live already |
| PublicationServer.PublishSwapsPointer | src/stoa/services/curriculum_ops_service.py:289-333 | a publish moves the live pointer exactly from the version expected, and is refused against any other |
| PublicationServer.TearingLeavesApproved | src/stoa/services/curriculum_ops_service.py:316-333 | between the pointer and the state a publish can be torn |

## Left out

- Floating-point rounding of the layout, the values of `cos` and `sin`, and the seeded random ring: exact reals, unit directions and any starting points instead. The token phases are part of the unit directions.
- `collect`, `describe` and the tables behind them: collecting is any function of the authored content, which the layout does not write.
- StarmapBuild.Run: the order of the planned writes and a run interrupted between two of them are not modelled; the plan is a map.
- Malformed pointers and transactions: reads are well formed and the field validators are not modelled.
- DeliveryPromotion.PromoteStaging: a failing store access ends the call. A store that raises `RuntimeError` inside the guarded block, which would start a second compensation, is not modelled.
- DeliveryRace.RaceIsSafe: provider writes fail only on their preconditions, and the three Lambda coordinates differ.
- The conditional descriptor write depends on the descriptor coordinate alone, the weakest condition the protocol allows.
- Titles, descriptions, translations and figures of the curriculum: whether a star's texts pass their checks is a flag of the offer. Map order and the list of prerequisites stored with a star are left out.
- CurriculumStructure.Structure: for points with distinct ids, which is what the translation writes.
- CurriculumMerge.ApplyMerges: with two batches for one nebula the stars, the problems and when it raises are stated, but not when the points are split, since both batches' stars are kept. The batches are written one for a nebula.
- CurriculumManifests.StructuredManifestsKeep: for points filed so that those of one nebula are of one subject, which is how a point is offered its groups.
- StarmapEdits.EditRewritesOwnRows: for maps on which no two entities share a row.
- The ZAP practice sets, the star file, the skill vocabulary and the lesson fields of `manifests` other than its exercises and order; `knowledge_base_catalog` is parameters.
- CurriculumManifests.StarWalk: for at most ten question types and a hundred exercises to a stage, which keeps the places of a star apart.
- CurriculumManifests.Manifests: exercises refer to structured points and have a question type; the lookups that would raise otherwise are not modelled.
- Changes to the tree during the inspection, and the descriptors and metadata comparisons against them. A listing is given in the order of its name bytes.
- BlobBatch.BatchGitBlobs: the limit on digits of Python's `int` is not modelled.
- Editorial checks of texts and record fields are flags of the record; the slugs of ids, the rights statuses and the fields not carried are left out.
- PublicationClient.Campaign: a lost request takes effect at once or never, and a version is imported after the version it names as live; no other actor moves versions.
- The other parsers and receipts of `scripts/release_gate.py`, and scripts that only validate closed records or call a provider.
