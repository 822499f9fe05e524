/**
 * The performance-management handlers over in-memory tables: goals that an
 * employee creates and patches, the listings of a user's goals, manager
 * reviews upserted by (employee, reviewer, cycle), and self-assessments
 * replaced per (user, cycle).
 */
module PmsController {
  import opened Wrappers
  import opened Tables

  /** A row of the goals table. `status` and `progress` are stored as given. */
  datatype Goal = Goal(
    userId: nat,
    cycleId: nat,
    title: string,
    description: string,
    timeline: string,
    progress: int,
    status: string)

  /** The body of a create-goal request; a missing cycle_id reads as 0, a missing title as "". */
  datatype GoalInput = GoalInput(cycleId: nat, title: string, description: string, timeline: string)

  /** The body of an update-goal request: each field is present or absent. */
  datatype GoalPatch = GoalPatch(
    title: Option<string>,
    description: Option<string>,
    timeline: Option<string>,
    progress: Option<int>,
    status: Option<string>)

  /** A row of the manager_reviews table; `reviewedAt` is a clock reading. */
  datatype Review = Review(
    employeeId: nat,
    reviewerId: nat,
    cycleId: nat,
    rating: int,
    comments: string,
    status: string,
    reviewedAt: int)

  datatype ReviewInput = ReviewInput(employeeId: nat, cycleId: nat, rating: int, comments: string, status: string)

  /** The key a review is upserted by. */
  datatype ReviewKey = ReviewKey(employeeId: nat, reviewerId: nat, cycleId: nat)

  /** A row of the self_assessments table; the rating is optional. */
  datatype SelfAssessment = SelfAssessment(
    userId: nat,
    cycleId: nat,
    comments: string,
    rating: Option<int>,
    submittedAt: int)

  datatype AssessmentInput = AssessmentInput(cycleId: nat, comments: string, rating: Option<int>)

  datatype PmsError = UserNotFound | InvalidInput | NotFound | InsufficientPrivileges | EmployeeIdRequired

  /** Only managers and admins may write reviews. */
  predicate MayReview(role: string)
  {
    role == "manager" || role == "admin"
  }

  /** The required fields are present (not zero) and the rating lies in 1..5. */
  predicate ValidReviewInput(input: ReviewInput)
  {
    input.employeeId != 0 && input.cycleId != 0 && 1 <= input.rating <= 5
  }

  /** A goal with the fields present in `p` overwritten; owner and cycle never change. */
  function Patched(g: Goal, p: GoalPatch): Goal
  {
    Goal(
      g.userId,
      g.cycleId,
      if p.title.Some? then p.title.value else g.title,
      if p.description.Some? then p.description.value else g.description,
      if p.timeline.Some? then p.timeline.value else g.timeline,
      if p.progress.Some? then p.progress.value else g.progress,
      if p.status.Some? then p.status.value else g.status)
  }

  /** Applying the same partial update twice is the same as applying it once. */
  lemma PatchIdempotent(g: Goal, p: GoalPatch)
    ensures Patched(Patched(g, p), p) == Patched(g, p)
  {
  }

  /** An update with no field present changes nothing. */
  lemma EmptyPatchChangesNothing(g: Goal)
    ensures Patched(g, GoalPatch(None, None, None, None, None)) == g
  {
  }

  /** Whether goal `g` belongs to `owner` and, when a cycle is given, to that cycle. */
  predicate GoalMatches(g: Goal, owner: nat, cycle: Option<nat>)
  {
    g.userId == owner && (cycle.None? || g.cycleId == cycle.value)
  }

  /** The ids of the goals of `owner` (in `cycle`, when given), newest first. */
  function GoalIds(goals: seq<Goal>, owner: nat, cycle: Option<nat>): (ids: seq<nat>)
    ensures forall id :: id in ids <==> 1 <= id <= |goals| && GoalMatches(goals[id - 1], owner, cycle)
    ensures forall i, j :: 0 <= i < j < |ids| ==> ids[i] > ids[j]
  {
    IdsNewestFirst(|goals|, (id: nat) => 1 <= id <= |goals| && GoalMatches(goals[id - 1], owner, cycle))
  }

  /** Restricting to a cycle lists a subset of the owner's goals. */
  lemma CycleFilterNarrows(goals: seq<Goal>, owner: nat, cycle: nat)
    ensures forall id :: id in GoalIds(goals, owner, Some(cycle)) ==> id in GoalIds(goals, owner, None)
  {
  }

  function ReviewKeyOf(r: Review): ReviewKey
  {
    ReviewKey(r.employeeId, r.reviewerId, r.cycleId)
  }

  /** The index of the first review with key `key` (the row `First` returns), if any. */
  function FindReview(reviews: seq<Review>, key: ReviewKey): (found: Option<nat>)
    ensures found.Some? ==>
      && found.value < |reviews|
      && ReviewKeyOf(reviews[found.value]) == key
      && forall j :: 0 <= j < found.value ==> ReviewKeyOf(reviews[j]) != key
    ensures found.None? ==> forall j :: 0 <= j < |reviews| ==> ReviewKeyOf(reviews[j]) != key
  {
    if reviews == [] then None
    else if ReviewKeyOf(reviews[0]) == key then Some(0)
    else
      match FindReview(reviews[1..], key)
      case None => None
      case Some(i) => Some(i + 1)
  }

  /** An update of `existing` by the struct `mv` that writes only the fields of
      `mv` that are not zero (0 or ""): the clock reading is never zero. */
  function MergeNonZero(existing: Review, mv: Review): Review
  {
    Review(
      if mv.employeeId != 0 then mv.employeeId else existing.employeeId,
      if mv.reviewerId != 0 then mv.reviewerId else existing.reviewerId,
      if mv.cycleId != 0 then mv.cycleId else existing.cycleId,
      if mv.rating != 0 then mv.rating else existing.rating,
      if mv.comments != "" then mv.comments else existing.comments,
      if mv.status != "" then mv.status else existing.status,
      mv.reviewedAt)
  }

  /** Overwriting a review by one with the same key keeps the key; the stored row
      takes every new value except an empty comment or status, which keeps the old one. */
  lemma MergeKeepsKeyAndTakesNewValues(existing: Review, mv: Review)
    requires ReviewKeyOf(existing) == ReviewKeyOf(mv) && mv.rating != 0
    ensures ReviewKeyOf(MergeNonZero(existing, mv)) == ReviewKeyOf(existing)
    ensures MergeNonZero(existing, mv) ==
      mv.(comments := if mv.comments == "" then existing.comments else mv.comments,
          status := if mv.status == "" then existing.status else mv.status)
  {
  }

  /** No two reviews share an (employee, reviewer, cycle) key. */
  ghost predicate UniqueReviewKeys(reviews: seq<Review>)
  {
    forall i, j :: 0 <= i < j < |reviews| ==> ReviewKeyOf(reviews[i]) != ReviewKeyOf(reviews[j])
  }

  /** Whether two self-assessments are for the same user and cycle. */
  predicate SameSlot(a: SelfAssessment, b: SelfAssessment)
  {
    a.userId == b.userId && a.cycleId == b.cycleId
  }

  /** Whether the table already holds a row for the same user and cycle as `s`. */
  predicate SlotTaken(rows: map<nat, SelfAssessment>, s: SelfAssessment)
  {
    exists id :: id in rows && SameSlot(rows[id], s)
  }

  /** The table without the rows for the same user and cycle as `s`: no row of
      that slot is left, every row left is an original row, and a table whose
      slots were unique stays so. */
  function WithoutSlot(rows: map<nat, SelfAssessment>, s: SelfAssessment): (kept: map<nat, SelfAssessment>)
    ensures forall id :: id in kept ==> !SameSlot(kept[id], s)
    ensures forall id :: id in kept ==> id in rows && kept[id] == rows[id]
    ensures forall id :: id in rows && !SameSlot(rows[id], s) ==> id in kept
    ensures UniqueSlots(rows) ==> UniqueSlots(kept)
  {
    map id | id in rows && !SameSlot(rows[id], s) :: rows[id]
  }

  /** Deleting a slot a second time deletes nothing more. */
  lemma WithoutSlotIdempotent(rows: map<nat, SelfAssessment>, s: SelfAssessment)
    ensures WithoutSlot(WithoutSlot(rows, s), s) == WithoutSlot(rows, s)
  {
  }

  /** No two self-assessments share a (user, cycle) slot. */
  ghost predicate UniqueSlots(rows: map<nat, SelfAssessment>)
  {
    forall a, b :: a in rows && b in rows && a != b ==> !SameSlot(rows[a], rows[b])
  }

  /** Replacing the rows of a (user, cycle) slot by one row under an unused id
      keeps every slot unique, makes that row the only one of its slot, and
      leaves the rows of every other slot as they were. */
  lemma ReplaceSlotKeepsOneRowPerSlot(rows: map<nat, SelfAssessment>, s: SelfAssessment, newId: nat)
    requires UniqueSlots(rows) && newId !in rows
    ensures var after := WithoutSlot(rows, s)[newId := s];
      && UniqueSlots(after)
      && (forall id :: id in after && SameSlot(after[id], s) ==> id == newId)
      && (forall id :: id in rows && !SameSlot(rows[id], s) ==> id in after && after[id] == rows[id])
  {
  }

  class PmsStore {
    /** The users table: a user's id by e-mail. */
    var users: map<string, nat>
    /** The goals table: the goal with id `i` is `goals[i - 1]`. */
    var goals: seq<Goal>
    /** The manager_reviews table: the review with id `i` is `reviews[i - 1]`. */
    var reviews: seq<Review>
    /** The self_assessments table by id, with the last id handed out. */
    var assessments: map<nat, SelfAssessment>
    var lastAssessmentId: nat

    /** User ids are positive, every goal has an owner, assessment ids come
        from the counter, and (user, cycle) is unique among self-assessments. */
    ghost predicate Valid()
      reads this
    {
      && (forall e :: e in users ==> users[e] != 0)
      && (forall i :: 0 <= i < |goals| ==> goals[i].userId != 0)
      && (forall id :: id in assessments ==> 1 <= id <= lastAssessmentId)
      && UniqueSlots(assessments)
    }

    constructor (accounts: map<string, nat>)
      requires forall e :: e in accounts ==> accounts[e] != 0
      ensures Valid()
      ensures users == accounts && goals == [] && reviews == [] && assessments == map[] && lastAssessmentId == 0
    {
      users := accounts;
      goals := [];
      reviews := [];
      assessments := map[];
      lastAssessmentId := 0;
    }

    /** The id of the user with this e-mail; 0 when there is none. */
    function UserIdOf(email: string): nat
      reads this
    {
      if email in users then users[email] else 0
    }

    /** Creates a goal owned by the caller, copying the input, at status draft. */
    method CreateGoal(email: string, input: GoalInput) returns (r: Result<nat, PmsError>)
      requires Valid()
      modifies this`goals
      ensures Valid()
      ensures UserIdOf(email) == 0 ==> r == Err(UserNotFound) && goals == old(goals)
      ensures UserIdOf(email) != 0 && (input.cycleId == 0 || input.title == "") ==>
        r == Err(InvalidInput) && goals == old(goals)
      ensures UserIdOf(email) != 0 && input.cycleId != 0 && input.title != "" ==>
        && r == Ok(|old(goals)| + 1)
        && goals == old(goals) + [Goal(UserIdOf(email), input.cycleId, input.title, input.description, input.timeline, 0, "draft")]
      ensures r.Ok? ==>
        && r.value in ListMyGoals(email, None)
        && r.value in ListMyGoals(email, Some(input.cycleId))
        && goals[r.value - 1].status == "draft"
    {
      var userId := UserIdOf(email);
      if userId == 0 {
        return Err(UserNotFound);
      }
      if input.cycleId == 0 || input.title == "" {
        return Err(InvalidInput);
      }
      goals := goals + [Goal(userId, input.cycleId, input.title, input.description, input.timeline, 0, "draft")];
      r := Ok(|goals|);
    }

    /** Writes the fields present in the patch to the caller's goal `id`, with no
        check on status or progress; any other goal is reported as not found. */
    method UpdateGoal(email: string, id: nat, patch: GoalPatch) returns (r: Outcome<PmsError>)
      requires Valid()
      modifies this`goals
      ensures Valid()
      ensures |goals| == |old(goals)|
      ensures 1 <= id <= |old(goals)| && old(goals)[id - 1].userId == UserIdOf(email) ==>
        && r == Pass
        && goals == old(goals)[id - 1 := Patched(old(goals)[id - 1], patch)]
      ensures !(1 <= id <= |old(goals)| && old(goals)[id - 1].userId == UserIdOf(email)) ==>
        r == Fail(NotFound) && goals == old(goals)
      ensures email !in users ==> r == Fail(NotFound)
      ensures r.Pass? && patch.status.Some? ==> goals[id - 1].status == patch.status.value
      ensures r.Pass? && patch.progress.Some? ==> goals[id - 1].progress == patch.progress.value
    {
      var userId := UserIdOf(email);
      if !(1 <= id <= |goals| && goals[id - 1].userId == userId) {
        return Fail(NotFound);
      }
      var g := goals[id - 1];
      if patch.title.Some? {
        g := g.(title := patch.title.value);
      }
      if patch.description.Some? {
        g := g.(description := patch.description.value);
      }
      if patch.timeline.Some? {
        g := g.(timeline := patch.timeline.value);
      }
      if patch.progress.Some? {
        g := g.(progress := patch.progress.value);
      }
      if patch.status.Some? {
        g := g.(status := patch.status.value);
      }
      goals := goals[id - 1 := g];
      r := Pass;
    }

    /** The ids of the caller's goals, of one cycle when given, newest first. */
    function ListMyGoals(email: string, cycle: Option<nat>): (ids: seq<nat>)
      reads this
      ensures forall id :: id in ids <==>
        1 <= id <= |goals| && goals[id - 1].userId == UserIdOf(email)
        && (cycle.None? || goals[id - 1].cycleId == cycle.value)
      ensures forall i, j :: 0 <= i < j < |ids| ==> ids[i] > ids[j]
    {
      GoalIds(goals, UserIdOf(email), cycle)
    }

    /** The ids of one employee's goals, of one cycle when given, newest first;
        an error when no employee is named. */
    function ManagerListEmployeeGoals(employeeId: Option<nat>, cycle: Option<nat>): (r: Result<seq<nat>, PmsError>)
      reads this
      ensures employeeId.None? <==> r == Err(EmployeeIdRequired)
      ensures r.Ok? ==> forall id :: id in r.value <==>
        1 <= id <= |goals| && goals[id - 1].userId == employeeId.value
        && (cycle.None? || goals[id - 1].cycleId == cycle.value)
      ensures r.Ok? ==> forall i, j :: 0 <= i < j < |r.value| ==> r.value[i] > r.value[j]
    {
      if employeeId.None? then Err(EmployeeIdRequired)
      else Ok(GoalIds(goals, employeeId.value, cycle))
    }

    /** Stores the caller's self-assessment for a cycle; one already stored for
        the same user and cycle is deleted first. The rating is not checked.
        A first insert that fails on the slot has already drawn an id from the
        sequence, so the stored row then gets the id after it. */
    method SubmitSelfAssessment(email: string, input: AssessmentInput, now: int) returns (r: Result<(nat, SelfAssessment), PmsError>)
      requires Valid()
      modifies this`assessments, this`lastAssessmentId
      ensures Valid()
      ensures input.cycleId == 0 ==>
        && r == Err(InvalidInput)
        && assessments == old(assessments) && lastAssessmentId == old(lastAssessmentId)
      ensures input.cycleId != 0 ==>
        var s := SelfAssessment(UserIdOf(email), input.cycleId, input.comments, input.rating, now);
        && r == Ok((lastAssessmentId, s))
        && lastAssessmentId == old(lastAssessmentId) + (if SlotTaken(old(assessments), s) then 2 else 1)
        && assessments == WithoutSlot(old(assessments), s)[lastAssessmentId := s]
      ensures r.Ok? ==> r.value.1.userId == UserIdOf(email) && r.value.1.cycleId == input.cycleId
    {
      if input.cycleId == 0 {
        return Err(InvalidInput);
      }
      var s := SelfAssessment(UserIdOf(email), input.cycleId, input.comments, input.rating, now);
      // The insert violates the unique (user_id, cycle_id) index exactly when a
      // row for the same user and cycle exists; the handler then deletes those
      // rows and inserts again.
      var conflict := SlotTaken(assessments, s);
      if conflict {
        lastAssessmentId := lastAssessmentId + 1;
        assessments := WithoutSlot(assessments, s);
      }
      lastAssessmentId := lastAssessmentId + 1;
      assessments := assessments[lastAssessmentId := s];
      r := Ok((lastAssessmentId, s));
    }

    /** A manager or admin rates an employee for a cycle: the review with the
        same (employee, reviewer, cycle) key is updated in place, or a new one
        is inserted. The response echoes the request's values. */
    method CreateOrUpdateReview(email: string, role: string, input: ReviewInput, now: int)
      returns (r: Result<(nat, Review), PmsError>)
      modifies this`reviews
      ensures !MayReview(role) ==> r == Err(InsufficientPrivileges) && reviews == old(reviews)
      ensures MayReview(role) && !ValidReviewInput(input) ==> r == Err(InvalidInput) && reviews == old(reviews)
      ensures MayReview(role) && ValidReviewInput(input) ==>
        var mv := Review(input.employeeId, UserIdOf(email), input.cycleId, input.rating, input.comments, input.status, now);
        match FindReview(old(reviews), ReviewKeyOf(mv))
        case Some(i) =>
          r == Ok((i + 1, mv)) && reviews == old(reviews)[i := MergeNonZero(old(reviews)[i], mv)]
        case None =>
          r == Ok((|old(reviews)| + 1, mv)) && reviews == old(reviews) + [mv]
      ensures r.Ok? ==> 1 <= r.value.0 <= |reviews| && ReviewKeyOf(reviews[r.value.0 - 1]) == ReviewKeyOf(r.value.1)
      ensures old(UniqueReviewKeys(reviews)) ==> UniqueReviewKeys(reviews)
    {
      if role != "manager" && role != "admin" {
        return Err(InsufficientPrivileges);
      }
      var reviewerId := UserIdOf(email);
      // A missing required field binds as zero and fails the binding.
      if input.employeeId == 0 || input.cycleId == 0 || input.rating < 1 || input.rating > 5 {
        return Err(InvalidInput);
      }
      var mv := Review(input.employeeId, reviewerId, input.cycleId, input.rating, input.comments, input.status, now);
      var existing := FindReview(reviews, ReviewKeyOf(mv));
      if existing.Some? {
        var i := existing.value;
        MergeKeepsKeyAndTakesNewValues(reviews[i], mv);
        reviews := reviews[i := MergeNonZero(reviews[i], mv)];
        r := Ok((i + 1, mv));
      } else {
        reviews := reviews + [mv];
        r := Ok((|reviews|, mv));
      }
    }
  }
}
