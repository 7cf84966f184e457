/**
 * `useJudgeReviews(contestId)` of `src/hooks/use-judge-reviews.ts`: the judges' reviews
 * of every contest persisted as one list under `dualguard_judge_reviews`, keyed on the
 * pair (finding, contest), and the hook's local list of the current contest's reviews.
 * Identifiers and timestamps are parameters.
 */
module JudgeReviews {
  import opened Common

  const StorageKey := "dualguard_judge_reviews"

  datatype ReviewStatus = Pending | Reviewed | NeedsSecondReview | Done

  datatype JudgeReview = JudgeReview(
    id: string,
    findingId: string,
    contestId: string,
    judgeSelectedSeverity: string,
    comment: string,
    status: ReviewStatus,
    createdAt: string,
    updatedAt: string)

  /** The `data` argument of `upsertReview`. */
  datatype ReviewData = ReviewData(judgeSelectedSeverity: string, comment: string, status: ReviewStatus)

  function IsPair(findingId: string, contestId: string): JudgeReview -> bool {
    (r: JudgeReview) => r.findingId == findingId && r.contestId == contestId
  }

  function IsForFinding(findingId: string): JudgeReview -> bool {
    (r: JudgeReview) => r.findingId == findingId
  }

  function HasStatus(status: ReviewStatus): JudgeReview -> bool {
    (r: JudgeReview) => r.status == status
  }

  /** What `loadReviews` keeps of the stored list: the contest's reviews, in stored order. */
  function OfContest(all: seq<JudgeReview>, contestId: string): (r: seq<JudgeReview>)
    ensures forall x :: x in r <==> x in all && x.contestId == contestId
  {
    Filter(all, (x: JudgeReview) => x.contestId == contestId)
  }

  /** `getReviewForFinding(findingId)`: the first review of the local list for that finding. */
  function ReviewForFinding(reviews: seq<JudgeReview>, findingId: string): (r: Option<JudgeReview>)
    ensures r.Some? ==> r.value in reviews && r.value.findingId == findingId
    ensures r.None? <==> forall x :: x in reviews ==> x.findingId != findingId
  {
    match FindIndex(reviews, IsForFinding(findingId))
    case None => None
    case Some(i) => Some(reviews[i])
  }

  /** `{ ...review, ...data, updatedAt: now }`. */
  function Overwritten(r: JudgeReview, data: ReviewData, now: string): JudgeReview {
    r.(judgeSelectedSeverity := data.judgeSelectedSeverity, comment := data.comment, status := data.status, updatedAt := now)
  }

  /** The review `upsertReview` creates. */
  function NewReview(findingId: string, contestId: string, data: ReviewData, id: string, now: string): JudgeReview {
    JudgeReview(id, findingId, contestId, data.judgeSelectedSeverity, data.comment, data.status, now, now)
  }

  /** The review `upsertReview` returns. */
  function Upserted(all: seq<JudgeReview>, findingId: string, contestId: string, data: ReviewData, id: string, now: string): JudgeReview {
    match FindIndex(all, IsPair(findingId, contestId))
    case Some(i) => Overwritten(all[i], data, now)
    case None => NewReview(findingId, contestId, data, id, now)
  }

  /** The stored list after `upsertReview`: the first review of the pair is overwritten, or a new one appended. */
  function UpsertedStore(all: seq<JudgeReview>, findingId: string, contestId: string, data: ReviewData, id: string, now: string): seq<JudgeReview> {
    match FindIndex(all, IsPair(findingId, contestId))
    case Some(i) => all[i := Overwritten(all[i], data, now)]
    case None => all + [NewReview(findingId, contestId, data, id, now)]
  }

  /** The local list after `upsertReview`. */
  function UpsertedLocal(local: seq<JudgeReview>, all: seq<JudgeReview>, findingId: string, contestId: string, data: ReviewData, id: string, now: string): seq<JudgeReview> {
    var r := Upserted(all, findingId, contestId, data, id, now);
    if FindIndex(all, IsPair(findingId, contestId)).Some? then ReplaceWhere(local, IsForFinding(findingId), r) else local + [r]
  }

  /** At most one stored review per (finding, contest) pair. */
  predicate UniquePairs(all: seq<JudgeReview>) {
    forall a, b :: 0 <= a < b < |all| ==> !(all[a].findingId == all[b].findingId && all[a].contestId == all[b].contestId)
  }

  /**
   * An existing review keeps its identity and creation time and takes the new severity,
   * comment and status; a new review is created and last updated at the same instant.
   */
  lemma UpsertedFields(all: seq<JudgeReview>, findingId: string, contestId: string, data: ReviewData, id: string, now: string)
    ensures var r := Upserted(all, findingId, contestId, data, id, now);
      && r.findingId == findingId && r.contestId == contestId && r.updatedAt == now
      && r.judgeSelectedSeverity == data.judgeSelectedSeverity && r.comment == data.comment && r.status == data.status
      && match FindIndex(all, IsPair(findingId, contestId))
         case Some(i) => r.id == all[i].id && r.createdAt == all[i].createdAt
         case None => r.id == id && r.createdAt == now
  {
  }

  /** Upserting never adds a second review for a pair: it overwrites in place, or appends exactly one at the end. */
  lemma UpsertShape(all: seq<JudgeReview>, findingId: string, contestId: string, data: ReviewData, id: string, now: string)
    ensures var s := UpsertedStore(all, findingId, contestId, data, id, now);
      var r := Upserted(all, findingId, contestId, data, id, now);
      (exists x :: x in all && IsPair(findingId, contestId)(x)) <==> |s| == |all|
    ensures var s := UpsertedStore(all, findingId, contestId, data, id, now);
      var r := Upserted(all, findingId, contestId, data, id, now);
      |s| == |all| + 1 ==> s == all + [r]
  {
    var k := FindIndex(all, IsPair(findingId, contestId));
    if k.Some? {
      assert all[k.value] in all;
    }
  }

  /** Upserting keeps the one-review-per-pair invariant. */
  lemma UpsertKeepsPairsUnique(all: seq<JudgeReview>, findingId: string, contestId: string, data: ReviewData, id: string, now: string)
    requires UniquePairs(all)
    ensures UniquePairs(UpsertedStore(all, findingId, contestId, data, id, now))
  {
    var s := UpsertedStore(all, findingId, contestId, data, id, now);
    var k := FindIndex(all, IsPair(findingId, contestId));
    if k.None? {
      forall a, b | 0 <= a < b < |s| ensures !(s[a].findingId == s[b].findingId && s[a].contestId == s[b].contestId) {
        if b == |all| {
          assert !IsPair(findingId, contestId)(all[a]);
        }
      }
    }
  }

  /** Reviews of every other contest, and of other findings, keep their place and value. */
  lemma UpsertLeavesOthers(all: seq<JudgeReview>, findingId: string, contestId: string, data: ReviewData, id: string, now: string)
    ensures var s := UpsertedStore(all, findingId, contestId, data, id, now);
      && |s| >= |all|
      && forall j :: 0 <= j < |all| && !IsPair(findingId, contestId)(all[j]) ==> s[j] == all[j]
  {
  }

  /** The status stats of `getStats`. */
  datatype Stats = Stats(total: nat, pending: nat, reviewed: nat, needsSecondReview: nat, done: nat)

  function StatsOf(reviews: seq<JudgeReview>): Stats {
    Stats(|reviews|,
      |Filter(reviews, HasStatus(Pending))|,
      |Filter(reviews, HasStatus(Reviewed))|,
      |Filter(reviews, HasStatus(NeedsSecondReview))|,
      |Filter(reviews, HasStatus(Done))|)
  }

  /** Every review has exactly one of the four statuses, so the four counts add up to the total. */
  lemma {:induction false} StatsAddUp(reviews: seq<JudgeReview>)
    ensures var st := StatsOf(reviews);
      st.pending + st.reviewed + st.needsSecondReview + st.done == st.total
    decreases |reviews|
  {
    if reviews != [] {
      StatsAddUp(reviews[1..]);
    }
  }

  /** The hook's state. */
  class JudgeReviewsHook {
    /** `localStorage['dualguard_judge_reviews']`. */
    var stored: StoredList<JudgeReview>
    /** The `reviews` state: the current contest's reviews. */
    var reviews: seq<JudgeReview>
    var isLoading: bool
    const contestId: string

    constructor(contestId: string, stored: StoredList<JudgeReview>)
      ensures this.contestId == contestId && this.stored == stored
      ensures reviews == [] && isLoading
    {
      this.contestId := contestId;
      this.stored := stored;
      reviews := [];
      isLoading := true;
    }

    /** `loadReviews()`: a readable list replaces the local one; otherwise the local list stays. */
    method Load()
      modifies this
      ensures stored == old(stored) && !isLoading
      ensures reviews == if stored.StoredItems? then OfContest(stored.items, contestId) else old(reviews)
    {
      if stored.StoredItems? {
        reviews := OfContest(stored.items, contestId);
      }
      isLoading := false;
    }

    /** `upsertReview(findingId, data)`. */
    method Upsert(findingId: string, data: ReviewData, id: string, now: string) returns (r: JudgeReview)
      modifies this
      ensures var all := old(stored).ItemsOrEmpty();
        && r == Upserted(all, findingId, contestId, data, id, now)
        && stored == StoredItems(UpsertedStore(all, findingId, contestId, data, id, now))
        && reviews == UpsertedLocal(old(reviews), all, findingId, contestId, data, id, now)
      ensures isLoading == old(isLoading)
    {
      var all := stored.ItemsOrEmpty();
      var existingIndex := FindIndex(all, IsPair(findingId, contestId));
      if existingIndex.Some? {
        r := Overwritten(all[existingIndex.value], data, now);
        stored := StoredItems(all[existingIndex.value := r]);
        reviews := ReplaceWhere(reviews, IsForFinding(findingId), r);
      } else {
        r := NewReview(findingId, contestId, data, id, now);
        stored := StoredItems(all + [r]);
        reviews := reviews + [r];
      }
    }

    /** `updateStatus(findingId, status)`: re-upserts the local review with only the status changed. */
    method UpdateStatus(findingId: string, status: ReviewStatus, id: string, now: string)
      modifies this
      ensures match ReviewForFinding(old(reviews), findingId)
        case None => stored == old(stored) && reviews == old(reviews)
        case Some(existing) =>
          var data := ReviewData(existing.judgeSelectedSeverity, existing.comment, status);
          var all := old(stored).ItemsOrEmpty();
          && stored == StoredItems(UpsertedStore(all, findingId, contestId, data, id, now))
          && reviews == UpsertedLocal(old(reviews), all, findingId, contestId, data, id, now)
      ensures isLoading == old(isLoading)
    {
      var existing := ReviewForFinding(reviews, findingId);
      if existing.Some? {
        var _ := Upsert(findingId, ReviewData(existing.value.judgeSelectedSeverity, existing.value.comment, status), id, now);
      }
    }

    /** `getStats()`. */
    function GetStats(): (st: Stats)
      reads this
      ensures st.total == |reviews|
      ensures st.pending + st.reviewed + st.needsSecondReview + st.done == st.total
    {
      StatsAddUp(reviews);
      StatsOf(reviews)
    }
  }

  /** A status update keeps the severity and comment of the review it starts from and sets only the status. */
  lemma UpdateStatusKeepsVerdict(all: seq<JudgeReview>, existing: JudgeReview, findingId: string, contestId: string, status: ReviewStatus, id: string, now: string)
    ensures var data := ReviewData(existing.judgeSelectedSeverity, existing.comment, status);
      var r := Upserted(all, findingId, contestId, data, id, now);
      r.judgeSelectedSeverity == existing.judgeSelectedSeverity && r.comment == existing.comment && r.status == status
  {
  }
}
