/**
 * The cache logic of `src/hooks/api/issues.ts`: the next-page rule of the infinite
 * issue lists, and the cache updates of the issue deletions — the optimistic removal
 * from every participation response with its rollback, and the removal and
 * invalidations once a deletion settles. The query cache is a list of entries with
 * distinct keys; invalidations are recorded in a log (what a refetch then does is
 * React Query's business).
 */
module IssueHooks {
  import opened Common
  import opened QueryKeys

  /** `lastPage.pagination`'s `page < totalPages ? page + 1 : undefined`. */
  function NextPage(page: int, totalPages: int): (r: Option<int>)
    ensures r.Some? <==> page < totalPages
    ensures r.Some? ==> r.value == page + 1 && r.value <= totalPages
  {
    if page < totalPages then Some(page + 1) else None
  }

  const FirstPage := 1

  /** The pages an infinite list loads from `page` on, following `NextPage`. */
  function PagesFrom(page: int, totalPages: int): seq<int>
    decreases totalPages - page
  {
    match NextPage(page, totalPages)
    case None => [page]
    case Some(next) => [page] + PagesFrom(next, totalPages)
  }

  /** Starting at page 1, an infinite list loads pages `1, 2, …, totalPages` (just page 1 when `totalPages <= 1`), each once. */
  lemma {:induction false} PagesFromCountsUp(page: int, totalPages: int)
    ensures |PagesFrom(page, totalPages)| == (if page < totalPages then totalPages - page + 1 else 1)
    ensures forall i :: 0 <= i < |PagesFrom(page, totalPages)| ==> PagesFrom(page, totalPages)[i] == page + i
    decreases totalPages - page
  {
    if page < totalPages {
      PagesFromCountsUp(page + 1, totalPages);
    }
  }

  /** An issue inside a participation response; `id` is absent when the server sends none. */
  datatype UserIssue = UserIssue(id: Option<int>, title: string, severity: string, status: string)

  datatype ParticipationResponse = ParticipationResponse(
    participated: bool,
    joinedAt: Option<string>,
    issuesSubmitted: seq<UserIssue>)

  /** What a cache entry can hold: a participation response, an issue detail, or anything else. */
  datatype Data =
    | ParticipationData(response: ParticipationResponse)
    | IssueDetail(contestId: int)
    | Other

  /** A cached query; `data == None` is a query that has no data yet. */
  datatype Entry = Entry(key: Key, data: Option<Data>)

  /** `Array.isArray(key) && key.includes('participation')`. */
  predicate IsParticipationKey(key: Key) {
    Word("participation") in key
  }

  /** The entries `onMutate` snapshots and rewrites: participation keys that hold data. */
  predicate Selected(e: Entry) {
    IsParticipationKey(e.key) && e.data.Some?
  }

  /** Participation queries hold participation responses. */
  predicate WellTyped(es: seq<Entry>) {
    forall i :: 0 <= i < |es| && Selected(es[i]) ==> es[i].data.value.ParticipationData?
  }

  /** The cache holds one entry per key. */
  predicate DistinctKeys(es: seq<Entry>) {
    forall a, b :: 0 <= a < b < |es| ==> es[a].key != es[b].key
  }

  /** No entry has the key. */
  predicate KeyAbsent(es: seq<Entry>, key: Key) {
    forall a :: 0 <= a < |es| ==> es[a].key != key
  }

  /** `{ ...data, issuesSubmitted: data.issuesSubmitted.filter(issue => issue.id !== issueId) }`. */
  function WithoutIssue(r: ParticipationResponse, issueId: int): ParticipationResponse {
    r.(issuesSubmitted := Filter(r.issuesSubmitted, (u: UserIssue) => u.id != Some(issueId)))
  }

  /** One entry after `onMutate`. */
  function Mutated(e: Entry, issueId: int): Entry {
    if Selected(e) && e.data.value.ParticipationData? then
      Entry(e.key, Some(ParticipationData(WithoutIssue(e.data.value.response, issueId))))
    else e
  }

  /** `previousParticipations`, in the order `getQueriesData` lists the entries. */
  function Snapshot(es: seq<Entry>): seq<(Key, Data)>
    decreases |es|
  {
    if es == [] then []
    else
      var last := es[|es| - 1];
      Snapshot(es[..|es| - 1]) + (if Selected(last) then [(last.key, last.data.value)] else [])
  }

  /** The value a sequence of `setQueryData(key, data)` calls leaves for `key`: the last one wins. */
  function SnapLookup(snap: seq<(Key, Data)>, key: Key): Option<Data>
    decreases |snap|
  {
    if snap == [] then None
    else if snap[|snap| - 1].0 == key then Some(snap[|snap| - 1].1)
    else SnapLookup(snap[..|snap| - 1], key)
  }

  /** One entry after `onError` replays the snapshot. */
  function Restored(e: Entry, snap: seq<(Key, Data)>): Entry {
    match SnapLookup(snap, e.key)
    case Some(d) => Entry(e.key, Some(d))
    case None => e
  }

  /** The participation responses changed by `onMutate` lose exactly the issues with that id; everything else is kept. */
  lemma MutatedSpec(e: Entry, issueId: int)
    ensures Mutated(e, issueId).key == e.key
    ensures !Selected(e) ==> Mutated(e, issueId) == e
    ensures Selected(e) && e.data.value.ParticipationData? ==>
      var before := e.data.value.response;
      var after := Mutated(e, issueId).data.value.response;
      && after.participated == before.participated && after.joinedAt == before.joinedAt
      && (forall u :: u in after.issuesSubmitted <==> u in before.issuesSubmitted && u.id != Some(issueId))
      && after.issuesSubmitted == Filter(before.issuesSubmitted, (u: UserIssue) => u.id != Some(issueId))
  {
  }

  /** A `setQueryData` call appended to a replay decides its key; other keys keep what the replay left. */
  lemma SnapLookupLast(snap: seq<(Key, Data)>, p: (Key, Data), key: Key)
    ensures SnapLookup(snap + [p], key) == if p.0 == key then Some(p.1) else SnapLookup(snap, key)
  {
    assert (snap + [p])[..|snap|] == snap;
  }

  /** The snapshot of a list with one more entry. */
  lemma SnapshotLast(es: seq<Entry>, key: Key)
    requires es != []
    ensures var last := es[|es| - 1];
      SnapLookup(Snapshot(es), key) ==
        if Selected(last) && last.key == key then Some(last.data.value) else SnapLookup(Snapshot(es[..|es| - 1]), key)
  {
    var last := es[|es| - 1];
    if Selected(last) {
      SnapLookupLast(Snapshot(es[..|es| - 1]), (last.key, last.data.value), key);
    } else {
      var init := es[..|es| - 1];
      assert Snapshot(es) == Snapshot(init) + [];
      assert Snapshot(init) + [] == Snapshot(init);
    }
  }

  /** A key no entry has is absent from the snapshot. */
  lemma {:induction false} SnapshotKeysFrom(es: seq<Entry>, key: Key)
    requires KeyAbsent(es, key)
    ensures SnapLookup(Snapshot(es), key) == None
    decreases |es|
  {
    if es != [] {
      var init := es[..|es| - 1];
      assert KeyAbsent(init, key) by {
        forall a | 0 <= a < |init| ensures init[a].key != key {
          assert init[a] == es[a];
        }
      }
      SnapshotKeysFrom(init, key);
      SnapshotLast(es, key);
    }
  }

  /** The snapshot holds, for a key, the data of the entry with that key exactly when that entry was selected. */
  lemma {:induction false} SnapshotLookup(es: seq<Entry>, j: int)
    requires DistinctKeys(es) && 0 <= j < |es|
    ensures SnapLookup(Snapshot(es), es[j].key) == (if Selected(es[j]) then Some(es[j].data.value) else None)
    decreases |es|
  {
    var init := es[..|es| - 1];
    assert DistinctKeys(init) && KeyAbsent(init, es[|es| - 1].key) by {
      forall a, b | 0 <= a < b < |init| ensures init[a].key != init[b].key {
        assert init[a] == es[a] && init[b] == es[b];
      }
      forall a | 0 <= a < |init| ensures init[a].key != es[|es| - 1].key {
        assert init[a] == es[a];
      }
    }
    SnapshotLast(es, es[j].key);
    if j == |es| - 1 {
      if !Selected(es[j]) {
        SnapshotKeysFrom(init, es[j].key);
      }
    } else {
      assert es[j] == init[j];
      SnapshotLookup(init, j);
    }
  }

  /**
   * `onError` right after `onMutate` puts every rewritten participation response back
   * as it was, and touches nothing else: the cache is the one before the mutation.
   */
  lemma RollbackRestores(es: seq<Entry>, issueId: int)
    requires DistinctKeys(es)
    ensures forall j :: 0 <= j < |es| ==> Restored(Mutated(es[j], issueId), Snapshot(es)) == es[j]
  {
    forall j | 0 <= j < |es| ensures Restored(Mutated(es[j], issueId), Snapshot(es)) == es[j] {
      RollbackEntry(es, issueId, j);
    }
  }

  lemma RollbackEntry(es: seq<Entry>, issueId: int, j: int)
    requires DistinctKeys(es) && 0 <= j < |es|
    ensures Restored(Mutated(es[j], issueId), Snapshot(es)) == es[j]
  {
    var e := es[j];
    SnapshotLookup(es, j);
    if Selected(e) {
      assert SnapLookup(Snapshot(es), e.key) == Some(e.data.value);
      assert Mutated(e, issueId).key == e.key;
    } else {
      assert Mutated(e, issueId) == e;
      assert SnapLookup(Snapshot(es), e.key) == None;
    }
  }

  /** Entries without data are neither snapshotted nor rewritten. */
  lemma EmptyEntriesUntouched(es: seq<Entry>, issueId: int, j: int)
    requires DistinctKeys(es) && 0 <= j < |es| && es[j].data.None?
    ensures Mutated(es[j], issueId) == es[j]
    ensures SnapLookup(Snapshot(es), es[j].key) == None
  {
    assert !Selected(es[j]);
    SnapshotLookup(es, j);
  }

  /** The participation key of a contest is selected by the predicate; the issue, list and detail keys are not. */
  lemma ParticipationPredicateSelects(contestId: int, id: int, ns: Namespace, filters: Option<Filters>)
    ensures IsParticipationKey(Participation(contestId))
    ensures !IsParticipationKey(Detail(ns, id)) && !IsParticipationKey(List(ns, filters))
    ensures !IsParticipationKey(ByContest(contestId, filters)) && !IsParticipationKey(Comments(id))
    ensures !IsParticipationKey(Escalation(id)) && !IsParticipationKey(Participants(id))
  {
    assert Participation(contestId)[3] == Word("participation");
  }

  /** What a mutation asks the cache to invalidate. */
  datatype Invalidation = Prefix(key: Key) | AllParticipation

  /** `issue?.contestId` of the cached detail: `None` when there is no detail or its contest id is falsy. */
  function ContestOf(es: seq<Entry>, issueId: int): Option<int>
    decreases |es|
  {
    if es == [] then None
    else if es[0].key == Detail(Issues, issueId) then
      (match es[0].data
       case Some(IssueDetail(c)) => if c != 0 then Some(c) else None
       case _ => None)
    else ContestOf(es[1..], issueId)
  }

  /** `removeQueries({ queryKey })`: drop every entry under the key. */
  function RemoveUnder(es: seq<Entry>, key: Key): (r: seq<Entry>)
    ensures |r| <= |es|
    ensures forall e :: e in r <==> e in es && !IsPrefix(key, e.key)
  {
    Filter(es, (e: Entry) => !IsPrefix(key, e.key))
  }

  /** The invalidations of `useDeleteIssueByAuditor`'s `onSettled`, given the contest read from the cache. */
  function SettledInvalidations(contest: Option<int>): seq<Invalidation> {
    [Prefix(Lists(Issues))] +
    match contest
    case Some(c) => [Prefix(ByContest(c, None)), Prefix(Detail(Contests, c)), Prefix(Participation(c))]
    case None => [AllParticipation]
  }

  /** The invalidations of `useDeleteIssue`'s `onSuccess`. */
  function DeletedInvalidations(contest: Option<int>): seq<Invalidation> {
    [Prefix(Lists(Issues))] +
    match contest
    case Some(c) => [Prefix(ByContest(c, None)), Prefix(Detail(Contests, c))]
    case None => []
  }

  /**
   * The contest must be read before the detail is removed: after the removal no detail
   * of the issue is left, so reading then would always find the contest unknown and
   * fall back to invalidating every participation query.
   */
  lemma {:induction false} ContestUnknownAfterRemoval(es: seq<Entry>, issueId: int)
    ensures ContestOf(RemoveUnder(es, Detail(Issues, issueId)), issueId) == None
  {
    var d := Detail(Issues, issueId);
    var r := RemoveUnder(es, d);
    assert IsPrefix(d, d) by {
      assert d[..|d|] == d;
    }
    ContestOfSomeHasDetail(r, issueId);
  }

  lemma {:induction false} ContestOfSomeHasDetail(es: seq<Entry>, issueId: int)
    ensures ContestOf(es, issueId).Some? ==> exists e :: e in es && e.key == Detail(Issues, issueId)
    decreases |es|
  {
    if es != [] && es[0].key != Detail(Issues, issueId) {
      ContestOfSomeHasDetail(es[1..], issueId);
      if ContestOf(es, issueId).Some? {
        var e :| e in es[1..] && e.key == Detail(Issues, issueId);
        assert e in es;
      }
    } else if es != [] {
      assert es[0] in es;
    }
  }

  /** With a known contest its issues, detail and participation are invalidated; with none, every participation query is. */
  lemma SettledInvalidatesParticipation(contest: Option<int>)
    ensures contest.Some? ==>
      && Prefix(Participation(contest.value)) in SettledInvalidations(contest)
      && Prefix(ByContest(contest.value, None)) in SettledInvalidations(contest)
      && AllParticipation !in SettledInvalidations(contest)
    ensures contest.None? ==> SettledInvalidations(contest) == [Prefix(Lists(Issues)), AllParticipation]
    ensures SettledInvalidations(contest)[0] == Prefix(Lists(Issues))
  {
    if contest.Some? {
      var s := SettledInvalidations(contest);
      assert s[3] == Prefix(Participation(contest.value));
      assert s[1] == Prefix(ByContest(contest.value, None));
    }
  }

  /** The query cache the issue mutations work on. */
  class IssueCache {
    var entries: seq<Entry>
    var invalidated: seq<Invalidation>

    ghost predicate Valid()
      reads this
    {
      DistinctKeys(entries) && WellTyped(entries)
    }

    constructor(initial: seq<Entry>)
      requires DistinctKeys(initial) && WellTyped(initial)
      ensures Valid() && entries == initial && invalidated == []
    {
      entries := initial;
      invalidated := [];
    }

    /**
     * `onMutate(issueId)`: for every participation query that holds data, remember the
     * data and replace it by the response without the deleted issue.
     */
    method OnMutate(issueId: int) returns (previous: seq<(Key, Data)>)
      requires Valid()
      modifies this
      ensures Valid()
      ensures |entries| == |old(entries)|
      ensures forall j :: 0 <= j < |entries| ==> entries[j] == Mutated(old(entries)[j], issueId)
      ensures previous == Snapshot(old(entries))
      ensures invalidated == old(invalidated)
    {
      ghost var before := entries;
      previous := [];
      var i := 0;
      while i < |entries|
        invariant 0 <= i <= |entries| == |before|
        invariant forall j :: 0 <= j < i ==> entries[j] == Mutated(before[j], issueId)
        invariant forall j :: i <= j < |entries| ==> entries[j] == before[j]
        invariant previous == Snapshot(before[..i])
        invariant invalidated == old(invalidated)
      {
        var e := entries[i];
        assert before[..i + 1][..i] == before[..i];
        assert Snapshot(before[..i + 1]) == Snapshot(before[..i]) + (if Selected(e) then [(e.key, e.data.value)] else []);
        if IsParticipationKey(e.key) && e.data.Some? {
          previous := previous + [(e.key, e.data.value)];
          var r := e.data.value.response;
          entries := entries[i := Entry(e.key, Some(ParticipationData(WithoutIssue(r, issueId))))];
        }
        assert entries[i] == Mutated(before[i], issueId);
        i := i + 1;
      }
      assert before[..i] == before;
    }

    /** `setQueryData(key, data)` on a key the cache holds. */
    method SetQueryData(key: Key, data: Data)
      modifies this
      ensures |entries| == |old(entries)| && invalidated == old(invalidated)
      ensures forall j :: 0 <= j < |entries| ==>
        entries[j] == if old(entries)[j].key == key then Entry(key, Some(data)) else old(entries)[j]
    {
      entries := seq(|entries|, j requires 0 <= j < |entries| reads this =>
        if entries[j].key == key then Entry(key, Some(data)) else entries[j]);
    }

    /** `onError`: replay every remembered `(key, data)` with `setQueryData`. */
    method OnError(previous: seq<(Key, Data)>)
      modifies this
      ensures |entries| == |old(entries)| && invalidated == old(invalidated)
      ensures forall j :: 0 <= j < |entries| ==> entries[j] == Restored(old(entries)[j], previous)
    {
      ghost var before := entries;
      var i := 0;
      while i < |previous|
        invariant 0 <= i <= |previous|
        invariant |entries| == |before| && invalidated == old(invalidated)
        invariant forall j :: 0 <= j < |entries| ==> entries[j] == Restored(before[j], previous[..i])
      {
        assert previous[..i + 1][..i] == previous[..i];
        SetQueryData(previous[i].0, previous[i].1);
        i := i + 1;
      }
      assert previous[..i] == previous;
    }

    /** `removeQueries({ queryKey })`. */
    method RemoveQueries(key: Key)
      modifies this
      ensures entries == RemoveUnder(old(entries), key) && invalidated == old(invalidated)
    {
      entries := RemoveUnder(entries, key);
    }

    /** `invalidateQueries(...)`. */
    method Invalidate(what: Invalidation)
      modifies this
      ensures invalidated == old(invalidated) + [what] && entries == old(entries)
    {
      invalidated := invalidated + [what];
    }

    /** `getQueryData(issues.detail(issueId))?.contestId`, when truthy. */
    method ReadContest(issueId: int) returns (contest: Option<int>)
      ensures contest == ContestOf(entries, issueId)
    {
      contest := None;
      var i := 0;
      while i < |entries|
        invariant 0 <= i <= |entries|
        invariant ContestOf(entries, issueId) == ContestOf(entries[i..], issueId)
      {
        if entries[i].key == Detail(Issues, issueId) {
          match entries[i].data {
            case Some(IssueDetail(c)) =>
              if c != 0 {
                contest := Some(c);
              }
            case _ =>
          }
          return;
        }
        assert entries[i..][1..] == entries[i + 1..];
        i := i + 1;
      }
    }

    /** `useDeleteIssueByAuditor`'s `onSettled`. */
    method OnSettled(issueId: int)
      modifies this
      ensures entries == RemoveUnder(old(entries), Detail(Issues, issueId))
      ensures invalidated == old(invalidated) + SettledInvalidations(ContestOf(old(entries), issueId))
    {
      var contest := ReadContest(issueId);
      RemoveQueries(Detail(Issues, issueId));
      Invalidate(Prefix(Lists(Issues)));
      if contest.Some? {
        Invalidate(Prefix(ByContest(contest.value, None)));
        Invalidate(Prefix(Detail(Contests, contest.value)));
        Invalidate(Prefix(Participation(contest.value)));
      } else {
        Invalidate(AllParticipation);
      }
    }

    /** `useDeleteIssue`'s `onSuccess`. */
    method OnDeleted(issueId: int)
      modifies this
      ensures entries == RemoveUnder(old(entries), Detail(Issues, issueId))
      ensures invalidated == old(invalidated) + DeletedInvalidations(ContestOf(old(entries), issueId))
    {
      var contest := ReadContest(issueId);
      RemoveQueries(Detail(Issues, issueId));
      Invalidate(Prefix(Lists(Issues)));
      if contest.Some? {
        Invalidate(Prefix(ByContest(contest.value, None)));
        Invalidate(Prefix(Detail(Contests, contest.value)));
      }
    }
  }
}
