/**
 * `useFindings(contestId)` of `src/hooks/use-findings.ts`: the findings of every contest
 * persisted as one list under `dualguard_findings`, and the hook's local list of the
 * current contest's findings. Identifiers and timestamps come from `Date.now` and
 * `Math.random`; they are parameters here.
 */
module FindingsStore {
  import opened Common

  const StorageKey := "dualguard_findings"
  const MockUserId := "current-user-123"

  datatype Finding = Finding(
    id: string,
    contestId: string,
    severity: string,
    title: string,
    content: string,
    createdAt: string,
    updatedAt: string,
    authorId: string)

  /** The fields `updateFinding` may overwrite; `None` is a field the caller left out. */
  datatype FindingPatch = FindingPatch(severity: Option<string>, title: Option<string>, content: Option<string>)

  function IsOfContest(contestId: string): Finding -> bool {
    (f: Finding) => f.contestId == contestId
  }

  function HasOtherId(id: string): Finding -> bool {
    (f: Finding) => f.id != id
  }

  function HasId(id: string): Finding -> bool {
    (f: Finding) => f.id == id
  }

  function IsAuthoredBy(user: string): Finding -> bool {
    (f: Finding) => f.authorId == user
  }

  /** What `loadFindings` keeps of the stored list: the contest's findings, in stored order. */
  function OfContest(all: seq<Finding>, contestId: string): (r: seq<Finding>)
    ensures forall f :: f in r <==> f in all && f.contestId == contestId
    ensures |r| <= |all|
  {
    Filter(all, IsOfContest(contestId))
  }

  /** The finding `createFinding` builds. */
  function NewFinding(contestId: string, severity: string, title: string, content: string, id: string, now: string): Finding {
    Finding(id, contestId, severity, title, content, now, now, MockUserId)
  }

  /** `{ ...finding, ...data, updatedAt }`. */
  function Patched(f: Finding, patch: FindingPatch, now: string): (r: Finding)
    ensures r.id == f.id && r.contestId == f.contestId && r.authorId == f.authorId && r.createdAt == f.createdAt
    ensures r.updatedAt == now
    ensures r.severity == patch.severity.GetOr(f.severity)
    ensures r.title == patch.title.GetOr(f.title) && r.content == patch.content.GetOr(f.content)
  {
    f.(severity := patch.severity.GetOr(f.severity),
       title := patch.title.GetOr(f.title),
       content := patch.content.GetOr(f.content),
       updatedAt := now)
  }

  /** The stored list after `updateFinding`: the first finding with the id is patched. */
  function UpdatedStore(all: seq<Finding>, id: string, patch: FindingPatch, now: string): seq<Finding> {
    match FindIndex(all, HasId(id))
    case None => all
    case Some(i) => all[i := Patched(all[i], patch, now)]
  }

  /** `filter(f => f.id !== id)`. */
  function Without(s: seq<Finding>, id: string): (r: seq<Finding>)
    ensures forall f :: f in r <==> f in s && f.id != id
  {
    Filter(s, HasOtherId(id))
  }

  /** `getUserFindings()`: the findings of the list written by the mock user. */
  function UserFindings(findings: seq<Finding>): (r: seq<Finding>)
    ensures forall f :: f in r <==> f in findings && f.authorId == MockUserId
  {
    Filter(findings, IsAuthoredBy(MockUserId))
  }

  /** Updating an id no stored finding has leaves the stored list as it was. */
  lemma UpdateUnknownIdChangesNothing(all: seq<Finding>, id: string, patch: FindingPatch, now: string)
    requires forall f :: f in all ==> f.id != id
    ensures UpdatedStore(all, id, patch, now) == all
  {
    forall j | 0 <= j < |all| ensures !HasId(id)(all[j]) {
      assert all[j] in all;
    }
  }

  /**
   * Updating a stored id patches exactly the first finding with that id, keeping its
   * id, contest, author and creation time; every other entry stays where it was.
   */
  lemma UpdateTouchesFirstMatchOnly(all: seq<Finding>, id: string, patch: FindingPatch, now: string, i: int)
    requires 0 <= i < |all| && all[i].id == id
    requires forall j :: 0 <= j < i ==> all[j].id != id
    ensures var r := UpdatedStore(all, id, patch, now);
      && |r| == |all|
      && r[i] == Patched(all[i], patch, now)
      && (forall j :: 0 <= j < |all| && j != i ==> r[j] == all[j])
  {
    assert HasId(id)(all[i]);
    assert forall j :: 0 <= j < i ==> !HasId(id)(all[j]);
    assert FindIndex(all, HasId(id)) == Some(i);
  }

  /** Deleting removes every finding with the id and keeps the rest in order; deleting twice is deleting once. */
  lemma DeleteIdempotent(s: seq<Finding>, id: string)
    ensures Without(Without(s, id), id) == Without(s, id)
    ensures (forall f :: f in s ==> f.id != id) ==> Without(s, id) == s
    ensures |Without(s, id)| == |s| - Count(s, HasId(id))
  {
    FilterIdempotent(s, HasOtherId(id));
    if forall f :: f in s ==> f.id != id {
      FilterAll(s, HasOtherId(id));
    }
    FilterComplement(s, id);
  }

  lemma {:induction false} FilterComplement(s: seq<Finding>, id: string)
    ensures |Filter(s, HasOtherId(id))| + Count(s, HasId(id)) == |s|
    decreases |s|
  {
    if s != [] {
      FilterComplement(s[1..], id);
    }
  }

  /** Deleting commutes with the contest filter, so the local list stays the contest's view of the store. */
  lemma {:induction false} DeleteCommutesWithLoad(all: seq<Finding>, contestId: string, id: string)
    ensures Without(OfContest(all, contestId), id) == OfContest(Without(all, id), contestId)
    decreases |all|
  {
    if all != [] {
      DeleteCommutesWithLoad(all[1..], contestId, id);
    }
  }

  /** The hook's state. */
  class FindingsHook {
    /** `localStorage['dualguard_findings']`. */
    var stored: StoredList<Finding>
    /** The `findings` state: the current contest's findings. */
    var findings: seq<Finding>
    var isLoading: bool
    const contestId: string

    constructor(contestId: string, stored: StoredList<Finding>)
      ensures this.contestId == contestId && this.stored == stored
      ensures findings == [] && isLoading
    {
      this.contestId := contestId;
      this.stored := stored;
      findings := [];
      isLoading := true;
    }

    /** `loadFindings()`: a readable list replaces the local one; otherwise the local list stays. */
    method Load()
      modifies this
      ensures stored == old(stored) && !isLoading
      ensures findings == if stored.StoredItems? then OfContest(stored.items, contestId) else old(findings)
    {
      if stored.StoredItems? {
        findings := OfContest(stored.items, contestId);
      }
      isLoading := false;
    }

    /**
     * `createFinding(data)`: the new finding is appended to the stored list (an
     * unreadable one is replaced) and to the local list.
     */
    method Create(severity: string, title: string, content: string, id: string, now: string) returns (f: Finding)
      modifies this
      ensures f == NewFinding(contestId, severity, title, content, id, now)
      ensures stored == StoredItems(old(stored).ItemsOrEmpty() + [f])
      ensures findings == old(findings) + [f] && isLoading == old(isLoading)
    {
      f := NewFinding(contestId, severity, title, content, id, now);
      stored := StoredItems(stored.ItemsOrEmpty() + [f]);
      findings := findings + [f];
    }

    /** `updateFinding(id, data)`: nothing happens unless the stored list has the id. */
    method Update(id: string, patch: FindingPatch, now: string)
      modifies this
      ensures isLoading == old(isLoading)
      ensures var all := old(stored).ItemsOrEmpty();
        match FindIndex(all, HasId(id))
        case None => stored == old(stored) && findings == old(findings)
        case Some(i) =>
          && stored == StoredItems(UpdatedStore(all, id, patch, now))
          && findings == ReplaceWhere(old(findings), HasId(id), Patched(all[i], patch, now))
    {
      var all := stored.ItemsOrEmpty();
      var index := FindIndex(all, HasId(id));
      if index.Some? {
        var updated := Patched(all[index.value], patch, now);
        stored := StoredItems(all[index.value := updated]);
        findings := ReplaceWhere(findings, HasId(id), updated);
      }
    }

    /** `deleteFinding(id)`. */
    method Delete(id: string)
      modifies this
      ensures stored == StoredItems(Without(old(stored).ItemsOrEmpty(), id))
      ensures findings == Without(old(findings), id) && isLoading == old(isLoading)
    {
      stored := StoredItems(Without(stored.ItemsOrEmpty(), id));
      findings := Without(findings, id);
    }
  }

  /** A created finding belongs to the hook's contest and to the mock user, so it shows among the user's findings. */
  lemma CreatedIsUsers(findings: seq<Finding>, contestId: string, severity: string, title: string, content: string, id: string, now: string)
    ensures var f := NewFinding(contestId, severity, title, content, id, now);
      && f.contestId == contestId && f.authorId == MockUserId && f.createdAt == f.updatedAt
      && UserFindings(findings + [f]) == UserFindings(findings) + [f]
  {
    var f := NewFinding(contestId, severity, title, content, id, now);
    FilterAppend(findings, [f], IsAuthoredBy(MockUserId));
    assert Filter([f], IsAuthoredBy(MockUserId)) == [f] + Filter([f][1..], IsAuthoredBy(MockUserId));
  }
}
