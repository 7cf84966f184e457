/**
 * The query-key factories of `src/constants/queryKeys.ts`. A key is a list of atoms: a
 * string, a numeric id, or the (possibly absent) filters object of a list query. The
 * cache invalidates by prefix, so the properties of interest are which keys start with
 * which.
 */
module QueryKeys {
  import opened Common

  /** A filter value: the filter objects of the hooks hold flat strings, numbers and booleans. */
  datatype Scalar = Text(s: string) | Int(n: int) | Flag(b: bool)

  type Filters = seq<(string, Scalar)>

  datatype Atom =
    | Word(s: string)
    | Number(n: int)
    | FilterSet(filters: Option<Filters>)

  type Key = seq<Atom>

  predicate IsPrefix(a: Key, b: Key) {
    |a| <= |b| && b[..|a|] == a
  }

  predicate IsProperPrefix(a: Key, b: Key) {
    |a| < |b| && b[..|a|] == a
  }

  /** The three namespaces that share the `all`/`lists`/`list`/`details`/`detail` shape. */
  datatype Namespace = Users | Contests | Issues

  function NamespaceName(ns: Namespace): string {
    match ns
    case Users => "users"
    case Contests => "contests"
    case Issues => "issues"
  }

  function All(ns: Namespace): Key { [Word(NamespaceName(ns))] }
  function Lists(ns: Namespace): Key { All(ns) + [Word("list")] }
  function List(ns: Namespace, filters: Option<Filters>): Key { Lists(ns) + [FilterSet(filters)] }
  function Details(ns: Namespace): Key { All(ns) + [Word("detail")] }
  function Detail(ns: Namespace, id: int): Key { Details(ns) + [Number(id)] }

  const AuthAll: Key := [Word("auth")]
  function Me(): Key { AuthAll + [Word("me")] }

  function UsersProfile(): Key { All(Users) + [Word("profile")] }

  function Participants(id: int): Key { Detail(Contests, id) + [Word("participants")] }
  function ActiveUpcoming(): Key { All(Contests) + [Word("active-upcoming")] }

  function ByContest(contestId: int, filters: Option<Filters>): Key {
    All(Issues) + [Word("contest"), Number(contestId), FilterSet(filters)]
  }
  function Comments(issueId: int): Key { Detail(Issues, issueId) + [Word("comments")] }
  function Escalation(issueId: int): Key { Detail(Issues, issueId) + [Word("escalation")] }

  /** `[...contests.detail(id), 'participation']`, built inline by the issue mutations. */
  function Participation(contestId: int): Key { Detail(Contests, contestId) + [Word("participation")] }

  /** `lists()` is a proper prefix of every `list(filters)`, so invalidating the lists reaches every filtered list. */
  lemma ListsPrefixOfList(ns: Namespace, filters: Option<Filters>)
    ensures IsProperPrefix(Lists(ns), List(ns, filters))
    ensures IsProperPrefix(All(ns), Lists(ns)) && IsProperPrefix(All(ns), Details(ns))
  {
    assert List(ns, filters)[..2] == Lists(ns);
  }

  /** `issues.detail(id)` is a prefix of the comments and the escalation of that issue, and of no other issue's. */
  lemma IssueDetailPrefixOfChildren(id: int, other: int)
    ensures IsProperPrefix(Detail(Issues, id), Comments(id)) && IsProperPrefix(Detail(Issues, id), Escalation(id))
    ensures id != other ==> !IsPrefix(Detail(Issues, id), Comments(other)) && !IsPrefix(Detail(Issues, id), Escalation(other))
  {
    assert Comments(id)[..3] == Detail(Issues, id);
    assert Escalation(id)[..3] == Detail(Issues, id);
    assert Comments(other)[2] == Number(other);
    assert Escalation(other)[2] == Number(other);
    if id != other {
      assert Comments(other)[..3][2] != Detail(Issues, id)[2];
      assert Escalation(other)[..3][2] != Detail(Issues, id)[2];
    }
  }

  /** `contests.detail(id)` is a prefix of `contests.participants(id)` and of the participation key. */
  lemma ContestDetailPrefixOfChildren(id: int)
    ensures IsProperPrefix(Detail(Contests, id), Participants(id))
    ensures IsProperPrefix(Detail(Contests, id), Participation(id))
  {
    assert Participants(id)[..3] == Detail(Contests, id);
    assert Participation(id)[..3] == Detail(Contests, id);
  }

  /** `issues.byContest(c, f)` sits under `issues` but under neither `issues.lists()` nor `issues.details()`. */
  lemma ByContestOutsideListsAndDetails(c: int, filters: Option<Filters>)
    ensures IsPrefix(All(Issues), ByContest(c, filters))
    ensures !IsPrefix(Lists(Issues), ByContest(c, filters))
    ensures !IsPrefix(Details(Issues), ByContest(c, filters))
    ensures ByContest(c, filters)[1] == Word("contest")
  {
    var k := ByContest(c, filters);
    assert k[..1] == All(Issues);
    assert k[..2][1] == Word("contest");
    assert Lists(Issues)[1] == Word("list") && Details(Issues)[1] == Word("detail");
  }

  /** Two detail keys of one namespace are equal exactly when the ids are. */
  lemma DetailInjective(ns: Namespace, a: int, b: int)
    ensures Detail(ns, a) == Detail(ns, b) <==> a == b
  {
    if Detail(ns, a) == Detail(ns, b) {
      assert Detail(ns, a)[2] == Number(a) && Detail(ns, b)[2] == Number(b);
    }
  }

  /** Distinct namespaces have distinct head atoms, so a key of one is never under a key of another. */
  lemma NamespacesSeparate(a: Namespace, b: Namespace, k: Key)
    requires a != b && IsPrefix(All(b), k)
    ensures !IsPrefix(All(a), k)
  {
    assert k[..1] == All(b);
    assert NamespaceName(a) != NamespaceName(b);
  }

  /** Every key starts with its namespace atom; `auth.me()` is `['auth', 'me']`. */
  lemma KeysStartWithNamespace(ns: Namespace, id: int, filters: Option<Filters>)
    ensures Me() == [Word("auth"), Word("me")]
    ensures Lists(ns)[0] == List(ns, filters)[0] == Details(ns)[0] == Detail(ns, id)[0] == Word(NamespaceName(ns))
    ensures UsersProfile()[0] == Word("users")
    ensures Participants(id)[0] == ActiveUpcoming()[0] == Participation(id)[0] == Word("contests")
    ensures ByContest(id, filters)[0] == Comments(id)[0] == Escalation(id)[0] == Word("issues")
  {
  }
}
