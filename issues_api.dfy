/**
 * `issuesApi` of `src/api/issues.ts`: the endpoints its list calls request, and the
 * `404 → null` rule of `getEscalation`. The client these calls go through
 * (`src/api/client.ts`) is not part of this model; its outcomes are taken to be those of
 * `src/lib/api/client.ts`, whose errors carry a `status`.
 */
module IssuesApi {
  import opened Common
  import opened JsStrings
  import opened JsValues
  import opened SearchParams
  import opened QueryString
  import opened ApiClient

  const BasePath := "/issues"

  function ByContestPath(contestId: int): string {
    "/contests/" + IntToString(contestId) + "/issues"
  }

  function CommentsPath(id: int): string {
    "/issues/" + IntToString(id) + "/comments"
  }

  /** `getAll(params)`: the endpoint handed to `api.get`. */
  method GetAll(params: Option<Entries>, enc: string -> string) returns (endpoint: string)
    ensures endpoint == Endpoint(BasePath, Serialize(enc, QueryPairs(params, StandardKnown(), true)))
  {
    endpoint := StandardListEndpoint(BasePath, params, enc);
  }

  /** `getByContest(contestId, params)`: the same query on the contest's issues path. */
  method GetByContest(contestId: int, params: Option<Entries>, enc: string -> string) returns (endpoint: string)
    ensures endpoint == Endpoint(ByContestPath(contestId), Serialize(enc, QueryPairs(params, StandardKnown(), true)))
  {
    endpoint := StandardListEndpoint(ByContestPath(contestId), params, enc);
  }

  /** `getComments(id, params)`: the known keys only, with no loop over the other entries. */
  method GetComments(id: int, params: Option<Entries>, enc: string -> string) returns (endpoint: string)
    ensures endpoint == Endpoint(CommentsPath(id), Serialize(enc, QueryPairs(params, StandardKnown(), false)))
  {
    endpoint := KnownOnlyEndpoint(CommentsPath(id), params, enc);
  }

  /** The query of `getComments` never carries a key other than the five known ones. */
  lemma CommentsOnlyKnownKeys(params: Option<Entries>)
    ensures forall k :: k in Keys(QueryPairs(params, StandardKnown(), false)) ==> k in StandardKnown()
    ensures |QueryPairs(params, StandardKnown(), false)| <= 5
  {
    var r := QueryPairs(params, StandardKnown(), false);
    KnownPairsSpec(params, StandardKnown());
    assert r == KnownPairs(params, StandardKnown());
  }

  /** No key appears twice in a `getAll`/`getByContest`/`getComments` query. */
  lemma IssueQueriesNoDuplicateKeys(params: Option<Entries>, withExtras: bool)
    requires Distinct(EntryKeys(EntriesOf(params)))
    ensures Distinct(Keys(QueryPairs(params, StandardKnown(), withExtras)))
  {
    StandardKnownDistinct();
    NoDuplicateKeys(params, StandardKnown(), withExtras);
  }

  /**
   * With `{ page: 0, sortBy: "", status: null }` the falsy known keys are dropped, while the
   * extra `null` value is sent as the text `"null"`.
   */
  lemma FalsyKnownDroppedNullExtraKept()
    ensures QueryPairs(Some([("page", Num(0)), ("sortBy", Str("")), ("status", Null)]), StandardKnown(), true)
      == [("status", "null")]
  {
    var e0, e1, e2 := ("page", Num(0)), ("sortBy", Str("")), ("status", Null);
    var entries := [e0, e1, e2];
    var params := Some(entries);
    FalsyValuesAppendNothing(params, StandardKnown());
    assert StandardKnown()[0] == "page" && StandardKnown()[3] == "sortBy";
    assert "status" !in StandardKnown();
    assert entries[..2] == [e0, e1] && [e0, e1][..1] == [e0] && [e0][..0] == [];
    assert ExtraPairs([e0], StandardKnown()) == [];
    assert ExtraPairs([e0, e1], StandardKnown()) == [];
  }

  /** `getEscalation`, given how `api.get` of the issue's escalation path settled. */
  method GetEscalation(call: CallResult) returns (r: CallResult)
    ensures call.Ok? ==> r == call
    ensures r.Ok? && r.data == Null && !call.Ok? <==> call.Failed? && call.error.status == 404
    ensures r.Failed? <==> call.Failed? && call.error.status != 404
    ensures r.Crashed? <==> call.Crashed?
    ensures !r.Ok? ==> r == call
  {
    if call.Ok? {
      return call;
    }
    if call.Failed? && call.error.status == 404 {
      return Ok(Null);
    }
    r := call;
  }
}
