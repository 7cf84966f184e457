/**
 * `contestsApi` of `src/api/contests.ts`: the endpoints its three list calls request.
 * `getAll` follows the shared rule with the five standard known keys, `getParticipants`
 * sends the known keys only, and `getPaginated` knows only `page`, `limit` and `status`,
 * so `offset`, `sortBy` and `sortOrder` go through the loop over the other entries.
 */
module ContestsApi {
  import opened Common
  import opened JsStrings
  import opened JsValues
  import opened SearchParams
  import opened QueryString

  const BasePath := "/contests"
  const PaginatedPath := "/contests/paginated"

  function ParticipantsPath(id: int): string {
    "/contests/" + IntToString(id) + "/participants"
  }

  /** The known keys of `getPaginated`, in append order. */
  function PaginatedKnown(): seq<string> {
    ["page", "limit", "status"]
  }

  /** `getAll(params)`: the endpoint handed to `api.get`. */
  method GetAll(params: Option<Entries>, enc: string -> string) returns (endpoint: string)
    ensures endpoint == Endpoint(BasePath, Serialize(enc, QueryPairs(params, StandardKnown(), true)))
  {
    endpoint := StandardListEndpoint(BasePath, params, enc);
  }

  /** `getParticipants(id, params)`: the five known keys only. */
  method GetParticipants(id: int, params: Option<Entries>, enc: string -> string) returns (endpoint: string)
    ensures endpoint == Endpoint(ParticipantsPath(id), Serialize(enc, QueryPairs(params, StandardKnown(), false)))
  {
    endpoint := KnownOnlyEndpoint(ParticipantsPath(id), params, enc);
  }

  /** `getPaginated(params)`: `page`, `limit`, `status` when truthy, then every other entry that is not `undefined`. */
  method GetPaginated(params: Option<Entries>, enc: string -> string) returns (endpoint: string)
    ensures endpoint == Endpoint(PaginatedPath, Serialize(enc, QueryPairs(params, PaginatedKnown(), true)))
  {
    var searchParams := new UrlSearchParams();
    ghost var s0 := searchParams.pairs;
    AppendIfTruthy(searchParams, params, "page");
    ghost var s1 := searchParams.pairs;
    AppendIfTruthy(searchParams, params, "limit");
    ghost var s2 := searchParams.pairs;
    AppendIfTruthy(searchParams, params, "status");
    AppendedThree(params, s0, s1, s2, searchParams.pairs, PaginatedKnown());
    AppendExtras(searchParams, params, PaginatedKnown());
    AppendedIsQuery(searchParams.pairs, params, PaginatedKnown());
    endpoint := EndpointOf(searchParams, PaginatedPath, enc);
  }

  /** The three keys of `getPaginated` are different from each other. */
  lemma PaginatedKnownDistinct()
    ensures Distinct(PaginatedKnown())
  {
    var k := PaginatedKnown();
    assert |k[0]| == 4 && |k[1]| == 5 && |k[2]| == 6;
  }

  /** No key appears twice in the query of any of the three contest list calls. */
  lemma ContestQueriesNoDuplicateKeys(params: Option<Entries>)
    requires Distinct(EntryKeys(EntriesOf(params)))
    ensures Distinct(Keys(QueryPairs(params, StandardKnown(), true)))
    ensures Distinct(Keys(QueryPairs(params, StandardKnown(), false)))
    ensures Distinct(Keys(QueryPairs(params, PaginatedKnown(), true)))
  {
    StandardKnownDistinct();
    NoDuplicateKeys(params, StandardKnown(), true);
    NoDuplicateKeys(params, StandardKnown(), false);
    PaginatedKnownDistinct();
    NoDuplicateKeys(params, PaginatedKnown(), true);
  }

  /**
   * In `getPaginated`, `offset`, `sortBy` and `sortOrder` are sent whenever they are not
   * `undefined` (even when falsy), and only after every known key.
   */
  lemma PaginatedSendsOtherKeysAsExtras(params: Option<Entries>, k: string, v: JsValue)
    requires k in ["offset", "sortBy", "sortOrder"]
    requires (k, v) in EntriesOf(params) && !v.Undefined?
    ensures (k, ToJsString(v)) in QueryPairs(params, PaginatedKnown(), true)
    ensures var r := QueryPairs(params, PaginatedKnown(), true);
      forall i :: 0 <= i < |r| && r[i].0 == k ==> i >= |KnownPairs(params, PaginatedKnown())|
  {
    var entries := EntriesOf(params);
    ExtraPairsSpec(entries, PaginatedKnown());
    assert k !in PaginatedKnown();
    assert IsExtra(PaginatedKnown())((k, v));
    var f := Filter(entries, IsExtra(PaginatedKnown()));
    assert (k, v) in f;
    var j :| 0 <= j < |f| && f[j] == (k, v);
    assert Rendered(f)[j] == (k, ToJsString(v));
    KnownBeforeExtras(params, PaginatedKnown(), true);
  }

  /**
   * `{ offset: 0 }`: `getAll` drops the falsy known key and requests the bare path, while
   * `getPaginated` sends it as `offset=0`.
   */
  lemma ZeroOffsetDroppedByGetAllSentByGetPaginated()
    ensures QueryPairs(Some([("offset", Num(0))]), StandardKnown(), true) == []
    ensures QueryPairs(Some([("offset", Num(0))]), PaginatedKnown(), true) == [("offset", "0")]
  {
    var e := ("offset", Num(0));
    var params := Some([e]);
    FalsyValuesAppendNothing(params, StandardKnown());
    FalsyValuesAppendNothing(params, PaginatedKnown());
    assert [e][..0] == [];
    assert Lookup([e], "offset") == Num(0);
    assert "offset" !in PaginatedKnown();
    assert ExtraPairs([e], PaginatedKnown()) == [("offset", "0")];
    assert ExtraPairs([e], StandardKnown()) == [];
  }
}
