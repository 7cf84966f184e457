/** `usersApi.getAll` of `src/api/users.ts`: the endpoint of the user list. */
module UsersApi {
  import opened Common
  import opened JsStrings
  import opened JsValues
  import opened SearchParams
  import opened QueryString

  const BasePath := "/users"

  /** `getAll(params)`: the endpoint handed to `api.get`. */
  method GetAll(params: Option<Entries>, enc: string -> string) returns (endpoint: string)
    ensures endpoint == Endpoint(BasePath, Serialize(enc, QueryPairs(params, StandardKnown(), true)))
  {
    endpoint := StandardListEndpoint(BasePath, params, enc);
  }

  /**
   * `getAll` requests the bare `/users` exactly when every known key is falsy and every
   * other entry is `undefined`; otherwise it requests `/users?` followed by the query.
   */
  lemma BareUsersPathIff(params: Option<Entries>, enc: string -> string)
    ensures var endpoint := Endpoint(BasePath, Serialize(enc, QueryPairs(params, StandardKnown(), true)));
      && (endpoint == BasePath <==>
            (forall k :: k in StandardKnown() ==> !Truthy(Param(params, k)))
            && (forall e :: e in EntriesOf(params) ==> e.0 in StandardKnown() || e.1.Undefined?))
      && (endpoint != BasePath ==> endpoint == BasePath + "?" + Serialize(enc, QueryPairs(params, StandardKnown(), true)))
  {
    BarePathIff(params, enc, BasePath, StandardKnown());
  }

  /** Reading the query of the `getAll` endpoint back gives every appended pair, encoded, in order. */
  lemma UsersEndpointRoundTrip(params: Option<Entries>, enc: string -> string)
    requires SafeEncoder(enc)
    ensures var endpoint := Endpoint(BasePath, Serialize(enc, QueryPairs(params, StandardKnown(), true)));
      var pairs := QueryPairs(params, StandardKnown(), true);
      var read := ReadQuery(QueryOf(endpoint));
      && PathOf(endpoint) == BasePath
      && |read| == |pairs| && forall i :: 0 <= i < |pairs| ==> read[i] == (enc(pairs[i].0), enc(pairs[i].1))
  {
    EndpointRoundTrip(enc, BasePath, QueryPairs(params, StandardKnown(), true));
  }
}
