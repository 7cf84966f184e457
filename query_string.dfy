/**
 * The query-string rule shared by the list endpoints of `src/api/issues.ts`,
 * `src/api/contests.ts` and `src/api/users.ts`: the known keys are appended first, in
 * their fixed order and only when truthy; then every other entry of the params object
 * whose value is not `undefined`, in entry order; the endpoint gets `?query` only when
 * the query is non-empty.
 */
module QueryString {
  import opened Common
  import opened JsStrings
  import opened JsValues
  import opened SearchParams

  /** The entries of a `QueryParams` object, in `Object.entries` order. */
  type Entries = seq<(string, JsValue)>

  /** `params?.key`: `undefined` when no params object was given. */
  function Param(params: Option<Entries>, key: string): JsValue {
    if params.None? then Undefined else Lookup(params.value, key)
  }

  /** `Object.entries(params || {})`. */
  function EntriesOf(params: Option<Entries>): Entries {
    if params.None? then [] else params.value
  }

  /** What one `if (params?.key) searchParams.append(key, String(params.key))` appends. */
  function KnownPair(params: Option<Entries>, key: string): seq<Pair> {
    var v := Param(params, key);
    if Truthy(v) then [(key, ToJsString(v))] else []
  }

  /** The statements for the known keys, one per key, in order. */
  function KnownPairs(params: Option<Entries>, known: seq<string>): seq<Pair>
    decreases |known|
  {
    if known == [] then []
    else KnownPair(params, known[0]) + KnownPairs(params, known[1..])
  }

  /** What one iteration of the `forEach` over the entries appends. */
  function ExtraPair(e: (string, JsValue), known: seq<string>): seq<Pair> {
    if e.0 !in known && !e.1.Undefined? then [(e.0, ToJsString(e.1))] else []
  }

  /** The `forEach` over the first `|entries|` entries. */
  function ExtraPairs(entries: Entries, known: seq<string>): seq<Pair>
    decreases |entries|
  {
    if entries == [] then []
    else ExtraPairs(entries[..|entries| - 1], known) + ExtraPair(entries[|entries| - 1], known)
  }

  /** The known keys of the issues, users and contest-list builders, in append order. */
  function StandardKnown(): seq<string> {
    ["page", "limit", "offset", "sortBy", "sortOrder"]
  }

  /** The five standard keys are different from each other. */
  lemma StandardKnownDistinct()
    ensures Distinct(StandardKnown())
  {
    var k := StandardKnown();
    assert |k[0]| == 4 && |k[1]| == 5 && |k[2]| == 6 && |k[3]| == 6 && |k[4]| == 9;
    assert k[2][0] == 'o' && k[3][0] == 's';
  }

  /** Everything a builder appends: the known keys, then (for the builders that have the loop) the extras. */
  function QueryPairs(params: Option<Entries>, known: seq<string>, withExtras: bool): seq<Pair> {
    KnownPairs(params, known) + (if withExtras then ExtraPairs(EntriesOf(params), known) else [])
  }

  /** `queryString ? `${path}?${queryString}` : path`. */
  function Endpoint(path: string, query: string): string {
    if query == "" then path else path + "?" + query
  }

  /** The names of a list of pairs. */
  function Keys(pairs: seq<Pair>): (r: seq<string>)
    ensures |r| == |pairs| && forall i :: 0 <= i < |pairs| ==> r[i] == pairs[i].0
  {
    seq(|pairs|, i requires 0 <= i < |pairs| => pairs[i].0)
  }

  /** The names of the entries of a params object. */
  function EntryKeys(entries: Entries): (r: seq<string>)
    ensures |r| == |entries| && forall i :: 0 <= i < |entries| ==> r[i] == entries[i].0
  {
    seq(|entries|, i requires 0 <= i < |entries| => entries[i].0)
  }

  /** Each entry as the pair `String` turns it into. */
  function Rendered(entries: Entries): (r: seq<Pair>)
    ensures |r| == |entries| && forall i :: 0 <= i < |entries| ==> r[i] == (entries[i].0, ToJsString(entries[i].1))
  {
    seq(|entries|, i requires 0 <= i < |entries| => (entries[i].0, ToJsString(entries[i].1)))
  }

  /** The known keys whose value is truthy. */
  function IsSet(params: Option<Entries>): string -> bool {
    k => Truthy(Param(params, k))
  }

  /** The entries the `forEach` appends: not a known key, and not `undefined`. */
  function IsExtra(known: seq<string>): ((string, JsValue)) -> bool {
    (e: (string, JsValue)) => e.0 !in known && !e.1.Undefined?
  }

  /** The part of a URL before its first `?`. */
  function PathOf(url: string): string {
    match FindIndex(url, c => c == '?')
    case None => url
    case Some(i) => url[..i]
  }

  /** The part of a URL after its first `?`, or `""` when it has none. */
  function QueryOf(url: string): string {
    match FindIndex(url, c => c == '?')
    case None => ""
    case Some(i) => url[i + 1..]
  }

  lemma RenderedAppend(a: Entries, b: Entries)
    ensures Rendered(a + b) == Rendered(a) + Rendered(b)
  {
  }

  lemma KeysAppend(a: seq<Pair>, b: seq<Pair>)
    ensures Keys(a + b) == Keys(a) + Keys(b)
  {
  }

  /** The statements for `known + [k]`: those for `known`, then the one for `k`. */
  lemma {:induction false} KnownPairsSnoc(params: Option<Entries>, known: seq<string>, k: string)
    ensures KnownPairs(params, known + [k]) == KnownPairs(params, known) + KnownPair(params, k)
    decreases |known|
  {
    if known == [] {
      assert [] + [k] == [k];
      assert [k][1..] == [];
    } else {
      assert (known + [k])[1..] == known[1..] + [k];
      KnownPairsSnoc(params, known[1..], k);
    }
  }

  /** One more `if (params?.k) append` after the statements for `known`. */
  lemma AppendedOneMore(params: Option<Entries>, start: seq<Pair>, before: seq<Pair>, after: seq<Pair>, known: seq<string>, k: string)
    requires before == start + KnownPairs(params, known)
    requires after == before + KnownPair(params, k)
    ensures after == start + KnownPairs(params, known + [k])
  {
    KnownPairsSnoc(params, known, k);
  }

  /** When no entry holds a truthy value, the known keys append nothing, whichever they are. */
  lemma {:induction false} FalsyValuesAppendNothing(params: Option<Entries>, known: seq<string>)
    requires forall e :: e in EntriesOf(params) ==> !Truthy(e.1)
    ensures KnownPairs(params, known) == []
    decreases |known|
  {
    if known != [] {
      var v := Param(params, known[0]);
      if v != Undefined {
        var i :| 0 <= i < |params.value| && params.value[i] == (known[0], v);
        assert params.value[i] in EntriesOf(params);
      }
      FalsyValuesAppendNothing(params, known[1..]);
    }
  }

  /**
   * The known keys appear in their fixed order, exactly those whose value is truthy, each
   * with `String` of its value.
   */
  lemma {:induction false} KnownPairsSpec(params: Option<Entries>, known: seq<string>)
    ensures Keys(KnownPairs(params, known)) == Filter(known, IsSet(params))
    ensures forall i :: 0 <= i < |KnownPairs(params, known)| ==>
      KnownPairs(params, known)[i].1 == ToJsString(Param(params, KnownPairs(params, known)[i].0))
    decreases |known|
  {
    if known != [] {
      KnownPairsSpec(params, known[1..]);
      KeysAppend(KnownPair(params, known[0]), KnownPairs(params, known[1..]));
    }
  }

  /** A known key whose value is falsy (page `0`, an empty `sortBy`, a missing key) is not in the query at all. */
  lemma FalsyKnownAbsent(params: Option<Entries>, known: seq<string>, withExtras: bool, k: string)
    requires k in known && !Truthy(Param(params, k))
    ensures k !in Keys(QueryPairs(params, known, withExtras))
  {
    KnownPairsSpec(params, known);
    var extras := if withExtras then ExtraPairs(EntriesOf(params), known) else [];
    ExtraKeysNotKnown(EntriesOf(params), known);
    KeysAppend(KnownPairs(params, known), extras);
  }

  /**
   * The extras are the entries that are not known keys and not `undefined`, in entry
   * order, each rendered with `String` (so `null` becomes `"null"`).
   */
  lemma {:induction false} ExtraPairsSpec(entries: Entries, known: seq<string>)
    ensures ExtraPairs(entries, known) == Rendered(Filter(entries, IsExtra(known)))
    decreases |entries|
  {
    if entries != [] {
      var init, last := entries[..|entries| - 1], entries[|entries| - 1];
      ExtraPairsSpec(init, known);
      assert entries == init + [last];
      FilterAppend(init, [last], IsExtra(known));
      var a, b := Filter(init, IsExtra(known)), Filter([last], IsExtra(known));
      assert [last][1..] == [];
      assert Rendered(b) == ExtraPair(last, known);
      RenderedAppend(a, b);
    }
  }

  /** Every extra pair comes from an entry of the params object whose key is not a known key. */
  lemma {:induction false} ExtraKeysNotKnown(entries: Entries, known: seq<string>)
    ensures forall k :: k in Keys(ExtraPairs(entries, known)) ==> k !in known && k in EntryKeys(entries)
    decreases |entries|
  {
    if entries != [] {
      var init := entries[..|entries| - 1];
      ExtraKeysNotKnown(init, known);
      KeysAppend(ExtraPairs(init, known), ExtraPair(entries[|entries| - 1], known));
      forall k | k in EntryKeys(init) ensures k in EntryKeys(entries) {
        var i :| 0 <= i < |init| && EntryKeys(init)[i] == k;
        assert EntryKeys(entries)[i] == k;
      }
      assert EntryKeys(entries)[|entries| - 1] == entries[|entries| - 1].0;
    }
  }

  /** A params object has distinct keys, so the extras do too. */
  lemma {:induction false} ExtraKeysDistinct(entries: Entries, known: seq<string>)
    requires Distinct(EntryKeys(entries))
    ensures Distinct(Keys(ExtraPairs(entries, known)))
    decreases |entries|
  {
    if entries != [] {
      var init, last := entries[..|entries| - 1], entries[|entries| - 1];
      assert Distinct(EntryKeys(init)) by {
        forall i, j | 0 <= i < j < |init| ensures EntryKeys(init)[i] != EntryKeys(init)[j] {
          assert EntryKeys(entries)[i] != EntryKeys(entries)[j];
        }
      }
      ExtraKeysDistinct(init, known);
      ExtraKeysNotKnown(init, known);
      KeysAppend(ExtraPairs(init, known), ExtraPair(last, known));
      assert last.0 !in EntryKeys(init) by {
        forall i | 0 <= i < |init| ensures EntryKeys(init)[i] != last.0 {
          assert EntryKeys(entries)[i] != EntryKeys(entries)[|entries| - 1];
        }
      }
      DistinctAppend(Keys(ExtraPairs(init, known)), Keys(ExtraPair(last, known)));
    }
  }

  /**
   * With a known-key list without repetitions, no key appears twice in a query (the keys of a
   * params object are distinct by construction).
   */
  lemma NoDuplicateKeys(params: Option<Entries>, known: seq<string>, withExtras: bool)
    requires Distinct(known) && Distinct(EntryKeys(EntriesOf(params)))
    ensures Distinct(Keys(QueryPairs(params, known, withExtras)))
  {
    var extras := if withExtras then ExtraPairs(EntriesOf(params), known) else [];
    KnownPairsSpec(params, known);
    FilterDistinct(known, IsSet(params));
    ExtraKeysDistinct(EntriesOf(params), known);
    ExtraKeysNotKnown(EntriesOf(params), known);
    KeysAppend(KnownPairs(params, known), extras);
    DistinctAppend(Keys(KnownPairs(params, known)), Keys(extras));
  }

  /** The known keys come first and every key after them is not a known key. */
  lemma KnownBeforeExtras(params: Option<Entries>, known: seq<string>, withExtras: bool)
    ensures var r := QueryPairs(params, known, withExtras);
      var n := |KnownPairs(params, known)|;
      && (forall i :: 0 <= i < n ==> r[i].0 in known)
      && (forall i :: n <= i < |r| ==> r[i].0 !in known)
  {
    var kp := KnownPairs(params, known);
    var extras := if withExtras then ExtraPairs(EntriesOf(params), known) else [];
    KnownPairKeysKnown(params, known);
    ExtraPairKeysNotKnown(EntriesOf(params), known);
    var r := kp + extras;
    assert r == QueryPairs(params, known, withExtras);
    assert forall i :: 0 <= i < |kp| ==> r[i] == kp[i];
    assert forall i :: |kp| <= i < |r| ==> r[i] == extras[i - |kp|];
  }

  /** Every pair for the known keys carries one of them. */
  lemma KnownPairKeysKnown(params: Option<Entries>, known: seq<string>)
    ensures forall i :: 0 <= i < |KnownPairs(params, known)| ==> KnownPairs(params, known)[i].0 in known
  {
    var kp := KnownPairs(params, known);
    KnownPairsSpec(params, known);
    forall i | 0 <= i < |kp| ensures kp[i].0 in known {
      assert Keys(kp)[i] in Filter(known, IsSet(params));
    }
  }

  /** No extra pair carries a known key. */
  lemma ExtraPairKeysNotKnown(entries: Entries, known: seq<string>)
    ensures forall i :: 0 <= i < |ExtraPairs(entries, known)| ==> ExtraPairs(entries, known)[i].0 !in known
  {
    var extras := ExtraPairs(entries, known);
    ExtraKeysNotKnown(entries, known);
    forall i | 0 <= i < |extras| ensures extras[i].0 !in known {
      assert Keys(extras)[i] in Keys(extras);
    }
  }

  /**
   * A builder with the loop requests the bare path exactly when no known key is truthy
   * and every other entry is `undefined`; otherwise the path, `?` and the query.
   */
  lemma BarePathIff(params: Option<Entries>, enc: string -> string, path: string, known: seq<string>)
    ensures var endpoint := Endpoint(path, Serialize(enc, QueryPairs(params, known, true)));
      && (endpoint == path <==>
            (forall k :: k in known ==> !Truthy(Param(params, k)))
            && (forall e :: e in EntriesOf(params) ==> e.0 in known || e.1.Undefined?))
      && (endpoint != path ==> endpoint == path + "?" + Serialize(enc, QueryPairs(params, known, true)))
  {
    NothingAppendedIff(params, known, true);
    EndpointBareIff(enc, path, QueryPairs(params, known, true));
  }

  /** The endpoint is the bare path exactly when nothing was appended. */
  lemma EndpointBareIff(enc: string -> string, path: string, pairs: seq<Pair>)
    ensures Endpoint(path, Serialize(enc, pairs)) == path <==> pairs == []
    ensures pairs != [] ==> Endpoint(path, Serialize(enc, pairs)) == path + "?" + Serialize(enc, pairs)
  {
    if pairs != [] {
      assert |Endpoint(path, Serialize(enc, pairs))| > |path|;
    }
  }

  /** Splitting a URL at its first `?` undoes `Endpoint` when the path has no `?`. */
  lemma PathAndQueryOfEndpoint(path: string, query: string)
    requires NoChar(path, '?')
    ensures PathOf(Endpoint(path, query)) == path && QueryOf(Endpoint(path, query)) == query
  {
    var url := Endpoint(path, query);
    var r := FindIndex(url, c => c == '?');
    if query == "" {
      assert r.None?;
    } else {
      assert url[|path|] == '?';
      assert r == Some(|path|);
      assert url[..|path|] == path;
      assert url[|path| + 1..] == query;
    }
  }

  /**
   * Round trip of a built endpoint: its path is the endpoint's path, and reading its query
   * back gives every appended pair, encoded, in order.
   */
  lemma EndpointRoundTrip(enc: string -> string, path: string, pairs: seq<Pair>)
    requires SafeEncoder(enc) && NoChar(path, '?')
    ensures PathOf(Endpoint(path, Serialize(enc, pairs))) == path
    ensures var read := ReadQuery(QueryOf(Endpoint(path, Serialize(enc, pairs))));
      |read| == |pairs| && forall i :: 0 <= i < |pairs| ==> read[i] == (enc(pairs[i].0), enc(pairs[i].1))
  {
    PathAndQueryOfEndpoint(path, Serialize(enc, pairs));
    ReadSerialized(enc, pairs);
  }

  /** `if (params?.key) searchParams.append(key, String(params.key))`. */
  method AppendIfTruthy(sp: UrlSearchParams, params: Option<Entries>, key: string)
    modifies sp
    ensures sp.pairs == old(sp.pairs) + KnownPair(params, key)
  {
    var v := Param(params, key);
    if Truthy(v) {
      sp.Append(key, ToJsString(v));
    }
  }

  /** `Object.entries(params || {}).forEach(([key, value]) => { if (!known.includes(key) && value !== undefined) append })`. */
  method AppendExtras(sp: UrlSearchParams, params: Option<Entries>, known: seq<string>)
    modifies sp
    ensures sp.pairs == old(sp.pairs) + ExtraPairs(EntriesOf(params), known)
  {
    var entries := EntriesOf(params);
    var i := 0;
    while i < |entries|
      invariant 0 <= i <= |entries|
      invariant sp.pairs == old(sp.pairs) + ExtraPairs(entries[..i], known)
    {
      var key, value := entries[i].0, entries[i].1;
      if key !in known && !value.Undefined? {
        sp.Append(key, ToJsString(value));
      }
      assert entries[..i + 1][..i] == entries[..i];
      i := i + 1;
    }
    assert entries[..i] == entries;
  }

  /** Nothing is appended exactly when every known key is falsy and (with the loop) every other entry is `undefined`. */
  lemma NothingAppendedIff(params: Option<Entries>, known: seq<string>, withExtras: bool)
    ensures QueryPairs(params, known, withExtras) == [] <==>
      (forall k :: k in known ==> !Truthy(Param(params, k)))
      && (withExtras ==> forall e :: e in EntriesOf(params) ==> e.0 in known || e.1.Undefined?)
  {
    KnownPairsSpec(params, known);
    ExtraPairsSpec(EntriesOf(params), known);
    var f := Filter(known, IsSet(params));
    var g := Filter(EntriesOf(params), IsExtra(known));
    if QueryPairs(params, known, withExtras) == [] {
      assert Keys(KnownPairs(params, known)) == [];
      forall k | k in known ensures !Truthy(Param(params, k)) {
        assert IsSet(params)(k) == Truthy(Param(params, k));
      }
      if withExtras {
        assert Rendered(g) == [];
        forall e | e in EntriesOf(params) ensures e.0 in known || e.1.Undefined? {
          assert IsExtra(known)(e) == (e.0 !in known && !e.1.Undefined?);
        }
      }
    } else if |f| > 0 {
      assert f[0] in f;
    } else {
      assert |g| > 0;
      assert g[0] in g;
    }
  }

  /** `searchParams.append` of the five standard known keys, each only when truthy. */
  method AppendStandardKnown(sp: UrlSearchParams, params: Option<Entries>)
    modifies sp
    ensures sp.pairs == old(sp.pairs) + KnownPairs(params, StandardKnown())
  {
    ghost var s0 := sp.pairs;
    AppendIfTruthy(sp, params, "page");
    ghost var s1 := sp.pairs;
    AppendIfTruthy(sp, params, "limit");
    ghost var s2 := sp.pairs;
    AppendIfTruthy(sp, params, "offset");
    ghost var s3 := sp.pairs;
    AppendIfTruthy(sp, params, "sortBy");
    ghost var s4 := sp.pairs;
    AppendIfTruthy(sp, params, "sortOrder");
    AppendedFive(params, s0, s1, s2, s3, s4, sp.pairs, StandardKnown());
  }

  /** Five appends in a row, one known key each, in the order of `known`. */
  lemma AppendedFive(params: Option<Entries>, s0: seq<Pair>, s1: seq<Pair>, s2: seq<Pair>, s3: seq<Pair>, s4: seq<Pair>, s5: seq<Pair>, known: seq<string>)
    requires |known| == 5
    requires s1 == s0 + KnownPair(params, known[0]) && s2 == s1 + KnownPair(params, known[1])
    requires s3 == s2 + KnownPair(params, known[2]) && s4 == s3 + KnownPair(params, known[3])
    requires s5 == s4 + KnownPair(params, known[4])
    ensures s5 == s0 + KnownPairs(params, known)
  {
    AppendedThree(params, s0, s1, s2, s3, known[..3]);
    AppendedOneMore(params, s0, s3, s4, known[..3], known[3]);
    assert known[..3] + [known[3]] == known[..4];
    AppendedOneMore(params, s0, s4, s5, known[..4], known[4]);
    assert known[..4] + [known[4]] == known;
  }

  /** Three appends in a row, one known key each, in the order of `known`. */
  lemma AppendedThree(params: Option<Entries>, s0: seq<Pair>, s1: seq<Pair>, s2: seq<Pair>, s3: seq<Pair>, known: seq<string>)
    requires |known| == 3
    requires s1 == s0 + KnownPair(params, known[0]) && s2 == s1 + KnownPair(params, known[1])
    requires s3 == s2 + KnownPair(params, known[2])
    ensures s3 == s0 + KnownPairs(params, known)
  {
    AppendedOneMore(params, s0, s0, s1, [], known[0]);
    assert [] + [known[0]] == known[..1];
    AppendedOneMore(params, s0, s1, s2, known[..1], known[1]);
    assert known[..1] + [known[1]] == known[..2];
    AppendedOneMore(params, s0, s2, s3, known[..2], known[2]);
    assert known[..2] + [known[2]] == known;
  }

  /** `searchParams.toString()` and the endpoint built from it. */
  method EndpointOf(sp: UrlSearchParams, path: string, enc: string -> string) returns (endpoint: string)
    ensures endpoint == Endpoint(path, Serialize(enc, sp.pairs))
  {
    var queryString := sp.ToString(enc);
    if queryString != "" {
      endpoint := path + "?" + queryString;
    } else {
      endpoint := path;
    }
  }

  /**
   * The builder `getAll` of issues, contests and users and `getByContest` share: the five
   * standard known keys, then the loop over the other entries, then the endpoint.
   */
  method StandardListEndpoint(path: string, params: Option<Entries>, enc: string -> string) returns (endpoint: string)
    ensures endpoint == Endpoint(path, Serialize(enc, QueryPairs(params, StandardKnown(), true)))
  {
    var searchParams := new UrlSearchParams();
    AppendStandardKnown(searchParams, params);
    AppendExtras(searchParams, params, StandardKnown());
    AppendedIsQuery(searchParams.pairs, params, StandardKnown());
    endpoint := EndpointOf(searchParams, path, enc);
  }

  lemma AppendedIsQuery(x: seq<Pair>, params: Option<Entries>, known: seq<string>)
    requires x == [] + KnownPairs(params, known) + ExtraPairs(EntriesOf(params), known)
    ensures x == QueryPairs(params, known, true)
  {
  }

  /** The builders without the loop (`getComments`, `getParticipants`): the five standard known keys only. */
  method KnownOnlyEndpoint(path: string, params: Option<Entries>, enc: string -> string) returns (endpoint: string)
    ensures endpoint == Endpoint(path, Serialize(enc, QueryPairs(params, StandardKnown(), false)))
  {
    var searchParams := new UrlSearchParams();
    AppendStandardKnown(searchParams, params);
    KnownOnlyIsQuery(searchParams.pairs, params, StandardKnown());
    endpoint := EndpointOf(searchParams, path, enc);
  }

  lemma KnownOnlyIsQuery(x: seq<Pair>, params: Option<Entries>, known: seq<string>)
    requires x == [] + KnownPairs(params, known)
    ensures x == QueryPairs(params, known, false)
  {
  }
}
