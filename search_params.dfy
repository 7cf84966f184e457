/**
 * `URLSearchParams` as the API clients use it: an ordered list of name/value pairs
 * filled by `append` and rendered by `toString()` as `name=value` pairs joined by `&`.
 * The form-urlencoded percent-encoding of each name and value is an opaque encoder
 * that never emits `&` or `=` (both are percent-encoded).
 */
module SearchParams {
  import opened JsStrings

  type Pair = (string, string)

  /** An encoder the serialization can be read back through: its output never holds a separator. */
  ghost predicate SafeEncoder(enc: string -> string) {
    forall s :: NoChar(enc(s), '&') && NoChar(enc(s), '=')
  }

  ghost predicate Injective(enc: string -> string) {
    forall a, b :: enc(a) == enc(b) ==> a == b
  }

  /** One pair as it appears in the query string. */
  function PairText(enc: string -> string, p: Pair): (r: string)
    ensures r != ""
  {
    enc(p.0) + "=" + enc(p.1)
  }

  function PairTexts(enc: string -> string, pairs: seq<Pair>): (r: seq<string>)
    ensures |r| == |pairs| && forall i :: 0 <= i < |pairs| ==> r[i] == PairText(enc, pairs[i])
  {
    seq(|pairs|, i requires 0 <= i < |pairs| => PairText(enc, pairs[i]))
  }

  /** `searchParams.toString()`: empty exactly when no pair was appended. */
  function Serialize(enc: string -> string, pairs: seq<Pair>): (r: string)
    ensures r == "" <==> pairs == []
  {
    var texts := PairTexts(enc, pairs);
    if pairs == [] then "" else
      assert |JoinWith(texts, '&')| >= |texts[0]| by { JoinStartsWithFirst(texts, '&'); }
      JoinWith(texts, '&')
  }

  lemma JoinStartsWithFirst(parts: seq<string>, c: char)
    requires parts != []
    ensures JoinWith(parts, c)[..|parts[0]|] == parts[0]
  {
  }

  /** A reader for query strings: split on `&`, then each part on `=`. */
  function ReadQuery(q: string): seq<Pair> {
    if q == "" then []
    else
      var parts := Split(q, "&");
      seq(|parts|, i requires 0 <= i < |parts| => ReadPair(parts[i]))
  }

  function ReadPair(part: string): Pair {
    var kv := Split(part, "=");
    (kv[0], if |kv| >= 2 then kv[1] else "")
  }

  /** Each serialized pair reads back as its encoded name and value. */
  lemma ReadPairText(enc: string -> string, p: Pair)
    requires SafeEncoder(enc)
    ensures ReadPair(PairText(enc, p)) == (enc(p.0), enc(p.1))
  {
    var k, v := enc(p.0), enc(p.1);
    assert NoChar(k, '=') && NoChar(v, '=');
    SplitJoin([k, v], '=');
    assert JoinWith([k, v], '=') == k + "=" + v by {
      assert [k, v][1..] == [v];
    }
  }

  /** Reading a serialized list gives back every encoded pair, in order. */
  lemma ReadSerialized(enc: string -> string, pairs: seq<Pair>)
    requires SafeEncoder(enc)
    ensures |ReadQuery(Serialize(enc, pairs))| == |pairs|
    ensures forall i :: 0 <= i < |pairs| ==> ReadQuery(Serialize(enc, pairs))[i] == (enc(pairs[i].0), enc(pairs[i].1))
  {
    if pairs != [] {
      var texts := PairTexts(enc, pairs);
      forall i | 0 <= i < |texts| ensures NoChar(texts[i], '&') {
        var k, v := enc(pairs[i].0), enc(pairs[i].1);
        assert NoChar(k, '&') && NoChar(v, '&');
        assert texts[i] == k + "=" + v;
      }
      SplitJoin(texts, '&');
      forall i | 0 <= i < |pairs| ensures ReadQuery(Serialize(enc, pairs))[i] == (enc(pairs[i].0), enc(pairs[i].1)) {
        ReadPairText(enc, pairs[i]);
      }
    }
  }

  /** With an injective encoder, the query string determines the appended pairs. */
  lemma SerializeInjective(enc: string -> string, p: seq<Pair>, q: seq<Pair>)
    requires SafeEncoder(enc) && Injective(enc)
    requires Serialize(enc, p) == Serialize(enc, q)
    ensures p == q
  {
    ReadSerialized(enc, p);
    ReadSerialized(enc, q);
    forall i | 0 <= i < |p| ensures p[i] == q[i] {
      assert enc(p[i].0) == enc(q[i].0) && enc(p[i].1) == enc(q[i].1);
    }
  }

  /** The `URLSearchParams` object a builder fills. */
  class UrlSearchParams {
    var pairs: seq<Pair>

    constructor()
      ensures pairs == []
    {
      pairs := [];
    }

    /** `append(name, value)`. */
    method Append(name: string, value: string)
      modifies this
      ensures pairs == old(pairs) + [(name, value)]
    {
      pairs := pairs + [(name, value)];
    }

    /** `toString()`. */
    function ToString(enc: string -> string): string
      reads this
    {
      Serialize(enc, pairs)
    }
  }
}
