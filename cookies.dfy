/**
 * The browser cookie jar seen through `document.cookie`, and the `getCookie` parser that
 * both token stores share (`src/api/token-storage.ts` and `src/lib/api/token-storage.ts`).
 *
 * Reading `document.cookie` gives the visible cookies as `name=value` pairs joined by
 * `"; "` (section 5.4 of RFC 6265). Assigning `document.cookie` stores one cookie: its
 * value is the text up to the first `;`, stripped of leading and trailing spaces and tabs
 * (section 5.2 of RFC 6265); an existing cookie of that name is replaced in place, keeping
 * its position (section 5.3 of RFC 6265, step 11), and an expiry date in the past removes it.
 */
module Cookies {
  import opened Common
  import opened JsStrings

  /** One visible cookie; `lifetimeDays` is how long from its writing it was set to live. */
  datatype Cookie = Cookie(name: string, value: string, lifetimeDays: int)

  /** The `expires` attribute of an assignment: a number of days from now, or the 1970 epoch. */
  datatype Expiry = InDays(days: int) | Epoch

  /** A cookie name this client reads or writes: non-empty, with no `;` and no `=`. */
  predicate ValidName(name: string) {
    name != "" && NoChar(name, ';') && NoChar(name, '=')
  }

  /** Every cookie a browser can hold: its name is a valid name and its value has no `;`. */
  predicate WellFormed(cs: seq<Cookie>) {
    forall i :: 0 <= i < |cs| ==> ValidName(cs[i].name) && NoChar(cs[i].value, ';')
  }

  predicate UniqueNames(cs: seq<Cookie>) {
    forall i, j :: 0 <= i < j < |cs| ==> cs[i].name != cs[j].name
  }

  /** `"; name=value"`: one cookie as it appears after the first in `"; " + document.cookie`. */
  function Segment(c: Cookie): string {
    "; " + c.name + "=" + c.value
  }

  function Prefixed(cs: seq<Cookie>): string
    decreases |cs|
  {
    if cs == [] then "" else Segment(cs[0]) + Prefixed(cs[1..])
  }

  /** `document.cookie`: the pairs joined by `"; "`. */
  function CookieHeader(cs: seq<Cookie>): (h: string)
    ensures cs != [] ==> "; " + h == Prefixed(cs)
  {
    if cs == [] then "" else Prefixed(cs)[2..]
  }

  /** The marker `getCookie` splits on. */
  function Marker(name: string): string {
    "; " + name + "="
  }

  /**
   * `getCookie(name)`: split `"; " + cookieString` on `"; " + name + "="`; with exactly two
   * parts, the text of the last part up to its first `;`, unless that is empty.
   */
  function GetCookie(cookieString: string, name: string): Option<string> {
    var parts := Split("; " + cookieString, Marker(name));
    if |parts| == 2 then
      var v := Split(parts[1], ";")[0];
      if v == "" then None else Some(v)
    else None
  }

  /** Number of cookies called `name`. */
  function Named(cs: seq<Cookie>, name: string): nat
    decreases |cs|
  {
    if cs == [] then 0 else (if cs[0].name == name then 1 else 0) + Named(cs[1..], name)
  }

  /** The value of the first cookie called `name`, or `None`. */
  function Lookup(cs: seq<Cookie>, name: string): (r: Option<string>)
    ensures r.None? <==> Named(cs, name) == 0
    decreases |cs|
  {
    if cs == [] then None else if cs[0].name == name then Some(cs[0].value) else Lookup(cs[1..], name)
  }

  /** The cookies after the first one called `name`. */
  function After(cs: seq<Cookie>, name: string): seq<Cookie>
    decreases |cs|
  {
    if cs == [] then [] else if cs[0].name == name then cs[1..] else After(cs[1..], name)
  }

  /** The marker for `name` does not start a segment of a cookie with another name. */
  lemma MarkerMissesSegmentStart(c: Cookie, rest: string, name: string)
    requires ValidName(name) && ValidName(c.name) && c.name != name
    ensures !OccursAt(Segment(c) + rest, Marker(name), 0)
  {
    var s := Segment(c) + rest;
    var m := Marker(name);
    var n := c.name;
    var j: nat;
    if |n| < |name| {
      j := 2 + |n|;
      assert s[j] == '=' && m[j] == name[|n|];
    } else if |n| > |name| {
      j := 2 + |name|;
      assert s[j] == n[|name|] && m[j] == '=';
    } else {
      var k :| 0 <= k < |n| && n[k] != name[k];
      j := 2 + k;
      assert s[j] == n[k] && m[j] == name[k];
    }
    if |m| <= |s| {
      assert s[0..|m|][j] == s[j];
    }
  }

  /** Inside a segment only its first character is a `;`. */
  lemma SegmentBodyHasNoSemicolon(c: Cookie, rest: string)
    requires NoChar(c.name, ';') && NoChar(c.value, ';')
    ensures forall i :: 1 <= i < |Segment(c)| ==> (Segment(c) + rest)[i] != ';'
  {
    var s := Segment(c) + rest;
    var n := c.name;
    forall i | 1 <= i < |Segment(c)| ensures s[i] != ';' {
      if i == 1 {
      } else if i < 2 + |n| {
        assert s[i] == n[i - 2];
      } else if i > 2 + |n| {
        assert s[i] == c.value[i - 3 - |n|];
      }
    }
  }

  /** The marker for `name` cannot begin inside the segment of a cookie with another name. */
  lemma SegmentHidesMarker(c: Cookie, rest: string, name: string)
    requires ValidName(name) && ValidName(c.name) && NoChar(c.value, ';') && c.name != name
    ensures forall i :: 0 <= i < |Segment(c)| ==> !OccursAt(Segment(c) + rest, Marker(name), i)
  {
    var s := Segment(c) + rest;
    var m := Marker(name);
    MarkerMissesSegmentStart(c, rest, name);
    SegmentBodyHasNoSemicolon(c, rest);
    forall i | 1 <= i < |Segment(c)| ensures !OccursAt(s, m, i) {
      if i + |m| <= |s| {
        assert s[i..i + |m|][0] == s[i];
      }
    }
  }

  /** The segment of a cookie called `name` is the marker followed by its value. */
  lemma SegmentIsMarker(c: Cookie, rest: string)
    ensures Segment(c) + rest == Marker(c.name) + (c.value + rest)
  {
  }

  /**
   * Splitting the jar's text on the marker for `name` gives one part more than there are
   * cookies called `name`; with none it is the whole text, and with exactly one the second
   * part is that cookie's value followed by the segments of the cookies after it.
   */
  lemma {:induction false} SplitOnMarker(cs: seq<Cookie>, name: string)
    requires WellFormed(cs) && ValidName(name)
    ensures |Split(Prefixed(cs), Marker(name))| == 1 + Named(cs, name)
    ensures Named(cs, name) == 0 ==> Split(Prefixed(cs), Marker(name)) == [Prefixed(cs)]
    ensures Named(cs, name) == 1 ==>
      Split(Prefixed(cs), Marker(name))[1] == Lookup(cs, name).value + Prefixed(After(cs, name))
    decreases |cs|
  {
    var m := Marker(name);
    if cs == [] {
      assert Split("", m) == [""];
    } else {
      var c, rest := cs[0], cs[1..];
      assert WellFormed(rest) by {
        forall i | 0 <= i < |rest| ensures ValidName(rest[i].name) && NoChar(rest[i].value, ';') {
          assert rest[i] == cs[i + 1];
        }
      }
      assert ValidName(c.name) && NoChar(c.value, ';') by {
        assert cs[0] == c;
      }
      SplitOnMarker(rest, name);
      var tail := Split(Prefixed(rest), m);
      if c.name == name {
        SegmentIsMarker(c, Prefixed(rest));
        SplitAtSeparator(c.value + Prefixed(rest), m);
        NoOccurrenceWithoutHead(c.value, Prefixed(rest), m);
        SplitSkip(c.value, Prefixed(rest), m);
      } else {
        SegmentHidesMarker(c, Prefixed(rest), name);
        SplitSkip(Segment(c), Prefixed(rest), m);
      }
    }
  }

  /**
   * `getCookie` on `document.cookie`: the value of the one cookie called `name` when it is
   * non-empty, and `null` when there is no such cookie, when its value is empty, or when
   * the name occurs more than once.
   */
  lemma {:induction false} GetCookieOfHeader(cs: seq<Cookie>, name: string)
    requires WellFormed(cs) && ValidName(name)
    ensures Named(cs, name) != 1 ==> GetCookie(CookieHeader(cs), name) == None
    ensures Named(cs, name) == 1 ==>
      GetCookie(CookieHeader(cs), name) == (if Lookup(cs, name).value == "" then None else Some(Lookup(cs, name).value))
  {
    var m := Marker(name);
    if cs == [] {
      assert Split("; ", m) == ["; "];
    } else {
      SplitOnMarker(cs, name);
      if Named(cs, name) == 1 {
        var v := Lookup(cs, name).value;
        LookupWellFormed(cs, name);
        var rest := Prefixed(After(cs, name));
        assert rest == "" || rest[0] == ';';
        SplitFirstPart(v, rest, ';');
      }
    }
  }

  /** The value found for a name in a well-formed jar has no `;`. */
  lemma {:induction false} LookupWellFormed(cs: seq<Cookie>, name: string)
    requires WellFormed(cs) && Named(cs, name) >= 1
    ensures NoChar(Lookup(cs, name).value, ';')
    decreases |cs|
  {
    if cs[0].name != name {
      assert WellFormed(cs[1..]) by {
        forall i | 0 <= i < |cs[1..]| ensures ValidName(cs[1..][i].name) && NoChar(cs[1..][i].value, ';') {
          assert cs[1..][i] == cs[i + 1];
        }
      }
      LookupWellFormed(cs[1..], name);
    }
  }

  /** With unique names there is at most one cookie of each name. */
  lemma {:induction false} UniqueNamed(cs: seq<Cookie>, name: string)
    requires UniqueNames(cs)
    ensures Named(cs, name) <= 1
    decreases |cs|
  {
    if cs != [] {
      UniqueNamed(cs[1..], name);
      if cs[0].name == name {
        NamedZeroWhenAbsent(cs[1..], name);
      }
    }
  }

  lemma {:induction false} NamedZeroWhenAbsent(cs: seq<Cookie>, name: string)
    requires forall i :: 0 <= i < |cs| ==> cs[i].name != name
    ensures Named(cs, name) == 0
    decreases |cs|
  {
    if cs != [] {
      NamedZeroWhenAbsent(cs[1..], name);
    }
  }

  /** What a jar with unique names shows to `getCookie`: the stored value, or `null` when absent or empty. */
  lemma ReadJar(cs: seq<Cookie>, name: string)
    requires WellFormed(cs) && UniqueNames(cs) && ValidName(name)
    ensures GetCookie(CookieHeader(cs), name) ==
      match Lookup(cs, name)
      case None => None
      case Some(v) => if v == "" then None else Some(v)
  {
    UniqueNamed(cs, name);
    GetCookieOfHeader(cs, name);
  }

  /** Spaces and tabs, which the browser strips around a cookie's name and value. */
  predicate IsWsp(c: char) {
    c == ' ' || c == '\t'
  }

  function TrimWsp(s: string): (r: string)
    ensures |r| <= |s| && forall i :: 0 <= i < |r| ==> r[i] in s
    ensures r == s || (s != [] && (IsWsp(s[0]) || IsWsp(s[|s| - 1])))
    decreases |s|
  {
    if s != [] && IsWsp(s[0]) then TrimWsp(s[1..])
    else if s != [] && IsWsp(s[|s| - 1]) then TrimWsp(s[..|s| - 1])
    else s
  }

  /** The value the browser keeps for `name=value;expires=…` when the name has no `;`. */
  function StoredValue(value: string): (v: string)
    ensures NoChar(v, ';')
  {
    var raw := Split(value, ";")[0];
    SplitPartsHaveNoSeparator(value);
    TrimWsp(raw)
  }

  /** A value the browser keeps exactly as written. */
  predicate Storable(value: string) {
    NoChar(value, ';') && (value == "" || (!IsWsp(value[0]) && !IsWsp(value[|value| - 1])))
  }

  lemma StorableKept(value: string)
    requires Storable(value)
    ensures StoredValue(value) == value
  {
    SplitFirstPart(value, "", ';');
    assert value + "" == value;
  }

  lemma {:induction false} SplitPartsHaveNoSeparator(s: string)
    ensures NoChar(Split(s, ";")[0], ';')
    decreases |s|
  {
    if |s| >= 1 && s[..1] != ";" {
      SplitPartsHaveNoSeparator(s[1..]);
      assert s[0] != ';';
    }
  }

  /** The jar without any cookie called `name`. */
  function Remove(cs: seq<Cookie>, name: string): (r: seq<Cookie>)
    ensures Named(r, name) == 0
    decreases |cs|
  {
    if cs == [] then []
    else if cs[0].name == name then Remove(cs[1..], name)
    else [cs[0]] + Remove(cs[1..], name)
  }

  /** Removing keeps exactly the cookies of other names. */
  lemma {:induction false} RemoveMembers(cs: seq<Cookie>, name: string)
    ensures forall c :: c in Remove(cs, name) <==> c in cs && c.name != name
    decreases |cs|
  {
    if cs != [] {
      RemoveMembers(cs[1..], name);
      assert forall c :: c in cs <==> c == cs[0] || c in cs[1..];
    }
  }

  /** The jar with `c` replacing the cookie of the same name in place, or appended. */
  function Upsert(cs: seq<Cookie>, c: Cookie): (r: seq<Cookie>)
    decreases |cs|
  {
    if cs == [] then [c]
    else if cs[0].name == c.name then [c] + cs[1..]
    else [cs[0]] + Upsert(cs[1..], c)
  }

  /** `document.cookie = name + "=" + value + ";expires=…"`. */
  function Assign(cs: seq<Cookie>, name: string, value: string, expiry: Expiry): seq<Cookie> {
    match expiry
    case Epoch => Remove(cs, name)
    case InDays(d) => if d <= 0 then Remove(cs, name) else Upsert(cs, Cookie(name, StoredValue(value), d))
  }

  /** Upserting adds `c` and keeps every cookie of another name; nothing else comes in. */
  lemma {:induction false} UpsertMembers(cs: seq<Cookie>, c: Cookie)
    ensures c in Upsert(cs, c)
    ensures forall x :: x in Upsert(cs, c) ==> x == c || x in cs
    ensures forall x :: x in cs && x.name != c.name ==> x in Upsert(cs, c)
    decreases |cs|
  {
    if cs != [] {
      assert cs == [cs[0]] + cs[1..];
      if cs[0].name != c.name {
        UpsertMembers(cs[1..], c);
      }
    }
  }

  /** Upserting keeps the jar well formed with unique names, and makes `c` the cookie of its name. */
  lemma {:induction false} UpsertFacts(cs: seq<Cookie>, c: Cookie)
    requires WellFormed(cs) && UniqueNames(cs) && ValidName(c.name) && NoChar(c.value, ';')
    ensures WellFormed(Upsert(cs, c)) && UniqueNames(Upsert(cs, c))
    ensures Lookup(Upsert(cs, c), c.name) == Some(c.value) && c in Upsert(cs, c)
    ensures forall n :: n != c.name ==> Lookup(Upsert(cs, c), n) == Lookup(cs, n)
    ensures forall x :: x in Upsert(cs, c) ==> x == c || x in cs
    ensures forall x :: x in cs && x.name != c.name ==> x in Upsert(cs, c)
    decreases |cs|
  {
    UpsertMembers(cs, c);
    if cs != [] && cs[0].name != c.name {
      var rest := cs[1..];
      assert WellFormed(rest) && UniqueNames(rest) by {
        forall i | 0 <= i < |rest| ensures rest[i] == cs[i + 1] { }
      }
      UpsertFacts(rest, c);
      UpsertHeadUnique(cs, c);
    } else if cs != [] {
      var r := Upsert(cs, c);
      forall i, j | 0 <= i < j < |r| ensures r[i].name != r[j].name {
        assert r[j] == cs[j];
        if i > 0 {
          assert r[i] == cs[i];
        } else {
          assert cs[0].name != cs[j].name;
        }
      }
      forall n | n != c.name ensures Lookup(r, n) == Lookup(cs, n) {
        assert r[1..] == cs[1..];
      }
    }
  }

  /** A head of another name stays ahead of an upsert into the rest without clashing with it. */
  lemma UpsertHeadUnique(cs: seq<Cookie>, c: Cookie)
    requires cs != [] && cs[0].name != c.name && UniqueNames(cs)
    requires UniqueNames(Upsert(cs[1..], c))
    ensures UniqueNames(Upsert(cs, c))
  {
    var rest := cs[1..];
    var u := Upsert(rest, c);
    assert forall k :: 0 <= k < |rest| ==> rest[k] == cs[k + 1];
    UpsertNameAbsent(rest, c, cs[0].name);
    var r := Upsert(cs, c);
    assert r == [cs[0]] + u;
    forall i, j | 0 <= i < j < |r| ensures r[i].name != r[j].name {
      assert r[j] == u[j - 1];
      if i > 0 {
        assert r[i] == u[i - 1];
      }
    }
  }

  /** A name that neither the jar nor `c` has is still absent after the upsert. */
  lemma {:induction false} UpsertNameAbsent(cs: seq<Cookie>, c: Cookie, name: string)
    requires forall k :: 0 <= k < |cs| ==> cs[k].name != name
    requires c.name != name
    ensures forall k :: 0 <= k < |Upsert(cs, c)| ==> Upsert(cs, c)[k].name != name
    decreases |cs|
  {
    if cs != [] && cs[0].name != c.name {
      assert forall k :: 0 <= k < |cs[1..]| ==> cs[1..][k] == cs[k + 1];
      UpsertNameAbsent(cs[1..], c, name);
    }
  }

  /** Removing keeps the jar well formed with unique names and leaves other names alone. */
  lemma {:induction false} RemoveFacts(cs: seq<Cookie>, name: string)
    requires WellFormed(cs) && UniqueNames(cs)
    ensures WellFormed(Remove(cs, name)) && UniqueNames(Remove(cs, name))
    ensures Lookup(Remove(cs, name), name) == None
    ensures forall n :: n != name ==> Lookup(Remove(cs, name), n) == Lookup(cs, n)
    decreases |cs|
  {
    if cs != [] {
      var rest := cs[1..];
      assert WellFormed(rest) && UniqueNames(rest) by {
        forall i | 0 <= i < |rest| ensures rest[i] == cs[i + 1] { }
      }
      RemoveFacts(rest, name);
      RemoveMembers(rest, name);
      var r := Remove(cs, name);
      if cs[0].name != name {
        forall i, j | 0 <= i < j < |r| ensures r[i].name != r[j].name {
          if i == 0 {
            assert r[j] in Remove(rest, name);
            var k :| 0 <= k < |rest| && rest[k] == r[j];
            assert cs[k + 1] == r[j];
          } else {
            assert r[i] == Remove(rest, name)[i - 1] && r[j] == Remove(rest, name)[j - 1];
          }
        }
        forall n | n != name ensures Lookup(r, n) == Lookup(cs, n) {
          assert r[1..] == Remove(rest, name);
        }
      } else {
        forall n | n != name ensures Lookup(r, n) == Lookup(cs, n) {
        }
      }
    }
  }

  /** No cookie of a name is counted exactly when none is in the jar. */
  lemma {:induction false} NamedZeroIff(cs: seq<Cookie>, name: string)
    ensures Named(cs, name) == 0 <==> forall c :: c in cs ==> c.name != name
    decreases |cs|
  {
    if cs != [] {
      NamedZeroIff(cs[1..], name);
      assert forall c :: c in cs <==> c == cs[0] || c in cs[1..];
    }
  }

  /** Removing a name that is not there changes nothing. */
  lemma {:induction false} RemoveAbsent(cs: seq<Cookie>, name: string)
    requires forall c :: c in cs ==> c.name != name
    ensures Remove(cs, name) == cs
    decreases |cs|
  {
    if cs != [] {
      assert cs[0] in cs;
      assert forall c :: c in cs[1..] ==> c in cs;
      RemoveAbsent(cs[1..], name);
    }
  }

  /** Deleting `m` keeps the jar valid and keeps any name that was missing missing. */
  lemma RemoveKeepsMissing(cs: seq<Cookie>, m: string, n: string)
    requires WellFormed(cs) && UniqueNames(cs) && Lookup(cs, n) == None
    ensures WellFormed(Remove(cs, m)) && UniqueNames(Remove(cs, m))
    ensures Lookup(Remove(cs, m), n) == None
  {
    RemoveFacts(cs, m);
  }

  /** Removing twice is removing once. */
  lemma {:induction false} RemoveIdempotent(cs: seq<Cookie>, name: string)
    ensures Remove(Remove(cs, name), name) == Remove(cs, name)
    decreases |cs|
  {
    if cs != [] {
      RemoveIdempotent(cs[1..], name);
    }
  }

  /** Any assignment keeps the jar well formed with unique names. */
  lemma AssignFacts(cs: seq<Cookie>, name: string, value: string, expiry: Expiry)
    requires WellFormed(cs) && UniqueNames(cs) && ValidName(name)
    ensures WellFormed(Assign(cs, name, value, expiry)) && UniqueNames(Assign(cs, name, value, expiry))
    ensures forall n :: n != name ==> Lookup(Assign(cs, name, value, expiry), n) == Lookup(cs, n)
    ensures Lookup(Assign(cs, name, value, expiry), name) ==
      if expiry.InDays? && expiry.days > 0 then Some(StoredValue(value)) else None
  {
    if expiry.InDays? && expiry.days > 0 {
      UpsertFacts(cs, Cookie(name, StoredValue(value), expiry.days));
    } else {
      RemoveFacts(cs, name);
    }
  }

  /** The browser's cookie store as the page sees it. */
  class CookieJar {
    var cookies: seq<Cookie>

    predicate Valid()
      reads this
    {
      WellFormed(cookies) && UniqueNames(cookies)
    }

    /** Reading `document.cookie`. */
    function Header(): string
      reads this
    {
      CookieHeader(cookies)
    }

    constructor(initial: seq<Cookie>)
      requires WellFormed(initial) && UniqueNames(initial)
      ensures Valid() && cookies == initial
    {
      cookies := initial;
    }

    /** Assigning `document.cookie`. */
    method Write(name: string, value: string, expiry: Expiry)
      requires Valid() && ValidName(name)
      modifies this
      ensures Valid()
      ensures cookies == Assign(old(cookies), name, value, expiry)
    {
      AssignFacts(cookies, name, value, expiry);
      cookies := Assign(cookies, name, value, expiry);
    }

    /** `setCookie(name, value, days)`. */
    method SetCookie(name: string, value: string, days: int)
      requires Valid() && ValidName(name)
      modifies this
      ensures Valid()
      ensures cookies == Assign(old(cookies), name, value, InDays(days))
    {
      Write(name, value, InDays(days));
    }

    /** `deleteCookie(name)`: an empty value expiring at the epoch. */
    method DeleteCookie(name: string)
      requires Valid() && ValidName(name)
      modifies this
      ensures Valid()
      ensures cookies == Remove(old(cookies), name)
    {
      Write(name, "", Epoch);
    }
  }
}
