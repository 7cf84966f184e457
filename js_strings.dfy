/**
 * The JavaScript string operations the client relies on, stated over `seq<char>`:
 * `split` with a non-empty separator, `trim`, `startsWith`, `slice(-n)`, ASCII case
 * mapping and the decimal rendering of integers.
 */
module JsStrings {

  /** Characters matched by `\s` and removed by `String.prototype.trim`: WhiteSpace and LineTerminator. */
  predicate IsWhitespace(c: char) {
    c == '\t' || c == '\n' || c == '\U{000B}' || c == '\U{000C}' || c == '\r' || c == ' '
    || c == '\U{00A0}' || c == '\U{1680}' || ('\U{2000}' <= c <= '\U{200A}')
    || c == '\U{2028}' || c == '\U{2029}' || c == '\U{202F}' || c == '\U{205F}'
    || c == '\U{3000}' || c == '\U{FEFF}'
  }

  predicate AllWhitespace(s: string) {
    forall i :: 0 <= i < |s| ==> IsWhitespace(s[i])
  }

  predicate HasWhitespace(s: string) {
    exists i :: 0 <= i < |s| && IsWhitespace(s[i])
  }

  /** `s.trimStart()`. */
  function TrimStart(s: string): (r: string)
    ensures |r| <= |s| && r == s[|s| - |r|..]
    ensures r == "" || !IsWhitespace(r[0])
    ensures AllWhitespace(s[..|s| - |r|])
    decreases |s|
  {
    if s != [] && IsWhitespace(s[0]) then
      var r := TrimStart(s[1..]);
      assert s[..|s| - |r|] == [s[0]] + s[1..][..|s| - 1 - |r|];
      r
    else s
  }

  /** `s.trimEnd()`. */
  function TrimEnd(s: string): (r: string)
    ensures |r| <= |s| && r == s[..|r|]
    ensures r == "" || !IsWhitespace(r[|r| - 1])
    ensures AllWhitespace(s[|r|..])
    decreases |s|
  {
    if s != [] && IsWhitespace(s[|s| - 1]) then
      var r := TrimEnd(s[..|s| - 1]);
      assert s[|r|..] == s[..|s| - 1][|r|..] + [s[|s| - 1]];
      r
    else s
  }

  /** `s.trim()`. */
  function Trim(s: string): string {
    TrimEnd(TrimStart(s))
  }

  /** A string trims to the empty string exactly when every character is whitespace. */
  lemma TrimEmptyIff(s: string)
    ensures Trim(s) == "" <==> AllWhitespace(s)
  {
    var t := TrimStart(s);
    if t == "" {
      assert s[..|s|] == s;
    } else {
      assert t[0] == s[|s| - |t|];
      assert t[0..] == t;
    }
  }

  /** `s.startsWith(p)`. */
  predicate StartsWith(s: string, p: string) {
    |p| <= |s| && s[..|p|] == p
  }

  /** `s.slice(-n)` for a positive `n`: the last `n` characters, or all of `s` when it is shorter. */
  function SliceLast(s: string, n: nat): (r: string)
    ensures |r| == if |s| <= n then |s| else n
    ensures r == s[|s| - |r|..]
  {
    if |s| <= n then s else s[|s| - n..]
  }

  /** `s.slice(0, n)` / `s.substring(0, n)` for `n >= 0`: the first `n` characters, or all of `s`. */
  function Prefix(s: string, n: nat): (r: string)
    ensures |r| == if |s| <= n then |s| else n
    ensures r == s[..|r|]
  {
    if |s| <= n then s else s[..n]
  }

  /** `c` does not occur in `s`. */
  predicate NoChar(s: string, c: char) {
    forall i :: 0 <= i < |s| ==> s[i] != c
  }

  /** `sep` occurs in `s` starting at index `i`. */
  predicate OccursAt(s: string, sep: string, i: nat) {
    i + |sep| <= |s| && s[i..i + |sep|] == sep
  }

  /** `s.includes(sub)`. */
  predicate Contains(s: string, sub: string) {
    exists i :: 0 <= i <= |s| && OccursAt(s, sub, i)
  }

  /**
   * `s.split(sep)` for a non-empty separator: scan left to right, cut at every
   * occurrence, resume after it (occurrences do not overlap).
   */
  function Split(s: string, sep: string): (parts: seq<string>)
    requires sep != ""
    ensures |parts| >= 1
    decreases |s|
  {
    if |s| < |sep| then [s]
    else if s[..|sep|] == sep then [""] + Split(s[|sep|..], sep)
    else
      var rest := Split(s[1..], sep);
      [[s[0]] + rest[0]] + rest[1..]
  }

  /** A block `a` in which no occurrence of `sep` starts is glued to the first part of what follows. */
  lemma {:induction false} SplitSkip(a: string, b: string, sep: string)
    requires sep != ""
    requires forall i :: 0 <= i < |a| ==> !OccursAt(a + b, sep, i)
    ensures Split(a + b, sep) == [a + Split(b, sep)[0]] + Split(b, sep)[1..]
    decreases |a|
  {
    var parts := Split(b, sep);
    if a == [] {
      assert a + b == b;
      assert a + parts[0] == parts[0];
      assert parts == [parts[0]] + parts[1..];
    } else {
      NoOccurrenceShifts(a, b, sep);
      SplitSkip(a[1..], b, sep);
      SplitNoOccurrenceAtHead(a + b, sep);
      assert (a + b)[1..] == a[1..] + b;
      assert [a[0]] + (a[1..] + parts[0]) == a + parts[0];
    }
  }

  /** Dropping the first character of `a` keeps occurrences of `sep` out of what is left of it. */
  lemma NoOccurrenceShifts(a: string, b: string, sep: string)
    requires a != []
    requires forall i :: 0 <= i < |a| ==> !OccursAt(a + b, sep, i)
    ensures forall i :: 0 <= i < |a[1..]| ==> !OccursAt(a[1..] + b, sep, i)
  {
    var s := a + b;
    forall i | 0 <= i < |a[1..]| ensures !OccursAt(a[1..] + b, sep, i) {
      assert !OccursAt(s, sep, i + 1);
      assert (a[1..] + b)[i..] == s[i + 1..];
    }
  }

  /** A string in which `sep` does not start at index 0 keeps its first character in its first part. */
  lemma SplitNoOccurrenceAtHead(s: string, sep: string)
    requires sep != "" && s != [] && !OccursAt(s, sep, 0)
    ensures Split(s, sep) == [[s[0]] + Split(s[1..], sep)[0]] + Split(s[1..], sep)[1..]
  {
    if |s| < |sep| {
      assert Split(s[1..], sep) == [s[1..]];
      assert [s[0]] + s[1..] == s;
    }
  }

  /** A string that starts with `sep` splits into an empty first part and the split of the rest. */
  lemma SplitAtSeparator(b: string, sep: string)
    requires sep != ""
    ensures Split(sep + b, sep) == [""] + Split(b, sep)
  {
    assert (sep + b)[..|sep|] == sep;
    assert (sep + b)[|sep|..] == b;
  }

  /** No occurrence of `sep` can start at a position that does not hold `sep[0]`. */
  lemma NoOccurrenceWithoutHead(a: string, b: string, sep: string)
    requires sep != ""
    requires forall i :: 0 <= i < |a| ==> a[i] != sep[0]
    ensures forall i :: 0 <= i < |a| ==> !OccursAt(a + b, sep, i)
  {
    forall i | 0 <= i < |a| ensures !OccursAt(a + b, sep, i) {
      assert (a + b)[i] == a[i];
      if i + |sep| <= |a + b| {
        assert (a + b)[i..i + |sep|][0] == (a + b)[i];
      }
    }
  }

  /** The first `';'`-separated part of `v + w`, where `v` has no `';'` and `w` is empty or starts a new part. */
  lemma SplitFirstPart(v: string, w: string, sep: char)
    requires forall i :: 0 <= i < |v| ==> v[i] != sep
    requires w == "" || w[0] == sep
    ensures Split(v + w, [sep])[0] == v
  {
    NoOccurrenceWithoutHead(v, w, [sep]);
    SplitSkip(v, w, [sep]);
    if w != "" {
      assert w == [sep] + w[1..];
      SplitAtSeparator(w[1..], [sep]);
    }
  }

  /** `parts.join(c)`. */
  function JoinWith(parts: seq<string>, c: char): (r: string)
    ensures parts == [] ==> r == ""
    decreases |parts|
  {
    if parts == [] then ""
    else if |parts| == 1 then parts[0]
    else parts[0] + [c] + JoinWith(parts[1..], c)
  }

  /** Splitting a join on its separator gives the parts back, when no part contains the separator. */
  lemma {:induction false} SplitJoin(parts: seq<string>, c: char)
    requires parts != []
    requires forall i :: 0 <= i < |parts| ==> NoChar(parts[i], c)
    ensures Split(JoinWith(parts, c), [c]) == parts
    decreases |parts|
  {
    if |parts| == 1 {
      SplitNoChar(parts[0], c);
    } else {
      SplitJoin(parts[1..], c);
      SplitPartThenSeparator(parts[0], JoinWith(parts[1..], c), c);
      assert JoinWith(parts, c) == parts[0] + ([c] + JoinWith(parts[1..], c));
      assert parts == [parts[0]] + parts[1..];
    }
  }

  /** A string without `c` splits on it into itself alone. */
  lemma SplitNoChar(p: string, c: char)
    requires NoChar(p, c)
    ensures Split(p, [c]) == [p]
  {
    SplitFirstPart(p, "", c);
    assert p + "" == p;
    SplitCharCount(p, c);
    NoCharCount(p, c);
  }

  /** A part without `c`, then `c`, then the rest: the part comes first, then the split of the rest. */
  lemma SplitPartThenSeparator(p: string, rest: string, c: char)
    requires NoChar(p, c)
    ensures Split(p + ([c] + rest), [c]) == [p] + Split(rest, [c])
  {
    NoOccurrenceWithoutHead(p, [c] + rest, [c]);
    SplitSkip(p, [c] + rest, [c]);
    SplitAtSeparator(rest, [c]);
    var sp := Split([c] + rest, [c]);
    assert sp[0] == "" && sp[1..] == Split(rest, [c]);
    assert p + sp[0] == p;
  }

  /** A string without `c` has no occurrence of it. */
  lemma {:induction false} NoCharCount(s: string, c: char)
    requires NoChar(s, c)
    ensures CountChar(s, c) == 0
    decreases |s|
  {
    if s != [] {
      assert NoChar(s[1..], c) by {
        forall i | 0 <= i < |s[1..]| ensures s[1..][i] != c {
          assert s[1..][i] == s[i + 1];
        }
      }
      NoCharCount(s[1..], c);
    }
  }

  /** The decimal digit for `d`. */
  function DigitChar(d: nat): char
    requires d < 10
  {
    ('0' as int + d) as char
  }

  /** `n.toString()` for a non-negative integer. */
  function NatToString(n: nat): (r: string)
    ensures |r| >= 1
    ensures forall i :: 0 <= i < |r| ==> '0' <= r[i] <= '9'
    ensures r[0] == '0' ==> n == 0
    decreases n
  {
    if n < 10 then [DigitChar(n)] else NatToString(n / 10) + [DigitChar(n % 10)]
  }

  /** `String(n)` for an integer. */
  function IntToString(n: int): (r: string)
    ensures |r| >= 1
  {
    if n < 0 then "-" + NatToString(-n) else NatToString(n)
  }

  /** The value of a string of decimal digits. */
  function DecimalValue(s: string): nat
    requires forall i :: 0 <= i < |s| ==> '0' <= s[i] <= '9'
    decreases |s|
  {
    if s == [] then 0 else DecimalValue(s[..|s| - 1]) * 10 + (s[|s| - 1] as int - '0' as int)
  }

  /** Reading back the decimal rendering gives the number. */
  lemma {:induction false} NatToStringRoundTrip(n: nat)
    ensures DecimalValue(NatToString(n)) == n
    decreases n
  {
    var r := NatToString(n);
    if n >= 10 {
      NatToStringRoundTrip(n / 10);
      assert r[..|r| - 1] == NatToString(n / 10);
      assert r[|r| - 1] as int - '0' as int == n % 10;
    }
  }

  /** The decimal rendering is injective. */
  lemma NatToStringInjective(a: nat, b: nat)
    requires NatToString(a) == NatToString(b)
    ensures a == b
  {
    NatToStringRoundTrip(a);
    NatToStringRoundTrip(b);
  }

  /** `String.prototype.toUpperCase` on the ASCII letters (other characters unchanged). */
  function UpperChar(c: char): char {
    if 'a' <= c <= 'z' then (c as int - 32) as char else c
  }

  function ToUpper(s: string): (r: string)
    ensures |r| == |s| && forall i :: 0 <= i < |s| ==> r[i] == UpperChar(s[i])
  {
    seq(|s|, i requires 0 <= i < |s| => UpperChar(s[i]))
  }

  /** `String.prototype.toLowerCase` on the ASCII letters (other characters unchanged). */
  function LowerChar(c: char): char {
    if 'A' <= c <= 'Z' then (c as int + 32) as char else c
  }

  function ToLower(s: string): (r: string)
    ensures |r| == |s| && forall i :: 0 <= i < |s| ==> r[i] == LowerChar(s[i])
  {
    seq(|s|, i requires 0 <= i < |s| => LowerChar(s[i]))
  }

  /** Number of occurrences of the character `c` in `s`. */
  function CountChar(s: string, c: char): nat
    decreases |s|
  {
    if s == [] then 0 else (if s[0] == c then 1 else 0) + CountChar(s[1..], c)
  }

  /** Splitting on a single character yields one part more than there are occurrences of it. */
  lemma {:induction false} SplitCharCount(s: string, c: char)
    ensures |Split(s, [c])| == CountChar(s, c) + 1
    decreases |s|
  {
    if s != [] {
      SplitCharCount(s[1..], c);
      if s[0] == c {
        assert s[..1] == [c];
      } else {
        assert s[..1] != [c];
      }
    }
  }
}
