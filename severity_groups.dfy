/**
 * The severity folders shared by `src/components/FindingsList.tsx` and
 * `src/components/JudgeReviewPanel.tsx`: a `reduce` that pushes each finding into the
 * array of its severity, the accumulator's keys sorted by a rank table, and the
 * expanded-folder set toggled one severity at a time. Findings and severities are
 * generic; the rank table is a parameter.
 */
module SeverityGroups {
  import opened Common
  import opened Sorting

  /** A folder as rendered: its severity, its findings, and whether it is open. */
  datatype Folder<S, T> = Folder(severity: S, findings: seq<T>, isExpanded: bool)

  function HasSeverity<T, S(==)>(severity: T -> S, s: S): T -> bool {
    (x: T) => severity(x) == s
  }

  /** The folder of `s`: the findings of that severity, in input order. */
  function GroupOf<T, S(==)>(items: seq<T>, severity: T -> S, s: S): (g: seq<T>)
    ensures forall x :: x in g ==> x in items && severity(x) == s
    ensures forall x :: x in items && severity(x) == s ==> x in g
  {
    Filter(items, HasSeverity(severity, s))
  }

  /** The accumulator's keys in insertion order: each severity where it first occurs. */
  function FirstOccurrences<T, S(==)>(items: seq<T>, severity: T -> S): seq<S>
    decreases |items|
  {
    if items == [] then []
    else
      var keys := FirstOccurrences(items[..|items| - 1], severity);
      var s := severity(items[|items| - 1]);
      if s in keys then keys else keys + [s]
  }

  /** The keys are exactly the severities that occur, each once. */
  lemma {:induction false} FirstOccurrencesSpec<T, S>(items: seq<T>, severity: T -> S)
    ensures Distinct(FirstOccurrences(items, severity))
    ensures forall s :: s in FirstOccurrences(items, severity) ==> exists x :: x in items && severity(x) == s
    ensures forall x :: x in items ==> severity(x) in FirstOccurrences(items, severity)
    decreases |items|
  {
    if items != [] {
      var init := items[..|items| - 1];
      var last := items[|items| - 1];
      FirstOccurrencesSpec(init, severity);
      assert items == init + [last];
      var keys := FirstOccurrences(init, severity);
      if severity(last) !in keys {
        DistinctAppend(keys, [severity(last)]);
      }
      forall s | s in FirstOccurrences(items, severity) ensures exists x :: x in items && severity(x) == s {
        if s != severity(last) {
          var x :| x in init && severity(x) == s;
          assert x in items;
        }
      }
      forall x | x in items ensures severity(x) in FirstOccurrences(items, severity) {
        if x != last {
          assert x in init;
        }
      }
    }
  }

  /** `reduce` over the findings: the keys in insertion order and the array under each key. */
  method Group<T, S(==)>(items: seq<T>, severity: T -> S) returns (keys: seq<S>, groups: map<S, seq<T>>)
    ensures keys == FirstOccurrences(items, severity)
    ensures forall s :: s in groups <==> s in keys
    ensures forall s :: s in groups ==> groups[s] == GroupOf(items, severity, s)
  {
    keys := [];
    groups := map[];
    var i := 0;
    while i < |items|
      invariant 0 <= i <= |items|
      invariant keys == FirstOccurrences(items[..i], severity)
      invariant forall s :: s in groups <==> s in keys
      invariant forall s :: s in groups ==> groups[s] == GroupOf(items[..i], severity, s)
    {
      var x := items[i];
      var s := severity(x);
      ghost var prev := items[..i];
      ghost var before, keysBefore := groups, keys;
      assert items[..i + 1] == prev + [x];
      if s !in groups {
        groups := groups[s := []];
        keys := keys + [s];
      }
      groups := groups[s := groups[s] + [x]];
      GroupStep(prev, x, severity, before, groups, keysBefore, keys);
      i := i + 1;
    }
    assert items[..i] == items;
  }

  /** One step of the `reduce`: the array under the new finding's severity, created if missing, gets the finding. */
  lemma GroupStep<T, S>(prev: seq<T>, x: T, severity: T -> S, before: map<S, seq<T>>, after: map<S, seq<T>>, keysBefore: seq<S>, keysAfter: seq<S>)
    requires keysBefore == FirstOccurrences(prev, severity)
    requires forall s :: s in before <==> s in keysBefore
    requires forall s :: s in before ==> before[s] == GroupOf(prev, severity, s)
    requires after == before[severity(x) := (if severity(x) in before then before[severity(x)] else []) + [x]]
    requires keysAfter == if severity(x) in before then keysBefore else keysBefore + [severity(x)]
    ensures keysAfter == FirstOccurrences(prev + [x], severity)
    ensures forall s :: s in after <==> s in keysAfter
    ensures forall s :: s in after ==> after[s] == GroupOf(prev + [x], severity, s)
  {
    var k := severity(x);
    FirstOccurrencesSnoc(prev, x, severity);
    if k !in before {
      FirstOccurrencesSpec(prev, severity);
      FilterNone(prev, HasSeverity(severity, k));
    }
    forall t | t in after ensures after[t] == GroupOf(prev + [x], severity, t) {
      FilterAppend(prev, [x], HasSeverity(severity, t));
    }
  }

  /** A finding of a new severity adds that severity at the end of the keys; otherwise they stay. */
  lemma FirstOccurrencesSnoc<T, S>(prev: seq<T>, x: T, severity: T -> S)
    ensures FirstOccurrences(prev + [x], severity) ==
      var keys := FirstOccurrences(prev, severity);
      if severity(x) in keys then keys else keys + [severity(x)]
  {
    assert (prev + [x])[..|prev|] == prev;
  }

  /** Total size of the folders listed in `keys`. */
  function SizeSum<T, S(==)>(items: seq<T>, severity: T -> S, keys: seq<S>): nat
    decreases |keys|
  {
    if keys == [] then 0
    else SizeSum(items, severity, keys[..|keys| - 1]) + |GroupOf(items, severity, keys[|keys| - 1])|
  }

  /** One more finding adds one to exactly the folder of its severity. */
  lemma {:induction false} SizeSumAppend<T, S>(items: seq<T>, x: T, severity: T -> S, keys: seq<S>)
    requires Distinct(keys)
    ensures SizeSum(items + [x], severity, keys) == SizeSum(items, severity, keys) + (if severity(x) in keys then 1 else 0)
    decreases |keys|
  {
    if keys != [] {
      var init := keys[..|keys| - 1];
      var k := keys[|keys| - 1];
      assert keys == init + [k];
      SizeSumAppend(items, x, severity, init);
      FilterAppend(items, [x], HasSeverity(severity, k));
      assert severity(x) in keys <==> severity(x) in init || severity(x) == k;
      assert k !in init by {
        forall j | 0 <= j < |init| ensures init[j] != k {
          assert init[j] == keys[j];
        }
      }
    }
  }

  /** The folders partition the findings: their sizes add up to the number of findings. */
  lemma {:induction false} GroupsPartition<T, S>(items: seq<T>, severity: T -> S)
    ensures SizeSum(items, severity, FirstOccurrences(items, severity)) == |items|
    ensures forall x :: x in items ==> severity(x) in FirstOccurrences(items, severity) && x in GroupOf(items, severity, severity(x))
    decreases |items|
  {
    FirstOccurrencesSpec(items, severity);
    if items != [] {
      var init := items[..|items| - 1];
      var last := items[|items| - 1];
      assert items == init + [last];
      GroupsPartition(init, severity);
      var keys := FirstOccurrences(init, severity);
      FirstOccurrencesSpec(init, severity);
      SizeSumAppend(init, last, severity, keys);
      if severity(last) !in keys {
        var k := severity(last);
        assert (keys + [k])[..|keys + [k]| - 1] == keys;
        FilterAppend(init, [last], HasSeverity(severity, k));
        FilterNone(init, HasSeverity(severity, k));
      }
    }
  }

  /** `sortedSeverities`: the keys sorted by ascending rank. */
  function SortedSeverities<T, S(==)>(items: seq<T>, severity: T -> S, rank: S -> int): (r: seq<S>)
    ensures SortedBy(r, rank)
    ensures multiset(r) == multiset(FirstOccurrences(items, severity))
  {
    SortByKey(FirstOccurrences(items, severity), rank)
  }

  /** The sorted folders are exactly the severities that occur, each once. */
  lemma SortedSeveritiesPresent<T, S>(items: seq<T>, severity: T -> S, rank: S -> int)
    ensures Distinct(SortedSeverities(items, severity, rank))
    ensures forall s :: s in SortedSeverities(items, severity, rank) ==> exists x :: x in items && severity(x) == s
    ensures forall x :: x in items ==> severity(x) in SortedSeverities(items, severity, rank)
  {
    var keys := FirstOccurrences(items, severity);
    var r := SortedSeverities(items, severity, rank);
    FirstOccurrencesSpec(items, severity);
    DistinctByMultiset(keys, r);
    forall s | s in r ensures exists x :: x in items && severity(x) == s {
      assert s in multiset(r);
      assert s in keys;
    }
    forall x | x in items ensures severity(x) in r {
      assert severity(x) in multiset(keys);
    }
  }

  /**
   * What the comparator `severityOrder[a] - severityOrder[b]` amounts to on severities
   * that are not keys of `severityOrder`: both lookups are `undefined`, the difference is
   * NaN, and `sort` reads NaN as 0, so every severity ranks alike.
   */
  function Unranked<S>(s: S): int {
    0
  }

  /** With a rank that is the same for every severity, the folders keep the order in which severities first occur. */
  lemma UnrankedKeepsFirstOccurrence<T, S>(items: seq<T>, severity: T -> S, rank: S -> int, c: int)
    requires forall s :: rank(s) == c
    ensures SortedSeverities(items, severity, rank) == FirstOccurrences(items, severity)
  {
    ConstantKeyKeepsOrder(FirstOccurrences(items, severity), rank, c);
  }

  /** A rank that tells the possible severities apart puts the folders in strictly ascending rank. */
  lemma DistinctRanksStrictOrder<T, S>(items: seq<T>, severity: T -> S, rank: S -> int, domain: set<S>)
    requires forall x :: x in items ==> severity(x) in domain
    requires forall s, t :: s in domain && t in domain && s != t ==> rank(s) != rank(t)
    ensures var order := SortedSeverities(items, severity, rank);
      && (forall i :: 0 <= i < |order| ==> order[i] in domain)
      && (forall i, j :: 0 <= i < j < |order| ==> rank(order[i]) < rank(order[j]))
  {
    var order := SortedSeverities(items, severity, rank);
    SortedSeveritiesPresent(items, severity, rank);
    forall i | 0 <= i < |order| ensures order[i] in domain {
      assert order[i] in order;
    }
    forall i, j | 0 <= i < j < |order| ensures rank(order[i]) < rank(order[j]) {
      assert order[i] != order[j];
      assert order[i] in domain && order[j] in domain;
    }
  }

  /** A list with the same multiset as a list without repetitions has none either. */
  lemma DistinctByMultiset<S>(a: seq<S>, b: seq<S>)
    requires Distinct(a) && multiset(a) == multiset(b)
    ensures Distinct(b)
  {
    forall i, j | 0 <= i < j < |b| ensures b[i] != b[j] {
      DistinctCountsOne(a, b[i]);
      RepeatCountsTwo(b, i, j);
    }
  }

  /** An element found at two positions occurs at least twice. */
  lemma RepeatCountsTwo<S>(b: seq<S>, i: nat, j: nat)
    requires i < j < |b|
    ensures b[i] == b[j] ==> multiset(b)[b[i]] >= 2
  {
    assert b == b[..j] + b[j..];
    assert multiset(b) == multiset(b[..j]) + multiset(b[j..]);
    assert b[i] in b[..j] && b[j] in b[j..];
  }

  /** An element of a list without repetitions occurs at most once. */
  lemma {:induction false} DistinctCountsOne<S>(a: seq<S>, e: S)
    requires Distinct(a)
    ensures multiset(a)[e] <= 1
    decreases |a|
  {
    if a != [] {
      assert a == [a[0]] + a[1..];
      assert Distinct(a[1..]) by {
        forall i, j | 0 <= i < j < |a[1..]| ensures a[1..][i] != a[1..][j] {
          assert a[1..][i] == a[i + 1] && a[1..][j] == a[j + 1];
        }
      }
      DistinctCountsOne(a[1..], e);
      if e == a[0] {
        assert e !in a[1..] by {
          forall k | 0 <= k < |a[1..]| ensures a[1..][k] != e {
            assert a[1..][k] == a[k + 1];
          }
        }
      }
    }
  }

  /** `toggleSeverity` on a copy of the expanded set: exactly `s` changes membership. */
  function Toggled<S(==)>(expanded: set<S>, s: S): (r: set<S>)
    ensures s in r <==> s !in expanded
    ensures forall t :: t in r && t != s ==> t in expanded
    ensures forall t :: t in expanded && t != s ==> t in r
  {
    if s in expanded then expanded - {s} else expanded + {s}
  }

  /** Toggling twice restores the set. */
  lemma ToggleTwice<S>(expanded: set<S>, s: S)
    ensures Toggled(Toggled(expanded, s), s) == expanded
  {
  }
}
