/**
 * `src/pages/Leaderboard.tsx`: the auditors sorted on a copy by the chosen field, and the
 * table rows with a badge for the position (not the stored rank) and the total number
 * of findings. Numbers are integers here.
 */
module Leaderboard {
  import opened JsStrings
  import opened Sorting

  datatype Auditor = Auditor(
    id: string,
    username: string,
    rank: int,
    highFindings: int,
    mediumFindings: int,
    lowFindings: int,
    totalEarnings: string,
    contestsParticipated: int,
    winRate: int)

  /** `SortField`. */
  datatype SortField = ByRank | ByHighFindings | ByTotalEarnings | ByWinRate

  /**
   * The comparator as an ascending key: rank ascending, the other fields descending.
   * `earnings` stands for `parseFloat` of the earnings text without `$` and `,`.
   */
  function SortKey(field: SortField, earnings: string -> int): Auditor -> int {
    match field
    case ByHighFindings => (a: Auditor) => -a.highFindings
    case ByTotalEarnings => (a: Auditor) => -earnings(a.totalEarnings)
    case ByWinRate => (a: Auditor) => -a.winRate
    case ByRank => (a: Auditor) => a.rank
  }

  /** `sortedAuditors`: a sorted copy holding the same auditors. */
  function SortedAuditors(auditors: seq<Auditor>, field: SortField, earnings: string -> int): (r: seq<Auditor>)
    ensures multiset(r) == multiset(auditors)
    ensures field.ByRank? ==> forall i, j :: 0 <= i < j < |r| ==> r[i].rank <= r[j].rank
    ensures field.ByHighFindings? ==> forall i, j :: 0 <= i < j < |r| ==> r[i].highFindings >= r[j].highFindings
    ensures field.ByWinRate? ==> forall i, j :: 0 <= i < j < |r| ==> r[i].winRate >= r[j].winRate
    ensures field.ByTotalEarnings? ==> forall i, j :: 0 <= i < j < |r| ==> earnings(r[i].totalEarnings) >= earnings(r[j].totalEarnings)
  {
    var key := SortKey(field, earnings);
    var r := SortByKey(auditors, key);
    assert forall i, j :: 0 <= i < j < |r| ==> key(r[i]) <= key(r[j]);
    r
  }

  /** The badge of `getRankBadge`. */
  datatype Badge = Trophy | SilverMedal | BronzeMedal | RankText(text: string)

  function RankBadge(rank: int): (b: Badge)
    ensures b.Trophy? <==> rank == 1
    ensures b.SilverMedal? <==> rank == 2
    ensures b.BronzeMedal? <==> rank == 3
    ensures b.RankText? ==> b.text == "#" + IntToString(rank)
  {
    if rank == 1 then Trophy
    else if rank == 2 then SilverMedal
    else if rank == 3 then BronzeMedal
    else RankText("#" + IntToString(rank))
  }

  /** A table row: the badge of its position, the auditor, and the findings total. */
  datatype Row = Row(badge: Badge, auditor: Auditor, totalFindings: int)

  function Rows(sorted: seq<Auditor>): (rows: seq<Row>)
    ensures |rows| == |sorted|
    ensures forall i :: 0 <= i < |rows| ==> rows[i].auditor == sorted[i] && rows[i].badge == RankBadge(i + 1)
    ensures forall i :: 0 <= i < |rows| ==>
      rows[i].totalFindings == sorted[i].highFindings + sorted[i].mediumFindings + sorted[i].lowFindings
  {
    seq(|sorted|, i requires 0 <= i < |sorted| =>
      Row(RankBadge(i + 1), sorted[i], sorted[i].highFindings + sorted[i].mediumFindings + sorted[i].lowFindings))
  }

  /** The table shown for a sort field. */
  function Table(auditors: seq<Auditor>, field: SortField, earnings: string -> int): seq<Row> {
    Rows(SortedAuditors(auditors, field, earnings))
  }

  /**
   * The badge follows the position: the first row alone has the trophy, whatever its
   * stored rank, and a row from the fourth on reads `#` and its position counted from one.
   */
  lemma BadgesFollowPosition(auditors: seq<Auditor>, field: SortField, earnings: string -> int)
    ensures var t := Table(auditors, field, earnings);
      && |t| == |auditors|
      && (forall i :: 0 <= i < |t| ==> (t[i].badge.Trophy? <==> i == 0))
      && (forall i :: 3 <= i < |t| ==> t[i].badge.RankText? && DecimalValue(t[i].badge.text[1..]) == i + 1)
  {
    var t := Table(auditors, field, earnings);
    forall i | 3 <= i < |t| ensures t[i].badge.RankText? && DecimalValue(t[i].badge.text[1..]) == i + 1 {
      assert t[i].badge.text[1..] == NatToString(i + 1);
      NatToStringRoundTrip(i + 1);
    }
  }

  /** The table lists every auditor exactly as often as the input does, in any sort order. */
  lemma TableIsPermutation(auditors: seq<Auditor>, field: SortField, earnings: string -> int)
    ensures var t := Table(auditors, field, earnings);
      multiset(seq(|t|, i requires 0 <= i < |t| => t[i].auditor)) == multiset(auditors)
  {
    var sorted := SortedAuditors(auditors, field, earnings);
    var t := Table(auditors, field, earnings);
    assert seq(|t|, i requires 0 <= i < |t| => t[i].auditor) == sorted;
  }
}
