/**
 * Playoff alliance selection of the competition generator: from the final
 * ranking (ranking points, then wins, both descending), alliance n takes
 * the team ranked n as captain, the team ranked 25 - n as its second pick
 * and the team ranked 8 + n as its third pick, over the top 24 teams only.
 * An alliance is formed only when all three of its ranks exist.
 *
 * Teams are positions in the team list; the ranking is an input, because the
 * database's order among teams equal in both keys is unspecified.
 */
module Alliances {
  import opened Standings

  /** The dictionary `{'number', 'teams': [captain, pick 2, pick 3]}` (its float power is left out). */
  datatype Alliance = Alliance(number: nat, captain: nat, pick2: nat, pick3: nat)

  function Teams(a: Alliance): seq<nat> {
    [a.captain, a.pick2, a.pick3]
  }

  /** Team x is ranked no lower than team y: more ranking points, or as many and at least as many wins. */
  predicate RanksAhead(x: TeamRecord, y: TeamRecord) {
    x.rankingPoints > y.rankingPoints || (x.rankingPoints == y.rankingPoints && x.win >= y.win)
  }

  /** `order_by('-ranking_points', '-win')`: positions of the TeamInfo rows in ranking order. */
  predicate Ranked(records: seq<TeamRecord>, ranked: seq<nat>) {
    && (forall k :: 0 <= k < |ranked| ==> ranked[k] < |records|)
    && (forall a, b :: 0 <= a < b < |ranked| ==> RanksAhead(records[ranked[a]], records[ranked[b]]))
  }

  /** `rankings[:24]`. */
  function Top24(ranked: seq<nat>): (top: seq<nat>)
    ensures |top| <= 24 && |top| <= |ranked| && top == ranked[..|top|]
    ensures |top| == 24 || top == ranked
  {
    if |ranked| <= 24 then ranked else ranked[..24]
  }

  /** The index into the top 24 of alliance n's captain (role 0), second pick (role 1) and third pick (role 2). */
  function PickIndex(n: int, role: nat): int {
    if role == 0 then n - 1 else if role == 1 then 24 - n else 8 + n - 1
  }

  /** The alliance and role that index i of the top 24 goes to. */
  function SlotOfIndex(i: int): (int, nat) {
    if i < 8 then (i + 1, 0) else if i < 16 then (i - 7, 2) else (24 - i, 1)
  }

  /**
   * The 24 picks of the eight alliances cover ranks 1 to 24, each exactly
   * once: the pick indices are in range, distinct, and every index is one.
   */
  lemma PickIndicesPartition()
    ensures forall n, r :: 1 <= n <= 8 && r < 3 ==> 0 <= PickIndex(n, r) < 24
    ensures forall n, r, m, q :: 1 <= n <= 8 && r < 3 && 1 <= m <= 8 && q < 3 && PickIndex(n, r) == PickIndex(m, q) ==> n == m && r == q
    ensures forall i :: 0 <= i < 24 ==> 1 <= SlotOfIndex(i).0 <= 8 && SlotOfIndex(i).1 < 3 && PickIndex(SlotOfIndex(i).0, SlotOfIndex(i).1) == i
  {
  }

  /** All three picks of alliance n exist among `count` ranked teams. */
  predicate Formed(n: int, count: nat) {
    PickIndex(n, 0) < count && PickIndex(n, 1) < count && PickIndex(n, 2) < count
  }

  function AllianceAt(top: seq<nat>, n: nat): Alliance
    requires 1 <= n <= 8 && Formed(n, |top|)
  {
    Alliance(n, top[PickIndex(n, 0)], top[PickIndex(n, 1)], top[PickIndex(n, 2)])
  }

  /** The alliances numbered 1 to k that can be formed from the top teams, in number order. */
  function AllianceList(top: seq<nat>, k: nat): (r: seq<Alliance>)
    requires k <= 8
    ensures |r| <= k
  {
    if k == 0 then []
    else AllianceList(top, k - 1) + (if Formed(k, |top|) then [AllianceAt(top, k)] else [])
  }

  /**
   * The loop over alliance numbers 1 to 8: take captain, second and third pick
   * from the top 24 when all three exist, skip the number otherwise.
   */
  method FormAlliances(ranked: seq<nat>) returns (alliances: seq<Alliance>)
    ensures alliances == AllianceList(Top24(ranked), 8)
  {
    var top := Top24(ranked);
    alliances := [];
    var n := 1;
    while n <= 8
      invariant 1 <= n <= 9
      invariant alliances == AllianceList(top, n - 1)
    {
      var captainIdx, pick2Idx, pick3Idx := n - 1, 24 - n, 8 + n - 1;
      if captainIdx < |top| && pick2Idx < |top| && pick3Idx < |top| {
        alliances := alliances + [Alliance(n, top[captainIdx], top[pick2Idx], top[pick3Idx])];
      }
      n := n + 1;
    }
  }

  /** Every listed alliance is formed, is built from its own picks, and the numbers strictly increase. */
  lemma {:induction false} AllianceListShape(top: seq<nat>, k: nat)
    requires k <= 8
    ensures forall i :: 0 <= i < |AllianceList(top, k)| ==>
              var a := AllianceList(top, k)[i];
              1 <= a.number <= k && Formed(a.number, |top|) && a == AllianceAt(top, a.number)
    ensures forall i, j :: 0 <= i < j < |AllianceList(top, k)| ==> AllianceList(top, k)[i].number < AllianceList(top, k)[j].number
    ensures |AllianceList(top, k)| == k <==> forall n :: 1 <= n <= k ==> Formed(n, |top|)
  {
    if k > 0 {
      AllianceListShape(top, k - 1);
      var prev := AllianceList(top, k - 1);
      if !Formed(k, |top|) {
        assert AllianceList(top, k) == prev;
      }
    }
  }

  /**
   * Eight alliances are formed exactly when at least 24 teams are ranked;
   * with 16 or fewer none is.
   */
  lemma AllianceCount(ranked: seq<nat>)
    ensures |AllianceList(Top24(ranked), 8)| == 8 <==> |ranked| >= 24
    ensures |ranked| <= 16 ==> AllianceList(Top24(ranked), 8) == []
  {
    var top := Top24(ranked);
    AllianceListShape(top, 8);
    if |ranked| < 24 {
      assert !Formed(1, |top|);
    } else {
      assert forall n :: 1 <= n <= 8 ==> Formed(n, |top|);
    }
    if |ranked| <= 16 {
      NoneFormed(top, 8);
    }
  }

  lemma {:induction false} NoneFormed(top: seq<nat>, k: nat)
    requires k <= 8 && forall n :: 1 <= n <= k ==> !Formed(n, |top|)
    ensures AllianceList(top, k) == []
  {
    if k > 0 {
      NoneFormed(top, k - 1);
    }
  }

  /** With 24 or more ranked teams, alliance k + 1 is ranks k + 1, 24 - k and 9 + k. */
  lemma FullField(ranked: seq<nat>)
    requires |ranked| >= 24
    ensures |AllianceList(Top24(ranked), 8)| == 8
    ensures forall k :: 0 <= k < 8 ==> AllianceList(Top24(ranked), 8)[k] == Alliance(k + 1, ranked[k], ranked[23 - k], ranked[8 + k])
  {
    var top := Top24(ranked);
    var al := AllianceList(top, 8);
    AllianceCount(ranked);
    AllianceListShape(top, 8);
    forall k | 0 <= k < 8 ensures al[k].number == k + 1 {
      NumberAtIndex(al, k);
    }
  }

  /** Eight strictly increasing numbers between 1 and 8 are 1 to 8. */
  lemma NumberAtIndex(al: seq<Alliance>, k: nat)
    requires |al| == 8 && k < 8
    requires forall i :: 0 <= i < 8 ==> 1 <= al[i].number <= 8
    requires forall i, j :: 0 <= i < j < 8 ==> al[i].number < al[j].number
    ensures al[k].number == k + 1
  {
    forall i | 0 <= i < 8 ensures i + 1 <= al[i].number {
      LowerBound(al, i);
    }
    forall i | 0 <= i < 8 ensures al[i].number <= i + 1 {
      UpperBound(al, i);
    }
  }

  lemma {:induction false} LowerBound(al: seq<Alliance>, i: nat)
    requires |al| == 8 && i < 8
    requires forall a :: 0 <= a < 8 ==> 1 <= al[a].number
    requires forall a, b :: 0 <= a < b < 8 ==> al[a].number < al[b].number
    ensures i + 1 <= al[i].number
  {
    if i > 0 {
      LowerBound(al, i - 1);
    }
  }

  lemma {:induction false} UpperBound(al: seq<Alliance>, i: nat)
    requires |al| == 8 && i < 8
    requires forall a :: 0 <= a < 8 ==> al[a].number <= 8
    requires forall a, b :: 0 <= a < b < 8 ==> al[a].number < al[b].number
    ensures al[i].number <= i + 1
    decreases 8 - i
  {
    if i < 7 {
      UpperBound(al, i + 1);
    }
  }

  /**
   * When the ranking lists each team once, no team is picked twice: the
   * three members of an alliance differ and two alliances share no team.
   */
  lemma NoTeamPickedTwice(ranked: seq<nat>)
    requires forall a, b :: 0 <= a < b < |ranked| ==> ranked[a] != ranked[b]
    ensures var al := AllianceList(Top24(ranked), 8);
            forall i, r: nat, j, q: nat :: 0 <= i < |al| && r < 3 && 0 <= j < |al| && q < 3 && (i != j || r != q) ==> Teams(al[i])[r] != Teams(al[j])[q]
  {
    var top := Top24(ranked);
    var al := AllianceList(top, 8);
    AllianceListShape(top, 8);
    PickIndicesPartition();
    forall i, r: nat, j, q: nat | 0 <= i < |al| && r < 3 && 0 <= j < |al| && q < 3 && (i != j || r != q)
      ensures Teams(al[i])[r] != Teams(al[j])[q]
    {
      var n, m := al[i].number, al[j].number;
      assert i != j ==> n != m by {
        if i < j { assert n < m; } else if j < i { assert m < n; }
      }
      assert Teams(al[i])[r] == top[PickIndex(n, r)];
      assert Teams(al[j])[q] == top[PickIndex(m, q)];
      assert top[PickIndex(n, r)] == ranked[PickIndex(n, r)] && top[PickIndex(m, q)] == ranked[PickIndex(m, q)];
    }
  }

  /**
   * On a ranking ordered by ranking points then wins, each captain ranks
   * ahead of its third pick and the third pick ahead of the second pick.
   */
  lemma CaptainRanksAhead(records: seq<TeamRecord>, ranked: seq<nat>)
    requires Ranked(records, ranked)
    ensures forall a :: a in AllianceList(Top24(ranked), 8) ==>
              && a.captain < |records| && a.pick2 < |records| && a.pick3 < |records|
              && RanksAhead(records[a.captain], records[a.pick3])
              && RanksAhead(records[a.pick3], records[a.pick2])
  {
    var top := Top24(ranked);
    var al := AllianceList(top, 8);
    AllianceListShape(top, 8);
    forall a | a in al
      ensures && a.captain < |records| && a.pick2 < |records| && a.pick3 < |records|
              && RanksAhead(records[a.captain], records[a.pick3])
              && RanksAhead(records[a.pick3], records[a.pick2])
    {
      var i :| 0 <= i < |al| && al[i] == a;
      FormedAllianceOrder(records, ranked, a.number);
    }
  }

  /** Alliance n's captain is ranked n, its third pick 8 + n and its second pick 25 - n, in that order. */
  lemma FormedAllianceOrder(records: seq<TeamRecord>, ranked: seq<nat>, n: nat)
    requires Ranked(records, ranked) && 1 <= n <= 8 && Formed(n, |Top24(ranked)|)
    ensures var a := AllianceAt(Top24(ranked), n);
            && a.captain < |records| && a.pick2 < |records| && a.pick3 < |records|
            && RanksAhead(records[a.captain], records[a.pick3])
            && RanksAhead(records[a.pick3], records[a.pick2])
  {
    var top := Top24(ranked);
    assert top[n - 1] == ranked[n - 1] && top[8 + n - 1] == ranked[8 + n - 1] && top[24 - n] == ranked[24 - n];
  }
}
