/**
 The scorer: match-event rows are grouped by (athlete, target, foot,
 technique); each group's success rate, as a percentage rounded to one
 decimal, is stored under the athlete and the group's axis label.

 Percentages are kept as integer tenths (66.7 is 667). The group-by is a
 map from group key to a tally of successes and attempts; the order in
 which the groups are visited is a parameter.
 */
module Scoring {
  import opened Taxonomy

  /** One match-event row; style, signature and career are carried along, never aggregated. */
  datatype Event = Event(
    athlete: string, target: string, foot: string, technique: string,
    success: int, style: string, signature: string, career: string)

  /** The columns the rows are grouped by. */
  datatype GroupKey = GroupKey(athlete: string, target: string, foot: string, technique: string)

  /** The sum of the success flags of a group and its number of rows. */
  datatype Tally = Tally(successes: int, attempts: nat)

  /** athlete -> axis label -> percentage in tenths. */
  type ScoreDict = map<string, map<string, int>>

  function KeyOf(e: Event): GroupKey
  {
    GroupKey(e.athlete, e.target, e.foot, e.technique)
  }

  /** The axis label a group is stored under. */
  function AxisOf(k: GroupKey): string
  {
    Label(k.target, k.foot, k.technique)
  }

  /** The success flags are all 0 or 1. */
  predicate BinaryFlags(rows: seq<Event>)
  {
    forall i | 0 <= i < |rows| :: rows[i].success == 0 || rows[i].success == 1
  }

  // ---------------------------------------------------------------------
  // The group-by

  /** The rows accumulated one by one into a tally per group key. */
  function Group(rows: seq<Event>): (g: map<GroupKey, Tally>)
    ensures forall k | k in g :: g[k].attempts >= 1
  {
    if rows == [] then map[]
    else
      var g := Group(rows[..|rows| - 1]);
      var e := rows[|rows| - 1];
      var t := if KeyOf(e) in g then g[KeyOf(e)] else Tally(0, 0);
      g[KeyOf(e) := Tally(t.successes + e.success, t.attempts + 1)]
  }

  /** The groups are exactly the distinct keys of the rows. */
  lemma {:induction false} GroupKeys(rows: seq<Event>)
    ensures Group(rows).Keys == set e | e in rows :: KeyOf(e)
  {
    if rows != [] {
      var init, e := rows[..|rows| - 1], rows[|rows| - 1];
      GroupKeys(init);
      assert rows == init + [e];
    }
  }

  /** The rows of one group, in input order: the reference the tallies are checked against. */
  function Matching(rows: seq<Event>, k: GroupKey): seq<Event>
  {
    if rows == [] then []
    else
      var e := rows[|rows| - 1];
      Matching(rows[..|rows| - 1], k) + (if KeyOf(e) == k then [e] else [])
  }

  /** The rows of a group are exactly the rows with its key. */
  lemma {:induction false} MatchingMembers(rows: seq<Event>, k: GroupKey)
    ensures forall e | e in Matching(rows, k) :: e in rows && KeyOf(e) == k
    ensures forall i | 0 <= i < |rows| && KeyOf(rows[i]) == k :: rows[i] in Matching(rows, k)
  {
    if rows != [] {
      var init, e := rows[..|rows| - 1], rows[|rows| - 1];
      MatchingMembers(init, k);
      assert rows == init + [e];
    }
  }

  /** The sum of the success flags of some rows. */
  function FlagSum(rows: seq<Event>): int
  {
    if rows == [] then 0 else FlagSum(rows[..|rows| - 1]) + rows[|rows| - 1].success
  }

  /**
   A group exists exactly when some row has its key, and its tally counts
   that group's rows and sums their success flags.
   */
  lemma {:induction false} GroupIsTally(rows: seq<Event>, k: GroupKey)
    ensures k in Group(rows) <==> Matching(rows, k) != []
    ensures k in Group(rows) ==> Group(rows)[k] == Tally(FlagSum(Matching(rows, k)), |Matching(rows, k)|)
  {
    if rows != [] {
      var init, e := rows[..|rows| - 1], rows[|rows| - 1];
      GroupIsTally(init, k);
      if KeyOf(e) == k {
        MatchingGrows(init, e, k);
      } else {
        MatchingSkips(init, e, k);
      }
    }
  }

  lemma MatchingGrows(init: seq<Event>, e: Event, k: GroupKey)
    requires KeyOf(e) == k
    requires k in Group(init) <==> Matching(init, k) != []
    requires k in Group(init) ==> Group(init)[k] == Tally(FlagSum(Matching(init, k)), |Matching(init, k)|)
    ensures k in Group(init + [e]) && Matching(init + [e], k) != []
    ensures Group(init + [e])[k] == Tally(FlagSum(Matching(init + [e], k)), |Matching(init + [e], k)|)
  {
  }

  lemma MatchingSkips(init: seq<Event>, e: Event, k: GroupKey)
    requires KeyOf(e) != k
    requires k in Group(init) <==> Matching(init, k) != []
    requires k in Group(init) ==> Group(init)[k] == Tally(FlagSum(Matching(init, k)), |Matching(init, k)|)
    ensures k in Group(init + [e]) <==> Matching(init + [e], k) != []
    ensures k in Group(init + [e]) ==> Group(init + [e])[k] == Tally(FlagSum(Matching(init + [e], k)), |Matching(init + [e], k)|)
  {
    var rows := init + [e];
    assert rows[..|rows| - 1] == init && rows[|rows| - 1] == e;
    assert Matching(rows, k) == Matching(init, k) + [] == Matching(init, k);
    var g := Group(init);
    var t := if KeyOf(e) in g then g[KeyOf(e)] else Tally(0, 0);
    assert Group(rows) == g[KeyOf(e) := Tally(t.successes + e.success, t.attempts + 1)];
  }

  /** With binary flags, a group has between none and all of its attempts successful. */
  lemma {:induction false} FlagSumBounds(rows: seq<Event>)
    requires BinaryFlags(rows)
    ensures 0 <= FlagSum(rows) <= |rows|
  {
    if rows != [] {
      FlagSumBounds(rows[..|rows| - 1]);
    }
  }

  /** A group whose rows all succeed sums to its size; one whose rows all fail sums to 0. */
  lemma {:induction false} FlagSumUniform(rows: seq<Event>, flag: int)
    requires flag == 0 || flag == 1
    requires forall i | 0 <= i < |rows| :: rows[i].success == flag
    ensures FlagSum(rows) == if flag == 1 then |rows| else 0
  {
    if rows != [] {
      FlagSumUniform(rows[..|rows| - 1], flag);
    }
  }

  // ---------------------------------------------------------------------
  // Rounding

  /**
   100 × successes ÷ attempts rounded to the nearest tenth, in tenths:
   the result is within half a tenth of the exact percentage, ties upward.
   */
  function Tenths(t: Tally): (r: int)
    requires t.attempts > 0
    ensures -(t.attempts as int) < 2 * t.attempts * r - 2000 * t.successes <= t.attempts
  {
    var n := t.attempts;
    var q := (2000 * t.successes + n) / (2 * n);
    assert 2 * n * q <= 2000 * t.successes + n < 2 * n * q + 2 * n;
    q
  }

  /** The rounding bound determines the stored tenths uniquely. */
  lemma TenthsUnique(t: Tally, r: int)
    requires t.attempts > 0
    requires -(t.attempts as int) < 2 * t.attempts * r - 2000 * t.successes <= t.attempts
    ensures r == Tenths(t)
  {
    var n, q := t.attempts as int, Tenths(t);
    if r < q {
      ScaledGap(2 * n, q, r);
    } else if q < r {
      ScaledGap(2 * n, r, q);
    }
  }

  /** Multiplying by a positive m keeps integers at least m apart. */
  lemma {:induction false} ScaledGap(m: int, hi: int, lo: int)
    requires m > 0 && lo < hi
    ensures m * hi >= m * lo + m
    decreases hi - lo
  {
    if hi - lo > 1 {
      ScaledGap(m, hi - 1, lo);
      assert m * hi == m * (hi - 1) + m;
    } else {
      assert m * hi == m * lo + m;
    }
  }

  /** With 0 <= successes <= attempts, the score lies in [0.0, 100.0]. */
  lemma TenthsRange(t: Tally)
    requires t.attempts > 0 && 0 <= t.successes <= t.attempts
    ensures 0 <= Tenths(t) <= 1000
  {
    var n, r := t.attempts as int, Tenths(t);
    if r < 0 {
      ScaledGap(2 * n, 0, r);
    } else if r > 1000 {
      ScaledGap(2 * n, r, 1000);
    }
  }

  /** All attempts successful scores exactly 100.0; none successful scores exactly 0.0. */
  lemma TenthsExtremes(t: Tally)
    requires t.attempts > 0
    ensures t.successes == t.attempts ==> Tenths(t) == 1000
    ensures t.successes == 0 ==> Tenths(t) == 0
  {
    var n := t.attempts as int;
    if t.successes == n {
      assert 2 * n * 1000 - 2000 * t.successes == 0;
      TenthsUnique(t, 1000);
    }
    if t.successes == 0 {
      TenthsUnique(t, 0);
    }
  }

  /** When the percentage is a whole number of tenths, no rounding happens. */
  lemma TenthsExact(t: Tally)
    requires t.attempts > 0 && (1000 * t.successes) % t.attempts == 0
    ensures t.attempts * Tenths(t) == 1000 * t.successes
  {
    var n := t.attempts as int;
    var q := (1000 * t.successes) / n;
    assert n * q == 1000 * t.successes;
    assert 2 * n * q - 2000 * t.successes == 0;
    TenthsUnique(t, q);
  }

  /** Two successes in three attempts score 66.7. */
  lemma TenthsTwoOfThree()
    ensures Tenths(Tally(2, 3)) == 667
  {
  }

  // ---------------------------------------------------------------------
  // The score dictionary

  /** Every visited group exists and is non-empty. */
  predicate Visitable(groups: map<GroupKey, Tally>, order: seq<GroupKey>)
  {
    forall i | 0 <= i < |order| :: order[i] in groups && groups[order[i]].attempts > 0
  }

  /**
   The score dictionary after visiting the groups in `order`: each visit makes
   sure the athlete has an entry and stores the group's tenths under its axis.
   */
  function ScoreMap(groups: map<GroupKey, Tally>, order: seq<GroupKey>): ScoreDict
    requires Visitable(groups, order)
  {
    if order == [] then map[]
    else
      var scores := ScoreMap(groups, order[..|order| - 1]);
      var k := order[|order| - 1];
      var inner := if k.athlete in scores then scores[k.athlete] else map[];
      scores[k.athlete := inner[AxisOf(k) := Tenths(groups[k])]]
  }

  /** The athletes of the score dictionary are exactly those of the visited groups. */
  lemma {:induction false} ScoreMapAthletes(groups: map<GroupKey, Tally>, order: seq<GroupKey>)
    requires Visitable(groups, order)
    ensures ScoreMap(groups, order).Keys == set k | k in order :: k.athlete
  {
    if order != [] {
      var init := order[..|order| - 1];
      ScoreMapAthletes(groups, init);
      assert order == init + [order[|order| - 1]];
    }
  }

  /** An athlete's axes are exactly the axes of that athlete's visited groups; no other axis is stored. */
  lemma {:induction false} ScoreMapAxes(groups: map<GroupKey, Tally>, order: seq<GroupKey>, a: string)
    requires Visitable(groups, order)
    requires a in ScoreMap(groups, order)
    ensures ScoreMap(groups, order)[a].Keys == set k | k in order && k.athlete == a :: AxisOf(k)
  {
    var init, last := order[..|order| - 1], order[|order| - 1];
    assert order == init + [last];
    ScoreMapAthletes(groups, init);
    if a in ScoreMap(groups, init) {
      ScoreMapAxes(groups, init, a);
    } else {
      assert forall k | k in init :: k.athlete != a;
    }
  }

  /**
   A stored score comes from the last visited group with that athlete and
   axis: a later group with the same label overwrites an earlier one.
   */
  lemma {:induction false} ScoreMapLastWins(groups: map<GroupKey, Tally>, order: seq<GroupKey>, j: int)
    requires Visitable(groups, order)
    requires 0 <= j < |order|
    requires forall j' | j < j' < |order| :: order[j'].athlete != order[j].athlete || AxisOf(order[j']) != AxisOf(order[j])
    ensures order[j].athlete in ScoreMap(groups, order)
    ensures AxisOf(order[j]) in ScoreMap(groups, order)[order[j].athlete]
    ensures ScoreMap(groups, order)[order[j].athlete][AxisOf(order[j])] == Tenths(groups[order[j]])
  {
    var init := order[..|order| - 1];
    if j < |order| - 1 {
      ScoreMapLastWins(groups, init, j);
    }
  }

  /** Every stored score is the tenths of some visited group with that athlete and axis. */
  lemma {:induction false} ScoreMapFrom(groups: map<GroupKey, Tally>, order: seq<GroupKey>, a: string, l: string)
    requires Visitable(groups, order)
    requires a in ScoreMap(groups, order) && l in ScoreMap(groups, order)[a]
    ensures exists j :: 0 <= j < |order| && order[j].athlete == a && AxisOf(order[j]) == l
                        && ScoreMap(groups, order)[a][l] == Tenths(groups[order[j]])
  {
    var init, last := order[..|order| - 1], order[|order| - 1];
    if last.athlete == a && AxisOf(last) == l {
      assert order[|order| - 1] == last;
    } else {
      ScoreMapFrom(groups, init, a, l);
      var j :| 0 <= j < |init| && init[j].athlete == a && AxisOf(init[j]) == l
               && ScoreMap(groups, init)[a][l] == Tenths(groups[init[j]]);
      assert order[j] == init[j];
    }
  }

  // ---------------------------------------------------------------------
  // The scorer

  /** `order` visits every group of `groups` exactly once. */
  predicate Enumerates(order: seq<GroupKey>, groups: map<GroupKey, Tally>)
  {
    && (forall k | k in groups :: k in order)
    && (forall i | 0 <= i < |order| :: order[i] in groups)
    && (forall i, j | 0 <= i < j < |order| :: order[i] != order[j])
  }

  /** The athletes appearing in the rows. */
  function Athletes(rows: seq<Event>): set<string>
  {
    set e | e in rows :: e.athlete
  }

  /** The axis labels athlete `a` attempted. */
  function AttemptedAxes(rows: seq<Event>, a: string): set<string>
  {
    set e | e in rows && e.athlete == a :: AxisOf(KeyOf(e))
  }

  /**
   Fill the score dictionary group by group: make sure the athlete has an
   entry, then store the group's rounded percentage under its axis label.
   */
  method ScoreFromMatchData(rows: seq<Event>, order: seq<GroupKey>) returns (scores: ScoreDict)
    requires Enumerates(order, Group(rows))
    ensures scores == ScoreMap(Group(rows), order)
    ensures scores.Keys == Athletes(rows)
    ensures forall a | a in scores :: scores[a].Keys == AttemptedAxes(rows, a)
  {
    var groups := Group(rows);
    scores := map[];
    for n := 0 to |order|
      invariant scores == ScoreMap(groups, order[..n])
    {
      var key := order[n];
      var axis := AxisOf(key);
      if key.athlete !in scores {
        scores := scores[key.athlete := map[]];
      }
      scores := scores[key.athlete := scores[key.athlete][axis := Tenths(groups[key])]];
      assert order[..n + 1][..n] == order[..n];
    }
    assert order[..|order|] == order;
    ScoreMapOfRows(rows, order);
  }

  /** The score dictionary of some rows has their athletes, each with the axes they attempted. */
  lemma ScoreMapOfRows(rows: seq<Event>, order: seq<GroupKey>)
    requires Enumerates(order, Group(rows))
    ensures ScoreMap(Group(rows), order).Keys == Athletes(rows)
    ensures forall a | a in ScoreMap(Group(rows), order) :: ScoreMap(Group(rows), order)[a].Keys == AttemptedAxes(rows, a)
  {
    var scores := ScoreMap(Group(rows), order);
    ScoreMapAthletes(Group(rows), order);
    OrderAthletesAreAthletes(rows, order);
    forall a | a in scores
      ensures scores[a].Keys == AttemptedAxes(rows, a)
    {
      ScoreMapAxes(Group(rows), order, a);
      OrderAxesAreAttempted(rows, order, a);
    }
  }

  lemma OrderAthletesAreAthletes(rows: seq<Event>, order: seq<GroupKey>)
    requires Enumerates(order, Group(rows))
    ensures (set k | k in order :: k.athlete) == Athletes(rows)
  {
    GroupKeys(rows);
    forall a | a in Athletes(rows)
      ensures a in set k | k in order :: k.athlete
    {
      var e :| e in rows && e.athlete == a;
      assert KeyOf(e) in Group(rows);
    }
  }

  lemma OrderAxesAreAttempted(rows: seq<Event>, order: seq<GroupKey>, a: string)
    requires Enumerates(order, Group(rows))
    ensures (set k | k in order && k.athlete == a :: AxisOf(k)) == AttemptedAxes(rows, a)
  {
    GroupKeys(rows);
    forall l | l in AttemptedAxes(rows, a)
      ensures l in set k | k in order && k.athlete == a :: AxisOf(k)
    {
      var e :| e in rows && e.athlete == a && l == AxisOf(KeyOf(e));
      assert KeyOf(e) in Group(rows);
    }
    forall l | l in set k | k in order && k.athlete == a :: AxisOf(k)
      ensures l in AttemptedAxes(rows, a)
    {
      var k :| k in order && k.athlete == a && l == AxisOf(k);
      var e :| e in rows && KeyOf(e) == k;
    }
  }

  // ---------------------------------------------------------------------
  // What the scores mean

  /** With binary success flags every stored score lies in [0.0, 100.0]. */
  lemma ScoresInRange(rows: seq<Event>, order: seq<GroupKey>, a: string, l: string)
    requires Enumerates(order, Group(rows)) && BinaryFlags(rows)
    requires a in ScoreMap(Group(rows), order) && l in ScoreMap(Group(rows), order)[a]
    ensures 0 <= ScoreMap(Group(rows), order)[a][l] <= 1000
  {
    ScoreMapFrom(Group(rows), order, a, l);
    var j :| 0 <= j < |order| && order[j].athlete == a && AxisOf(order[j]) == l
             && ScoreMap(Group(rows), order)[a][l] == Tenths(Group(rows)[order[j]]);
    var m := Matching(rows, order[j]);
    GroupIsTally(rows, order[j]);
    MatchingMembers(rows, order[j]);
    assert BinaryFlags(m) by {
      forall i | 0 <= i < |m| ensures m[i].success == 0 || m[i].success == 1 {
        assert m[i] in m;
      }
    }
    FlagSumBounds(m);
    TenthsRange(Group(rows)[order[j]]);
  }

  /** No other group of athlete `a` shares the axis label of group `k`. */
  predicate UniqueAxis(rows: seq<Event>, k: GroupKey)
  {
    forall i | 0 <= i < |rows| && rows[i].athlete == k.athlete && AxisOf(KeyOf(rows[i])) == AxisOf(k) :: KeyOf(rows[i]) == k
  }

  /**
   The score stored for an attempted axis is the group's rounded percentage:
   within half a tenth of 100 × successes ÷ attempts of that group's rows,
   provided no other group of the athlete maps to the same label.
   */
  lemma ScoreOfGroup(rows: seq<Event>, order: seq<GroupKey>, k: GroupKey)
    requires Enumerates(order, Group(rows))
    requires Matching(rows, k) != [] && UniqueAxis(rows, k)
    ensures k.athlete in ScoreMap(Group(rows), order) && AxisOf(k) in ScoreMap(Group(rows), order)[k.athlete]
    ensures ScoreMap(Group(rows), order)[k.athlete][AxisOf(k)] == Tenths(Tally(FlagSum(Matching(rows, k)), |Matching(rows, k)|))
  {
    GroupIsTally(rows, k);
    GroupKeys(rows);
    var groups := Group(rows);
    var j :| 0 <= j < |order| && order[j] == k;
    forall j' | j < j' < |order|
      ensures order[j'].athlete != k.athlete || AxisOf(order[j']) != AxisOf(k)
    {
      var e :| e in rows && KeyOf(e) == order[j'];
      var i :| 0 <= i < |rows| && rows[i] == e;
      assert order[j'] != k;
    }
    ScoreMapLastWins(groups, order, j);
  }

  /** Targets and feet without '-' rule out two groups of one athlete sharing a label. */
  lemma DashFreeAxesAreUnique(rows: seq<Event>, k: GroupKey)
    requires forall i | 0 <= i < |rows| :: '-' !in rows[i].target && '-' !in rows[i].foot
    requires '-' !in k.target && '-' !in k.foot
    ensures UniqueAxis(rows, k)
  {
  }

  /** A group whose attempts all succeed scores exactly 100.0; one whose attempts all fail, exactly 0.0. */
  lemma ScoreAllOrNothing(rows: seq<Event>, order: seq<GroupKey>, k: GroupKey, flag: int)
    requires Enumerates(order, Group(rows))
    requires Matching(rows, k) != [] && UniqueAxis(rows, k)
    requires flag == 0 || flag == 1
    requires forall i | 0 <= i < |rows| && KeyOf(rows[i]) == k :: rows[i].success == flag
    ensures k.athlete in ScoreMap(Group(rows), order) && AxisOf(k) in ScoreMap(Group(rows), order)[k.athlete]
    ensures ScoreMap(Group(rows), order)[k.athlete][AxisOf(k)] == if flag == 1 then 1000 else 0
  {
    ScoreOfGroup(rows, order, k);
    var m := Matching(rows, k);
    MatchingUniform(rows, k, flag);
    FlagSumUniform(m, flag);
    var t := Tally(FlagSum(m), |m|);
    if flag == 1 {
      assert t.successes == t.attempts;
    } else {
      assert t.successes == 0;
    }
    TenthsExtremes(t);
  }

  lemma MatchingUniform(rows: seq<Event>, k: GroupKey, flag: int)
    requires forall i | 0 <= i < |rows| && KeyOf(rows[i]) == k :: rows[i].success == flag
    ensures forall i | 0 <= i < |Matching(rows, k)| :: Matching(rows, k)[i].success == flag
  {
  }
}
