/** The bundled sample table and what the scorer makes of it, whatever order the groups are visited in. */
module SampleData {
  import opened Taxonomy
  import opened Scoring

  const SAMPLE: seq<Event> := [
    Event("김선수", "얼굴", "앞발", "빠른발", 1, "공격형", "앞발 빠른발", "8년"),
    Event("김선수", "몸통", "앞발", "앞발", 1, "공격형", "앞발 빠른발", "8년"),
    Event("이선수", "몸통", "뒷발", "돌려차기", 1, "수비형", "뒷발 돌려차기", "10년"),
    Event("이선수", "얼굴", "뒷발", "돌려차기", 0, "수비형", "뒷발 돌려차기", "10년"),
    Event("박선수", "얼굴", "앞발", "빠른발", 1, "혼합형", "속임 동작", "6년")
  ]

  /** No target or foot of the sample contains '-'. */
  lemma SampleIsDashFree()
    ensures forall i | 0 <= i < |SAMPLE| :: '-' !in SAMPLE[i].target && '-' !in SAMPLE[i].foot
  {
  }

  /** The score of sample row i's group: 100.0 when it succeeded, 0.0 when it failed. */
  lemma SampleRowScore(order: seq<GroupKey>, i: int)
    requires Enumerates(order, Group(SAMPLE))
    requires 0 <= i < |SAMPLE|
    ensures SAMPLE[i].athlete in ScoreMap(Group(SAMPLE), order)
    ensures AxisOf(KeyOf(SAMPLE[i])) in ScoreMap(Group(SAMPLE), order)[SAMPLE[i].athlete]
    ensures ScoreMap(Group(SAMPLE), order)[SAMPLE[i].athlete][AxisOf(KeyOf(SAMPLE[i]))] == 1000 * SAMPLE[i].success
  {
    var k := KeyOf(SAMPLE[i]);
    SampleIsDashFree();
    DashFreeAxesAreUnique(SAMPLE, k);
    MatchingMembers(SAMPLE, k);
    assert SAMPLE[i] in Matching(SAMPLE, k);
    forall i' | 0 <= i' < |SAMPLE| && KeyOf(SAMPLE[i']) == k
      ensures SAMPLE[i'].success == SAMPLE[i].success
    {
    }
    ScoreAllOrNothing(SAMPLE, order, k, SAMPLE[i].success);
  }

  lemma SampleAthletes()
    ensures Athletes(SAMPLE) == {"김선수", "이선수", "박선수"}
  {
  }

  lemma SampleAxesOfLee()
    ensures AttemptedAxes(SAMPLE, "이선수") == {"몸통-뒷발-돌려차기", "얼굴-뒷발-돌려차기"}
  {
    assert forall e | e in SAMPLE :: e == SAMPLE[0] || e == SAMPLE[1] || e == SAMPLE[2] || e == SAMPLE[3] || e == SAMPLE[4];
    assert SAMPLE[2] in SAMPLE && SAMPLE[3] in SAMPLE;
    assert Label("몸통", "뒷발", "돌려차기") == "몸통-뒷발-돌려차기";
    assert Label("얼굴", "뒷발", "돌려차기") == "얼굴-뒷발-돌려차기";
  }

  /** The sample's three athletes are the ones charted. */
  lemma SampleAthletesCharted(order: seq<GroupKey>)
    requires Enumerates(order, Group(SAMPLE))
    ensures ScoreMap(Group(SAMPLE), order).Keys == {"김선수", "이선수", "박선수"}
    ensures ScoreMap(Group(SAMPLE), order)["이선수"].Keys == {"몸통-뒷발-돌려차기", "얼굴-뒷발-돌려차기"}
  {
    ScoreMapOfRows(SAMPLE, order);
    SampleAthletes();
    SampleAxesOfLee();
  }

  /**
   이선수 scores 100.0 on the body rear-foot roundhouse, 0.0 on the face
   rear-foot roundhouse, and has no other axis.
   */
  lemma SampleScoresOfLee(order: seq<GroupKey>)
    requires Enumerates(order, Group(SAMPLE))
    ensures "이선수" in ScoreMap(Group(SAMPLE), order)
    ensures ScoreMap(Group(SAMPLE), order)["이선수"] == map["몸통-뒷발-돌려차기" := 1000, "얼굴-뒷발-돌려차기" := 0]
  {
    SampleAthletesCharted(order);
    SampleRowScore(order, 2);
    SampleRowScore(order, 3);
    assert SAMPLE[2].athlete == "이선수" && SAMPLE[3].athlete == "이선수";
    assert AxisOf(KeyOf(SAMPLE[2])) == "몸통-뒷발-돌려차기";
    assert AxisOf(KeyOf(SAMPLE[3])) == "얼굴-뒷발-돌려차기";
  }
}
