/**
 The axis taxonomy of the dashboard: a fixed, ordered configuration
 target region -> foot (stance) -> technique names, flattened into the
 ordered list of radar axes. The order is target-major, then foot, then
 technique, and the same list drives score lookups and the chart's
 angular positions.
 */
module Taxonomy {

  /** One foot entry of a target region with its techniques, in declared order. */
  datatype FootGroup = FootGroup(foot: string, skills: seq<string>)

  /** One target region with its foot entries, in declared order. */
  datatype TargetGroup = TargetGroup(target: string, foots: seq<FootGroup>)

  /** The whole configuration; a dictionary keeps insertion order, so a sequence. */
  type Categories = seq<TargetGroup>

  /** The static taxonomy of the dashboard. */
  const CATEGORIES: Categories := [
    TargetGroup("얼굴", [
      FootGroup("뒷발", ["돌려차기", "찍기", "이중발"]),
      FootGroup("앞발", ["빠른발", "앞발"])
    ]),
    TargetGroup("몸통", [
      FootGroup("뒷발", ["돌려차기", "컷트"]),
      FootGroup("앞발", ["빠른발", "앞발", "앞발컷트"])
    ])
  ]

  /** The axis label of a (target, foot, skill) triple: the three joined by '-', in that order. */
  function Label(target: string, foot: string, skill: string): (l: string)
    ensures |l| == |target| + |foot| + |skill| + 2
    ensures l[..|target|] == target && l[|target|] == '-'
    ensures l[|target| + 1..|target| + 1 + |foot|] == foot && l[|target| + 1 + |foot|] == '-'
    ensures l[|target| + |foot| + 2..] == skill
  {
    target + "-" + foot + "-" + skill
  }

  /** A label always contains the delimiter. */
  lemma LabelHasDash(target: string, foot: string, skill: string)
    ensures '-' in Label(target, foot, skill)
  {
  }

  /**
   When neither the target nor the foot contains '-', the label determines
   the triple: distinct triples give distinct axes.
   */
  lemma LabelInjective(t1: string, f1: string, s1: string, t2: string, f2: string, s2: string)
    requires '-' !in t1 && '-' !in f1 && '-' !in t2 && '-' !in f2
    requires Label(t1, f1, s1) == Label(t2, f2, s2)
    ensures t1 == t2 && f1 == f2 && s1 == s2
  {
  }

  /** The labels of one foot entry, in technique order. */
  function SkillLabels(target: string, foot: string, skills: seq<string>): seq<string>
  {
    if skills == [] then [] else [Label(target, foot, skills[0])] + SkillLabels(target, foot, skills[1..])
  }

  /** The labels of one target region, foot by foot. */
  function FootLabels(target: string, foots: seq<FootGroup>): seq<string>
  {
    if foots == [] then []
    else SkillLabels(target, foots[0].foot, foots[0].skills) + FootLabels(target, foots[1..])
  }

  /** The flattened axis list: target by target, then foot, then technique. */
  function Flatten(cats: Categories): seq<string>
  {
    if cats == [] then [] else FootLabels(cats[0].target, cats[0].foots) + Flatten(cats[1..])
  }

  /** The number of techniques listed under some foot entries. */
  function FootSkillCount(foots: seq<FootGroup>): nat
  {
    if foots == [] then 0 else |foots[0].skills| + FootSkillCount(foots[1..])
  }

  /** The number of (target, foot, skill) triples of a configuration. */
  function SkillCount(cats: Categories): nat
  {
    if cats == [] then 0 else FootSkillCount(cats[0].foots) + SkillCount(cats[1..])
  }

  /** (i, j, k) names a technique declared in the configuration. */
  predicate Declares(cats: Categories, i: int, j: int, k: int)
  {
    0 <= i < |cats| && 0 <= j < |cats[i].foots| && 0 <= k < |cats[i].foots[j].skills|
  }

  /** The label of the declared triple (i, j, k). */
  function TripleLabel(cats: Categories, i: int, j: int, k: int): string
    requires Declares(cats, i, j, k)
  {
    Label(cats[i].target, cats[i].foots[j].foot, cats[i].foots[j].skills[k])
  }

  /** The position the triple (i, j, k) takes in target-then-foot-then-skill order. */
  function Offset(cats: Categories, i: int, j: int, k: int): nat
    requires Declares(cats, i, j, k)
  {
    SkillCount(cats[..i]) + FootSkillCount(cats[i].foots[..j]) + k
  }

  /** The axis list the dashboard uses. */
  const AXES: seq<string> := Flatten(CATEGORIES)

  // ---------------------------------------------------------------------
  // Lengths

  lemma {:induction false} SkillLabelsLength(target: string, foot: string, skills: seq<string>)
    ensures |SkillLabels(target, foot, skills)| == |skills|
  {
    if skills != [] {
      SkillLabelsLength(target, foot, skills[1..]);
    }
  }

  lemma {:induction false} FootLabelsLength(target: string, foots: seq<FootGroup>)
    ensures |FootLabels(target, foots)| == FootSkillCount(foots)
  {
    if foots != [] {
      SkillLabelsLength(target, foots[0].foot, foots[0].skills);
      FootLabelsLength(target, foots[1..]);
    }
  }

  /** The axis list holds exactly one entry per declared triple. */
  lemma {:induction false} FlattenLength(cats: Categories)
    ensures |Flatten(cats)| == SkillCount(cats)
  {
    if cats != [] {
      FootLabelsLength(cats[0].target, cats[0].foots);
      FlattenLength(cats[1..]);
    }
  }

  // ---------------------------------------------------------------------
  // Appending (what the nested loops rely on)

  lemma {:induction false} SkillLabelsAppend(target: string, foot: string, a: seq<string>, b: seq<string>)
    ensures SkillLabels(target, foot, a + b) == SkillLabels(target, foot, a) + SkillLabels(target, foot, b)
  {
    if a != [] {
      assert (a + b)[1..] == a[1..] + b;
      SkillLabelsAppend(target, foot, a[1..], b);
    } else {
      assert a + b == b;
    }
  }

  lemma {:induction false} FootLabelsAppend(target: string, a: seq<FootGroup>, b: seq<FootGroup>)
    ensures FootLabels(target, a + b) == FootLabels(target, a) + FootLabels(target, b)
  {
    if a != [] {
      assert (a + b)[1..] == a[1..] + b;
      FootLabelsAppend(target, a[1..], b);
    } else {
      assert a + b == b;
    }
  }

  lemma {:induction false} FlattenAppend(a: Categories, b: Categories)
    ensures Flatten(a + b) == Flatten(a) + Flatten(b)
  {
    if a != [] {
      assert (a + b)[1..] == a[1..] + b;
      FlattenAppend(a[1..], b);
    } else {
      assert a + b == b;
    }
  }

  lemma {:induction false} SkillCountAppend(a: Categories, b: Categories)
    ensures SkillCount(a + b) == SkillCount(a) + SkillCount(b)
  {
    if a != [] {
      assert (a + b)[1..] == a[1..] + b;
      SkillCountAppend(a[1..], b);
    } else {
      assert a + b == b;
    }
  }

  lemma {:induction false} FootSkillCountAppend(a: seq<FootGroup>, b: seq<FootGroup>)
    ensures FootSkillCount(a + b) == FootSkillCount(a) + FootSkillCount(b)
  {
    if a != [] {
      assert (a + b)[1..] == a[1..] + b;
      FootSkillCountAppend(a[1..], b);
    } else {
      assert a + b == b;
    }
  }

  // ---------------------------------------------------------------------
  // Order and membership

  lemma {:induction false} SkillLabelsAt(target: string, foot: string, skills: seq<string>, k: int)
    requires 0 <= k < |skills|
    ensures |SkillLabels(target, foot, skills)| == |skills|
    ensures SkillLabels(target, foot, skills)[k] == Label(target, foot, skills[k])
  {
    SkillLabelsLength(target, foot, skills);
    if k > 0 {
      SkillLabelsAt(target, foot, skills[1..], k - 1);
    }
  }

  lemma {:induction false} FootLabelsAt(target: string, foots: seq<FootGroup>, j: int, k: int)
    requires 0 <= j < |foots| && 0 <= k < |foots[j].skills|
    ensures FootSkillCount(foots[..j]) + k < |FootLabels(target, foots)|
    ensures FootLabels(target, foots)[FootSkillCount(foots[..j]) + k] == Label(target, foots[j].foot, foots[j].skills[k])
  {
    FootLabelsLength(target, foots);
    var head := SkillLabels(target, foots[0].foot, foots[0].skills);
    SkillLabelsLength(target, foots[0].foot, foots[0].skills);
    if j == 0 {
      assert foots[..0] == [];
      SkillLabelsAt(target, foots[0].foot, foots[0].skills, k);
    } else {
      FootLabelsAt(target, foots[1..], j - 1, k);
      assert foots[..j] == [foots[0]] + foots[1..][..j - 1];
      FootSkillCountAppend([foots[0]], foots[1..][..j - 1]);
      assert FootSkillCount([foots[0]]) == |foots[0].skills|;
    }
  }

  /**
   The declared triple (i, j, k) sits at position Offset(cats, i, j, k) of the
   axis list: target-major, then foot, then technique.
   */
  lemma {:induction false} FlattenAt(cats: Categories, i: int, j: int, k: int)
    requires Declares(cats, i, j, k)
    ensures Offset(cats, i, j, k) < |Flatten(cats)|
    ensures Flatten(cats)[Offset(cats, i, j, k)] == TripleLabel(cats, i, j, k)
  {
    FlattenLength(cats);
    FootLabelsLength(cats[0].target, cats[0].foots);
    if i == 0 {
      assert cats[..0] == [];
      FootLabelsAt(cats[0].target, cats[0].foots, j, k);
    } else {
      assert Declares(cats[1..], i - 1, j, k);
      FlattenAt(cats[1..], i - 1, j, k);
      assert cats[..i] == [cats[0]] + cats[1..][..i - 1];
      SkillCountAppend([cats[0]], cats[1..][..i - 1]);
      assert SkillCount([cats[0]]) == FootSkillCount(cats[0].foots);
    }
  }

  /** Distinct declared triples take distinct positions. */
  lemma {:induction false} OffsetInjective(cats: Categories, i: int, j: int, k: int, i': int, j': int, k': int)
    requires Declares(cats, i, j, k) && Declares(cats, i', j', k')
    requires (i, j, k) != (i', j', k')
    ensures Offset(cats, i, j, k) != Offset(cats, i', j', k')
  {
    if i < i' {
      OffsetBeforeNextTarget(cats, i, j, k, i');
      OffsetLowerBound(cats, i', j', k');
    } else if i' < i {
      OffsetBeforeNextTarget(cats, i', j', k', i);
      OffsetLowerBound(cats, i, j, k);
    } else if j < j' {
      OffsetBeforeNextFoot(cats[i].foots, j, k, j');
    } else if j' < j {
      OffsetBeforeNextFoot(cats[i].foots, j', k', j);
    }
  }

  lemma OffsetLowerBound(cats: Categories, i: int, j: int, k: int)
    requires Declares(cats, i, j, k)
    ensures SkillCount(cats[..i]) <= Offset(cats, i, j, k)
  {
  }

  lemma OffsetBeforeNextTarget(cats: Categories, i: int, j: int, k: int, i': int)
    requires Declares(cats, i, j, k) && i < i' <= |cats|
    ensures Offset(cats, i, j, k) < SkillCount(cats[..i'])
  {
    assert cats[..i'] == cats[..i] + [cats[i]] + cats[i + 1..i'];
    SkillCountAppend(cats[..i] + [cats[i]], cats[i + 1..i']);
    SkillCountAppend(cats[..i], [cats[i]]);
    assert SkillCount([cats[i]]) == FootSkillCount(cats[i].foots);
    OffsetBeforeNextFoot(cats[i].foots, j, k, |cats[i].foots|);
    assert cats[i].foots[..|cats[i].foots|] == cats[i].foots;
  }

  lemma OffsetBeforeNextFoot(foots: seq<FootGroup>, j: int, k: int, j': int)
    requires 0 <= j < |foots| && 0 <= k < |foots[j].skills| && j < j' <= |foots|
    ensures FootSkillCount(foots[..j]) + k < FootSkillCount(foots[..j'])
  {
    assert foots[..j'] == foots[..j] + [foots[j]] + foots[j + 1..j'];
    FootSkillCountAppend(foots[..j] + [foots[j]], foots[j + 1..j']);
    FootSkillCountAppend(foots[..j], [foots[j]]);
    assert FootSkillCount([foots[j]]) == |foots[j].skills|;
  }

  lemma {:induction false} SkillLabelsOnly(target: string, foot: string, skills: seq<string>, l: string)
    requires l in SkillLabels(target, foot, skills)
    ensures exists k :: 0 <= k < |skills| && l == Label(target, foot, skills[k])
  {
    if l != Label(target, foot, skills[0]) {
      SkillLabelsOnly(target, foot, skills[1..], l);
      var k :| 0 <= k < |skills[1..]| && l == Label(target, foot, skills[1..][k]);
      assert l == Label(target, foot, skills[k + 1]);
    }
  }

  lemma {:induction false} FootLabelsOnly(target: string, foots: seq<FootGroup>, l: string)
    requires l in FootLabels(target, foots)
    ensures exists j, k :: 0 <= j < |foots| && 0 <= k < |foots[j].skills| && l == Label(target, foots[j].foot, foots[j].skills[k])
  {
    if l in SkillLabels(target, foots[0].foot, foots[0].skills) {
      SkillLabelsOnly(target, foots[0].foot, foots[0].skills, l);
      var k :| 0 <= k < |foots[0].skills| && l == Label(target, foots[0].foot, foots[0].skills[k]);
      assert 0 <= 0 < |foots| && l == Label(target, foots[0].foot, foots[0].skills[k]);
    } else {
      FootLabelsOnly(target, foots[1..], l);
      var j, k :| 0 <= j < |foots[1..]| && 0 <= k < |foots[1..][j].skills| && l == Label(target, foots[1..][j].foot, foots[1..][j].skills[k]);
      assert foots[1..][j] == foots[j + 1];
    }
  }

  /**
   The axis list holds the labels of the declared triples and nothing else;
   with FlattenAt, FlattenLength and OffsetInjective it is exactly one label
   per triple, in target-then-foot-then-skill order.
   */
  lemma FlattenMembers(cats: Categories, l: string)
    ensures l in Flatten(cats) <==> exists i, j, k :: Declares(cats, i, j, k) && l == TripleLabel(cats, i, j, k)
  {
    if exists i, j, k :: Declares(cats, i, j, k) && l == TripleLabel(cats, i, j, k) {
      var i, j, k :| Declares(cats, i, j, k) && l == TripleLabel(cats, i, j, k);
      FlattenAt(cats, i, j, k);
    }
    if l in Flatten(cats) {
      FlattenOnly(cats, l);
    }
  }

  lemma {:induction false} FlattenOnly(cats: Categories, l: string)
    requires l in Flatten(cats)
    ensures exists i, j, k :: Declares(cats, i, j, k) && l == TripleLabel(cats, i, j, k)
  {
    var head := FootLabels(cats[0].target, cats[0].foots);
    if l in head {
      FootLabelsOnly(cats[0].target, cats[0].foots, l);
      var j, k :| 0 <= j < |cats[0].foots| && 0 <= k < |cats[0].foots[j].skills| && l == Label(cats[0].target, cats[0].foots[j].foot, cats[0].foots[j].skills[k]);
      assert Declares(cats, 0, j, k) && l == TripleLabel(cats, 0, j, k);
    } else {
      assert l in Flatten(cats[1..]);
      FlattenOnly(cats[1..], l);
      var i, j, k :| Declares(cats[1..], i, j, k) && l == TripleLabel(cats[1..], i, j, k);
      assert cats[1..][i] == cats[i + 1];
      assert Declares(cats, i + 1, j, k) && l == TripleLabel(cats, i + 1, j, k);
    }
  }

  // ---------------------------------------------------------------------
  // The construction loop

  /**
   The nested loops that build the axis list: for each target, for each
   foot, for each technique, append the label.
   */
  method BuildAxes(cats: Categories) returns (axes: seq<string>)
    ensures axes == Flatten(cats)
    ensures |axes| == SkillCount(cats)
  {
    axes := [];
    for i := 0 to |cats|
      invariant axes == Flatten(cats[..i])
    {
      var target, foots := cats[i].target, cats[i].foots;
      ghost var done := axes;
      for j := 0 to |foots|
        invariant axes == done + FootLabels(target, foots[..j])
      {
        var foot, skills := foots[j].foot, foots[j].skills;
        ghost var doneFeet := axes;
        for k := 0 to |skills|
          invariant axes == doneFeet + SkillLabels(target, foot, skills[..k])
        {
          axes := axes + [Label(target, foot, skills[k])];
          SkillLabelsStep(target, foot, skills, k);
        }
        assert skills[..|skills|] == skills;
        FootLabelsStep(target, foots, j);
      }
      assert foots[..|foots|] == foots;
      FlattenStep(cats, i);
    }
    assert cats[..|cats|] == cats;
    FlattenLength(cats);
  }

  lemma SkillLabelsStep(target: string, foot: string, skills: seq<string>, k: int)
    requires 0 <= k < |skills|
    ensures SkillLabels(target, foot, skills[..k + 1]) == SkillLabels(target, foot, skills[..k]) + [Label(target, foot, skills[k])]
  {
    assert skills[..k + 1] == skills[..k] + [skills[k]];
    SkillLabelsAppend(target, foot, skills[..k], [skills[k]]);
    assert [skills[k]][1..] == [];
  }

  lemma FootLabelsStep(target: string, foots: seq<FootGroup>, j: int)
    requires 0 <= j < |foots|
    ensures FootLabels(target, foots[..j + 1]) == FootLabels(target, foots[..j]) + SkillLabels(target, foots[j].foot, foots[j].skills)
  {
    assert foots[..j + 1] == foots[..j] + [foots[j]];
    FootLabelsAppend(target, foots[..j], [foots[j]]);
    assert [foots[j]][1..] == [];
  }

  lemma FlattenStep(cats: Categories, i: int)
    requires 0 <= i < |cats|
    ensures Flatten(cats[..i + 1]) == Flatten(cats[..i]) + FootLabels(cats[i].target, cats[i].foots)
  {
    assert cats[..i + 1] == cats[..i] + [cats[i]];
    FlattenAppend(cats[..i], [cats[i]]);
    assert [cats[i]][1..] == [];
  }

  /** The labels of the face region, in declared order. */
  lemma FaceAxes()
    ensures FootLabels(CATEGORIES[0].target, CATEGORIES[0].foots) ==
      ["얼굴-뒷발-돌려차기", "얼굴-뒷발-찍기", "얼굴-뒷발-이중발", "얼굴-앞발-빠른발", "얼굴-앞발-앞발"]
  {
    var foots := CATEGORIES[0].foots;
    SkillLabelsOfThree("얼굴", "뒷발", "돌려차기", "찍기", "이중발");
    SkillLabelsOfTwo("얼굴", "앞발", "빠른발", "앞발");
    assert Label("얼굴", "뒷발", "돌려차기") == "얼굴-뒷발-돌려차기" && Label("얼굴", "뒷발", "찍기") == "얼굴-뒷발-찍기";
    assert Label("얼굴", "뒷발", "이중발") == "얼굴-뒷발-이중발" && Label("얼굴", "앞발", "빠른발") == "얼굴-앞발-빠른발";
    assert Label("얼굴", "앞발", "앞발") == "얼굴-앞발-앞발";
    assert foots[1..][1..] == [];
    assert FootLabels("얼굴", foots[1..]) == ["얼굴-앞발-빠른발", "얼굴-앞발-앞발"] + [];
  }

  /** The labels of the body region, in declared order. */
  lemma BodyAxes()
    ensures FootLabels(CATEGORIES[1].target, CATEGORIES[1].foots) ==
      ["몸통-뒷발-돌려차기", "몸통-뒷발-컷트", "몸통-앞발-빠른발", "몸통-앞발-앞발", "몸통-앞발-앞발컷트"]
  {
    var foots := CATEGORIES[1].foots;
    SkillLabelsOfTwo("몸통", "뒷발", "돌려차기", "컷트");
    SkillLabelsOfThree("몸통", "앞발", "빠른발", "앞발", "앞발컷트");
    assert Label("몸통", "뒷발", "돌려차기") == "몸통-뒷발-돌려차기" && Label("몸통", "뒷발", "컷트") == "몸통-뒷발-컷트";
    assert Label("몸통", "앞발", "빠른발") == "몸통-앞발-빠른발" && Label("몸통", "앞발", "앞발") == "몸통-앞발-앞발";
    assert Label("몸통", "앞발", "앞발컷트") == "몸통-앞발-앞발컷트";
    assert foots[1..][1..] == [];
    assert FootLabels("몸통", foots[1..]) == ["몸통-앞발-빠른발", "몸통-앞발-앞발", "몸통-앞발-앞발컷트"] + [];
  }

  /** The dashboard's ten axes, in order. */
  lemma AxesValue()
    ensures AXES == [
      "얼굴-뒷발-돌려차기", "얼굴-뒷발-찍기", "얼굴-뒷발-이중발",
      "얼굴-앞발-빠른발", "얼굴-앞발-앞발",
      "몸통-뒷발-돌려차기", "몸통-뒷발-컷트",
      "몸통-앞발-빠른발", "몸통-앞발-앞발", "몸통-앞발-앞발컷트"
    ]
    ensures |AXES| == SkillCount(CATEGORIES) == 10
  {
    FaceAxes();
    BodyAxes();
    assert CATEGORIES[1..][1..] == [];
    FlattenLength(CATEGORIES);
  }

  lemma SkillLabelsOfTwo(target: string, foot: string, a: string, b: string)
    ensures SkillLabels(target, foot, [a, b]) == [Label(target, foot, a), Label(target, foot, b)]
  {
    assert [b][1..] == [];
    assert SkillLabels(target, foot, [b]) == [Label(target, foot, b)] + [];
    assert [a, b][1..] == [b];
  }

  lemma SkillLabelsOfThree(target: string, foot: string, a: string, b: string, c: string)
    ensures SkillLabels(target, foot, [a, b, c]) == [Label(target, foot, a), Label(target, foot, b), Label(target, foot, c)]
  {
    assert [a, b, c][1..] == [b, c];
    SkillLabelsOfTwo(target, foot, b, c);
  }
}
