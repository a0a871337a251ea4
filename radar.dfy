/**
 The radar chart's data: one closed polygon per selected athlete. The
 radius list gives the athlete's score on each axis (0 when the axis was
 not attempted) and repeats the first value at the end; the angle list is
 the axis list with its first label repeated at the end. The charting
 library that draws the polygons is not part of this model.
 */
module Radar {
  import opened Taxonomy
  import opened Scoring
  import opened Outcome

  /** The score under `axis`, or 0 when the athlete has none there. */
  function ScoreOr0(inner: map<string, int>, axis: string): int
  {
    if axis in inner then inner[axis] else 0
  }

  /** One radius per axis, in axis order. */
  function Spokes(inner: map<string, int>, axes: seq<string>): (r: seq<int>)
    ensures |r| == |axes|
    ensures forall i | 0 <= i < |axes| :: r[i] == ScoreOr0(inner, axes[i])
  {
    if axes == [] then [] else [ScoreOr0(inner, axes[0])] + Spokes(inner, axes[1..])
  }

  /** The radius list of a trace: the spokes, closed by repeating the first. */
  function Radius(inner: map<string, int>, axes: seq<string>): (r: seq<int>)
    requires axes != []
    ensures |r| == |axes| + 1 && r[|axes|] == r[0]
    ensures forall i | 0 <= i < |axes| :: r[i] == ScoreOr0(inner, axes[i])
  {
    var spokes := Spokes(inner, axes);
    spokes + [spokes[0]]
  }

  /** The angle list of every trace: the axes, closed by repeating the first. */
  function Theta(axes: seq<string>): (t: seq<string>)
    requires axes != []
    ensures |t| == |axes| + 1 && t[|axes|] == t[0] && t[..|axes|] == axes
  {
    axes + [axes[0]]
  }

  /** One polygon of the chart. */
  datatype Trace = Trace(name: string, r: seq<int>, theta: seq<string>)

  /**
   The two lists of a trace line up point by point, the closing point
   included: each radius is the athlete's score on the angle beside it.
   */
  lemma TraceAligned(inner: map<string, int>, axes: seq<string>, i: int)
    requires axes != [] && 0 <= i <= |axes|
    ensures |Radius(inner, axes)| == |Theta(axes)|
    ensures Radius(inner, axes)[i] == ScoreOr0(inner, Theta(axes)[i])
  {
  }

  /** Scores under labels that are not axes never reach the chart. */
  lemma RadiusIgnoresOtherLabels(inner: map<string, int>, inner': map<string, int>, axes: seq<string>)
    requires axes != []
    requires forall l | l in axes :: ScoreOr0(inner, l) == ScoreOr0(inner', l)
    ensures Radius(inner, axes) == Radius(inner', axes)
  {
  }

  /** With scores in [0.0, 100.0] every radius lies in the chart's fixed range [0, 100]. */
  lemma RadiusInRange(inner: map<string, int>, axes: seq<string>)
    requires axes != []
    requires forall l | l in inner :: 0 <= inner[l] <= 1000
    ensures forall i | 0 <= i < |Radius(inner, axes)| :: 0 <= Radius(inner, axes)[i] <= 1000
  {
  }

  /**
   Build one trace per selected athlete, in selection order, over the
   dashboard's axes; the first athlete missing from the scores ends the
   loop with a key error.
   */
  method DrawRadar(scores: ScoreDict, players: seq<string>) returns (res: Lookup<seq<Trace>>)
    ensures res.Ok? <==> forall p | p in players :: p in scores
    ensures res.Ok? ==> |res.value| == |players|
    ensures res.Ok? ==> forall i | 0 <= i < |players| ::
      players[i] in scores && res.value[i] == Trace(players[i], Radius(scores[players[i]], AXES), Theta(AXES))
    ensures res.KeyError? ==> FirstMissing(players, scores, res.key)
  {
    AxesValue();
    var theta := Theta(AXES);
    var traces: seq<Trace> := [];
    for n := 0 to |players|
      invariant |traces| == n
      invariant forall i | 0 <= i < n :: players[i] in scores && traces[i] == Trace(players[i], Radius(scores[players[i]], AXES), theta)
    {
      var name := players[n];
      if name !in scores {
        return KeyError(name);
      }
      var r := Radius(scores[name], AXES);
      traces := traces + [Trace(name, r, theta)];
    }
    return Ok(traces);
  }

  /**
   The trace of a scored athlete: for each axis, the score the scorer
   stored there, 0 when that axis was never attempted.
   */
  lemma TraceOfScoredAthlete(rows: seq<Event>, order: seq<GroupKey>, a: string, i: int)
    requires Enumerates(order, Group(rows))
    requires a in ScoreMap(Group(rows), order)
    requires 0 <= i < |AXES|
    ensures AXES[i] in ScoreMap(Group(rows), order)[a] <==> AXES[i] in AttemptedAxes(rows, a)
    ensures AXES[i] !in AttemptedAxes(rows, a) ==> Radius(ScoreMap(Group(rows), order)[a], AXES)[i] == 0
    ensures AXES[i] in AttemptedAxes(rows, a) ==> Radius(ScoreMap(Group(rows), order)[a], AXES)[i] == ScoreMap(Group(rows), order)[a][AXES[i]]
  {
    ScoreMapOfRows(rows, order);
  }
}
