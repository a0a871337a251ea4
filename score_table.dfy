/**
 The per-athlete score table: one row per selected athlete, holding the
 athlete's name under the name column and then every score the scorer
 stored for that athlete, axes outside the fixed axis list included.
 */
module ScoreTable {
  import opened Taxonomy
  import opened Scoring
  import opened Outcome

  /** The header of the name column ("athlete"). */
  const NAME_COLUMN: string := "선수"

  /** A table cell: the athlete's name, or a score in tenths. */
  datatype Cell = Name(name: string) | Score(tenths: int)

  /** A table row: column header -> cell. */
  type Row = map<string, Cell>

  /**
   The row of one athlete: the name column plus the athlete's
   scores; a score column with the name column's header would replace it.
   */
  function ScoreRow(name: string, inner: map<string, int>): (row: Row)
    ensures row.Keys == {NAME_COLUMN} + inner.Keys
    ensures forall l | l in inner :: row[l] == Score(inner[l])
    ensures NAME_COLUMN !in inner ==> row[NAME_COLUMN] == Name(name)
  {
    map[NAME_COLUMN := Name(name)] + map l | l in inner :: Score(inner[l])
  }

  /** No axis label is the name column's header, since every label contains '-'. */
  lemma NameColumnIsNoAxis(target: string, foot: string, skill: string)
    ensures Label(target, foot, skill) != NAME_COLUMN
  {
  }

  /** In the row of a scored athlete the name column always holds the athlete's name. */
  lemma RowKeepsName(rows: seq<Event>, order: seq<GroupKey>, a: string)
    requires Enumerates(order, Group(rows))
    requires a in ScoreMap(Group(rows), order)
    ensures ScoreRow(a, ScoreMap(Group(rows), order)[a])[NAME_COLUMN] == Name(a)
  {
    ScoreMapOfRows(rows, order);
    forall e | e in rows && e.athlete == a
      ensures AxisOf(KeyOf(e)) != NAME_COLUMN
    {
      NameColumnIsNoAxis(e.target, e.foot, e.technique);
    }
  }

  /**
   Build the table row by row, in selection order; the first athlete
   missing from the scores ends the loop with a key error.
   */
  method BuildScoreTable(scores: ScoreDict, selected: seq<string>) returns (res: Lookup<seq<Row>>)
    ensures res.Ok? <==> forall p | p in selected :: p in scores
    ensures res.Ok? ==> |res.value| == |selected|
    ensures res.Ok? ==> forall i | 0 <= i < |selected| ::
      selected[i] in scores && res.value[i] == ScoreRow(selected[i], scores[selected[i]])
    ensures res.KeyError? ==> FirstMissing(selected, scores, res.key)
  {
    var table: seq<Row> := [];
    for n := 0 to |selected|
      invariant |table| == n
      invariant forall i | 0 <= i < n :: selected[i] in scores && table[i] == ScoreRow(selected[i], scores[selected[i]])
    {
      var name := selected[n];
      if name !in scores {
        return KeyError(name);
      }
      var row: Row := map[NAME_COLUMN := Name(name)];
      row := row + map l | l in scores[name] :: Score(scores[name][l]);
      table := table + [row];
    }
    return Ok(table);
  }
}
