# Taekwondo technique dashboard — scoring and radar model

This project models the logic of a single-page taekwondo analytics
dashboard (`app.py`). The dashboard reads match-event rows. Each row is one
attempted technique by one athlete, with a 0/1 success flag. It does three
things:

- **Axis taxonomy** (`taxonomy.dfy`, module `Taxonomy`). A fixed
  configuration, target region → foot → techniques, is flattened into the
  ordered axis list `AXES`. Each label is `"target-foot-technique"`. The
  order is target-major, then foot, then technique. The nested
  construction loop is `BuildAxes`. It is proved equal to the function
  `Flatten`, and the order, length, membership and concrete value of the
  ten axes are proved about `Flatten`.
- **Scorer** (`scoring.dfy`, module `Scoring`). Rows are grouped by
  (athlete, target, foot, technique). `Group` tallies each group's success
  sum and attempt count. It is checked against the reference filter
  `Matching`. The loop `ScoreFromMatchData` fills the dictionary
  athlete → axis → score. Scores are integer tenths of a percent, so 66.7
  is 667. The loop is proved equal to the fold `ScoreMap`. Lemmas state
  which athletes and axes appear, where each stored score comes from, its
  rounding bound, its range, and the all-success and all-failure cases.
- **Radar traces and score table** (`radar.dfy`, `score_table.dfy`).
  Each selected athlete gets a closed polygon. Its radius list is the
  athlete's score on each axis, or 0 on an axis with no attempts, and the
  first value is repeated at the end. The angle list is the axis list with
  its first label repeated. The score table has one row per athlete: the
  name column plus all of that athlete's stored scores. A missing athlete
  makes both builders stop with `KeyError` on the first missing name.

`outcome.dfy` holds the `Lookup` result type. `sample.dfy` holds the
bundled sample table and what the scorer computes from it.

The code and the design description differ on one point, and the model
follows the code. The description says the success flag is restricted to
0/1. The code never checks this. So the model accepts any integer flag,
and the range lemmas assume binary flags (`BinaryFlags`).

Behaviour the code has that is easy to miss: two groups of the same
athlete can produce the same axis label. One example is target `"a-b"` with
foot `"c"`, and target `"a"` with foot `"b-c"`. When that happens, the group
visited later overwrites the earlier score (`ScoreMapLastWins`). If no
target or foot contains `-`, this cannot happen (`DashFreeAxesAreUnique`).

## Model

| member | source | states |
|---|---|---|
| Taxonomy.CATEGORIES | app.py:28-37 | the configuration itself: targets 얼굴 and 몸통, each with feet 뒷발 and 앞발 and their techniques, in declared order; its flattened value is stated by `AxesValue` |
| Taxonomy.Label | app.py:43 | the label is the target, `-`, the foot, `-`, the technique, in that order; its length is the sum of the three plus 2 |
| Taxonomy.LabelHasDash | app.py:43 | every axis label contains the delimiter `-` |
| Taxonomy.LabelInjective | app.py:43 | when target and foot contain no `-`, equal labels come from equal (target, foot, technique) triples |
| Taxonomy.Flatten | app.py:39-43 | the definition of the axis list: each target's foot labels, target by target; described by `FlattenLength`, `FlattenAt`, `OffsetInjective` and `FlattenMembers`, and produced by `BuildAxes` |
| Taxonomy.BuildAxes | app.py:39-43 | the nested target/foot/technique loop appends exactly `Flatten(cats)`, whose length is the number of declared techniques |
| Taxonomy.FlattenLength | app.py:39-43 | the axis list has one entry per declared (target, foot, technique) triple |
| Taxonomy.FlattenAt | app.py:39-43 | triple (i, j, k) sits at position (techniques of earlier targets) + (techniques of earlier feet of target i) + k: target-major, then foot, then technique order |
| Taxonomy.OffsetInjective | app.py:39-43 | distinct declared triples take distinct positions in the axis list |
| Taxonomy.FlattenMembers | app.py:39-43 | a label is in the axis list if and only if it is the label of some declared triple |
| Taxonomy.AxesValue | app.py:28-43 | the dashboard's axes are exactly the ten labels of the configuration, in declared order |
| Scoring.Group | app.py:66 | every group produced by the group-by has at least one attempt |
| Scoring.GroupKeys | app.py:66 | the groups are exactly the distinct (athlete, target, foot, technique) keys of the rows |
| Scoring.MatchingMembers | app.py:66 | the rows of a group are exactly the rows carrying its key |
| Scoring.GroupIsTally | app.py:66-71 | a group exists if and only if some row has its key; its tally is that group's success-flag sum and row count |
| Scoring.FlagSumBounds | app.py:71 | with 0/1 flags a group's success sum lies between 0 and its attempt count |
| Scoring.FlagSumUniform | app.py:71 | rows that all succeed sum to their count; rows that all fail sum to 0 |
| Scoring.Tenths | app.py:71 | the stored value is within half a tenth of 100 × successes ÷ attempts (ties upward) |
| Scoring.TenthsUnique | app.py:71 | that rounding bound determines the stored tenths uniquely |
| Scoring.TenthsRange | app.py:71 | with 0 ≤ successes ≤ attempts the score lies in [0.0, 100.0] |
| Scoring.TenthsExtremes | app.py:71 | all attempts successful scores exactly 100.0; none successful scores exactly 0.0 |
| Scoring.TenthsExact | app.py:71 | when the exact percentage is a whole number of tenths it is stored without rounding |
| Scoring.TenthsTwoOfThree | app.py:71 | two successes in three attempts score 66.7 |
| Scoring.ScoreMap | app.py:67-71 | the definition of the score dictionary as a fold over the visited groups: `setdefault` on the athlete, then the group's tenths stored under its label; described by `ScoreMapAthletes`, `ScoreMapAxes`, `ScoreMapLastWins` and `ScoreMapFrom`, and computed by `ScoreFromMatchData` |
| Scoring.ScoreMapAthletes | app.py:68-70 | the score dictionary's athletes are exactly those of the visited groups |
| Scoring.ScoreMapAxes | app.py:68-71 | an athlete's axes are exactly the labels of that athlete's visited groups |
| Scoring.ScoreMapLastWins | app.py:68-71 | a score comes from the last visited group with that athlete and label; a later group with the same label overwrites an earlier one |
| Scoring.ScoreMapFrom | app.py:68-71 | every stored score is the rounded percentage of some visited group with that athlete and label |
| Scoring.ScoreFromMatchData | app.py:64-73 | the loop builds `ScoreMap` of the groups; its athletes are exactly the rows' athletes; each athlete's axes are exactly the labels that athlete attempted, and unattempted axes are absent |
| Scoring.ScoreMapOfRows | app.py:64-73 | the score dictionary of a table has exactly its athletes, each with exactly the axes attempted |
| Scoring.ScoresInRange | app.py:71 | with 0/1 flags every stored score lies in [0.0, 100.0] |
| Scoring.ScoreOfGroup | app.py:66-71 | when no other group of the athlete shares the label, the stored score is that group's successes ÷ attempts × 100, rounded to one decimal |
| Scoring.DashFreeAxesAreUnique | app.py:69 | if targets and feet contain no `-`, no two groups of an athlete share a label |
| Scoring.ScoreAllOrNothing | app.py:71 | a group whose attempts all succeed scores exactly 100.0; one whose attempts all fail scores exactly 0.0 |
| Radar.ScoreOr0 | app.py:83 | the definition of `.get(axis, 0)`: the stored score, or 0 when the athlete has none under that axis; used by `Spokes`, `Radius` and `TraceOfScoredAthlete` |
| Radar.Spokes | app.py:83 | one radius per axis, in axis order: the stored score, or 0 when the axis is absent |
| Radar.Radius | app.py:83-84 | the radius list has one more entry than there are axes, the last equals the first, and entry i is the score on axis i or 0 |
| Radar.Theta | app.py:80 | the angle list is the axis list followed by its first label, so it has one more entry and is closed |
| Radar.TraceAligned | app.py:80-88 | radius and angle lists have equal length, and each radius, the closing one included, is the score on the angle at the same position |
| Radar.RadiusIgnoresOtherLabels | app.py:83 | scores under labels that are not axes never change a trace |
| Radar.RadiusInRange | app.py:83-84 | scores in [0.0, 100.0] give radii inside the chart's fixed radial range |
| Radar.DrawRadar | app.py:78-91 | traces succeed if and only if every selected athlete is scored; then one trace per athlete, in selection order, with that athlete's radius list and the shared angle list; otherwise a key error naming the first missing athlete |
| Radar.TraceOfScoredAthlete | app.py:83 | on an axis the athlete never attempted the radius is 0, otherwise it is the stored score |
| ScoreTable.ScoreRow | app.py:139-140 | a row's columns are the name column plus the athlete's labels; each label holds its score, and the name column holds the name unless a label replaces it |
| ScoreTable.NameColumnIsNoAxis | app.py:139-140 | no axis label equals the name column's header |
| ScoreTable.RowKeepsName | app.py:139-140 | in a scored athlete's row the name column always holds the athlete's name |
| ScoreTable.BuildScoreTable | app.py:137-141 | the table succeeds if and only if every selected athlete is scored; then one row per athlete in selection order, each with all of that athlete's scores, labels outside the axis list included; otherwise a key error naming the first missing athlete |
| SampleData.SAMPLE | app.py:49-55 | the five bundled sample rows, field by field; what the scorer makes of them is stated by `SampleRowScore`, `SampleAthletesCharted` and `SampleScoresOfLee` |
| SampleData.SampleRowScore | app.py:48-59 | in the sample every group is one row, so each row's axis scores 100.0 when it succeeded and 0.0 when it failed |
| SampleData.SampleAthletesCharted | app.py:48-59 | the sample yields the three athletes; 이선수 has exactly the two rear-foot roundhouse axes |
| SampleData.SampleScoresOfLee | app.py:48-59 | 이선수 scores 100.0 on the body rear-foot roundhouse and 0.0 on the face rear-foot roundhouse |

## Left out

- Page setup, header, sidebar upload, multiselect and all rendering calls (app.py:8-23, 103-134, 143-149): these are calls into the web UI framework.
- CSV parsing and the data preview (app.py:111-117). Input rows are given as `Event` values, all text fields as strings. Rows with missing group-by values, which pandas drops by default, are not modelled.
- Scoring.ScoreFromMatchData: a blank `success` cell is read as NaN, and `mean()` (app.py:71) skips it, so the source's attempt count is the group's non-missing flags and a group whose flags are all missing stores NaN. Here `Event.success` is an integer, and `Group` counts every row of a group as an attempt.
- ScoreTable.ScoreRow: the source's row dict is insertion-ordered, with the name column first and then the athlete's labels in the order the groups were visited (app.py:70-71, 139-140), and the dataframe takes its column order from it (app.py:143). `Row` and `ScoreDict` are maps, so the model keeps which columns a row has and what they hold, but not their order. The same holds for the order of the athletes' labels inside `ScoreFromMatchData`'s result.
- The profile summary table (`drop_duplicates`, app.py:132-134). It is a dataframe-library projection with no aggregation.
- The order in which pandas visits groups. pandas sorts the group keys. Here the visiting order is the parameter `order`, and every enumeration of the groups is allowed. That order fixes which of two label-colliding groups wins. It also fixes the order of `list(scores.keys())` (app.py:120), which is not modelled.
- The charting library's figure, trace styling and layout (app.py:79, 86-97). Only the `r` and `theta` lists it receives are modelled, as `Trace`.
- Scoring.Tenths: stores the value rounded half upward, and its bound fixes that value (`TenthsUnique`). Python's `round(x, 1)` works on a binary float, so at an exact tie the source may store one tenth less: 1 success in 400 attempts is 0.25 %, which the source may store as 0.2 where the model stores 0.3.
- `AXES` is a constant equal to `Flatten(CATEGORIES)`. The module-level loop that builds it is `BuildAxes`, proved to produce the same list.
- The empty-selection guard (`if selected:`, app.py:128) is not modelled. `DrawRadar` and `BuildScoreTable` return empty results for an empty selection.
