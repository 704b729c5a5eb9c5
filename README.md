# TopoJSON geometry decoder — a Dafny model

This project models the geometry decoder of `scripts/topojson.py`, which
turns TopoJSON topology data into GeoJSON-shaped geometry.

A TopoJSON topology stores every shared polyline once, as an *arc*, in
the table `topology_arcs`. Geometries refer to arcs by signed index. A
reference `k >= 0` means arc `k` walked forwards. A reference `k < 0`
means arc `~k` (that is `-k - 1`) walked backwards (section 2.1.4 of the
TopoJSON format specification). When the topology has a quantizing
`transform`, each arc holds deltas between consecutive positions. The
decoder keeps a running sum of the deltas and maps it through
`scale * sum + translate` (sections 2.1.2 and 2.1.3).

The model has three parts, as the source does:

- `TopoJson.Rel2Abs` is `rel2abs`. It is a method with the source's loop
  and running sums `a` and `b`. It is proved equal to the function
  `TopoJson.DecodeArc`, which the rest of the model uses.
- `TopoJson.Coordinates` is `coordinates`. It dispatches on the kind of the
  first entry, as the source does. A list starting with an integer is one
  line: each reference is decoded, reversed when negative, stripped of its
  first position unless it is the first arc (`Join`), and concatenated. A
  list starting with a list is decoded entry by entry. Anything else fails.
- `TopoJson.Geometry` is `geometry`. It pairs the object's `type` with the
  decoded coordinates and checks nothing else.

The input to `coordinates` is any JSON value. It is modelled as
`ArcRefs = Index(int) | List(seq<ArcRefs>) | OtherValue`. Each exception
the source can raise becomes a `DecodeError` inside a `Result`:

- `EmptyRefs`: `arcs[0]` on an empty list (line 41).
- `NotAList`: `arcs[0]` on a value that is not a list.
- `NotAnIndex`: a later entry of a flat list is not an integer, so the
  lookup on line 45 fails.
- `ArcIndexOutOfRange`: the lookup on line 45 names no arc.
- `InvalidLeaf`: the `ValueError` of line 55.

The sample topology in the file's `__main__` block (lines 79-111) is used
for worked examples in `worked_examples.dfy`.

## Behaviour of the source worth noting

- A zero-valued `scale` or `translate`, such as `[0, 0]`, is a non-empty
  list. Python treats it as true, so the transform of line 16 applies.
- When only one of `scale` and `translate` is given, line 16 raises no
  error. The arc passes through untransformed.
- An empty reference list raises at `arcs[0]` on line 41. It does not
  decode to an empty list.
- Under a transform, arcs hold deltas. Under the sample transform, the
  sample polygon `[[0, 1, 2]]` therefore does not close.
  `WorkedExamples.SampleTransformedPolygon` shows the decoded ring of the
  second sample polygon.
- Every arc after the first loses its first position (line 48, `[i > 0:]`),
  whether or not it starts where the previous arc ends. When the arcs do
  not meet, a position that is not a duplicate is dropped
  (`TopoJson.JoinTailAt`, `WorkedExamples.DisjointArcsLosePosition`).

## Model

| member | source | states |
|---|---|---|
| `TopoJson.Rel2Abs` | scripts/topojson.py:11-24 | one position per entry. Without a transform the entries come back unchanged. With one, position k is `scale * (sum of deltas 0..k) + translate`. The result equals `DecodeArc`. |
| `TopoJson.Accumulate` | scripts/topojson.py:17-21 | the running-sum generator emits exactly one position per delta |
| `TopoJson.AccumulateAt` | scripts/topojson.py:17-21 | position k of the running-sum generator is the transformed start value plus the sum of the first k+1 deltas |
| `TopoJson.DecodeArcSpec` | scripts/topojson.py:16-24 | the decoded arc has the arc's length. It is the arc itself when `scale` or `translate` is missing. Otherwise entry k is the transformed prefix sum of deltas 0..k. |
| `TopoJson.DeltaSumSnoc` | scripts/topojson.py:18-20 | adding one more delta to the running sum adds it to the total |
| `TopoJson.DeltasTelescope` | scripts/topojson.py:18-20 | the running sum of a delta encoding recovers each original position |
| `TopoJson.DeltaRoundTrip` | scripts/topojson.py:16-21 | decoding the delta encoding of quantized positions gives exactly the transformed positions, in order |
| `TopoJson.ArcIndex` | scripts/topojson.py:45 | a reference `k >= 0` selects arc `k`; a reference `k < 0` selects arc `-k - 1`, which is never negative |
| `TopoJson.ComplementSelectsSameArc` | scripts/topojson.py:45 | `k` and `~k` select the same arc, and no other reference selects it |
| `TopoJson.ReverseReverse` | scripts/topojson.py:48 | reversing twice gives back the sequence |
| `TopoJson.ReversePermutes` | scripts/topojson.py:48 | `[::-1]` walks the same positions the other way: the multiset of positions is unchanged, and the first and last positions swap |
| `TopoJson.ReversedReference` | scripts/topojson.py:45-48 | reference `~k` gives the positions of reference `k` in reverse order; both have the stored arc's length |
| `TopoJson.ResolveAllOk` | scripts/topojson.py:42-49 | a flat list resolves exactly when every entry is a valid reference. It then gives one oriented arc per entry, in order. |
| `TopoJson.ResolveAllFirstError` | scripts/topojson.py:42-49 | on failure, the error is that of the first entry that is not a valid reference; all entries before it are valid |
| `TopoJson.JoinLength` | scripts/topojson.py:48-50 | joining n non-empty arcs gives the sum of their lengths minus n-1 |
| `TopoJson.JoinStartsWithFirst` | scripts/topojson.py:48-50 | the first arc contributes all of its positions |
| `TopoJson.JoinEndsWithLast` | scripts/topojson.py:48-50 | over contiguous arcs, the line ends at the last arc's last position |
| `TopoJson.JoinEndsWithLastArc` | scripts/topojson.py:48-50 | over contiguous arcs, the last arc appears whole at the end, starting at the previous line's last position |
| `TopoJson.JoinExtends` | scripts/topojson.py:48-50 | joining one more arc only appends to the line |
| `TopoJson.JoinKeepsFirstArc` | scripts/topojson.py:48-50 | arc 0 occupies positions 0 to its length |
| `TopoJson.JoinKeepsLastArc` | scripts/topojson.py:48-50 | over contiguous arcs, the last arc occupies the end of the line at its predicted offset |
| `TopoJson.JoinKeepsEarlierArc` | scripts/topojson.py:48-50 | over contiguous arcs, any arc before the last appears whole at its predicted offset |
| `TopoJson.JoinKeepsEveryArc` | scripts/topojson.py:48-50 | de-duplication at joins: over contiguous arcs, arc i appears whole. It starts at (sum of the earlier lengths) − i, so neighbours share their meeting position exactly once. |
| `TopoJson.JoinClosesRing` | scripts/topojson.py:48-50 | when contiguous arcs end where they began, the joined line is a closed ring |
| `TopoJson.JoinPrefix` | scripts/topojson.py:48-50 | the line chained from the first m arcs is a prefix of the whole line |
| `TopoJson.JoinTailAt` | scripts/topojson.py:48-50 | for any non-empty arcs, contiguous or not, every arc after the first contributes all but its first position. These follow at offset (sum of the earlier lengths) − i + 1. |
| `TopoJson.TotalLengthOfResolved` | scripts/topojson.py:44-49 | resolved arcs keep the lengths of the stored arcs they name |
| `TopoJson.LineLength` | scripts/topojson.py:41-50 | a flat list of n valid references to non-empty arcs decodes. Its length is the sum of the named arcs' lengths minus n-1. |
| `TopoJson.FlatCoordinates` | scripts/topojson.py:41-50 | a valid list starting with an integer decodes to the join of the oriented arcs it names |
| `TopoJson.CoordinatesEachOk` | scripts/topojson.py:51-53 | the nested level succeeds exactly when every entry decodes. It then gives one result per entry, in order, each equal to that entry's own decoding. |
| `TopoJson.CoordinatesOkIffWellFormed` | scripts/topojson.py:41-55 | decoding succeeds if and only if the structure is well formed. Well formed means a non-empty list that is either all valid references or all decodable lists. |
| `TopoJson.CoordinatesPreservesDepth` | scripts/topojson.py:41-53 | the nesting depth of the output equals that of the input |
| `TopoJson.Geometry` | scripts/topojson.py:57-69 | the record's type is the object's type. Its coordinates are `Coordinates` of the object's arcs. It fails exactly when those fail, with the same error, and only on malformed arcs. |
| `TopoJson.GeometryIgnoresKind` | scripts/topojson.py:66-69 | there is no cross-check between type and arcs: objects differing only in type decode alike |
| `WorkedExamples.RunningSumExample` | scripts/topojson.py:16-21 | deltas (1,0),(0,1),(1,0) with unit scale and zero translate decode to (1,0),(1,1),(2,1) |
| `WorkedExamples.ThreeUnitDeltas` | scripts/topojson.py:16-21 | with unit scale and zero translate, three deltas decode to their running sums |
| `WorkedExamples.TwoDeltas` | scripts/topojson.py:16-21 | two deltas decode to the transformed first delta, then the transformed sum |
| `WorkedExamples.PlainArc` | scripts/topojson.py:45-48 | without a transform, a sample reference gives the stored arc, reversed when negative |
| `WorkedExamples.JoinTwo` | scripts/topojson.py:48-50 | two two-point arcs join into three positions |
| `WorkedExamples.JoinThree` | scripts/topojson.py:48-50 | three two-point arcs join into four positions |
| `WorkedExamples.JoinFour` | scripts/topojson.py:48-50 | four two-point arcs join into five positions |
| `WorkedExamples.DisjointArcsLosePosition` | scripts/topojson.py:48-50 | arcs (0,0)-(1,0) and (5,5)-(6,6), which do not meet, join to (0,0),(1,0),(6,6): the start (5,5) of the second arc is lost |
| `WorkedExamples.FlatOne` | scripts/topojson.py:41-50 | a one-reference list decodes to its oriented arc |
| `WorkedExamples.FlatTwo` | scripts/topojson.py:41-50 | a two-reference list decodes to the join of its two oriented arcs |
| `WorkedExamples.FlatThree` | scripts/topojson.py:41-50 | a three-reference list decodes to the join of its three oriented arcs |
| `WorkedExamples.FlatFour` | scripts/topojson.py:41-50 | a four-reference list decodes to the join of its four oriented arcs |
| `WorkedExamples.NestedOne` | scripts/topojson.py:51-53 | a list holding one decodable list decodes to a list of one |
| `WorkedExamples.SingleArcLineString` | scripts/topojson.py:101 | the line string `[0]` over the sample arcs is arc 0 |
| `WorkedExamples.SharedJoinAppearsOnce` | scripts/topojson.py:104 | the line string `[0, 1]` is (0,0),(1,0),(0,1): the shared point (1,0) appears once |
| `WorkedExamples.SamplePolygonRing` | scripts/topojson.py:107 | the first sample polygon without a transform is the closed ring (0,0),(1,0),(0,1),(0,0) |
| `WorkedExamples.ReversedRing` | scripts/topojson.py:45-50 | the ring `[~2, ~4, ~3, ~0]` walks the square backwards and closes |
| `WorkedExamples.SampleTransformedPolygon` | scripts/topojson.py:110 | the second sample polygon under the sample transform is the transform of (1,0),(2,1),(1,2),(1,1) |
| `WorkedExamples.TransformedPolygon` | scripts/topojson.py:45-53 | under any scale and translate, the polygon `[[3, 4, 1]]` over the sample arcs is one ring: the transform of the running sums (1,0),(2,1),(1,2),(1,1) |
| `WorkedExamples.TransformedRingDecodes` | scripts/topojson.py:41-50 | any arc table holding the sample arcs 1, 3 and 4 decodes the line `[3, 4, 1]` to the transformed running sums |
| `WorkedExamples.NestingDepths` | scripts/topojson.py:41-53 | `[0]`, `[[0,1,2]]` and `[[[0,1,2]]]` decode at depths 1, 2 and 3 |
| `WorkedExamples.MalformedExamples` | scripts/topojson.py:41-55 | each error case, with its own error: an index past the table, an empty list, a first entry of another kind, a non-integer after an integer, a non-list entry in a nested list, and a bare integer |

## Left out

- `scripts/topo2geojson.py` is not part of this model. It is a command-line script that reads and writes files and repairs shapes through Shapely's `buffer(0)`, a library whose behaviour is not visible here.
- `scripts/download_east_baton_rouge_precincts.py` is not part of this model. It only fetches data over HTTP and writes a file.
- The `__main__` block of `scripts/topojson.py` parses JSON and prints. Only its sample data is used, in the worked examples.
- Floating point: numbers are exact reals, so the IEEE rounding of `scale*a + translate` is not modelled.
- Python truthiness of `scale` and `translate` is modelled as present (`Some`) or absent (`None`). `None` and an empty list are both absent. A vector with fewer than two entries is not modelled; it would raise `IndexError`.
- Positions with other than two numbers are not modelled. They would fail to unpack, and a third coordinate would not be carried through.
- `rel2abs` is a lazy generator; the model produces the whole sequence at once.
- `TopoJson.Geometry`: a topology object missing its `type` or `arcs` key would raise `KeyError`. The model's object always has both.
- The exact Python exception class is not modelled. For example, a string where a list is expected is indexed like a list and then fails with `ValueError`; the model reports `NotAList` for it. Every failure aborts the call, as in the source.
- Python 2 distinctions between `int`, `long` and `bool` are not modelled: every integer is an arc reference.
