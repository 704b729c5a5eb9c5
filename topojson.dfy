/**
  A model of the TopoJSON to GeoJSON geometry decoder of `scripts/topojson.py`.

  A TopoJSON topology stores every polyline once, as an "arc"; geometries
  refer to arcs by signed index, a negative index `k` meaning arc `~k`
  walked backwards. Under a quantizing transform an arc holds deltas
  between consecutive positions rather than positions. The decoder turns
  one arc into absolute positions (`Rel2Abs`), resolves a nested structure
  of arc references into GeoJSON coordinates (`Coordinates`) and wraps them
  with the object's type (`Geometry`).

  Numbers are exact reals: the floating-point rounding of the source is not
  modelled.
*/
module TopoJson {

  // ---------------------------------------------------------------------
  // Values
  // ---------------------------------------------------------------------

  /** Two numbers: a position, a delta between positions, or the two
      components of a transform's scale or translate vector. */
  datatype Pair = Pair(x: real, y: real)

  /** A JSON value found where arc references are expected: an integer
      (an arc reference), a list of such values, or anything else
      (a float, a string, null, an object). */
  datatype ArcRefs = Index(ref: int) | List(items: seq<ArcRefs>) | OtherValue

  /** GeoJSON coordinates as the decoder builds them: a flat list of
      positions (a line or a ring) or a list of nested coordinates. */
  datatype Coords = Points(points: seq<Pair>) | Nested(parts: seq<Coords>)

  /** The ways decoding can fail. Each stands for the exception the source
      raises at that point. */
  datatype DecodeError =
    | EmptyRefs                   // `arcs[0]` on an empty list
    | NotAList                    // `arcs[0]` on a value that is not a list
    | NotAnIndex                  // a later entry of a flat reference list is not an integer
    | ArcIndexOutOfRange(ref: int) // `topology_arcs[...]` with no such arc
    | InvalidLeaf                 // the `ValueError` for a first entry of any other kind

  datatype Result<T> = Ok(value: T) | Err(error: DecodeError) {
    predicate IsFailure() { Err? }
    function PropagateFailure<U>(): Result<U>
      requires Err?
    {
      Err(error)
    }
    function Extract(): T
      requires Ok?
    {
      value
    }
  }

  datatype Option<T> = None | Some(value: T)

  /** A topology object: its `type` member and its `arcs` member. */
  datatype TopoObject = TopoObject(kind: string, arcs: ArcRefs)

  /** The GeoJSON-shaped record that `geometry` returns. */
  datatype GeoJsonGeometry = GeoJsonGeometry(kind: string, coordinates: Coords)

  // ---------------------------------------------------------------------
  // Arc decoding (rel2abs)
  // ---------------------------------------------------------------------

  function Add(p: Pair, q: Pair): Pair { Pair(p.x + q.x, p.y + q.y) }

  function Sub(p: Pair, q: Pair): Pair { Pair(p.x - q.x, p.y - q.y) }

  /** The transform of section 2.1.2 of the TopoJSON format: scale, then translate. */
  function Affine(scale: Pair, translate: Pair, p: Pair): Pair
  {
    Pair(scale.x * p.x + translate.x, scale.y * p.y + translate.y)
  }

  /** The source applies the transform only when both vectors are present
      (Python truthiness: `None` and an empty list count as absent). */
  predicate HasTransform(scale: Option<Pair>, translate: Option<Pair>)
  {
    scale.Some? && translate.Some?
  }

  /** The sum of a sequence of deltas. */
  function DeltaSum(deltas: seq<Pair>): Pair
  {
    if deltas == [] then Pair(0.0, 0.0) else Add(deltas[0], DeltaSum(deltas[1..]))
  }

  lemma {:induction false} DeltaSumSnoc(deltas: seq<Pair>, d: Pair)
    ensures DeltaSum(deltas + [d]) == Add(DeltaSum(deltas), d)
  {
    if deltas != [] {
      assert (deltas + [d])[1..] == deltas[1..] + [d];
      DeltaSumSnoc(deltas[1..], d);
    }
  }

  /** The generator of the transformed branch: emit the transformed running
      sum after adding each delta. */
  function Accumulate(deltas: seq<Pair>, running: Pair, scale: Pair, translate: Pair): (r: seq<Pair>)
    ensures |r| == |deltas|
  {
    if deltas == [] then []
    else
      var next := Add(running, deltas[0]);
      [Affine(scale, translate, next)] + Accumulate(deltas[1..], next, scale, translate)
  }

  lemma {:induction false} AccumulateAt(deltas: seq<Pair>, running: Pair, scale: Pair, translate: Pair, k: nat)
    requires k < |deltas|
    ensures Accumulate(deltas, running, scale, translate)[k]
            == Affine(scale, translate, Add(running, DeltaSum(deltas[..k + 1])))
  {
    if k > 0 {
      AccumulateAt(deltas[1..], Add(running, deltas[0]), scale, translate, k - 1);
      assert deltas[..k + 1][1..] == deltas[1..][..k];
    }
  }

  /** The value of `list(rel2abs(arc, scale, translate))`. */
  function DecodeArc(arc: seq<Pair>, scale: Option<Pair>, translate: Option<Pair>): seq<Pair>
  {
    if HasTransform(scale, translate) then Accumulate(arc, Pair(0.0, 0.0), scale.value, translate.value)
    else arc
  }

  /** One position per entry; without a transform the entries themselves;
      with one, the k-th position is the transformed sum of the first k+1 deltas. */
  lemma DecodeArcSpec(arc: seq<Pair>, scale: Option<Pair>, translate: Option<Pair>)
    ensures |DecodeArc(arc, scale, translate)| == |arc|
    ensures !HasTransform(scale, translate) ==> DecodeArc(arc, scale, translate) == arc
    ensures HasTransform(scale, translate) ==>
      forall k :: 0 <= k < |arc| ==>
        DecodeArc(arc, scale, translate)[k] == Affine(scale.value, translate.value, DeltaSum(arc[..k + 1]))
  {
    if HasTransform(scale, translate) {
      forall k | 0 <= k < |arc|
        ensures DecodeArc(arc, scale, translate)[k] == Affine(scale.value, translate.value, DeltaSum(arc[..k + 1]))
      {
        AccumulateAt(arc, Pair(0.0, 0.0), scale.value, translate.value, k);
      }
    }
  }

  /** `rel2abs`: the delta decoding loop with its running sums `a` and `b`. */
  method Rel2Abs(arc: seq<Pair>, scale: Option<Pair>, translate: Option<Pair>) returns (points: seq<Pair>)
    ensures |points| == |arc|
    ensures !HasTransform(scale, translate) ==> points == arc
    ensures HasTransform(scale, translate) ==>
      forall k :: 0 <= k < |arc| ==>
        points[k] == Affine(scale.value, translate.value, DeltaSum(arc[..k + 1]))
    ensures points == DecodeArc(arc, scale, translate)
  {
    points := [];
    if HasTransform(scale, translate) {
      var s, t := scale.value, translate.value;
      var a, b := 0.0, 0.0;
      for i := 0 to |arc|
        invariant Pair(a, b) == DeltaSum(arc[..i])
        invariant |points| == i
        invariant forall k :: 0 <= k < i ==> points[k] == Affine(s, t, DeltaSum(arc[..k + 1]))
      {
        assert arc[..i + 1] == arc[..i] + [arc[i]];
        DeltaSumSnoc(arc[..i], arc[i]);
        a := a + arc[i].x;
        b := b + arc[i].y;
        assert Pair(a, b) == DeltaSum(arc[..i + 1]);
        ghost var before := points;
        points := points + [Affine(s, t, Pair(a, b))];
        assert forall k :: 0 <= k < i ==> points[k] == before[k];
      }
    } else {
      for i := 0 to |arc|
        invariant points == arc[..i]
      {
        points := points + [arc[i]];
      }
      assert arc[..|arc|] == arc;
    }
    DecodeArcSpec(arc, scale, translate);
  }

  /** Delta encoding, the inverse of the prefix sum: the first position,
      then each position minus its predecessor. */
  function Deltas(positions: seq<Pair>): (r: seq<Pair>)
    ensures |r| == |positions|
  {
    seq(|positions|, i requires 0 <= i < |positions| =>
      if i == 0 then positions[0] else Sub(positions[i], positions[i - 1]))
  }

  lemma {:induction false} DeltasTelescope(positions: seq<Pair>, k: nat)
    requires k < |positions|
    ensures DeltaSum(Deltas(positions)[..k + 1]) == positions[k]
  {
    var d := Deltas(positions);
    if k == 0 {
      assert d[..1] == [positions[0]];
      assert DeltaSum(d[..1]) == Add(positions[0], DeltaSum([]));
    } else {
      DeltasTelescope(positions, k - 1);
      assert d[..k + 1] == d[..k] + [d[k]];
      DeltaSumSnoc(d[..k], d[k]);
    }
  }

  /** Decoding the delta encoding of quantized positions yields their
      transformed images, one for one. */
  lemma DeltaRoundTrip(positions: seq<Pair>, scale: Pair, translate: Pair)
    ensures DecodeArc(Deltas(positions), Some(scale), Some(translate))
            == seq(|positions|, i requires 0 <= i < |positions| => Affine(scale, translate, positions[i]))
  {
    var decoded := DecodeArc(Deltas(positions), Some(scale), Some(translate));
    DecodeArcSpec(Deltas(positions), Some(scale), Some(translate));
    forall k | 0 <= k < |positions|
      ensures decoded[k] == Affine(scale, translate, positions[k])
    {
      DeltasTelescope(positions, k);
    }
  }

  // ---------------------------------------------------------------------
  // Arc references (section 2.1.4 of the TopoJSON format)
  // ---------------------------------------------------------------------

  /** `arc if arc >= 0 else ~arc`, with Python's `~k` being `-k - 1`. */
  function ArcIndex(ref: int): (i: nat)
    ensures ref >= 0 ==> i == ref
    ensures ref < 0 ==> i == -ref - 1
  {
    if ref >= 0 then ref else -ref - 1
  }

  /** A reference and its complement select the same arc, and every arc
      has exactly one forward and one backward reference. */
  lemma ComplementSelectsSameArc(k: nat)
    ensures ArcIndex(k) == k && ArcIndex(-(k as int) - 1) == k
    ensures forall ref :: ArcIndex(ref) == k ==> ref == k || ref == -(k as int) - 1
  {
  }

  /** Python's `s[::-1]`. */
  function Reverse(s: seq<Pair>): (r: seq<Pair>)
    ensures |r| == |s|
    ensures forall i :: 0 <= i < |s| ==> r[i] == s[|s| - 1 - i]
  {
    seq(|s|, i requires 0 <= i < |s| => s[|s| - 1 - i])
  }

  /** Reversal walks the same positions the other way round: nothing is
      added or lost, and the endpoints swap. */
  lemma {:induction false} ReversePermutes(s: seq<Pair>)
    ensures multiset(Reverse(s)) == multiset(s)
    ensures s != [] ==> Reverse(s)[0] == Last(s) && Last(Reverse(s)) == s[0]
  {
    if s != [] {
      ReversePermutes(s[1..]);
      assert Reverse(s) == Reverse(s[1..]) + [s[0]];
      assert s == [s[0]] + s[1..];
    }
  }

  lemma ReverseReverse(s: seq<Pair>)
    ensures Reverse(Reverse(s)) == s
  {
  }

  /** `s[::arc >= 0 or -1]`: keep the decoded arc for a forward reference,
      reverse it for a backward one. */
  function Orient(decoded: seq<Pair>, ref: int): seq<Pair>
  {
    if ref >= 0 then decoded else Reverse(decoded)
  }

  predicate ValidRef(topologyArcs: seq<seq<Pair>>, v: ArcRefs)
  {
    v.Index? && ArcIndex(v.ref) < |topologyArcs|
  }

  /** The decoded, oriented arc that a valid reference stands for. */
  function OrientedArc(topologyArcs: seq<seq<Pair>>, scale: Option<Pair>, translate: Option<Pair>, ref: int): seq<Pair>
    requires ArcIndex(ref) < |topologyArcs|
  {
    Orient(DecodeArc(topologyArcs[ArcIndex(ref)], scale, translate), ref)
  }

  /** Reversal via one's complement: reference `~k` yields exactly the
      positions of reference `k`, last to first, and the same number of them. */
  lemma ReversedReference(topologyArcs: seq<seq<Pair>>, scale: Option<Pair>, translate: Option<Pair>, k: nat)
    requires k < |topologyArcs|
    ensures OrientedArc(topologyArcs, scale, translate, -(k as int) - 1)
            == Reverse(OrientedArc(topologyArcs, scale, translate, k))
    ensures |OrientedArc(topologyArcs, scale, translate, k)| == |topologyArcs[k]|
    ensures |OrientedArc(topologyArcs, scale, translate, -(k as int) - 1)| == |topologyArcs[k]|
  {
    DecodeArcSpec(topologyArcs[k], scale, translate);
  }

  // ---------------------------------------------------------------------
  // Flat level: one line or ring from a list of references
  // ---------------------------------------------------------------------

  /** Decode and orient one entry of a flat reference list. */
  function ResolveOne(topologyArcs: seq<seq<Pair>>, scale: Option<Pair>, translate: Option<Pair>, v: ArcRefs): (r: Result<seq<Pair>>)
    ensures r.Ok? <==> ValidRef(topologyArcs, v)
    ensures r.Ok? ==> r.value == OrientedArc(topologyArcs, scale, translate, v.ref)
  {
    match v
    case Index(ref) =>
      if ArcIndex(ref) < |topologyArcs| then Ok(OrientedArc(topologyArcs, scale, translate, ref))
      else Err(ArcIndexOutOfRange(ref))
    case _ => Err(NotAnIndex)
  }

  /** The oriented arcs of a flat reference list, in order; the first entry
      that cannot be resolved stops the whole list. */
  function ResolveAll(topologyArcs: seq<seq<Pair>>, scale: Option<Pair>, translate: Option<Pair>, items: seq<ArcRefs>): Result<seq<seq<Pair>>>
  {
    if items == [] then Ok([])
    else
      var head :- ResolveOne(topologyArcs, scale, translate, items[0]);
      var rest :- ResolveAll(topologyArcs, scale, translate, items[1..]);
      Ok([head] + rest)
  }

  /** Resolution succeeds exactly when every entry is an integer naming an
      existing arc, and then yields the oriented arc of each entry in order. */
  lemma {:induction false} ResolveAllOk(topologyArcs: seq<seq<Pair>>, scale: Option<Pair>, translate: Option<Pair>, items: seq<ArcRefs>)
    ensures ResolveAll(topologyArcs, scale, translate, items).Ok?
            <==> forall i :: 0 <= i < |items| ==> ValidRef(topologyArcs, items[i])
    ensures ResolveAll(topologyArcs, scale, translate, items).Ok? ==>
      var parts := ResolveAll(topologyArcs, scale, translate, items).value;
      |parts| == |items| &&
      forall i :: 0 <= i < |items| ==> parts[i] == OrientedArc(topologyArcs, scale, translate, items[i].ref)
  {
    if items != [] {
      ResolveAllOk(topologyArcs, scale, translate, items[1..]);
      if !ValidRef(topologyArcs, items[0]) {
        assert !(forall i :: 0 <= i < |items| ==> ValidRef(topologyArcs, items[i]));
      } else if (forall i :: 0 <= i < |items| ==> ValidRef(topologyArcs, items[i])) {
        assert forall i :: 0 <= i < |items| - 1 ==> items[1..][i] == items[i + 1];
      } else {
        var j :| 0 <= j < |items| && !ValidRef(topologyArcs, items[j]);
        assert items[1..][j - 1] == items[j];
      }
    }
  }

  /** On failure the error is the one of the first entry that cannot be
      resolved. */
  lemma {:induction false} ResolveAllFirstError(topologyArcs: seq<seq<Pair>>, scale: Option<Pair>, translate: Option<Pair>, items: seq<ArcRefs>)
    requires ResolveAll(topologyArcs, scale, translate, items).Err?
    ensures exists j :: (0 <= j < |items| &&
      (forall i :: 0 <= i < j ==> ValidRef(topologyArcs, items[i])) &&
      ResolveOne(topologyArcs, scale, translate, items[j])
        == Err(ResolveAll(topologyArcs, scale, translate, items).error))
  {
    var e := ResolveAll(topologyArcs, scale, translate, items).error;
    if ResolveOne(topologyArcs, scale, translate, items[0]).Err? {
      assert ResolveOne(topologyArcs, scale, translate, items[0]) == Err(e);
    } else {
      ResolveAllFirstError(topologyArcs, scale, translate, items[1..]);
      var j :| 0 <= j < |items[1..]| &&
        (forall i :: 0 <= i < j ==> ValidRef(topologyArcs, items[1..][i])) &&
        ResolveOne(topologyArcs, scale, translate, items[1..][j]) == Err(e);
      assert forall i :: 0 <= i < j + 1 ==> ValidRef(topologyArcs, items[i]) by {
        forall i | 0 <= i < j + 1 ensures ValidRef(topologyArcs, items[i]) {
          if i > 0 { assert items[i] == items[1..][i - 1]; }
        }
      }
      assert items[j + 1] == items[1..][j];
    }
  }

  /** Python's `p[1:]`: everything but the first position (empty stays empty). */
  function DropFirst(p: seq<Pair>): seq<Pair>
  {
    if p == [] then [] else p[1..]
  }

  /** `chain.from_iterable` of `part[i > 0:]`: the first arc whole, every
      later arc without its first position. */
  function Join(parts: seq<seq<Pair>>): seq<Pair>
  {
    if parts == [] then []
    else if |parts| == 1 then parts[0]
    else Join(parts[..|parts| - 1]) + DropFirst(parts[|parts| - 1])
  }

  /** The number of positions in all parts together. */
  function TotalLength(parts: seq<seq<Pair>>): nat
  {
    if parts == [] then 0 else TotalLength(parts[..|parts| - 1]) + |parts[|parts| - 1]|
  }

  predicate NonEmptyParts(parts: seq<seq<Pair>>)
  {
    forall i :: 0 <= i < |parts| ==> parts[i] != []
  }

  function Last(p: seq<Pair>): Pair
    requires p != []
  {
    p[|p| - 1]
  }

  /** Consecutive arcs meet: each arc starts where the previous one ends.
      The neighbour is named by a second bound variable rather than as
      `parts[i - 1]`, which would let the quantifier trigger on its own
      instances without end. */
  ghost predicate Contiguous(parts: seq<seq<Pair>>)
  {
    NonEmptyParts(parts) &&
    forall i, j :: 0 <= i < j < |parts| && j == i + 1 ==> parts[j][0] == Last(parts[i])
  }

  /** Every join removes exactly one position. */
  lemma {:induction false} JoinLength(parts: seq<seq<Pair>>)
    requires parts != [] && NonEmptyParts(parts)
    ensures |Join(parts)| == TotalLength(parts) - (|parts| - 1)
  {
    if |parts| > 1 {
      JoinLength(parts[..|parts| - 1]);
    }
    if |parts| == 1 {
      assert parts[..0] == [];
    }
  }

  /** The first arc contributes all of its positions, whatever follows. */
  lemma {:induction false} JoinStartsWithFirst(parts: seq<seq<Pair>>)
    requires parts != []
    ensures parts[0] <= Join(parts)
  {
    if |parts| > 1 {
      JoinStartsWithFirst(parts[..|parts| - 1]);
    }
  }

  /** Over contiguous arcs the joined line ends where the last arc ends. */
  lemma {:induction false} JoinEndsWithLast(parts: seq<seq<Pair>>)
    requires parts != [] && Contiguous(parts)
    ensures Join(parts) != []
    ensures Last(Join(parts)) == Last(parts[|parts| - 1])
  {
    var n := |parts|;
    if n > 1 {
      var init := parts[..n - 1];
      assert Contiguous(init);
      JoinEndsWithLast(init);
    }
  }

  /** Over contiguous arcs the last arc appears whole at the end of the
      joined line, sharing its first position with the line before it. */
  lemma JoinEndsWithLastArc(parts: seq<seq<Pair>>)
    requires |parts| > 1 && Contiguous(parts)
    ensures |Join(parts[..|parts| - 1])| > 0
    ensures Join(parts)[|Join(parts[..|parts| - 1])| - 1 ..] == parts[|parts| - 1]
  {
    var n := |parts|;
    var init := parts[..n - 1];
    assert Contiguous(init);
    JoinEndsWithLast(init);
    var last := parts[n - 1];
    assert last[0] == Last(init[n - 2]);
    assert Join(parts)[|Join(init)| - 1 ..] == [last[0]] + last[1..];
  }

  /** Joining one more arc only appends to the line. */
  lemma JoinExtends(parts: seq<seq<Pair>>)
    requires |parts| > 1
    ensures Join(parts[..|parts| - 1]) <= Join(parts)
  {
  }

  lemma SliceOfPrefix(line: seq<Pair>, longer: seq<Pair>, lo: int, hi: int)
    requires line <= longer && 0 <= lo <= hi <= |line|
    ensures longer[lo..hi] == line[lo..hi]
  {
  }

  /** The last arc of a contiguous list sits at the end of the joined line,
      at the offset its predecessors' lengths predict. */
  lemma JoinKeepsLastArc(parts: seq<seq<Pair>>)
    requires |parts| > 1 && Contiguous(parts)
    ensures AppearsWhole(Join(parts), parts, |parts| - 1)
  {
    var n := |parts|;
    var init := parts[..n - 1];
    assert NonEmptyParts(init);
    JoinLength(init);
    JoinEndsWithLastArc(parts);
    var start := TotalLength(init) - (n - 1);
    assert start + |parts[n - 1]| == |Join(parts)|;
    assert Join(parts)[start ..] == parts[n - 1];
  }

  /** Arc i of `parts` occurs whole in `line`, starting at the sum of the
      lengths of the arcs before it minus one position per earlier join. */
  ghost predicate AppearsWhole(line: seq<Pair>, parts: seq<seq<Pair>>, i: nat)
    requires i < |parts|
  {
    var start := TotalLength(parts[..i]) - i;
    0 <= start && start + |parts[i]| <= |line| && line[start .. start + |parts[i]|] == parts[i]
  }

  /** De-duplication at joins: over contiguous arcs every arc appears whole
      in the joined line, and consecutive arcs share their meeting position
      once (arc i + 1 starts where arc i ends). */
  lemma {:induction false} JoinKeepsEveryArc(parts: seq<seq<Pair>>, i: nat)
    requires Contiguous(parts) && i < |parts|
    ensures AppearsWhole(Join(parts), parts, i)
    decreases |parts|, 1
  {
    if i == 0 {
      JoinKeepsFirstArc(parts);
    } else if i < |parts| - 1 {
      JoinKeepsEarlierArc(parts, i);
    } else {
      JoinKeepsLastArc(parts);
    }
  }

  lemma JoinKeepsFirstArc(parts: seq<seq<Pair>>)
    requires parts != []
    ensures AppearsWhole(Join(parts), parts, 0)
  {
    JoinStartsWithFirst(parts);
    assert parts[..0] == [];
  }

  lemma {:induction false} JoinKeepsEarlierArc(parts: seq<seq<Pair>>, i: nat)
    requires Contiguous(parts) && i < |parts| - 1
    ensures AppearsWhole(Join(parts), parts, i)
    decreases |parts|, 0
  {
    var init := parts[..|parts| - 1];
    ContiguousInit(parts);
    JoinKeepsEveryArc(init, i);
    assert init[..i] == parts[..i] && init[i] == parts[i];
    var start := TotalLength(parts[..i]) - i;
    var end := start + |parts[i]|;
    assert 0 <= start && end <= |Join(init)| && Join(init)[start .. end] == parts[i];
    JoinExtends(parts);
    SliceOfPrefix(Join(init), Join(parts), start, end);
  }

  lemma ContiguousInit(parts: seq<seq<Pair>>)
    requires |parts| > 1 && Contiguous(parts)
    ensures Contiguous(parts[..|parts| - 1])
  {
  }

  /** Arcs are never empty in a well-formed topology, so there are at least
      as many positions as arcs. */
  lemma {:induction false} TotalLengthAtLeastCount(parts: seq<seq<Pair>>)
    requires NonEmptyParts(parts)
    ensures TotalLength(parts) >= |parts|
  {
    if parts != [] {
      var init := parts[..|parts| - 1];
      assert NonEmptyParts(init);
      TotalLengthAtLeastCount(init);
    }
  }

  /** What the join does to a later arc whether or not it meets its
      predecessor: its first position is dropped, and the rest of it
      follows at the offset its predecessors' lengths predict.  When the
      arcs do not meet, the dropped position is not a duplicate. */
  lemma JoinTailAt(parts: seq<seq<Pair>>, i: nat)
    requires NonEmptyParts(parts) && 0 < i < |parts|
    ensures TotalLength(parts[..i]) >= i
    ensures TotalLength(parts[..i]) - i + |parts[i]| <= |Join(parts)|
    ensures Join(parts)[TotalLength(parts[..i]) - i + 1 .. TotalLength(parts[..i]) - i + |parts[i]|]
            == parts[i][1..]
  {
    JoinTailOfPrefix(parts, i);
    JoinPrefix(parts, i + 1);
    var start := TotalLength(parts[..i]) - i;
    SliceOfPrefix(Join(parts[..i + 1]), Join(parts), start + 1, start + |parts[i]|);
  }

  /** The line joined from the first m arcs is a prefix of the whole line. */
  lemma {:induction false} JoinPrefix(parts: seq<seq<Pair>>, m: nat)
    requires 0 < m <= |parts|
    ensures Join(parts[..m]) <= Join(parts)
    decreases |parts| - m
  {
    if m < |parts| {
      JoinPrefix(parts, m + 1);
      var longer := parts[..m + 1];
      assert longer[..m] == parts[..m];
      JoinExtends(longer);
    } else {
      assert parts[..m] == parts;
    }
  }

  /** Arc i, without its first position, ends the line joined from arcs
      0 to i. */
  lemma JoinTailOfPrefix(parts: seq<seq<Pair>>, i: nat)
    requires NonEmptyParts(parts) && 0 < i < |parts|
    ensures TotalLength(parts[..i]) >= i
    ensures |Join(parts[..i + 1])| == TotalLength(parts[..i]) - i + |parts[i]|
    ensures Join(parts[..i + 1])[TotalLength(parts[..i]) - i + 1 ..] == parts[i][1..]
  {
    var init := parts[..i];
    var upto := parts[..i + 1];
    assert upto[..i] == init && upto[i] == parts[i];
    assert NonEmptyParts(init);
    TotalLengthAtLeastCount(init);
    JoinLength(init);
    assert DropFirst(parts[i]) == parts[i][1..];
    assert Join(upto) == Join(init) + parts[i][1..];
  }

  /** The joined line closes into a ring when the last arc ends where the
      first begins. */
  lemma JoinClosesRing(parts: seq<seq<Pair>>)
    requires parts != [] && Contiguous(parts)
    requires Last(parts[|parts| - 1]) == parts[0][0]
    ensures Join(parts) != [] && Join(parts)[0] == Last(Join(parts))
  {
    JoinStartsWithFirst(parts);
    JoinEndsWithLast(parts);
  }

  /** The flat level of `coordinates`: one line from a list of references. */
  function Line(topologyArcs: seq<seq<Pair>>, scale: Option<Pair>, translate: Option<Pair>, items: seq<ArcRefs>): Result<seq<Pair>>
  {
    var parts :- ResolveAll(topologyArcs, scale, translate, items);
    Ok(Join(parts))
  }

  /** The sum of the lengths of the stored arcs that a list of valid
      references names. */
  function ReferencedLength(topologyArcs: seq<seq<Pair>>, items: seq<ArcRefs>): nat
    requires forall i :: 0 <= i < |items| ==> ValidRef(topologyArcs, items[i])
  {
    if items == [] then 0
    else
      assert ValidRef(topologyArcs, items[|items| - 1]);
      ReferencedLength(topologyArcs, items[..|items| - 1]) + |topologyArcs[ArcIndex(items[|items| - 1].ref)]|
  }

  lemma {:induction false} TotalLengthOfResolved(topologyArcs: seq<seq<Pair>>, scale: Option<Pair>, translate: Option<Pair>,
                                                 items: seq<ArcRefs>, parts: seq<seq<Pair>>)
    requires |parts| == |items|
    requires forall i :: 0 <= i < |items| ==>
      ValidRef(topologyArcs, items[i]) && parts[i] == OrientedArc(topologyArcs, scale, translate, items[i].ref)
    ensures TotalLength(parts) == ReferencedLength(topologyArcs, items)
    ensures forall i :: 0 <= i < |items| ==> |parts[i]| == |topologyArcs[ArcIndex(items[i].ref)]|
  {
    forall i | 0 <= i < |items| ensures |parts[i]| == |topologyArcs[ArcIndex(items[i].ref)]| {
      DecodeArcSpec(topologyArcs[ArcIndex(items[i].ref)], scale, translate);
    }
    if items != [] {
      var n := |items|;
      TotalLengthOfResolved(topologyArcs, scale, translate, items[..n - 1], parts[..n - 1]);
    }
  }

  /** Output length of a flat list of n references to non-empty arcs:
      the lengths of the named arcs summed, minus one per join. */
  lemma LineLength(topologyArcs: seq<seq<Pair>>, scale: Option<Pair>, translate: Option<Pair>, items: seq<ArcRefs>)
    requires items != []
    requires forall i :: 0 <= i < |items| ==>
      ValidRef(topologyArcs, items[i]) && topologyArcs[ArcIndex(items[i].ref)] != []
    ensures Line(topologyArcs, scale, translate, items).Ok?
    ensures |Line(topologyArcs, scale, translate, items).value| == ReferencedLength(topologyArcs, items) - (|items| - 1)
  {
    ResolveAllOk(topologyArcs, scale, translate, items);
    var parts := ResolveAll(topologyArcs, scale, translate, items).value;
    TotalLengthOfResolved(topologyArcs, scale, translate, items, parts);
    JoinLength(parts);
  }

  // ---------------------------------------------------------------------
  // coordinates
  // ---------------------------------------------------------------------

  /** `coordinates(arcs, topology_arcs, scale, translate)`: the kind of the
      first entry decides whether the list is one line or a list of
      nested structures. */
  function Coordinates(arcs: ArcRefs, topologyArcs: seq<seq<Pair>>, scale: Option<Pair>, translate: Option<Pair>): Result<Coords>
    decreases arcs, 1
  {
    match arcs
    case List(items) =>
      if items == [] then Err(EmptyRefs)
      else (
        match items[0]
        case Index(_) =>
          var points :- Line(topologyArcs, scale, translate, items);
          Ok(Points(points))
        case List(_) =>
          var parts :- CoordinatesEach(arcs, items, topologyArcs, scale, translate);
          Ok(Nested(parts))
        case OtherValue => Err(InvalidLeaf))
    case _ => Err(NotAList)
  }

  /** `list(coordinates(arc, ...) for arc in arcs)`, stopping at the first error. */
  function CoordinatesEach(ghost parent: ArcRefs, items: seq<ArcRefs>, topologyArcs: seq<seq<Pair>>,
                           scale: Option<Pair>, translate: Option<Pair>): Result<seq<Coords>>
    requires forall i :: 0 <= i < |items| ==> items[i] < parent
    decreases parent, 0, |items|
  {
    if items == [] then Ok([])
    else
      var head :- Coordinates(items[0], topologyArcs, scale, translate);
      var rest :- CoordinatesEach(parent, items[1..], topologyArcs, scale, translate);
      Ok([head] + rest)
  }

  /** A reference structure that decodes: a non-empty list whose entries are
      all integers naming existing arcs, or whose first entry is a list and
      whose entries all decode. */
  predicate WellFormed(arcs: ArcRefs, arcCount: nat)
  {
    match arcs
    case List(items) =>
      items != [] &&
      ((items[0].Index? && forall i :: 0 <= i < |items| ==> items[i].Index? && ArcIndex(items[i].ref) < arcCount)
       || (items[0].List? && forall i :: 0 <= i < |items| ==> WellFormed(items[i], arcCount)))
    case _ => false
  }

  /** The nesting depth that the dispatch on first entries sees. */
  function RefsDepth(arcs: ArcRefs): nat
  {
    match arcs
    case Index(_) => 0
    case OtherValue => 0
    case List(items) => 1 + (if items == [] then 0 else RefsDepth(items[0]))
  }

  function CoordsDepth(c: Coords): nat
  {
    match c
    case Points(_) => 1
    case Nested(parts) => 1 + (if parts == [] then 0 else CoordsDepth(parts[0]))
  }

  /** The nested level maps element-wise: success exactly when every entry
      decodes, one result per entry in order. */
  lemma {:induction false} CoordinatesEachOk(parent: ArcRefs, items: seq<ArcRefs>, topologyArcs: seq<seq<Pair>>,
                                            scale: Option<Pair>, translate: Option<Pair>)
    requires forall i :: 0 <= i < |items| ==> items[i] < parent
    ensures CoordinatesEach(parent, items, topologyArcs, scale, translate).Ok?
            <==> forall i :: 0 <= i < |items| ==> Coordinates(items[i], topologyArcs, scale, translate).Ok?
    ensures CoordinatesEach(parent, items, topologyArcs, scale, translate).Ok? ==>
      var parts := CoordinatesEach(parent, items, topologyArcs, scale, translate).value;
      |parts| == |items| &&
      forall i :: 0 <= i < |items| ==> Coordinates(items[i], topologyArcs, scale, translate) == Ok(parts[i])
    decreases |items|
  {
    if items != [] {
      CoordinatesEachOk(parent, items[1..], topologyArcs, scale, translate);
      assert forall i :: 0 < i < |items| ==> items[1..][i - 1] == items[i];
    }
  }

  /** Decoding fails exactly on malformed structures: an empty list, a
      first entry of another kind, a non-list where a list is expected, a
      non-integer after an integer, or a reference to a missing arc. */
  lemma {:induction false} CoordinatesOkIffWellFormed(arcs: ArcRefs, topologyArcs: seq<seq<Pair>>, scale: Option<Pair>, translate: Option<Pair>)
    ensures Coordinates(arcs, topologyArcs, scale, translate).Ok? <==> WellFormed(arcs, |topologyArcs|)
    decreases arcs
  {
    match arcs
    case List(items) =>
      if items != [] {
        match items[0]
        case Index(_) =>
          ResolveAllOk(topologyArcs, scale, translate, items);
        case List(_) =>
          CoordinatesEachOk(arcs, items, topologyArcs, scale, translate);
          forall i | 0 <= i < |items|
            ensures Coordinates(items[i], topologyArcs, scale, translate).Ok? <==> WellFormed(items[i], |topologyArcs|)
          {
            CoordinatesOkIffWellFormed(items[i], topologyArcs, scale, translate);
          }
        case OtherValue =>
      }
    case _ =>
  }

  /** Output nesting mirrors input nesting: a flat list gives positions, a
      list of lists gives one decoded entry per entry, and so the depth is
      preserved. */
  lemma {:induction false} CoordinatesPreservesDepth(arcs: ArcRefs, topologyArcs: seq<seq<Pair>>, scale: Option<Pair>, translate: Option<Pair>)
    requires Coordinates(arcs, topologyArcs, scale, translate).Ok?
    ensures CoordsDepth(Coordinates(arcs, topologyArcs, scale, translate).value) == RefsDepth(arcs)
    decreases arcs
  {
    var items := arcs.items;
    if items[0].List? {
      CoordinatesEachOk(arcs, items, topologyArcs, scale, translate);
      CoordinatesPreservesDepth(items[0], topologyArcs, scale, translate);
    }
  }

  /** The flat level in one statement: a list starting with an integer
      decodes to the join of the oriented arcs it names. */
  lemma FlatCoordinates(items: seq<ArcRefs>, topologyArcs: seq<seq<Pair>>, scale: Option<Pair>, translate: Option<Pair>)
    requires items != [] && items[0].Index?
    requires forall i :: 0 <= i < |items| ==> ValidRef(topologyArcs, items[i])
    ensures Coordinates(List(items), topologyArcs, scale, translate)
            == Ok(Points(Join(seq(|items|, i requires 0 <= i < |items| && ValidRef(topologyArcs, items[i]) => OrientedArc(topologyArcs, scale, translate, items[i].ref)))))
  {
    ResolveAllOk(topologyArcs, scale, translate, items);
    var parts := ResolveAll(topologyArcs, scale, translate, items).value;
    assert parts == seq(|items|, i requires 0 <= i < |items| && ValidRef(topologyArcs, items[i]) => OrientedArc(topologyArcs, scale, translate, items[i].ref));
  }

  // ---------------------------------------------------------------------
  // geometry
  // ---------------------------------------------------------------------

  /** `geometry(obj, topology_arcs, scale, translate)`: the object's type,
      unchecked, with the decoded coordinates of its arcs. */
  function Geometry(obj: TopoObject, topologyArcs: seq<seq<Pair>>, scale: Option<Pair>, translate: Option<Pair>): (r: Result<GeoJsonGeometry>)
    ensures r.Ok? <==> WellFormed(obj.arcs, |topologyArcs|)
    ensures r.Ok? ==> r.value.kind == obj.kind
    ensures r.Ok? ==> Coordinates(obj.arcs, topologyArcs, scale, translate) == Ok(r.value.coordinates)
    ensures r.Err? ==> Coordinates(obj.arcs, topologyArcs, scale, translate) == Err(r.error)
  {
    CoordinatesOkIffWellFormed(obj.arcs, topologyArcs, scale, translate);
    var coordinates :- Coordinates(obj.arcs, topologyArcs, scale, translate);
    Ok(GeoJsonGeometry(obj.kind, coordinates))
  }

  /** No cross-check between type and nesting: objects that differ only in
      their type decode to the same coordinates, or fail alike. */
  lemma GeometryIgnoresKind(kind1: string, kind2: string, arcs: ArcRefs, topologyArcs: seq<seq<Pair>>, scale: Option<Pair>, translate: Option<Pair>)
    ensures Geometry(TopoObject(kind1, arcs), topologyArcs, scale, translate).Ok?
            == Geometry(TopoObject(kind2, arcs), topologyArcs, scale, translate).Ok?
    ensures Geometry(TopoObject(kind1, arcs), topologyArcs, scale, translate).Ok? ==>
            Geometry(TopoObject(kind1, arcs), topologyArcs, scale, translate).value.coordinates
            == Geometry(TopoObject(kind2, arcs), topologyArcs, scale, translate).value.coordinates
  {
  }
}
