/**
  Concrete decodings over the sample topology of `scripts/topojson.py`
  (five two-point arcs and a scale/translate transform), and the error
  each kind of malformed reference structure produces.
*/
module WorkedExamples {
  import opened TopoJson

  /** The sample topology's arcs. */
  function SampleArcs(): seq<seq<Pair>>
  {
    [ [Pair(0.0, 0.0), Pair(1.0, 0.0)],
      [Pair(1.0, 0.0), Pair(0.0, 1.0)],
      [Pair(0.0, 1.0), Pair(0.0, 0.0)],
      [Pair(1.0, 0.0), Pair(1.0, 1.0)],
      [Pair(1.0, 1.0), Pair(0.0, 1.0)] ]
  }

  function SampleScale(): Pair { Pair(0.035896033450880604, 0.005251163636665131) }

  function SampleTranslate(): Pair { Pair(-179.14350338367416, 18.906117143691233) }

  /** Without a transform a reference stands for its stored arc, reversed
      when the reference is negative. */
  lemma PlainArc(ref: int)
    requires ArcIndex(ref) < 5
    ensures OrientedArc(SampleArcs(), None, None, ref)
            == if ref >= 0 then SampleArcs()[ref]
               else [SampleArcs()[-ref - 1][1], SampleArcs()[-ref - 1][0]]
  {
    var arc := SampleArcs()[ArcIndex(ref)];
    assert |arc| == 2;
    if ref < 0 {
      assert Reverse(arc) == [arc[1], arc[0]];
    }
  }

  // The joins and flat decodings below are stated once per list length,
  // each built on the previous one: unfolding `Join` and `Coordinates` on
  // literal sequences directly costs the solver far more.

  /** The join of two two-point arcs. */
  lemma JoinTwo(a: seq<Pair>, b: seq<Pair>)
    requires |a| == 2 && |b| == 2
    ensures Join([a, b]) == [a[0], a[1], b[1]]
  {
    assert [a, b][..1] == [a];
    assert a == [a[0], a[1]];
    assert DropFirst(b) == [b[1]];
    assert Join([a, b]) == Join([a]) + DropFirst(b);
  }

  /** Arcs that do not meet still lose their first position: the join
      keeps (0, 0), (1, 0) and then jumps to (6, 6), dropping (5, 5). */
  lemma DisjointArcsLosePosition()
    ensures Join([[Pair(0.0, 0.0), Pair(1.0, 0.0)], [Pair(5.0, 5.0), Pair(6.0, 6.0)]])
            == [Pair(0.0, 0.0), Pair(1.0, 0.0), Pair(6.0, 6.0)]
  {
    JoinTwo([Pair(0.0, 0.0), Pair(1.0, 0.0)], [Pair(5.0, 5.0), Pair(6.0, 6.0)]);
  }

  /** The join of three two-point arcs. */
  lemma JoinThree(a: seq<Pair>, b: seq<Pair>, c: seq<Pair>)
    requires |a| == 2 && |b| == 2 && |c| == 2
    ensures Join([a, b, c]) == [a[0], a[1], b[1], c[1]]
  {
    assert [a, b, c][..2] == [a, b];
    JoinTwo(a, b);
    assert DropFirst(c) == [c[1]];
    assert Join([a, b, c]) == Join([a, b]) + DropFirst(c);
  }

  /** The join of four two-point arcs. */
  lemma JoinFour(a: seq<Pair>, b: seq<Pair>, c: seq<Pair>, d: seq<Pair>)
    requires |a| == 2 && |b| == 2 && |c| == 2 && |d| == 2
    ensures Join([a, b, c, d]) == [a[0], a[1], b[1], c[1], d[1]]
  {
    assert [a, b, c, d][..3] == [a, b, c];
    JoinThree(a, b, c);
    assert DropFirst(d) == [d[1]];
    assert Join([a, b, c, d]) == Join([a, b, c]) + DropFirst(d);
  }

  /** Flat lists of one to four references decode to the join of the
      oriented arcs they name. */
  lemma FlatOne(arcs: seq<seq<Pair>>, scale: Option<Pair>, translate: Option<Pair>, r0: int)
    requires ArcIndex(r0) < |arcs|
    ensures Coordinates(List([Index(r0)]), arcs, scale, translate)
            == Ok(Points(OrientedArc(arcs, scale, translate, r0)))
  {
    FlatCoordinates([Index(r0)], arcs, scale, translate);
    var o := seq(1, i requires 0 <= i < 1 && ValidRef(arcs, [Index(r0)][i]) => OrientedArc(arcs, scale, translate, [Index(r0)][i].ref));
    assert o == [OrientedArc(arcs, scale, translate, r0)];
  }

  lemma FlatTwo(arcs: seq<seq<Pair>>, scale: Option<Pair>, translate: Option<Pair>, r0: int, r1: int)
    requires ArcIndex(r0) < |arcs| && ArcIndex(r1) < |arcs|
    ensures Coordinates(List([Index(r0), Index(r1)]), arcs, scale, translate)
            == Ok(Points(Join([OrientedArc(arcs, scale, translate, r0), OrientedArc(arcs, scale, translate, r1)])))
  {
    var items := [Index(r0), Index(r1)];
    FlatCoordinates(items, arcs, scale, translate);
    var o := seq(2, i requires 0 <= i < 2 && ValidRef(arcs, items[i]) => OrientedArc(arcs, scale, translate, items[i].ref));
    assert o == [OrientedArc(arcs, scale, translate, r0), OrientedArc(arcs, scale, translate, r1)];
  }

  lemma FlatThree(arcs: seq<seq<Pair>>, scale: Option<Pair>, translate: Option<Pair>, r0: int, r1: int, r2: int)
    requires ArcIndex(r0) < |arcs| && ArcIndex(r1) < |arcs| && ArcIndex(r2) < |arcs|
    ensures Coordinates(List([Index(r0), Index(r1), Index(r2)]), arcs, scale, translate)
            == Ok(Points(Join([OrientedArc(arcs, scale, translate, r0), OrientedArc(arcs, scale, translate, r1),
                               OrientedArc(arcs, scale, translate, r2)])))
  {
    var items := [Index(r0), Index(r1), Index(r2)];
    FlatCoordinates(items, arcs, scale, translate);
    var o := seq(3, i requires 0 <= i < 3 && ValidRef(arcs, items[i]) => OrientedArc(arcs, scale, translate, items[i].ref));
    assert o == [OrientedArc(arcs, scale, translate, r0), OrientedArc(arcs, scale, translate, r1),
                 OrientedArc(arcs, scale, translate, r2)];
  }

  lemma FlatFour(arcs: seq<seq<Pair>>, scale: Option<Pair>, translate: Option<Pair>, r0: int, r1: int, r2: int, r3: int)
    requires ArcIndex(r0) < |arcs| && ArcIndex(r1) < |arcs| && ArcIndex(r2) < |arcs| && ArcIndex(r3) < |arcs|
    ensures Coordinates(List([Index(r0), Index(r1), Index(r2), Index(r3)]), arcs, scale, translate)
            == Ok(Points(Join([OrientedArc(arcs, scale, translate, r0), OrientedArc(arcs, scale, translate, r1),
                               OrientedArc(arcs, scale, translate, r2), OrientedArc(arcs, scale, translate, r3)])))
  {
    var items := [Index(r0), Index(r1), Index(r2), Index(r3)];
    FlatCoordinates(items, arcs, scale, translate);
    var o := seq(4, i requires 0 <= i < 4 && ValidRef(arcs, items[i]) => OrientedArc(arcs, scale, translate, items[i].ref));
    assert o == [OrientedArc(arcs, scale, translate, r0), OrientedArc(arcs, scale, translate, r1),
                 OrientedArc(arcs, scale, translate, r2), OrientedArc(arcs, scale, translate, r3)];
  }

  /** A list holding one decodable structure decodes to a list of one. */
  lemma NestedOne(arcs: seq<seq<Pair>>, scale: Option<Pair>, translate: Option<Pair>, inner: ArcRefs, c: Coords)
    requires inner.List? && Coordinates(inner, arcs, scale, translate) == Ok(c)
    ensures Coordinates(List([inner]), arcs, scale, translate) == Ok(Nested([c]))
  {
    CoordinatesEachOk(List([inner]), [inner], arcs, scale, translate);
    var parts := CoordinatesEach(List([inner]), [inner], arcs, scale, translate).value;
    assert parts == [c];
  }

  /** Two deltas under a transform: the transformed first delta, then the
      transformed sum of both. */
  lemma TwoDeltas(a: Pair, b: Pair, scale: Pair, translate: Pair)
    ensures DecodeArc([a, b], Some(scale), Some(translate))
            == [Affine(scale, translate, a), Affine(scale, translate, Add(a, b))]
  {
    assert [a, b][1..] == [b];
    assert [b][1..] == [];
    assert Add(Pair(0.0, 0.0), a) == a;
    assert Accumulate([b], a, scale, translate) == [Affine(scale, translate, Add(a, b))];
  }

  /** Unit scale and zero translate turn deltas into their running sums. */
  lemma RunningSumExample()
    ensures DecodeArc([Pair(1.0, 0.0), Pair(0.0, 1.0), Pair(1.0, 0.0)], Some(Pair(1.0, 1.0)), Some(Pair(0.0, 0.0)))
            == [Pair(1.0, 0.0), Pair(1.0, 1.0), Pair(2.0, 1.0)]
  {
    ThreeUnitDeltas(Pair(1.0, 0.0), Pair(0.0, 1.0), Pair(1.0, 0.0));
  }

  lemma ThreeUnitDeltas(a: Pair, b: Pair, c: Pair)
    ensures DecodeArc([a, b, c], Some(Pair(1.0, 1.0)), Some(Pair(0.0, 0.0))) == [a, Add(a, b), Add(Add(a, b), c)]
  {
    var s, t := Pair(1.0, 1.0), Pair(0.0, 0.0);
    assert [a, b, c][1..] == [b, c];
    assert [b, c][1..] == [c];
    assert [c][1..] == [];
    assert Add(Pair(0.0, 0.0), a) == a;
    assert Affine(s, t, a) == a;
    assert Accumulate([c], Add(a, b), s, t) == [Affine(s, t, Add(Add(a, b), c))];
    assert Accumulate([b, c], a, s, t) == [Affine(s, t, Add(a, b))] + Accumulate([c], Add(a, b), s, t);
  }

  /** A line string over one arc, without a transform, is that arc. */
  lemma SingleArcLineString()
    ensures Geometry(TopoObject("LineString", List([Index(0)])), SampleArcs(), None, None)
            == Ok(GeoJsonGeometry("LineString", Points([Pair(0.0, 0.0), Pair(1.0, 0.0)])))
  {
    FlatOne(SampleArcs(), None, None, 0);
    PlainArc(0);
  }

  /** Two arcs meeting at (1, 0): the shared position appears once. */
  lemma SharedJoinAppearsOnce()
    ensures Geometry(TopoObject("LineString", List([Index(0), Index(1)])), SampleArcs(), None, None)
            == Ok(GeoJsonGeometry("LineString", Points([Pair(0.0, 0.0), Pair(1.0, 0.0), Pair(0.0, 1.0)])))
  {
    FlatTwo(SampleArcs(), None, None, 0, 1);
    PlainArc(0);
    PlainArc(1);
    JoinTwo(SampleArcs()[0], SampleArcs()[1]);
  }

  /** The first sample polygon, without a transform, is one closed ring. */
  lemma SamplePolygonRing()
    ensures Geometry(TopoObject("Polygon", List([List([Index(0), Index(1), Index(2)])])), SampleArcs(), None, None)
            == Ok(GeoJsonGeometry("Polygon", Nested([Points([Pair(0.0, 0.0), Pair(1.0, 0.0), Pair(0.0, 1.0), Pair(0.0, 0.0)])])))
  {
    var arcs := SampleArcs();
    FlatThree(arcs, None, None, 0, 1, 2);
    PlainArc(0);
    PlainArc(1);
    PlainArc(2);
    JoinThree(arcs[0], arcs[1], arcs[2]);
    NestedOne(arcs, None, None, List([Index(0), Index(1), Index(2)]),
              Points([Pair(0.0, 0.0), Pair(1.0, 0.0), Pair(0.0, 1.0), Pair(0.0, 0.0)]));
  }

  /** The same square walked backwards through complemented references. */
  lemma ReversedRing()
    ensures Coordinates(List([List([Index(-3), Index(-5), Index(-4), Index(-1)])]), SampleArcs(), None, None)
            == Ok(Nested([Points([Pair(0.0, 0.0), Pair(0.0, 1.0), Pair(1.0, 1.0), Pair(1.0, 0.0), Pair(0.0, 0.0)])]))
  {
    var arcs := SampleArcs();
    FlatFour(arcs, None, None, -3, -5, -4, -1);
    PlainArc(-3);
    PlainArc(-5);
    PlainArc(-4);
    PlainArc(-1);
    JoinFour(OrientedArc(arcs, None, None, -3), OrientedArc(arcs, None, None, -5),
             OrientedArc(arcs, None, None, -4), OrientedArc(arcs, None, None, -1));
    NestedOne(arcs, None, None, List([Index(-3), Index(-5), Index(-4), Index(-1)]),
              Points([Pair(0.0, 0.0), Pair(0.0, 1.0), Pair(1.0, 1.0), Pair(1.0, 0.0), Pair(0.0, 0.0)]));
  }

  /** The second sample polygon under the sample transform: the arcs are
      read as deltas, so the ring is the transformed running sums. */
  lemma SampleTransformedPolygon()
    ensures Geometry(TopoObject("Polygon", List([List([Index(3), Index(4), Index(1)])])), SampleArcs(),
                     Some(SampleScale()), Some(SampleTranslate()))
            == Ok(GeoJsonGeometry("Polygon", Nested([Points([
                 Affine(SampleScale(), SampleTranslate(), Pair(1.0, 0.0)),
                 Affine(SampleScale(), SampleTranslate(), Pair(2.0, 1.0)),
                 Affine(SampleScale(), SampleTranslate(), Pair(1.0, 2.0)),
                 Affine(SampleScale(), SampleTranslate(), Pair(1.0, 1.0))])])))
  {
    TransformedPolygon(SampleScale(), SampleTranslate());
  }

  /** The same polygon under any transform; the sample's constants are
      substituted only at the end, which keeps them out of the solver's
      arithmetic. */
  lemma TransformedPolygon(s: Pair, t: Pair)
    ensures Geometry(TopoObject("Polygon", List([List([Index(3), Index(4), Index(1)])])), SampleArcs(),
                     Some(s), Some(t))
            == Ok(GeoJsonGeometry("Polygon", Nested([Points(TransformedRing(s, t))])))
  {
    TransformedRingDecodes(SampleArcs(), s, t);
    NestedOne(SampleArcs(), Some(s), Some(t), List([Index(3), Index(4), Index(1)]),
              Points(TransformedRing(s, t)));
  }

  /** The ring that references 3, 4 and 1 decode to: the transformed
      running sums (1, 0), (2, 1), (1, 2) and (1, 1). */
  function TransformedRing(s: Pair, t: Pair): seq<Pair>
  {
    [Affine(s, t, Pair(1.0, 0.0)), Affine(s, t, Pair(2.0, 1.0)),
     Affine(s, t, Pair(1.0, 2.0)), Affine(s, t, Pair(1.0, 1.0))]
  }

  lemma TransformedRingDecodes(arcs: seq<seq<Pair>>, s: Pair, t: Pair)
    requires |arcs| == 5
    requires arcs[3] == [Pair(1.0, 0.0), Pair(1.0, 1.0)]
    requires arcs[4] == [Pair(1.0, 1.0), Pair(0.0, 1.0)]
    requires arcs[1] == [Pair(1.0, 0.0), Pair(0.0, 1.0)]
    ensures Coordinates(List([Index(3), Index(4), Index(1)]), arcs, Some(s), Some(t))
            == Ok(Points(TransformedRing(s, t)))
  {
    FlatThree(arcs, Some(s), Some(t), 3, 4, 1);
    TwoDeltas(Pair(1.0, 0.0), Pair(1.0, 1.0), s, t);
    TwoDeltas(Pair(1.0, 1.0), Pair(0.0, 1.0), s, t);
    TwoDeltas(Pair(1.0, 0.0), Pair(0.0, 1.0), s, t);
    JoinThree(OrientedArc(arcs, Some(s), Some(t), 3), OrientedArc(arcs, Some(s), Some(t), 4),
              OrientedArc(arcs, Some(s), Some(t), 1));
  }

  /** Line string, polygon and multipolygon nesting over the same arcs. */
  lemma NestingDepths()
    ensures Coordinates(List([Index(0)]), SampleArcs(), None, None).Ok?
    ensures CoordsDepth(Coordinates(List([Index(0)]), SampleArcs(), None, None).value) == 1
    ensures Coordinates(List([List([Index(0), Index(1), Index(2)])]), SampleArcs(), None, None).Ok?
    ensures CoordsDepth(Coordinates(List([List([Index(0), Index(1), Index(2)])]), SampleArcs(), None, None).value) == 2
    ensures Coordinates(List([List([List([Index(0), Index(1), Index(2)])])]), SampleArcs(), None, None).Ok?
    ensures CoordsDepth(Coordinates(List([List([List([Index(0), Index(1), Index(2)])])]), SampleArcs(), None, None).value) == 3
  {
  }

  /** Each malformed structure fails, with the error of its first fault. */
  lemma MalformedExamples()
    ensures Coordinates(List([Index(100)]), SampleArcs()[..3], None, None) == Err(ArcIndexOutOfRange(100))
    ensures Coordinates(List([Index(0), Index(-6)]), SampleArcs(), None, None) == Err(ArcIndexOutOfRange(-6))
    ensures Coordinates(List([]), SampleArcs(), None, None) == Err(EmptyRefs)
    ensures Coordinates(List([OtherValue]), SampleArcs(), None, None) == Err(InvalidLeaf)
    ensures Coordinates(List([Index(0), OtherValue]), SampleArcs(), None, None) == Err(NotAnIndex)
    ensures Coordinates(List([List([Index(0)]), Index(1)]), SampleArcs(), None, None) == Err(NotAList)
    ensures Coordinates(Index(0), SampleArcs(), None, None) == Err(NotAList)
  {
  }
}
