/**
 * Glyph layout of the text renderer's text-update effect
 * (src/components/three/TextRenderer.tsx, lines 222-301).
 *
 * The effect runs two loops. The first walks the characters of the text and
 * stages one geometry per character (an empty placeholder for a space, the
 * glyph's extrusion when its bounding box exists), summing the advances into
 * the total width. The second walks the staged list, moving a cursor that
 * starts at minus half the total width, and creates one mesh per staged item
 * whose character (looked up at the SAME position of the text) is not a space.
 *
 * Glyph extrusion is done by the geometry library; its only observable result
 * here is the bounding box, which is an input: one optional box per character.
 */
module GlyphLayout {
  import opened Wrappers

  /** A triple of reals, used both for positions and for Euler rotations. */
  datatype Vec3 = Vec3(x: real, y: real, z: real)

  /** Bounding box of an extruded glyph, as the geometry library computes it. */
  datatype BoundingBox = BoundingBox(min: Vec3, max: Vec3)

  /** The geometry a mesh is built from: the empty placeholder staged for a
      space, or the extrusion of one glyph. */
  datatype Geometry = Placeholder | Extruded(glyph: char)

  /** One entry of the staging list (`tempGeometries`). */
  datatype Staged = Staged(geometry: Geometry, width: real)

  /** Style parameters the layout reads. */
  datatype Style = Style(fontSize: real, color: string, position: Vec3, rotation: Vec3)

  /** A glyph mesh. `id` stands for the identity of the scene object;
      `originalY` and `index` are the metadata stored in `userData`. */
  datatype Mesh = Mesh(id: nat, geometry: Geometry, color: string, position: Vec3,
                       rotation: Vec3, originalY: real, index: nat)

  /** Advance of a space, as a fraction of the font size. */
  const SpaceFactor: real := 0.5
  /** Gap after every measured glyph, as a fraction of the font size. */
  const GapFactor: real := 0.05

  function BoxWidth(b: BoundingBox): real
  {
    b.max.x - b.min.x
  }

  /** The identities of a list of meshes, in order. */
  function Ids(ms: seq<Mesh>): (r: seq<nat>)
    ensures |r| == |ms| && forall j :: 0 <= j < |ms| ==> r[j] == ms[j].id
  {
    seq(|ms|, j requires 0 <= j < |ms| => ms[j].id)
  }

  // ---------------------------------------------------------------- first loop

  /** What one character pushes onto the staging list: a placeholder for a
      space, the extrusion when the box exists, nothing when it does not. */
  function StageChar(c: char, box: Option<BoundingBox>, fontSize: real): seq<Staged>
  {
    if c == ' ' then [Staged(Placeholder, fontSize * SpaceFactor)]
    else match box
      case None => []
      case Some(b) => [Staged(Extruded(c), BoxWidth(b))]
  }

  /** What one character adds to the total width. */
  function Advance(c: char, box: Option<BoundingBox>, fontSize: real): real
  {
    if c == ' ' then fontSize * SpaceFactor
    else match box
      case None => 0.0
      case Some(b) => BoxWidth(b) + fontSize * GapFactor
  }

  /** The staging list the first loop builds. */
  function Stage(text: seq<char>, boxes: seq<Option<BoundingBox>>, fontSize: real): (r: seq<Staged>)
    requires |boxes| == |text|
    ensures |r| <= |text|
  {
    if text == [] then []
    else
      var n := |text| - 1;
      Stage(text[..n], boxes[..n], fontSize) + StageChar(text[n], boxes[n], fontSize)
  }

  /** The total width the first loop accumulates: the sum of the advances. */
  function TotalWidth(text: seq<char>, boxes: seq<Option<BoundingBox>>, fontSize: real): real
    requires |boxes| == |text|
  {
    if text == [] then 0.0
    else
      var n := |text| - 1;
      TotalWidth(text[..n], boxes[..n], fontSize) + Advance(text[n], boxes[n], fontSize)
  }

  // --------------------------------------------------------------- second loop

  /** How far the cursor moves past staged item `i`. The space test reads the
      text at position `i`, whichever character produced the item. */
  function Step(text: seq<char>, staged: seq<Staged>, fontSize: real, i: nat): real
    requires i < |staged| <= |text|
  {
    if text[i] == ' ' then staged[i].width else staged[i].width + fontSize * GapFactor
  }

  /** Distance the cursor has moved after the first `n` staged items. */
  function Cursor(text: seq<char>, staged: seq<Staged>, fontSize: real, n: nat): real
    requires n <= |staged| <= |text|
  {
    if n == 0 then 0.0
    else Cursor(text, staged, fontSize, n - 1) + Step(text, staged, fontSize, n - 1)
  }

  /** The meshes the second loop creates from the first `n` staged items, the
      cursor starting at `start` and new meshes taking identities from `firstId`. */
  function Place(text: seq<char>, staged: seq<Staged>, style: Style, start: real, firstId: nat, n: nat): (r: seq<Mesh>)
    requires n <= |staged| <= |text|
    ensures |r| <= n
  {
    if n == 0 then []
    else
      var prev := Place(text, staged, style, start, firstId, n - 1);
      if text[n - 1] == ' ' then prev
      else
        var x := start + Cursor(text, staged, style.fontSize, n - 1) + style.position.x;
        prev + [Mesh(firstId + |prev|, staged[n - 1].geometry, style.color,
                     Vec3(x, style.position.y, style.position.z),
                     style.rotation, style.position.y, n - 1)]
  }

  /** Every mesh of `r` has the style's y, z, rotation and colour, rests at
      the style's y, carries consecutive identities from `firstId`, and points
      at a non-space character before position `n`; the indices increase strictly. */
  ghost predicate PlacedShape(r: seq<Mesh>, text: seq<char>, style: Style, firstId: nat, n: nat)
  {
    && (forall j :: 0 <= j < |r| ==>
          && r[j].position.y == style.position.y
          && r[j].position.z == style.position.z
          && r[j].originalY == style.position.y
          && r[j].rotation == style.rotation
          && r[j].color == style.color
          && r[j].id == firstId + j
          && r[j].index < n <= |text|
          && text[r[j].index] != ' ')
    && (forall j, k :: 0 <= j < k < |r| ==> r[j].index < r[k].index)
  }

  /** The meshes the second loop places have the shape above. */
  lemma {:induction false} PlaceShape(text: seq<char>, staged: seq<Staged>, style: Style, start: real, firstId: nat, n: nat)
    requires n <= |staged| <= |text|
    ensures PlacedShape(Place(text, staged, style, start, firstId, n), text, style, firstId, n)
  {
    if n > 0 {
      PlaceShape(text, staged, style, start, firstId, n - 1);
      var prev := Place(text, staged, style, start, firstId, n - 1);
      if text[n - 1] != ' ' {
        var x := start + Cursor(text, staged, style.fontSize, n - 1) + style.position.x;
        var m := Mesh(firstId + |prev|, staged[n - 1].geometry, style.color,
                      Vec3(x, style.position.y, style.position.z),
                      style.rotation, style.position.y, n - 1);
        assert Place(text, staged, style, start, firstId, n) == prev + [m];
      }
    }
  }

  /** The mesh list one run of the text-update effect produces. */
  function Layout(text: seq<char>, boxes: seq<Option<BoundingBox>>, style: Style, firstId: nat): seq<Mesh>
    requires |boxes| == |text|
  {
    var staged := Stage(text, boxes, style.fontSize);
    Place(text, staged, style, -TotalWidth(text, boxes, style.fontSize) / 2.0, firstId, |staged|)
  }

  // ------------------------------------------------------------ specification

  /** Whatever the bounding boxes, every mesh of an update carries the style's
      y, z, rotation and colour, the identities are handed out in order from
      `firstId`, and the meshes follow the text order over non-space positions. */
  lemma LayoutShape(text: seq<char>, boxes: seq<Option<BoundingBox>>, style: Style, firstId: nat)
    requires |boxes| == |text|
    ensures PlacedShape(Layout(text, boxes, style, firstId), text, style, firstId, |text|)
  {
    var staged := Stage(text, boxes, style.fontSize);
    PlaceShape(text, staged, style, -TotalWidth(text, boxes, style.fontSize) / 2.0, firstId, |staged|);
  }

  /** Every non-space character has a bounding box. */
  predicate AllMeasured(text: seq<char>, boxes: seq<Option<BoundingBox>>)
    requires |boxes| == |text|
  {
    forall i :: 0 <= i < |text| && text[i] != ' ' ==> boxes[i].Some?
  }

  /** Positions of the non-space characters of `text`, in order. */
  function GlyphIndices(text: seq<char>): (r: seq<nat>)
    ensures forall j :: 0 <= j < |r| ==> r[j] < |text| && text[r[j]] != ' '
  {
    if text == [] then []
    else
      var n := |text| - 1;
      GlyphIndices(text[..n]) + (if text[n] == ' ' then [] else [n])
  }

  /** With every box present, the staging list is aligned with the text:
      item i is the placeholder of width fontSize*0.5 for a space and the
      glyph's extrusion with its box width otherwise. */
  lemma {:induction false} StageAligned(text: seq<char>, boxes: seq<Option<BoundingBox>>, fontSize: real)
    requires |boxes| == |text| && AllMeasured(text, boxes)
    ensures |Stage(text, boxes, fontSize)| == |text|
    ensures forall i :: 0 <= i < |text| ==>
      Stage(text, boxes, fontSize)[i] ==
        if text[i] == ' ' then Staged(Placeholder, fontSize * SpaceFactor)
        else Staged(Extruded(text[i]), BoxWidth(boxes[i].value))
  {
    if text != [] {
      var n := |text| - 1;
      StageAligned(text[..n], boxes[..n], fontSize);
    }
  }

  /** With every box present, the cursor after the first `n` items has moved
      by exactly the total width of the first `n` characters. */
  lemma {:induction false} CursorIsPrefixWidth(text: seq<char>, boxes: seq<Option<BoundingBox>>, fontSize: real, n: nat)
    requires |boxes| == |text| && AllMeasured(text, boxes) && n <= |text|
    ensures n <= |Stage(text, boxes, fontSize)|
    ensures Cursor(text, Stage(text, boxes, fontSize), fontSize, n) == TotalWidth(text[..n], boxes[..n], fontSize)
  {
    StageAligned(text, boxes, fontSize);
    if n > 0 {
      CursorIsPrefixWidth(text, boxes, fontSize, n - 1);
      assert text[..n][..n - 1] == text[..n - 1];
      assert boxes[..n][..n - 1] == boxes[..n - 1];
    }
  }

  /** The line is centred: the cursor starts at -totalWidth/2 and, with every
      box present, ends at +totalWidth/2. */
  lemma LayoutCentred(text: seq<char>, boxes: seq<Option<BoundingBox>>, fontSize: real)
    requires |boxes| == |text| && AllMeasured(text, boxes)
    ensures |Stage(text, boxes, fontSize)| == |text|
    ensures var total := TotalWidth(text, boxes, fontSize);
      -total / 2.0 + Cursor(text, Stage(text, boxes, fontSize), fontSize, |text|) == total / 2.0
  {
    StageAligned(text, boxes, fontSize);
    CursorIsPrefixWidth(text, boxes, fontSize, |text|);
    assert text[..|text|] == text && boxes[..|boxes|] == boxes;
  }

  /** With every box present, the meshes over the first `n` items are one per
      non-space character among the first `n`, in text order; each carries its
      character's extrusion and sits at the cursor value before its own advance. */
  lemma {:induction false} PlaceFollowsGlyphs(text: seq<char>, boxes: seq<Option<BoundingBox>>, style: Style,
                                              start: real, firstId: nat, n: nat)
    requires |boxes| == |text| && AllMeasured(text, boxes) && n <= |text|
    ensures |Stage(text, boxes, style.fontSize)| == |text|
    ensures var r := Place(text, Stage(text, boxes, style.fontSize), style, start, firstId, n);
      && |r| == |GlyphIndices(text[..n])|
      && forall j :: 0 <= j < |r| ==>
           var i := GlyphIndices(text[..n])[j];
           && r[j].index == i
           && r[j].geometry == Extruded(text[i])
           && r[j].position.x == start + TotalWidth(text[..i], boxes[..i], style.fontSize) + style.position.x
  {
    StageAligned(text, boxes, style.fontSize);
    if n > 0 {
      PlaceFollowsGlyphs(text, boxes, style, start, firstId, n - 1);
      assert text[..n][..n - 1] == text[..n - 1];
      CursorIsPrefixWidth(text, boxes, style.fontSize, n - 1);
    }
  }

  /** The mesh list after an update holds exactly one mesh per non-space
      character, in text order, with `index` its position in the text. */
  lemma LayoutOnePerGlyph(text: seq<char>, boxes: seq<Option<BoundingBox>>, style: Style, firstId: nat)
    requires |boxes| == |text| && AllMeasured(text, boxes)
    ensures var r := Layout(text, boxes, style, firstId);
      && |r| == |GlyphIndices(text)|
      && forall j :: 0 <= j < |r| ==>
           var i := GlyphIndices(text)[j];
           && r[j].index == i
           && r[j].geometry == Extruded(text[i])
           && r[j].position.x == -TotalWidth(text, boxes, style.fontSize) / 2.0
                                 + TotalWidth(text[..i], boxes[..i], style.fontSize) + style.position.x
  {
    var total := TotalWidth(text, boxes, style.fontSize);
    PlaceFollowsGlyphs(text, boxes, style, -total / 2.0, firstId, |text|);
    assert text[..|text|] == text;
  }

  /** A space adds exactly fontSize*0.5 to the total width and to the cursor,
      and no mesh is made for it. */
  lemma SpaceAdvancesHalfSize(text: seq<char>, boxes: seq<Option<BoundingBox>>, style: Style, firstId: nat, i: nat)
    requires |boxes| == |text| && AllMeasured(text, boxes) && i < |text| && text[i] == ' '
    ensures Advance(text[i], boxes[i], style.fontSize) == style.fontSize * SpaceFactor
    ensures i < |Stage(text, boxes, style.fontSize)|
    ensures Step(text, Stage(text, boxes, style.fontSize), style.fontSize, i) == style.fontSize * SpaceFactor
    ensures var r := Layout(text, boxes, style, firstId);
      forall j :: 0 <= j < |r| ==> r[j].index != i
  {
    StageAligned(text, boxes, style.fontSize);
    var staged := Stage(text, boxes, style.fontSize);
    PlaceShape(text, staged, style, -TotalWidth(text, boxes, style.fontSize) / 2.0, firstId, |staged|);
  }

  /** A text without spaces gets exactly one mesh per character. */
  lemma {:induction false} NoSpacesOneMeshPerChar(text: seq<char>, boxes: seq<Option<BoundingBox>>, style: Style, firstId: nat)
    requires |boxes| == |text| && AllMeasured(text, boxes)
    requires forall i :: 0 <= i < |text| ==> text[i] != ' '
    ensures |Layout(text, boxes, style, firstId)| == |text|
  {
    LayoutOnePerGlyph(text, boxes, style, firstId);
    GlyphIndicesWithoutSpaces(text);
  }

  lemma {:induction false} GlyphIndicesWithoutSpaces(text: seq<char>)
    requires forall i :: 0 <= i < |text| ==> text[i] != ' '
    ensures |GlyphIndices(text)| == |text|
  {
    if text != [] {
      GlyphIndicesWithoutSpaces(text[..|text| - 1]);
    }
  }

  /** A missing bounding box shifts the staging list against the text: for
      "a b" with no box for 'a', the space's placeholder becomes a mesh at
      index 0 and 'b' gets no mesh at all. */
  lemma MissingBoxMisaligns(b: BoundingBox, style: Style)
    ensures var r := Layout("a b", [None, None, Some(b)], style, 0);
      && |r| == 1 && r[0].index == 0 && r[0].geometry == Placeholder
      && |GlyphIndices("a b")| == 2
  {
    var text: seq<char>, boxes: seq<Option<BoundingBox>> := "a b", [None, None, Some(b)];
    var fs := style.fontSize;
    assert text[..2] == "a " && text[..2][..1] == "a" && text[..2][..1][..0] == [];
    assert boxes[..2] == [None, None] && boxes[..2][..1] == [None] && boxes[..2][..1][..0] == [];
    assert Stage(text[..2][..1], boxes[..2][..1], fs) == [];
    assert Stage(text[..2], boxes[..2], fs) == [Staged(Placeholder, fs * SpaceFactor)];
    var staged := Stage(text, boxes, fs);
    assert staged == [Staged(Placeholder, fs * SpaceFactor), Staged(Extruded('b'), BoxWidth(b))];
    var start := -TotalWidth(text, boxes, fs) / 2.0;
    assert Place(text, staged, style, start, 0, 0) == [];
    var one := Place(text, staged, style, start, 0, 1);
    assert |one| == 1 && one[0].index == 0 && one[0].geometry == Placeholder;
    assert Place(text, staged, style, start, 0, 2) == one;
    assert text[..1] == "a" && text[..1][..0] == [];
    GlyphIndicesOfAB();
  }

  lemma GlyphIndicesOfAB()
    ensures GlyphIndices("a b") == [0, 2]
  {
    var text: seq<char> := "a b";
    assert text[..2] == "a " && text[..2][..1] == "a" && text[..2][..1][..0] == [];
    assert GlyphIndices(text[..2][..1]) == [0];
    assert GlyphIndices(text[..2]) == [0];
  }
}
