/**
 * The stateful part of the text renderer component
 * (src/components/three/TextRenderer.tsx): the refs and state it updates in
 * place, the text-update effect (lines 212-315), the per-frame wave update
 * (lines 163-199) and the orbit-controller `start`/`end` handlers (lines 115-142).
 */
module TextRenderer {
  import opened Wrappers
  import opened GlyphLayout
  import opened SceneLog
  import Wave

  class Renderer {
    /** The scene ref is set (the set-up effect has run). */
    var sceneExists: bool
    /** The orbit controller ref is set. */
    var hasControls: bool
    /** The `isLoading` state. */
    var loading: bool
    /** The font ref is set. */
    var fontLoaded: bool
    /** `textMeshesRef.current`. */
    var meshes: seq<Mesh>
    /** Identity the next created mesh receives. */
    var nextId: nat
    /** Every glyph-mesh add and release the scene has seen, in order. */
    var sceneLog: seq<SceneEvent>
    /** The orbit controller's target. */
    var controlsTarget: Vec3
    /** The `isDragging` state. */
    var dragging: bool
    /** `currentRotationRef.current`: the last rotation reported to the parent. */
    var lastReported: Vec3
    /** Every call of the rotation-change callback, in order. */
    var reports: seq<Vec3>
    /** Whether an `onRotationChange` callback was given when the handlers were registered. */
    const hasRotationCallback: bool

    /** The scene holds exactly the current meshes, each once (identities
        increase strictly along the list), and every identity was handed out
        before. */
    ghost predicate Valid()
      reads this
    {
      && Live(sceneLog) == multiset(Ids(meshes))
      && (forall j :: 0 <= j < |meshes| ==> meshes[j].id < nextId)
      && (forall j, k :: 0 <= j < k < |meshes| ==> meshes[j].id < meshes[k].id)
    }

    /** Layout may run: the font has loaded and the scene exists. */
    predicate Ready()
      reads this
    {
      !loading && fontLoaded && sceneExists
    }

    /** First render: every ref empty, loading, the rotation ref holding the
        rotation prop. */
    constructor (rotation: Vec3, hasRotationCallback: bool)
      ensures Valid()
      ensures !sceneExists && !hasControls && loading && !fontLoaded && !dragging
      ensures meshes == [] && sceneLog == [] && reports == []
      ensures lastReported == rotation && this.hasRotationCallback == hasRotationCallback
    {
      sceneExists, hasControls, loading, fontLoaded := false, false, true, false;
      meshes, nextId, sceneLog := [], 0, [];
      controlsTarget := Vec3(0.0, 0.0, 0.0);
      dragging := false;
      lastReported, reports := rotation, [];
      this.hasRotationCallback := hasRotationCallback;
    }

    /** The set-up effect: does nothing once a scene exists, otherwise
        creates the scene and the orbit controller and starts the font load. */
    method SetUp()
      modifies this`sceneExists, this`hasControls
      ensures sceneExists
      ensures old(sceneExists) ==> hasControls == old(hasControls)
      ensures !old(sceneExists) ==> hasControls
    {
      if sceneExists {
        return;
      }
      sceneExists := true;
      hasControls := true;
    }

    /** The font-load callback: store the font and leave the loading state. */
    method FontLoaded()
      modifies this`fontLoaded, this`loading
      ensures fontLoaded && !loading
    {
      fontLoaded := true;
      loading := false;
    }

    /** The text-update effect. Not ready: nothing changes. Ready: every old
        mesh is released, then the new meshes are built and added in order. */
    method UpdateText(text: seq<char>, boxes: seq<Option<BoundingBox>>, style: Style)
      requires |boxes| == |text|
      requires Valid()
      modifies this`meshes, this`nextId, this`sceneLog, this`controlsTarget
      ensures Valid()
      ensures !old(Ready()) ==> unchanged(this)
      ensures old(Ready()) ==>
        && meshes == Layout(text, boxes, style, old(nextId))
        && sceneLog == old(sceneLog) + Releases(Ids(old(meshes))) + Additions(Ids(meshes))
        && nextId == old(nextId) + |meshes|
        && controlsTarget == (if hasControls then style.position else old(controlsTarget))
    {
      if loading || !fontLoaded {
        return;
      }
      if !sceneExists {
        return;
      }
      Rebuild(text, boxes, style);
    }

    /** The body of the text-update effect once its guards pass. */
    method Rebuild(text: seq<char>, boxes: seq<Option<BoundingBox>>, style: Style)
      requires |boxes| == |text|
      requires Valid()
      modifies this`meshes, this`nextId, this`sceneLog, this`controlsTarget
      ensures Valid()
      ensures meshes == Layout(text, boxes, style, old(nextId))
      ensures sceneLog == old(sceneLog) + Releases(Ids(old(meshes))) + Additions(Ids(meshes))
      ensures nextId == old(nextId) + |meshes|
      ensures controlsTarget == (if hasControls then style.position else old(controlsTarget))
    {
      ReleaseMeshes();
      var staged, totalWidth := StageText(text, boxes, style.fontSize);
      var start := -totalWidth / 2.0;
      LayoutUnfolds(text, boxes, style, nextId, staged, start);
      AddMeshes(text, staged, style, start);
      if hasControls {
        controlsTarget := style.position;
      }
    }

    /** Remove every current mesh from the scene, dispose it, and empty the list. */
    method ReleaseMeshes()
      requires Valid()
      modifies this`meshes, this`sceneLog
      ensures Valid()
      ensures meshes == [] && sceneLog == old(sceneLog) + Releases(Ids(old(meshes)))
    {
      var released := ReleaseEach(meshes);
      sceneLog := sceneLog + released;
      ReplaceLeavesOnlyNew(old(sceneLog), Ids(meshes), []);
      assert sceneLog + Additions([]) == sceneLog;
      meshes := [];
    }

    /** Add one mesh per staged item whose character (at the same position of
        the text) is not a space, the cursor starting at `start`. */
    method AddMeshes(text: seq<char>, staged: seq<Staged>, style: Style, start: real)
      requires |staged| <= |text|
      requires Valid() && meshes == []
      modifies this`meshes, this`nextId, this`sceneLog
      ensures Valid()
      ensures meshes == Place(text, staged, style, start, old(nextId), |staged|)
      ensures sceneLog == old(sceneLog) + Additions(Ids(meshes))
      ensures nextId == old(nextId) + |meshes|
    {
      var placed, added := PlaceMeshes(text, staged, style, start, nextId);
      PlaceShape(text, staged, style, start, nextId, |staged|);
      LiveAfterAdditions(sceneLog, Ids(placed));
      sceneLog := sceneLog + added;
      meshes := placed;
      nextId := nextId + |placed|;
    }

    /** One animation frame at wall-clock `nowMs`: with the wave on, mesh i
        moves to its wave height; with it off, nothing moves. */
    method Animate(nowMs: nat, waveAnimation: bool, fontSize: real)
      requires Valid()
      modifies this`meshes
      ensures Valid()
      ensures |meshes| == |old(meshes)| && Ids(meshes) == Ids(old(meshes))
      ensures !waveAnimation ==> meshes == old(meshes)
      ensures waveAnimation && |meshes| > 0 ==>
        forall i :: 0 <= i < |meshes| ==>
          meshes[i] == Wave.Lift(old(meshes)[i], Wave.CycleTime(nowMs, |meshes|), i, fontSize)
    {
      var n := |meshes|;
      if n == 0 {
        return;
      }
      var cycleTime := Wave.CycleTime(nowMs, n);
      var i := 0;
      while i < n
        invariant 0 <= i <= n == |meshes|
        invariant forall k :: 0 <= k < n ==> meshes[k].id == old(meshes)[k].id
        invariant forall k :: 0 <= k < i && waveAnimation ==>
          meshes[k] == Wave.Lift(old(meshes)[k], cycleTime, k, fontSize)
        invariant forall k :: i <= k < n || (0 <= k < n && !waveAnimation) ==> meshes[k] == old(meshes)[k]
      {
        if waveAnimation {
          meshes := meshes[i := Wave.Lift(meshes[i], cycleTime, i, fontSize)];
        }
        i := i + 1;
      }
      assert Ids(meshes) == Ids(old(meshes));
    }

    /** The controller's `start` event. */
    method DragStart()
      modifies this`dragging
      ensures dragging
    {
      dragging := true;
    }

    /** The controller's `end` event: stop dragging and make the report
        `RotationReport` decides, remembering what was reported. */
    method DragEnd()
      modifies this`dragging, this`lastReported, this`reports
      ensures !dragging
      ensures var r := RotationReport(meshes, hasRotationCallback, old(lastReported));
        && (r.Some? ==> lastReported == r.value && reports == old(reports) + [r.value])
        && (r.None? ==> lastReported == old(lastReported) && reports == old(reports))
    {
      dragging := false;
      if |meshes| > 0 && hasRotationCallback {
        var newRotation := meshes[0].rotation;
        var current := lastReported;
        if newRotation.x != current.x || newRotation.y != current.y || newRotation.z != current.z {
          lastReported := newRotation;
          reports := reports + [newRotation];
        }
      }
    }
  }

  /** The release loop of the text-update effect: each mesh in turn is
      removed from the scene and disposed. */
  method ReleaseEach(meshes: seq<Mesh>) returns (released: seq<SceneEvent>)
    ensures released == Releases(Ids(meshes))
  {
    released := [];
    var k := 0;
    while k < |meshes|
      invariant 0 <= k <= |meshes|
      invariant released == Releases(Ids(meshes[..k]))
    {
      assert meshes[..k + 1] == meshes[..k] + [meshes[k]];
      IdsSnoc(meshes[..k], meshes[k]);
      ReleasesSnoc(Ids(meshes[..k]), meshes[k].id);
      released := released + [Released(meshes[k].id)];
      k := k + 1;
    }
    assert meshes[..k] == meshes;
  }

  /** The first loop of the text-update effect: stage one geometry per
      character and sum the advances into the total width. */
  method StageText(text: seq<char>, boxes: seq<Option<BoundingBox>>, fontSize: real)
    returns (staged: seq<Staged>, totalWidth: real)
    requires |boxes| == |text|
    ensures staged == Stage(text, boxes, fontSize)
    ensures totalWidth == TotalWidth(text, boxes, fontSize)
  {
    totalWidth := 0.0;
    staged := [];
    var i := 0;
    while i < |text|
      invariant 0 <= i <= |text|
      invariant staged == Stage(text[..i], boxes[..i], fontSize)
      invariant totalWidth == TotalWidth(text[..i], boxes[..i], fontSize)
    {
      assert text[..i + 1][..i] == text[..i] && boxes[..i + 1][..i] == boxes[..i];
      var c := text[i];
      if c == ' ' {
        totalWidth := totalWidth + fontSize * SpaceFactor;
        staged := staged + [Staged(Placeholder, fontSize * SpaceFactor)];
      } else if boxes[i].Some? {
        var width := BoxWidth(boxes[i].value);
        totalWidth := totalWidth + width + fontSize * GapFactor;
        staged := staged + [Staged(Extruded(c), width)];
      }
      i := i + 1;
    }
    assert text[..i] == text && boxes[..i] == boxes;
  }

  /** `Layout` is the second loop run over the first loop's results. */
  lemma LayoutUnfolds(text: seq<char>, boxes: seq<Option<BoundingBox>>, style: Style, firstId: nat,
                      staged: seq<Staged>, start: real)
    requires |boxes| == |text|
    requires staged == Stage(text, boxes, style.fontSize)
    requires start == -TotalWidth(text, boxes, style.fontSize) / 2.0
    ensures Layout(text, boxes, style, firstId) == Place(text, staged, style, start, firstId, |staged|)
  {
  }

  /** The second loop of the text-update effect: one mesh per staged item
      whose character is not a space, each added to the scene as it is made. */
  method PlaceMeshes(text: seq<char>, staged: seq<Staged>, style: Style, start: real, firstId: nat)
    returns (placed: seq<Mesh>, added: seq<SceneEvent>)
    requires |staged| <= |text|
    ensures placed == Place(text, staged, style, start, firstId, |staged|)
    ensures added == Additions(Ids(placed))
  {
    placed := [];
    added := [];
    var currentX := start;
    var j := 0;
    while j < |staged|
      invariant 0 <= j <= |staged|
      invariant currentX == start + Cursor(text, staged, style.fontSize, j)
      invariant placed == Place(text, staged, style, start, firstId, j)
      invariant added == Additions(Ids(placed))
    {
      if text[j] == ' ' {
        PlaceSkipsSpace(text, staged, style, start, firstId, j);
        currentX := currentX + staged[j].width;
      } else {
        var mesh := Mesh(firstId + |placed|, staged[j].geometry, style.color,
                         Vec3(currentX + style.position.x, style.position.y, style.position.z),
                         style.rotation, style.position.y, j);
        PlaceAddsGlyph(text, staged, style, start, firstId, j, mesh);
        currentX := currentX + staged[j].width + style.fontSize * GapFactor;
        added := added + [Added(mesh.id)];
        placed := placed + [mesh];
      }
      j := j + 1;
    }
  }

  /** A staged item at a space position makes no mesh. */
  lemma PlaceSkipsSpace(text: seq<char>, staged: seq<Staged>, style: Style, start: real, firstId: nat, j: nat)
    requires j < |staged| <= |text| && text[j] == ' '
    ensures Place(text, staged, style, start, firstId, j + 1) == Place(text, staged, style, start, firstId, j)
  {
  }

  /** A staged item at a non-space position makes one mesh at the cursor,
      and its add event follows those of the meshes before it. */
  lemma PlaceAddsGlyph(text: seq<char>, staged: seq<Staged>, style: Style, start: real, firstId: nat, j: nat, m: Mesh)
    requires j < |staged| <= |text| && text[j] != ' '
    requires var prev := Place(text, staged, style, start, firstId, j);
      m == Mesh(firstId + |prev|, staged[j].geometry, style.color,
                Vec3(start + Cursor(text, staged, style.fontSize, j) + style.position.x,
                     style.position.y, style.position.z),
                style.rotation, style.position.y, j)
    ensures var prev := Place(text, staged, style, start, firstId, j);
      && Place(text, staged, style, start, firstId, j + 1) == prev + [m]
      && Additions(Ids(prev + [m])) == Additions(Ids(prev)) + [Added(m.id)]
  {
    var prev := Place(text, staged, style, start, firstId, j);
    IdsSnoc(prev, m);
    AdditionsSnoc(Ids(prev), m.id);
  }

  lemma IdsSnoc(ms: seq<Mesh>, m: Mesh)
    ensures Ids(ms + [m]) == Ids(ms) + [m.id]
  {
  }

  /** The report a drag end makes: the first mesh's rotation, when there is
      a mesh, a callback, and some component differs from the last report. */
  function RotationReport(meshes: seq<Mesh>, hasCallback: bool, last: Vec3): Option<Vec3>
  {
    if |meshes| > 0 && hasCallback && Differs(meshes[0].rotation, last)
    then Some(meshes[0].rotation)
    else None
  }

  /** A report is never repeated: once a rotation is reported, a drag end
      over the same meshes reports nothing. */
  lemma ReportNotRepeated(meshes: seq<Mesh>, hasCallback: bool, last: Vec3)
    ensures var r := RotationReport(meshes, hasCallback, last);
      && (r.Some? ==> r.value != last && RotationReport(meshes, hasCallback, r.value).None?)
      && (r.None? ==> |meshes| == 0 || !hasCallback || meshes[0].rotation == last)
  {
  }

  /** Whatever the boxes, a drag end after a text update reports the rotation
      given with that update, and only when it differs from the last report. */
  lemma ReportIsStyleRotation(text: seq<char>, boxes: seq<Option<BoundingBox>>, style: Style,
                              firstId: nat, hasCallback: bool, last: Vec3)
    requires |boxes| == |text|
    ensures var ms := Layout(text, boxes, style, firstId);
      RotationReport(ms, hasCallback, last) ==
        if |ms| > 0 && hasCallback && style.rotation != last then Some(style.rotation) else None
  {
    LayoutShape(text, boxes, style, firstId);
  }

  /** Some component of `a` differs from the same component of `b`. */
  predicate Differs(a: Vec3, b: Vec3)
  {
    a.x != b.x || a.y != b.y || a.z != b.z
  }
}
