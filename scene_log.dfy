/**
 * The scene's view of glyph meshes, as a log of events on mesh identities.
 *
 * The text-update effect removes every old mesh from the scene and disposes
 * its geometry and material (src/components/three/TextRenderer.tsx, lines
 * 223-231), then adds each new mesh (line 299). `Live` is the multiset of
 * mesh identities the scene holds after a log of such events.
 */
module SceneLog {

  datatype SceneEvent =
    | Added(id: nat)     // scene.add(mesh)
    | Released(id: nat)  // scene.remove(mesh), then geometry and material disposed

  /** Identities present in the scene after the events of `log`. */
  function Live(log: seq<SceneEvent>): multiset<nat>
  {
    if log == [] then multiset{}
    else
      Apply(Live(log[..|log| - 1]), log[|log| - 1])
  }

  /** The live identities after one more event. */
  function Apply(live: multiset<nat>, e: SceneEvent): multiset<nat>
  {
    match e
    case Added(id) => live + multiset{id}
    case Released(id) => live - multiset{id}
  }

  /** One `Added` event per identity, in order. */
  function Additions(ids: seq<nat>): (r: seq<SceneEvent>)
    ensures |r| == |ids|
    ensures forall j :: 0 <= j < |ids| ==> r[j] == Added(ids[j])
  {
    if ids == [] then [] else Additions(ids[..|ids| - 1]) + [Added(ids[|ids| - 1])]
  }

  /** Appending one identity appends one `Added` event. */
  lemma AdditionsSnoc(ids: seq<nat>, x: nat)
    ensures Additions(ids + [x]) == Additions(ids) + [Added(x)]
  {
    assert (ids + [x])[..|ids|] == ids;
  }

  /** One `Released` event per identity, in order. */
  function Releases(ids: seq<nat>): (r: seq<SceneEvent>)
    ensures |r| == |ids|
    ensures forall j :: 0 <= j < |ids| ==> r[j] == Released(ids[j])
  {
    if ids == [] then [] else Releases(ids[..|ids| - 1]) + [Released(ids[|ids| - 1])]
  }

  /** Appending one identity appends one `Released` event. */
  lemma ReleasesSnoc(ids: seq<nat>, x: nat)
    ensures Releases(ids + [x]) == Releases(ids) + [Released(x)]
  {
    assert (ids + [x])[..|ids|] == ids;
  }

  /** Adding meshes puts each of their identities into the scene once. */
  lemma {:induction false} LiveAfterAdditions(log: seq<SceneEvent>, ids: seq<nat>)
    ensures Live(log + Additions(ids)) == Live(log) + multiset(ids)
  {
    if ids != [] {
      var n := |ids| - 1;
      LiveAfterAdditions(log, ids[..n]);
      assert log + Additions(ids) == (log + Additions(ids[..n])) + [Added(ids[n])];
      LiveSnoc(log + Additions(ids[..n]), Added(ids[n]));
      assert ids == ids[..n] + [ids[n]];
    } else {
      assert log + Additions(ids) == log;
    }
  }

  /** Releasing meshes takes each of their identities out of the scene. */
  lemma {:induction false} LiveAfterReleases(log: seq<SceneEvent>, ids: seq<nat>)
    ensures Live(log + Releases(ids)) == Live(log) - multiset(ids)
  {
    if ids != [] {
      var n := |ids| - 1;
      var front := log + Releases(ids[..n]);
      assert log + Releases(ids) == front + [Released(ids[n])];
      calc {
        Live(log + Releases(ids));
        { LiveSnoc(front, Released(ids[n])); }
        Live(front) - multiset{ids[n]};
        { LiveAfterReleases(log, ids[..n]); }
        (Live(log) - multiset(ids[..n])) - multiset{ids[n]};
        { SubtractInTurn(Live(log), multiset(ids[..n]), ids[n]); }
        Live(log) - (multiset(ids[..n]) + multiset{ids[n]});
        { assert ids == ids[..n] + [ids[n]]; }
        Live(log) - multiset(ids);
      }
    } else {
      assert log + Releases(ids) == log;
    }
  }

  /** The effect of one more event on the live identities. */
  lemma LiveSnoc(log: seq<SceneEvent>, e: SceneEvent)
    ensures Live(log + [e]) == Apply(Live(log), e)
  {
    assert (log + [e])[..|log|] == log;
  }

  /** Taking away a multiset and then one more element is taking away both. */
  lemma SubtractInTurn(a: multiset<nat>, b: multiset<nat>, x: nat)
    ensures (a - b) - multiset{x} == a - (b + multiset{x})
  {
    forall y ensures ((a - b) - multiset{x})[y] == (a - (b + multiset{x}))[y] {
    }
  }

  /** Releasing everything that is live and then adding a new set leaves
      exactly the new set in the scene: nothing accumulates across updates. */
  lemma ReplaceLeavesOnlyNew(log: seq<SceneEvent>, old_ids: seq<nat>, new_ids: seq<nat>)
    requires Live(log) == multiset(old_ids)
    ensures Live(log + Releases(old_ids) + Additions(new_ids)) == multiset(new_ids)
  {
    LiveAfterReleases(log, old_ids);
    LiveAfterAdditions(log + Releases(old_ids), new_ids);
  }
}
