/**
 What the production screens may show: the guard that drops stale responses, the choice of the
 current artifact, and the view built from a rendered artifact's snapshot.
 */
module ReadAuthority {
  import opened Wrappers
  import opened Text

  // ---- The request guard ----

  /** 2^53, where adding one to a JavaScript number stops changing it. */
  const LARGEST := 9_007_199_254_740_992

  function Increment(n: nat): nat {
    if n < LARGEST then n + 1 else n
  }

  datatype Event = Begun(artifact: string) | Invalidated

  datatype Ticket = Ticket(artifact: string, generation: nat)

  function GenerationAfter(history: seq<Event>): nat {
    if history == [] then 0 else Increment(GenerationAfter(history[..|history| - 1]))
  }

  class ArtifactTruthRequestGuard {
    var generation: nat
    /** Every begin and invalidate so far. */
    ghost var history: seq<Event>

    ghost predicate Valid()
      reads this
    {
      generation == GenerationAfter(history)
    }

    constructor ()
      ensures Valid() && history == []
    {
      generation, history := 0, [];
    }

    method Begin(artifact: string) returns (ticket: Ticket)
      requires Valid()
      modifies this
      ensures Valid() && history == old(history) + [Begun(artifact)]
      ensures ticket == TicketOf(history, |old(history)|)
    {
      generation := Increment(generation);
      history := history + [Begun(artifact)];
      assert history[..|history| - 1] == old(history) && history[..|history|] == history;
      ticket := Ticket(artifact, generation);
    }

    method Invalidate()
      requires Valid()
      modifies this
      ensures Valid() && history == old(history) + [Invalidated]
    {
      generation := Increment(generation);
      history := history + [Invalidated];
      assert history[..|history| - 1] == old(history);
    }

    /** A missing or empty response id is not compared. */
    predicate IsCurrent(ticket: Ticket, selected: Option<string>, response: Option<string>)
      reads this
    {
      && ticket.generation == generation
      && Some(ticket.artifact) == selected
      && (response == None || response == Some("") || response == Some(ticket.artifact))
    }
  }

  /** The ticket that the k-th event handed out. */
  ghost function TicketOf(history: seq<Event>, k: nat): Ticket
    requires k < |history| && history[k].Begun?
  {
    Ticket(history[k].artifact, GenerationAfter(history[..k + 1]))
  }

  lemma {:induction false} GenerationIsLength(history: seq<Event>)
    ensures GenerationAfter(history) == if |history| < LARGEST then |history| else LARGEST
  {
    if history != [] {
      GenerationIsLength(history[..|history| - 1]);
    }
  }

  /** A ticket is of the current generation exactly when no event came after it, or, beyond what
      a number can count, when it was issued at the largest generation. */
  lemma CurrentIff(history: seq<Event>, k: nat)
    requires k < |history| && history[k].Begun?
    ensures TicketOf(history, k).generation == GenerationAfter(history) <==> k == |history| - 1 || k + 1 >= LARGEST
  {
    GenerationIsLength(history);
    GenerationIsLength(history[..k + 1]);
  }

  /** What the guard answers for a ticket it handed out: whether nothing happened since, the artifact
      is still the selected one, and the response, if it names one, names the same. */
  lemma CurrentMeansLatest(guard: ArtifactTruthRequestGuard, k: nat, selected: Option<string>, response: Option<string>)
    requires guard.Valid() && k < |guard.history| && guard.history[k].Begun? && |guard.history| < LARGEST
    ensures guard.IsCurrent(TicketOf(guard.history, k), selected, response) <==>
            && k == |guard.history| - 1
            && selected == Some(guard.history[k].artifact)
            && (response.Some? && response.value != "" ==> response.value == guard.history[k].artifact)
  {
    CurrentIff(guard.history, k);
  }

  /** A stale ticket never becomes current again, whatever happens later. */
  lemma StaleForever(history: seq<Event>, more: seq<Event>, k: nat)
    requires k < |history| && history[k].Begun?
    requires TicketOf(history, k).generation != GenerationAfter(history)
    ensures TicketOf(history + more, k) == TicketOf(history, k)
    ensures TicketOf(history, k).generation != GenerationAfter(history + more)
  {
    assert (history + more)[..k + 1] == history[..k + 1];
    CurrentIff(history, k);
    CurrentIff(history + more, k);
  }

  /** While the count is exact, generations are pairwise distinct, so at most one ticket is current. */
  lemma GenerationsDiffer(history: seq<Event>, j: nat, k: nat)
    requires j < k < |history| && history[j].Begun? && history[k].Begun? && k < LARGEST
    ensures TicketOf(history, j).generation < TicketOf(history, k).generation
  {
    GenerationIsLength(history[..j + 1]);
    GenerationIsLength(history[..k + 1]);
  }

  // ---- Artifacts ----

  datatype Artifact = Artifact(id: string, current: bool, request: string, createdAt: string)

  function CurrentOf(artifacts: seq<Artifact>): (r: seq<Artifact>) {
    if artifacts == [] then []
    else
      var n := |artifacts| - 1;
      CurrentOf(artifacts[..n]) + (if artifacts[n].current then [artifacts[n]] else [])
  }

  datatype Selection = Selected(id: string) | Nothing | Ambiguous

  function ResolveAutomaticArtifactSelection(artifacts: seq<Artifact>): (r: Selection) {
    var current := CurrentOf(artifacts);
    if |current| == 1 then Selected(current[0].id) else if |current| == 0 then Nothing else Ambiguous
  }

  function PlacesOf(artifacts: seq<Artifact>): set<nat> {
    set i: nat | i < |artifacts| && artifacts[i].current
  }

  lemma {:induction false} CurrentPlaces(artifacts: seq<Artifact>)
    ensures |CurrentOf(artifacts)| == |PlacesOf(artifacts)|
    ensures forall i <- PlacesOf(artifacts) :: artifacts[i] in CurrentOf(artifacts)
  {
    if artifacts == [] {
      assert PlacesOf(artifacts) == {};
    } else {
      var n := |artifacts| - 1;
      var init := artifacts[..n];
      CurrentPlaces(init);
      assert PlacesOf(artifacts) == PlacesOf(init) + if artifacts[n].current then {n} else {};
      forall i <- PlacesOf(artifacts) ensures artifacts[i] in CurrentOf(artifacts) {
        if i < n {
          assert i in PlacesOf(init) && init[i] == artifacts[i];
        }
      }
    }
  }

  /** An artifact is chosen exactly when it is the only one marked current. */
  lemma SelectedIff(artifacts: seq<Artifact>, k: nat)
    requires k < |artifacts|
    ensures artifacts[k].current && (forall i | 0 <= i < |artifacts| && i != k :: !artifacts[i].current) ==>
              ResolveAutomaticArtifactSelection(artifacts) == Selected(artifacts[k].id)
    ensures ResolveAutomaticArtifactSelection(artifacts).Selected? ==>
              exists j :: 0 <= j < |artifacts| && artifacts[j].current
                && forall i | 0 <= i < |artifacts| && i != j :: !artifacts[i].current
  {
    var places := PlacesOf(artifacts);
    CurrentPlaces(artifacts);
    if artifacts[k].current && forall i | 0 <= i < |artifacts| && i != k :: !artifacts[i].current {
      assert places == {k};
    }
    if ResolveAutomaticArtifactSelection(artifacts).Selected? {
      var j :| j in places;
      assert |places - {j}| == 0;
      forall i | 0 <= i < |artifacts| && i != j ensures !artifacts[i].current {
        assert i !in places - {j};
      }
    }
  }

  ghost predicate TwoCurrent(artifacts: seq<Artifact>) {
    exists i, j :: 0 <= i < j < |artifacts| && artifacts[i].current && artifacts[j].current
  }

  lemma TwoPlaces(artifacts: seq<Artifact>)
    ensures TwoCurrent(artifacts) <==> |PlacesOf(artifacts)| >= 2
  {
    var places := PlacesOf(artifacts);
    if TwoCurrent(artifacts) {
      var i, j :| 0 <= i < j < |artifacts| && artifacts[i].current && artifacts[j].current;
      assert j in places - {i} && |places| == |places - {i}| + 1;
    }
    if |places| >= 2 {
      var i :| i in places;
      assert |places - {i}| >= 1;
      var j :| j in places - {i};
      assert i < j || j < i;
    }
  }

  /** Nothing is chosen, without an error, exactly when no artifact is marked current; two are an error. */
  lemma UnresolvedIff(artifacts: seq<Artifact>)
    ensures ResolveAutomaticArtifactSelection(artifacts) == Nothing <==> forall i | 0 <= i < |artifacts| :: !artifacts[i].current
    ensures ResolveAutomaticArtifactSelection(artifacts) == Ambiguous <==> TwoCurrent(artifacts)
  {
    CurrentPlaces(artifacts);
    TwoPlaces(artifacts);
    if PlacesOf(artifacts) == {} {
      forall i | 0 <= i < |artifacts| ensures !artifacts[i].current {
        assert i !in PlacesOf(artifacts);
      }
    } else {
      var i :| i in PlacesOf(artifacts);
      assert |PlacesOf(artifacts)| > 0;
    }
  }

  // ---- The view ----

  /** kind, template and the rest of a visual's identity are one opaque text here. */
  datatype Visual = Visual(origin: string, identity: string)

  datatype SnapshotScene = SnapshotScene(index: int, visual: int, narration: Option<string>, durationMs: int)
  datatype SnapshotSegment = SnapshotSegment(index: int, scene: int, text: string, startMs: int, endMs: int, durationMs: int)
  datatype SnapshotCue = SnapshotCue(order: int, scene: int, text: string, startMs: int, endMs: int)
  datatype Snapshot = Snapshot(scenes: seq<SnapshotScene>, narration: seq<SnapshotSegment>, cues: seq<SnapshotCue>,
                               visuals: seq<Visual>, durationMs: int)

  datatype Scene = Scene(id: string, request: string, order: int, text: string, durationMs: int, intent: Option<string>)
  datatype Segment = Segment(id: string, request: string, scene: string, text: string, startMs: int, endMs: int, durationMs: int)
  datatype Cue = Cue(id: string, request: string, scene: string, order: int, startMs: int, endMs: int, text: string)

  datatype Authority = Planned | Rendered | Unavailable

  datatype View = View(authority: Authority, scenes: seq<Scene>, narration: seq<Segment>, subtitles: seq<Cue>,
                       visuals: seq<Visual>, durationMs: int)

  datatype TruthState =
    | PlannedState
    | LoadingState(artifact: string)
    | RenderedState(artifact: string, truthArtifact: string, snapshot: Snapshot)
    | UnavailableState(artifact: string)
    | ErrorState(artifact: string)

  datatype Plan = Plan(scenes: seq<Scene>, narration: seq<Segment>, subtitles: seq<Cue>)

  function TotalDuration(scenes: seq<Scene>): int {
    if scenes == [] then 0 else TotalDuration(scenes[..|scenes| - 1]) + scenes[|scenes| - 1].durationMs
  }

  function SceneId(artifact: string, index: int): string {
    "runtime-" + artifact + "-scene-" + IntText(index)
  }

  /** new Map over the scenes: a later entry replaces an earlier one of the same index. */
  function SceneIds(artifact: string, scenes: seq<SnapshotScene>): (r: map<int, string>) {
    if scenes == [] then map[]
    else
      var last := scenes[|scenes| - 1];
      SceneIds(artifact, scenes[..|scenes| - 1])[last.index := SceneId(artifact, last.index)]
  }

  lemma {:induction false} SceneIdsHold(artifact: string, scenes: seq<SnapshotScene>)
    ensures var r := SceneIds(artifact, scenes);
            && (forall k :: k in r <==> exists s <- scenes :: s.index == k)
            && (forall k <- r :: r[k] == SceneId(artifact, k))
  {
    if scenes != [] {
      var init, last := scenes[..|scenes| - 1], scenes[|scenes| - 1];
      SceneIdsHold(artifact, init);
      assert scenes == init + [last];
    }
  }

  function Describe(v: Visual): string {
    v.origin + " · " + v.identity
  }

  function Lookup(ids: map<int, string>, artifact: string, index: int): string {
    if index in ids then ids[index] else SceneId(artifact, index)
  }

  function RenderedScenes(a: Artifact, s: Snapshot): (r: seq<Scene>)
    ensures |r| == |s.scenes|
  {
    SceneIdsHold(a.id, s.scenes);
    var ids := SceneIds(a.id, s.scenes);
    seq(|s.scenes|, i requires 0 <= i < |s.scenes| =>
      var scene := s.scenes[i];
      assert scene in s.scenes;
      Scene(ids[scene.index], a.request, scene.index,
            if scene.narration.Some? then scene.narration.value else "", scene.durationMs,
            if 0 <= scene.visual < |s.visuals| then Some(Describe(s.visuals[scene.visual])) else None))
  }

  function RenderedNarration(a: Artifact, s: Snapshot): (r: seq<Segment>)
    ensures |r| == |s.narration|
  {
    var ids := SceneIds(a.id, s.scenes);
    seq(|s.narration|, i requires 0 <= i < |s.narration| =>
      var n := s.narration[i];
      Segment("runtime-" + a.id + "-narration-" + IntText(n.index), a.request, Lookup(ids, a.id, n.scene),
              n.text, n.startMs, n.endMs, n.durationMs))
  }

  function RenderedCues(a: Artifact, s: Snapshot): (r: seq<Cue>)
    ensures |r| == |s.cues|
  {
    var ids := SceneIds(a.id, s.scenes);
    seq(|s.cues|, i requires 0 <= i < |s.cues| =>
      var c := s.cues[i];
      Cue("runtime-" + a.id + "-subtitle-" + IntText(c.order), a.request, Lookup(ids, a.id, c.scene),
          c.order, c.startMs, c.endMs, c.text))
  }

  const EMPTY_VIEW := View(Unavailable, [], [], [], [], 0)

  function BuildProductionReadView(state: TruthState, planned: Plan, artifact: Option<Artifact>): (r: View) {
    if state.PlannedState? then
      View(Planned, planned.scenes, planned.narration, planned.subtitles, [], TotalDuration(planned.scenes))
    else if !state.RenderedState? || artifact.None? || state.artifact != artifact.value.id
            || state.truthArtifact != artifact.value.id then
      EMPTY_VIEW
    else
      var a, s := artifact.value, state.snapshot;
      View(Rendered, RenderedScenes(a, s), RenderedNarration(a, s), RenderedCues(a, s), s.visuals, s.durationMs)
  }

  /** A snapshot is shown only for the very artifact that was asked for and answered; outside the
      planned state anything else shows nothing at all. */
  lemma RenderedIff(state: TruthState, planned: Plan, artifact: Option<Artifact>)
    ensures var v := BuildProductionReadView(state, planned, artifact);
            && (v.authority == Rendered <==>
                state.RenderedState? && artifact.Some? && state.artifact == state.truthArtifact == artifact.value.id)
            && (v.authority == Planned <==> state.PlannedState?)
            && (v.authority == Unavailable ==> v == View(Unavailable, [], [], [], [], 0))
  {
  }

  lemma SceneIdInjective(artifact: string, j: int, k: int)
    requires SceneId(artifact, j) == SceneId(artifact, k)
    ensures j == k
  {
    var p := "runtime-" + artifact + "-scene-";
    assert SceneId(artifact, j)[|p|..] == IntText(j) && SceneId(artifact, k)[|p|..] == IntText(k);
    IntTextInjective(j, k);
  }

  /** What the screens show for the snapshot s of the artifact a. Every scene, segment and cue of the
      snapshot appears in its place; a scene's id and every reference to it are the same text. */
  ghost predicate Shows(v: View, a: Artifact, s: Snapshot) {
    && v.authority == Rendered && v.visuals == s.visuals && v.durationMs == s.durationMs
    && |v.scenes| == |s.scenes| && |v.narration| == |s.narration| && |v.subtitles| == |s.cues|
    && (forall i | 0 <= i < |s.scenes| :: ShowsScene(v.scenes[i], a, s.scenes[i], s.visuals))
    && (forall i | 0 <= i < |s.narration| :: ShowsSegment(v.narration[i], a, s.narration[i]))
    && (forall i | 0 <= i < |s.cues| :: ShowsCue(v.subtitles[i], a, s.cues[i]))
  }

  predicate ShowsScene(v: Scene, a: Artifact, s: SnapshotScene, visuals: seq<Visual>) {
    && v.id == "runtime-" + a.id + "-scene-" + IntText(s.index)
    && v.request == a.request && v.order == s.index && v.durationMs == s.durationMs
    && (s.narration == Some(v.text) || (s.narration.None? && v.text == ""))
    && (v.intent.Some? <==> 0 <= s.visual < |visuals|)
    && (v.intent.Some? ==> v.intent.value == visuals[s.visual].origin + " · " + visuals[s.visual].identity)
  }

  predicate ShowsSegment(v: Segment, a: Artifact, s: SnapshotSegment) {
    && v.id == "runtime-" + a.id + "-narration-" + IntText(s.index)
    && v.scene == "runtime-" + a.id + "-scene-" + IntText(s.scene)
    && v.request == a.request && v.text == s.text
    && v.startMs == s.startMs && v.endMs == s.endMs && v.durationMs == s.durationMs
  }

  predicate ShowsCue(v: Cue, a: Artifact, s: SnapshotCue) {
    && v.id == "runtime-" + a.id + "-subtitle-" + IntText(s.order)
    && v.scene == "runtime-" + a.id + "-scene-" + IntText(s.scene)
    && v.request == a.request && v.order == s.order && v.text == s.text
    && v.startMs == s.startMs && v.endMs == s.endMs
  }

  lemma ScenesShown(a: Artifact, s: Snapshot)
    ensures forall i | 0 <= i < |s.scenes| :: ShowsScene(RenderedScenes(a, s)[i], a, s.scenes[i], s.visuals)
  {
    SceneIdsHold(a.id, s.scenes);
    forall i | 0 <= i < |s.scenes| ensures ShowsScene(RenderedScenes(a, s)[i], a, s.scenes[i], s.visuals) {
      assert s.scenes[i] in s.scenes;
    }
  }

  lemma SegmentsShown(a: Artifact, s: Snapshot)
    ensures forall i | 0 <= i < |s.narration| :: ShowsSegment(RenderedNarration(a, s)[i], a, s.narration[i])
  {
    SceneIdsHold(a.id, s.scenes);
  }

  lemma CuesShown(a: Artifact, s: Snapshot)
    ensures forall i | 0 <= i < |s.cues| :: ShowsCue(RenderedCues(a, s)[i], a, s.cues[i])
  {
    SceneIdsHold(a.id, s.scenes);
  }

  /** The very artifact that was asked for and answered is shown with its whole snapshot, in order. */
  lemma ViewFollowsSnapshot(state: TruthState, planned: Plan, a: Artifact)
    requires state.RenderedState? && state.artifact == a.id && state.truthArtifact == a.id
    ensures Shows(BuildProductionReadView(state, planned, Some(a)), a, state.snapshot)
  {
    ScenesShown(a, state.snapshot);
    SegmentsShown(a, state.snapshot);
    CuesShown(a, state.snapshot);
  }

  /** In the planned state the planned lists come back as they are, whatever the artifact. */
  lemma PlanIsShown(state: TruthState, planned: Plan, artifact: Option<Artifact>)
    requires state.PlannedState?
    ensures var v := BuildProductionReadView(state, planned, artifact);
            && v.scenes == planned.scenes && v.narration == planned.narration && v.subtitles == planned.subtitles
            && v.visuals == [] && v.durationMs == DurationFrom(planned.scenes, 0)
  {
    assert planned.scenes[0..] == planned.scenes && planned.scenes[..|planned.scenes|] == planned.scenes;
    DurationSplits(planned.scenes, |planned.scenes|);
  }

  /** The sum of the durations from the i-th scene on. */
  function DurationFrom(scenes: seq<Scene>, i: nat): int
    requires i <= |scenes|
    decreases |scenes| - i
  {
    if i == |scenes| then 0 else scenes[i].durationMs + DurationFrom(scenes, i + 1)
  }

  lemma {:induction false} DurationSplits(scenes: seq<Scene>, i: nat)
    requires i <= |scenes|
    ensures TotalDuration(scenes[..i]) + DurationFrom(scenes, i) == DurationFrom(scenes, 0)
  {
    if i > 0 {
      DurationSplits(scenes, i - 1);
      assert scenes[..i][..i - 1] == scenes[..i - 1];
    }
  }

  ghost predicate SceneIdIn(v: View, id: string) {
    exists k | 0 <= k < |v.scenes| :: v.scenes[k].id == id
  }

  ghost predicate IndexIn(s: Snapshot, index: int) {
    exists k | 0 <= k < |s.scenes| :: s.scenes[k].index == index
  }

  /** A cue of the view refers to a scene of the view exactly when its scene index occurs in the
      snapshot; the fallback id of another index never meets a scene by accident. */
  lemma CueRefersIff(v: View, a: Artifact, s: Snapshot, i: nat)
    requires Shows(v, a, s) && i < |s.cues|
    ensures SceneIdIn(v, v.subtitles[i].scene) <==> IndexIn(s, s.cues[i].scene)
  {
    assert ShowsCue(v.subtitles[i], a, s.cues[i]);
    ReferenceIff(v, a, s, s.cues[i].scene);
  }

  /** The same for a narration segment. */
  lemma SegmentRefersIff(v: View, a: Artifact, s: Snapshot, i: nat)
    requires Shows(v, a, s) && i < |s.narration|
    ensures SceneIdIn(v, v.narration[i].scene) <==> IndexIn(s, s.narration[i].scene)
  {
    assert ShowsSegment(v.narration[i], a, s.narration[i]);
    ReferenceIff(v, a, s, s.narration[i].scene);
  }

  lemma ReferenceIff(v: View, a: Artifact, s: Snapshot, index: int)
    requires Shows(v, a, s)
    ensures SceneIdIn(v, SceneId(a.id, index)) <==> IndexIn(s, index)
  {
    if k :| 0 <= k < |v.scenes| && v.scenes[k].id == SceneId(a.id, index) {
      assert ShowsScene(v.scenes[k], a, s.scenes[k], s.visuals);
      SceneIdInjective(a.id, s.scenes[k].index, index);
    }
    if k :| 0 <= k < |s.scenes| && s.scenes[k].index == index {
      assert ShowsScene(v.scenes[k], a, s.scenes[k], s.visuals);
    }
  }

  /** A scene's visual intent describes the visual it points at, and is absent when it points nowhere. */
  lemma IntentIff(state: TruthState, planned: Plan, a: Artifact, i: nat)
    requires state.RenderedState? && state.artifact == a.id && state.truthArtifact == a.id
    requires i < |state.snapshot.scenes|
    ensures var s, v := state.snapshot, BuildProductionReadView(state, planned, Some(a));
            && |v.scenes| == |s.scenes|
            && (v.scenes[i].intent.Some? <==> 0 <= s.scenes[i].visual < |s.visuals|)
            && (v.scenes[i].intent.Some? ==> v.scenes[i].intent.value == Describe(s.visuals[s.scenes[i].visual]))
  {
    ViewFollowsSnapshot(state, planned, a);
    assert ShowsScene(BuildProductionReadView(state, planned, Some(a)).scenes[i], a, state.snapshot.scenes[i],
                      state.snapshot.visuals);
  }
}
