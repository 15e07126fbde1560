/**
 The `/upload` handler of the frontend server (frontend/server.js): the
 vision service's labels for a stored image are renamed through a fixed alias
 table, kept only if the new name is a known workout item and not a generic
 category, and rendered as `"<name> (<confidence>%)"`.

 The confidence renderer (`Number.prototype.toFixed(2)`) is the parameter
 `fmt`; nothing here depends on how it rounds.
 */
module UploadFlow {
  import opened LabelFilter

  /** The vocabulary of workout items a detection must belong to. */
  const WorkoutItems: seq<string> := [
    "Dumbbells / Barbells", "Dumbbell", "Barbell", "Kettlebell", "Treadmill", "Weight Bench",
    "Squat Rack", "Leg Press Machine", "Resistance Band", "Exercise Bike", "Rowing Machine",
    "Pull-up Bar", "Workout Machine", "Strength Equipment", "Bench Press", "Plates",
    "Barbell Rack", "Dumbbell Rack", "Home Gym"
  ]

  /** Vision-service label names renamed to gym equipment names. */
  const LabelMapping: map<string, string> := map[
    "Gym Weights" := "Dumbbells / Barbells",
    "Dead Lift" := "Barbell",
    "Bicep Curls" := "Dumbbells",
    "Bench Press" := "Weight Bench",
    "Squat" := "Squat Rack",
    "Leg Press" := "Leg Press Machine",
    "Rowing Machine" := "Rowing Machine"
  ]

  /** Generic categories removed even when they pass the vocabulary test. */
  const Excluded: seq<string> := ["Fitness", "Gym"]

  /** The client-facing text of one kept detection. */
  function Render(l: Label, fmt: real -> string): (s: string)
  {
    l.name + " (" + fmt(l.confidence) + "%)"
  }

  /** The final `.map(...)`: one rendered string per kept label. */
  function RenderAll(kept: seq<Label>, fmt: real -> string): (r: seq<string>)
    ensures |r| == |kept|
    ensures forall k :: 0 <= k < |kept| ==> r[k] == Render(kept[k], fmt)
  {
    if kept == [] then []
    else [Render(kept[0], fmt)] + RenderAll(kept[1..], fmt)
  }

  /** The label that `l` turns into after alias resolution. */
  function Renamed(l: Label): (r: Label)
  {
    ResolveLabel(l, LabelMapping)
  }

  /** No alias in the table is the empty string, so the `||` fallback never
      fires: a key is always replaced by its alias, any other name kept. */
  lemma MappingResolves(name: string)
    ensures name in LabelMapping ==> Resolve(LabelMapping, name) == LabelMapping[name]
    ensures name !in LabelMapping ==> Resolve(LabelMapping, name) == name
  {
    assert forall k :: k in LabelMapping ==> LabelMapping[k] != "";
  }

  /** The `detections` list sent back for the vision service's `labels`. */
  function Detections(labels: seq<Label>, fmt: real -> string): (r: seq<string>)
    ensures |r| <= |labels|
    ensures labels == [] ==> r == []
  {
    RenderAll(Pipeline(labels, WorkoutItems, LabelMapping, Excluded), fmt)
  }

  datatype UploadResponse =
    | BadRequest(status: int, message: string)
    | Found(detections: seq<string>)

  /** The `/upload` handler once the image is stored and labelled: a request
      without a file is answered 400, any other with the detections. */
  function Upload(hasFile: bool, labels: seq<Label>, fmt: real -> string): (r: UploadResponse)
    ensures r.BadRequest? <==> !hasFile
    ensures r.BadRequest? ==> r.status == 400 && r.message == "No file uploaded"
    ensures r.Found? ==> r.detections == Detections(labels, fmt) && |r.detections| <= |labels|
  {
    if !hasFile then BadRequest(400, "No file uploaded")
    else Found(Detections(labels, fmt))
  }

  /** The detections are, in input order and once per occurrence, the rendered
      renamed labels whose new name is a workout item and not excluded; every
      other label is dropped. */
  lemma DetectionsSelect(labels: seq<Label>, fmt: real -> string) returns (idx: seq<nat>)
    ensures |idx| == |Detections(labels, fmt)|
    ensures forall k :: 0 <= k < |idx| ==>
      idx[k] < |labels| && Detections(labels, fmt)[k] == Render(Renamed(labels[idx[k]]), fmt)
    ensures forall k, m :: 0 <= k < m < |idx| ==> idx[k] < idx[m]
    ensures forall i :: 0 <= i < |labels| ==>
      (i in idx <==> Admitted(Resolve(LabelMapping, labels[i].name), WorkoutItems, Excluded))
  {
    var renamed := ResolveAll(labels, LabelMapping);
    idx := SelectIndices(renamed, WorkoutItems, Excluded);
    forall k | 0 <= k < |idx|
      ensures Detections(labels, fmt)[k] == Render(Renamed(labels[idx[k]]), fmt)
    {
      assert renamed[idx[k]] == Renamed(labels[idx[k]]);
    }
  }

  /** Detections of a concatenation are the detections of each part. */
  lemma DetectionsAppend(a: seq<Label>, b: seq<Label>, fmt: real -> string)
    ensures Detections(a + b, fmt) == Detections(a, fmt) + Detections(b, fmt)
  {
    PipelineAppend(a, b, WorkoutItems, LabelMapping, Excluded);
    RenderAllAppend(Pipeline(a, WorkoutItems, LabelMapping, Excluded),
                    Pipeline(b, WorkoutItems, LabelMapping, Excluded), fmt);
  }

  /** Rendering a concatenation renders each part. */
  lemma {:induction false} RenderAllAppend(a: seq<Label>, b: seq<Label>, fmt: real -> string)
    ensures RenderAll(a + b, fmt) == RenderAll(a, fmt) + RenderAll(b, fmt)
  {
    if a == [] {
      assert a + b == b;
    } else {
      assert (a + b)[0] == a[0];
      assert (a + b)[1..] == a[1..] + b;
      RenderAllAppend(a[1..], b, fmt);
    }
  }

  /** One label in the middle of the list contributes exactly its own entry,
      or nothing, without disturbing its neighbours. */
  lemma DetectionsAround(a: seq<Label>, l: Label, b: seq<Label>, fmt: real -> string)
    ensures Admitted(Renamed(l).name, WorkoutItems, Excluded) ==>
      Detections(a + [l] + b, fmt) == Detections(a, fmt) + [Render(Renamed(l), fmt)] + Detections(b, fmt)
    ensures !Admitted(Renamed(l).name, WorkoutItems, Excluded) ==>
      Detections(a + [l] + b, fmt) == Detections(a + b, fmt)
  {
    PipelineAround(a, l, b, WorkoutItems, LabelMapping, Excluded);
    if Admitted(Renamed(l).name, WorkoutItems, Excluded) {
      var pa := Pipeline(a, WorkoutItems, LabelMapping, Excluded);
      var pb := Pipeline(b, WorkoutItems, LabelMapping, Excluded);
      RenderAllAppend(pa + [Renamed(l)], pb, fmt);
      RenderAllAppend(pa, [Renamed(l)], fmt);
      assert RenderAll([Renamed(l)], fmt) == [Render(Renamed(l), fmt)] by {
        assert [Renamed(l)][1..] == [];
      }
    }
  }

  /** A raw "Gym Weights" label is shown as "Dumbbells / Barbells". */
  lemma GymWeightsRendered(a: seq<Label>, c: real, b: seq<Label>, fmt: real -> string)
    ensures Detections(a + [Label("Gym Weights", c)] + b, fmt)
         == Detections(a, fmt) + ["Dumbbells / Barbells" + " (" + fmt(c) + "%)"] + Detections(b, fmt)
  {
    var l := Label("Gym Weights", c);
    assert Renamed(l) == Label("Dumbbells / Barbells", c);
    assert WorkoutItems[0] == "Dumbbells / Barbells";
    assert Admitted(Renamed(l).name, WorkoutItems, Excluded);
    DetectionsAround(a, l, b, fmt);
  }

  /** A raw "Bench Press" label is shown as "Weight Bench". */
  lemma BenchPressRenamed(a: seq<Label>, c: real, b: seq<Label>, fmt: real -> string)
    ensures Detections(a + [Label("Bench Press", c)] + b, fmt)
         == Detections(a, fmt) + ["Weight Bench" + " (" + fmt(c) + "%)"] + Detections(b, fmt)
  {
    var l := Label("Bench Press", c);
    assert Renamed(l) == Label("Weight Bench", c);
    assert WorkoutItems[5] == "Weight Bench";
    assert Admitted(Renamed(l).name, WorkoutItems, Excluded);
    DetectionsAround(a, l, b, fmt);
  }

  /** No kept label is ever named "Bench Press", although that name is in the
      vocabulary: a raw "Bench Press" is always renamed and no alias yields it. */
  lemma BenchPressNeverKept(labels: seq<Label>)
    ensures forall k :: 0 <= k < |Pipeline(labels, WorkoutItems, LabelMapping, Excluded)| ==>
      Pipeline(labels, WorkoutItems, LabelMapping, Excluded)[k].name != "Bench Press"
  {
    var renamed := ResolveAll(labels, LabelMapping);
    forall i | 0 <= i < |renamed|
      ensures renamed[i].name != "Bench Press"
    {
      var n := labels[i].name;
      if n in LabelMapping {
        assert LabelMapping[n] in LabelMapping.Values;
        assert "Bench Press" !in LabelMapping.Values;
      }
    }
  }

  /** A raw "Bicep Curls" label is always dropped: its alias "Dumbbells" is not
      a workout item. */
  lemma BicepCurlsDropped(a: seq<Label>, c: real, b: seq<Label>, fmt: real -> string)
    ensures Detections(a + [Label("Bicep Curls", c)] + b, fmt) == Detections(a + b, fmt)
  {
    assert "Dumbbells" !in WorkoutItems;
    DetectionsAround(a, Label("Bicep Curls", c), b, fmt);
  }

  /** A raw "Fitness" or "Gym" label is always dropped. */
  lemma GenericCategoryDropped(a: seq<Label>, name: string, c: real, b: seq<Label>, fmt: real -> string)
    requires name == "Fitness" || name == "Gym"
    ensures Detections(a + [Label(name, c)] + b, fmt) == Detections(a + b, fmt)
  {
    assert name !in LabelMapping;
    assert name in Excluded;
    DetectionsAround(a, Label(name, c), b, fmt);
  }

  /** The exclusion of "Fitness" and "Gym" never changes the result: neither
      name is a workout item. */
  lemma ExclusionRedundant(labels: seq<Label>, fmt: real -> string)
    ensures Detections(labels, fmt) == RenderAll(Pipeline(labels, WorkoutItems, LabelMapping, []), fmt)
  {
    assert "Fitness" !in WorkoutItems && "Gym" !in WorkoutItems;
    SelectDisjointExclusion(ResolveAll(labels, LabelMapping), WorkoutItems, Excluded);
  }
}
