/**
 The `/detect-frame` handler of the backend server (backend/server.js): a
 request must carry an image and a session id; the vision service's labels
 for the image are then kept when their raw name is on the gym equipment
 list, and returned beside the complete, unfiltered label list.

 The vision call is represented by its answer, the parameter `labels`; the
 confidence renderer (`Number.prototype.toFixed(2)`) is the parameter `fmt`.
 */
module FrameFlow {
  import opened LabelFilter

  /** The names a frame detection must carry verbatim. */
  const GymEquipmentList: seq<string> := [
    "Bench Press", "Treadmill", "Gym Weights", "Dumbbell", "Barbell",
    "Squat Rack", "Kettlebell", "Resistance Band", "Rowing Machine", "Weight Plate",
    "Exercise Bike", "Lat Pulldown Machine", "Cable Crossover", "Smith Machine",
    "Gym", "Fitness", "Sport", "Workout", "Exercise", "Bodybuilding"
  ]

  /** A field of the request body as a JSON value; `Absent` is a missing key
      and `Composite` stands for any object or array. */
  datatype Field =
    | Absent
    | Null
    | Bool(b: bool)
    | Number(n: real)
    | Text(s: string)
    | Composite

  /** JavaScript truthiness of a request field. */
  predicate Truthy(f: Field)
  {
    match f
    case Absent => false
    case Null => false
    case Bool(b) => b
    case Number(n) => n != 0.0
    case Text(s) => s != ""
    case Composite => true
  }

  datatype Request = Request(imageBase64: Field, sessionId: Field)

  /** One entry of the response: the label's name and its rendered confidence. */
  datatype Item = Item(name: string, confidence: string)

  /** The `.map(...)` to response entries, one per label, names unchanged. */
  function Describe(labels: seq<Label>, fmt: real -> string): (r: seq<Item>)
    ensures |r| == |labels|
    ensures forall i :: 0 <= i < |labels| ==>
      r[i].name == labels[i].name && r[i].confidence == fmt(labels[i].confidence) + "%"
  {
    if labels == [] then []
    else [Item(labels[0].name, fmt(labels[0].confidence) + "%")] + Describe(labels[1..], fmt)
  }

  /** `detectedItems`: the labels whose raw name is on the equipment list. */
  function DetectedItems(labels: seq<Label>, fmt: real -> string): (r: seq<Item>)
    ensures |r| <= |labels|
    ensures forall k :: 0 <= k < |r| ==> r[k].name in GymEquipmentList
  {
    Describe(Select(labels, GymEquipmentList, []), fmt)
  }

  /** `allLabels`: every label, unfiltered. */
  function AllLabels(labels: seq<Label>, fmt: real -> string): (r: seq<Item>)
    ensures |r| == |labels|
    ensures forall i :: 0 <= i < |labels| ==>
      r[i].name == labels[i].name && r[i].confidence == fmt(labels[i].confidence) + "%"
  {
    Describe(labels, fmt)
  }

  datatype FrameResponse =
    | BadRequest(status: int, message: string)
    | Answer(detectedItems: seq<Item>, allLabels: seq<Item>)

  /** The request-field check: both fields must be present and truthy. */
  predicate Accepted(req: Request)
  {
    Truthy(req.imageBase64) && Truthy(req.sessionId)
  }

  /** The `/detect-frame` handler, with the vision service's answer as `labels`. */
  function DetectFrame(req: Request, labels: seq<Label>, fmt: real -> string): (r: FrameResponse)
    ensures r.BadRequest? <==> !Truthy(req.imageBase64) || !Truthy(req.sessionId)
    ensures r.BadRequest? ==> r.status == 400 && r.message == "Missing image data or session ID."
    ensures r.Answer? ==>
      && r.detectedItems == DetectedItems(labels, fmt)
      && r.allLabels == AllLabels(labels, fmt)
      && |r.detectedItems| <= |r.allLabels| == |labels|
  {
    if !Accepted(req) then BadRequest(400, "Missing image data or session ID.")
    else Answer(DetectedItems(labels, fmt), AllLabels(labels, fmt))
  }

  /** A rejected request's response does not depend on the vision service:
      the handler answers before calling it. */
  lemma RejectionIgnoresVision(req: Request, a: seq<Label>, f: real -> string,
                               b: seq<Label>, g: real -> string)
    requires !Accepted(req)
    ensures DetectFrame(req, a, f) == DetectFrame(req, b, g)
  {
  }

  /** `detectedItems` holds, in input order and once per occurrence, exactly
      the labels whose raw name is on the list, under their raw name. */
  lemma DetectedItemsSelect(labels: seq<Label>, fmt: real -> string) returns (idx: seq<nat>)
    ensures |idx| == |DetectedItems(labels, fmt)|
    ensures forall k :: 0 <= k < |idx| ==>
      && idx[k] < |labels|
      && DetectedItems(labels, fmt)[k] == Item(labels[idx[k]].name, fmt(labels[idx[k]].confidence) + "%")
    ensures forall k, m :: 0 <= k < m < |idx| ==> idx[k] < idx[m]
    ensures forall i :: 0 <= i < |labels| ==> (i in idx <==> labels[i].name in GymEquipmentList)
  {
    idx := SelectIndices(labels, GymEquipmentList, []);
  }

  /** `detectedItems` is a subsequence of `allLabels`: each kept label renders
      identically in both lists. */
  lemma DetectedWithinAllLabels(labels: seq<Label>, fmt: real -> string) returns (idx: seq<nat>)
    ensures |idx| == |DetectedItems(labels, fmt)|
    ensures forall k :: 0 <= k < |idx| ==>
      idx[k] < |AllLabels(labels, fmt)| && DetectedItems(labels, fmt)[k] == AllLabels(labels, fmt)[idx[k]]
    ensures forall k, m :: 0 <= k < m < |idx| ==> idx[k] < idx[m]
  {
    idx := DetectedItemsSelect(labels, fmt);
  }

  /** The frame flow is the shared pipeline with no alias table and no exclusions. */
  lemma FrameIsPipeline(labels: seq<Label>, fmt: real -> string)
    ensures DetectedItems(labels, fmt) == Describe(Pipeline(labels, GymEquipmentList, map[], []), fmt)
  {
    NoAliasIsIdentity(labels, GymEquipmentList, []);
  }

  /** Describing a concatenation describes each part. */
  lemma {:induction false} DescribeAppend(a: seq<Label>, b: seq<Label>, fmt: real -> string)
    ensures Describe(a + b, fmt) == Describe(a, fmt) + Describe(b, fmt)
  {
    if a == [] {
      assert a + b == b;
    } else {
      assert (a + b)[0] == a[0];
      assert (a + b)[1..] == a[1..] + b;
      DescribeAppend(a[1..], b, fmt);
    }
  }

  /** A label on the list, inside any context, adds exactly its own entry. */
  lemma DetectedAround(a: seq<Label>, l: Label, b: seq<Label>, fmt: real -> string)
    requires l.name in GymEquipmentList
    ensures DetectedItems(a + [l] + b, fmt)
         == DetectedItems(a, fmt) + [Item(l.name, fmt(l.confidence) + "%")] + DetectedItems(b, fmt)
  {
    var sa, sb := Select(a, GymEquipmentList, []), Select(b, GymEquipmentList, []);
    assert Select(a + [l] + b, GymEquipmentList, []) == sa + [l] + sb by {
      assert ResolveLabel(l, map[]) == l;
      PipelineAround(a, l, b, GymEquipmentList, map[], []);
      NoAliasIsIdentity(a + [l] + b, GymEquipmentList, []);
      NoAliasIsIdentity(a, GymEquipmentList, []);
      NoAliasIsIdentity(b, GymEquipmentList, []);
    }
    assert Describe([l], fmt) == [Item(l.name, fmt(l.confidence) + "%")] by {
      assert [l][1..] == [];
    }
    DescribeAppend(sa + [l], sb, fmt);
    DescribeAppend(sa, [l], fmt);
  }

  /** "Gym" and "Fitness" labels are kept by this flow, under their own name. */
  lemma GenericCategoryKept(a: seq<Label>, name: string, c: real, b: seq<Label>, fmt: real -> string)
    requires name == "Gym" || name == "Fitness"
    ensures DetectedItems(a + [Label(name, c)] + b, fmt)
         == DetectedItems(a, fmt) + [Item(name, fmt(c) + "%")] + DetectedItems(b, fmt)
  {
    assert GymEquipmentList[14] == "Gym" && GymEquipmentList[15] == "Fitness";
    DetectedAround(a, Label(name, c), b, fmt);
  }
}
