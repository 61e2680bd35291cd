// The bounding-box editor of one frame. The frame's detections are JavaScript objects held
// in an array prop: the handlers copy the array, and a drag or resize puts a fresh object at
// the edited index, while a label change writes into the shared object itself. Detections
// are therefore objects here, and the Konva rectangle that was moved or resized is a node
// whose scale the resize handler resets.
module BoundingBoxEditor {
  import opened Wrappers
  import Dict
  import opened Annotation
  import ActionRules

  const NewLabel := "new_object"
  const NewBox := Box(100.0, 100.0, 200.0, 200.0)
  const NewConfidence := 0.9
  const MinSide := 20.0

  /** The colour table; its `default` entry is also the fallback. */
  const BoxColors: Dict.Dict<string> :=
    [("person", "#3B82F6"), ("cup", "#10B981"), ("table", "#8B5CF6"), ("chair", "#F59E0B"),
     ("laptop", "#EF4444"), ("default", "#6B7280")]
  const FallbackColor := "#6B7280"

  /** A detection as the editor holds it: a mutable object. */
  class Detection {
    var name: string
    var bbox: Box
    var confidence: real

    constructor (name: string, bbox: Box, confidence: real)
      ensures this.name == name && this.bbox == bbox && this.confidence == confidence
    {
      this.name := name;
      this.bbox := bbox;
      this.confidence := confidence;
    }

    function Value(): (o: Obj)
      reads this
      ensures o.name == name && o.bbox == bbox && o.confidence == confidence
    {
      Obj(name, bbox, confidence)
    }
  }

  /** The Konva rectangle of a detection after a drag or a resize. */
  class Node {
    var x: real
    var y: real
    var width: real
    var height: real
    var scaleX: real
    var scaleY: real

    constructor (x: real, y: real, width: real, height: real, scaleX: real, scaleY: real)
      ensures this.x == x && this.y == y && this.width == width && this.height == height
      ensures this.scaleX == scaleX && this.scaleY == scaleY
    {
      this.x := x;
      this.y := y;
      this.width := width;
      this.height := height;
      this.scaleX := scaleX;
      this.scaleY := scaleY;
    }
  }

  /** The rectangle drawn for a box: its corner and its extent. */
  datatype Rect = Rect(x: real, y: real, width: real, height: real)

  function DrawnRect(b: Box): (r: Rect)
    ensures r.x == b.x1 && r.y == b.y1 && r.x + r.width == b.x2 && r.y + r.height == b.y2
  {
    Rect(b.x1, b.y1, b.x2 - b.x1, b.y2 - b.y1)
  }

  /** The box stored for a rectangle at a position with an extent. */
  function BoxOfRect(x: real, y: real, width: real, height: real): (b: Box)
    ensures b.x1 == x && b.y1 == y && b.x2 - b.x1 == width && b.y2 - b.y1 == height
  {
    Box(x, y, x + width, y + height)
  }

  /** The box of a rectangle whose extent the transformer scaled. */
  function ScaledBox(x: real, y: real, width: real, height: real, scaleX: real, scaleY: real): (b: Box)
    ensures b == BoxOfRect(x, y, width * scaleX, height * scaleY)
  {
    Box(x, y, x + width * scaleX, y + height * scaleY)
  }

  /** A dragged rectangle is stored so that it is drawn where it was dropped, at its size. */
  lemma DragRoundTrip(x: real, y: real, width: real, height: real)
    ensures DrawnRect(BoxOfRect(x, y, width, height)) == Rect(x, y, width, height)
  {
  }

  /** `getColorForLabel`: the table's colour for a listed label, grey for any other. */
  function ColorForLabel(objectLabel: string): (c: string)
    ensures Dict.HasKey(BoxColors, objectLabel) ==> Dict.Get(BoxColors, objectLabel) == Some(c)
    ensures !Dict.HasKey(BoxColors, objectLabel) ==> c == FallbackColor
  {
    var c := Dict.Get(BoxColors, objectLabel);
    if c.Some? then c.value else FallbackColor
  }

  /** A class listed before the `default` entry is drawn in that entry's colour, not grey. */
  lemma ListedColour(objectLabel: string, i: int)
    requires 0 <= i < |BoxColors| - 1 && BoxColors[i].0 == objectLabel
    requires forall j :: 0 <= j < i ==> BoxColors[j].0 != objectLabel
    ensures ColorForLabel(objectLabel) == BoxColors[i].1 != FallbackColor
  {
    Dict.GetFirst(BoxColors, objectLabel, i);
    assert forall j :: 0 <= j < |BoxColors| - 1 ==> BoxColors[j].1 != FallbackColor;
  }

  /** A label the table does not list, or the `default` entry itself, is drawn grey. */
  lemma UnlistedGrey(objectLabel: string)
    requires forall j :: 0 <= j < |BoxColors| - 1 ==> BoxColors[j].0 != objectLabel
    ensures ColorForLabel(objectLabel) == FallbackColor
  {
    if objectLabel == "default" {
      Dict.GetFirst(BoxColors, objectLabel, 5);
    }
  }

  /** Exactly the five named classes get a colour other than grey; every other label is grey. */
  lemma NamedClassesColoured(objectLabel: string)
    ensures ColorForLabel(objectLabel) == FallbackColor <==>
      objectLabel !in ["person", "cup", "table", "chair", "laptop"]
  {
    if objectLabel == "person" { ListedColour(objectLabel, 0); }
    else if objectLabel == "cup" { ListedColour(objectLabel, 1); }
    else if objectLabel == "table" { ListedColour(objectLabel, 2); }
    else if objectLabel == "chair" { ListedColour(objectLabel, 3); }
    else if objectLabel == "laptop" { ListedColour(objectLabel, 4); }
    else { UnlistedGrey(objectLabel); }
  }

  /**
   * Of the object classes the extraction service's rule classifier reacts to, only `cup` and
   * `table` get a colour of their own; bottles, phones, books, desks and counters are grey.
   */
  lemma RuleObjectsColour(objectLabel: string)
    requires ActionRules.Graspable(objectLabel) || ActionRules.Surface(objectLabel)
    ensures ColorForLabel(objectLabel) != FallbackColor <==> objectLabel in ["cup", "table"]
  {
    NamedClassesColoured(objectLabel);
  }

  /** A resize box as the transformer reports it. */
  datatype ResizeBox = ResizeBox(x: real, y: real, width: real, height: real)

  /** `boundBoxFunc`: a resize to less than 20 on either side is refused. */
  function BoundBox(oldBox: ResizeBox, newBox: ResizeBox): (r: ResizeBox)
    ensures r == newBox <==> (newBox.width >= MinSide && newBox.height >= MinSide) || newBox == oldBox
    ensures r == newBox || r == oldBox
  {
    if newBox.width < MinSide || newBox.height < MinSide then oldBox else newBox
  }

  /** Starting from a box of at least 20 by 20, no sequence of resizes makes it smaller than that. */
  lemma {:induction false} BoundBoxKeepsMinimum(start: ResizeBox, requests: seq<ResizeBox>)
    requires start.width >= MinSide && start.height >= MinSide
    ensures var r := ResizeAll(start, requests); r.width >= MinSide && r.height >= MinSide
    decreases |requests|
  {
    if requests != [] {
      BoundBoxKeepsMinimum(BoundBox(start, requests[0]), requests[1..]);
    }
  }

  /** The box after the transformer applied each requested resize in turn. */
  function ResizeAll(start: ResizeBox, requests: seq<ResizeBox>): ResizeBox
    decreases |requests|
  {
    if requests == [] then start else ResizeAll(BoundBox(start, requests[0]), requests[1..])
  }

  /** The detections' values, in array order. */
  function Values(objects: seq<Detection>): (vs: seq<Obj>)
    reads set i | 0 <= i < |objects| :: objects[i]
    ensures |vs| == |objects| && forall i :: 0 <= i < |objects| ==> vs[i] == objects[i].Value()
  {
    if objects == [] then [] else Values(objects[..|objects| - 1]) + [objects[|objects| - 1].Value()]
  }

  /** `{...objects[index], bbox}` at `index` of a copy of the array. */
  method WithBox(objects: seq<Detection>, index: int, b: Box) returns (updated: seq<Detection>)
    requires 0 <= index < |objects|
    ensures |updated| == |objects| && fresh(updated[index])
    ensures forall j :: 0 <= j < |objects| && j != index ==> updated[j] == objects[j]
    ensures Values(updated) == Values(objects)[index := Obj(objects[index].name, b, objects[index].confidence)]
  {
    var replaced := new Detection(objects[index].name, b, objects[index].confidence);
    updated := objects[index := replaced];
  }

  class Editor {
    var selectedBox: Option<int>
    var isTransforming: bool

    constructor ()
      ensures selectedBox.None? && !isTransforming
    {
      selectedBox := None;
      isTransforming := false;
    }

    method SelectBox(index: int)
      modifies this`selectedBox
      ensures selectedBox == Some(index)
    {
      selectedBox := Some(index);
    }

    method TransformStart()
      modifies this`isTransforming
      ensures isTransforming
    {
      isTransforming := true;
    }

    /**
     * `handleBoxDragEnd`: a copy of the array whose entry at `index` is a fresh detection with
     * the dropped rectangle's box and the old label and confidence; the other entries are the
     * same objects.
     */
    method BoxDragEnd(objects: seq<Detection>, index: int, node: Node) returns (updated: seq<Detection>)
      requires 0 <= index < |objects|
      ensures |updated| == |objects| && fresh(updated[index])
      ensures forall j :: 0 <= j < |objects| && j != index ==> updated[j] == objects[j]
      ensures Values(updated) == Values(objects)[index := Obj(objects[index].name,
        BoxOfRect(node.x, node.y, node.width, node.height), objects[index].confidence)]
    {
      updated := WithBox(objects, index, BoxOfRect(node.x, node.y, node.width, node.height));
    }

    /**
     * `handleTransformEnd`: the node's scale is folded into the stored box and reset to 1, and
     * the resize is over.
     */
    method TransformEnd(objects: seq<Detection>, index: int, node: Node) returns (updated: seq<Detection>)
      requires 0 <= index < |objects|
      modifies node`scaleX, node`scaleY, this`isTransforming
      ensures node.scaleX == 1.0 && node.scaleY == 1.0 && !isTransforming
      ensures |updated| == |objects| && fresh(updated[index])
      ensures forall j :: 0 <= j < |objects| && j != index ==> updated[j] == objects[j]
      ensures Values(updated) == Values(objects)[index := Obj(objects[index].name,
        ScaledBox(node.x, node.y, node.width, node.height, old(node.scaleX), old(node.scaleY)),
        objects[index].confidence)]
    {
      var b := ScaledBox(node.x, node.y, node.width, node.height, node.scaleX, node.scaleY);
      node.scaleX := 1.0;
      node.scaleY := 1.0;
      isTransforming := false;
      updated := WithBox(objects, index, b);
    }

    /** `handleAddBox`: the default box is appended and becomes the selection. */
    method AddBox(objects: seq<Detection>) returns (updated: seq<Detection>)
      modifies this`selectedBox
      ensures |updated| == |objects| + 1 && updated[..|objects|] == objects && fresh(updated[|objects|])
      ensures Values(updated) == Values(objects) + [Obj(NewLabel, NewBox, NewConfidence)]
      ensures selectedBox == Some(|updated| - 1)
    {
      var newBox := new Detection(NewLabel, NewBox, NewConfidence);
      updated := objects + [newBox];
      assert Values(updated) == Values(objects) + [newBox.Value()];
      selectedBox := Some(|updated| - 1);
    }

    /**
     * `handleDeleteBox`: without a selection nothing is sent; otherwise every detection but
     * the selected one is sent and the selection is cleared.
     */
    method DeleteBox(objects: seq<Detection>) returns (sent: Option<seq<Detection>>)
      modifies this`selectedBox
      ensures old(selectedBox).None? ==> sent.None? && selectedBox.None?
      ensures old(selectedBox).Some? ==> sent == Some(RemoveIndex(objects, old(selectedBox).value)) && selectedBox.None?
    {
      if selectedBox.None? {
        return None;
      }
      sent := Some(RemoveIndex(objects, selectedBox.value));
      selectedBox := None;
    }

    /**
     * `handleLabelChange`: the array copy holds the same objects, and the label is written
     * into the detection at `index` itself, so the array the parent holds sees it too.
     */
    method LabelChange(objects: seq<Detection>, index: int, newLabel: string) returns (updated: seq<Detection>)
      requires 0 <= index < |objects|
      modifies objects[index]
      ensures updated == objects
      ensures objects[index].Value() == old(objects[index].Value()).(name := newLabel)
      ensures forall j :: 0 <= j < |objects| && objects[j] != objects[index] ==> objects[j].Value() == old(objects[j].Value())
    {
      updated := objects;
      objects[index].name := newLabel;
    }
  }
}
