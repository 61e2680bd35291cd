// The action timeline: a click on the bar picks a frame, each action is drawn as a block,
// and an add dialog holds a draft action. Pixel positions are reduced to the click's
// fraction of the bar's width; the draft's frame fields come from `parseInt` and are `None`
// when the input does not parse.
module ActionTimeline {
  import opened Wrappers
  import Dict
  import opened Annotation
  import ActionRules
  import Recognizer

  const DefaultColor := "#9333EA"
  const DraftLength := 10
  const DraftConfidence := 0.9

  /** The timeline's colour table. */
  const TimelineColors: Dict.Dict<string> :=
    [("reach", "#3B82F6"), ("pick", "#10B981"), ("place", "#8B5CF6"), ("walk", "#F59E0B"), ("idle", "#6B7280")]

  /**
   * `handleTimelineClick`: the click at fraction `p` of the bar goes to
   * `floor(p * total) + 1`, clamped to `[1, total]`.
   */
  function ClickFrame(p: real, total: int): (r: int)
    ensures total >= 1 ==> 1 <= r <= total
    ensures total < 1 ==> r == 1
    ensures total >= 1 && 0.0 <= p < 1.0 ==> (r - 1) as real <= p * total as real < r as real
    ensures total >= 1 && p < 0.0 ==> r == 1
    ensures total >= 1 && p >= 1.0 ==> r == total
  {
    var raw := (p * total as real).Floor + 1;
    ProductBounds(p, total);
    var upper := if total < raw then total else raw;
    if 1 > upper then 1 else upper
  }

  /** Where the click's product lies for a click before, on, or past the bar. */
  lemma ProductBounds(p: real, total: int)
    ensures total >= 1 && 0.0 <= p < 1.0 ==> 0.0 <= p * total as real < total as real
    ensures total >= 1 && p < 0.0 ==> p * total as real < 0.0
    ensures total >= 1 && p >= 1.0 ==> p * total as real >= total as real
  {
    if total >= 1 {
      var t := total as real;
      if 0.0 <= p < 1.0 {
        assert (1.0 - p) * t > 0.0;
      } else if p >= 1.0 {
        assert (p - 1.0) * t >= 0.0;
      }
    }
  }

  /** `getActionColor`: the table's colour for a known label, purple for any other. */
  function ActionColor(actionLabel: string): (c: string)
    ensures Dict.HasKey(TimelineColors, actionLabel) ==> Dict.Get(TimelineColors, actionLabel) == Some(c)
    ensures !Dict.HasKey(TimelineColors, actionLabel) ==> c == DefaultColor
  {
    var c := Dict.Get(TimelineColors, actionLabel);
    if c.Some? then c.value else DefaultColor
  }

  /** Labels the table does not list, "custom" among them, are drawn in the default colour. */
  lemma UnlistedLabelsDefault(actionLabel: string)
    requires actionLabel !in ["reach", "pick", "place", "walk", "idle"]
    ensures ActionColor(actionLabel) == DefaultColor
  {
    assert Dict.Keys(TimelineColors) == ["reach", "pick", "place", "walk", "idle"];
  }

  /** A listed label is drawn in a colour of its own: no entry of the table is the default. */
  lemma ListedColour(actionLabel: string, i: int)
    requires 0 <= i < |TimelineColors| && TimelineColors[i].0 == actionLabel
    ensures Dict.HasKey(TimelineColors, actionLabel)
    ensures ActionColor(actionLabel) != DefaultColor
  {
    assert forall j :: 0 <= j < |TimelineColors| ==> TimelineColors[j].1 != DefaultColor;
  }

  /** Every label the extraction service's rule classifier produces has a colour of its own. */
  lemma RuleLabelsColoured(pose: Pose, objects: seq<Obj>)
    ensures Dict.HasKey(TimelineColors, ActionRules.DetectAction(pose, objects))
    ensures ActionColor(ActionRules.DetectAction(pose, objects)) != DefaultColor
  {
    var r := ActionRules.DetectAction(pose, objects);
    if r == "reach" { ListedColour(r, 0); }
    else if r == "pick" { ListedColour(r, 1); }
    else if r == "place" { ListedColour(r, 2); }
    else if r == "walk" { ListedColour(r, 3); }
    else { assert r == "idle"; ListedColour(r, 4); }
  }

  /**
   * Of the labels the processing pipeline's recognizer produces, walk, reach and pick have a
   * colour of their own; wave, sit and stand are drawn in the default colour.
   */
  lemma RecognizerLabelsColour(m: Recognizer.Movements)
    ensures var r := Recognizer.Classify(m);
      ActionColor(r) == DefaultColor <==> r in ["wave", "sit", "stand"]
  {
    var r := Recognizer.Classify(m);
    if r == "reach" { ListedColour(r, 0); }
    else if r == "pick" { ListedColour(r, 1); }
    else if r == "walk" { ListedColour(r, 3); }
    else { UnlistedLabelsDefault(r); }
  }

  /** The left edge of an action's block, in percent of the bar. */
  function BlockStart(a: Action, total: int): real
    requires total >= 1
  {
    a.startFrame as real / total as real * 100.0
  }

  /** The block's width, in percent: the action's inclusive length in frames. */
  function BlockWidth(a: Action, total: int): real
    requires total >= 1
  {
    (a.endFrame - a.startFrame + 1) as real / total as real * 100.0
  }

  /** The current-frame marker, in percent of the bar. */
  function MarkerPosition(frame: int, total: int): real
    requires total >= 1
  {
    frame as real / total as real * 100.0
  }

  /**
   * The inclusive width makes the drawing agree with the active-action rule: the marker of
   * a frame lies inside an action's block exactly when the action is active at that frame.
   */
  lemma MarkerInsideBlock(a: Action, frame: int, total: int)
    requires total >= 1
    ensures BlockStart(a, total) <= MarkerPosition(frame, total) < BlockStart(a, total) + BlockWidth(a, total)
      <==> ActiveAt(a, frame)
  {
    var t := total as real;
    var scale := 100.0 / t;
    assert BlockStart(a, total) == a.startFrame as real * scale;
    assert MarkerPosition(frame, total) == frame as real * scale;
    assert BlockStart(a, total) + BlockWidth(a, total) == (a.endFrame + 1) as real * scale;
    assert scale > 0.0;
    ScaleMonotone(a.startFrame, frame, scale);
    ScaleMonotone(frame, a.endFrame + 1, scale);
  }

  lemma ScaleMonotone(i: int, j: int, scale: real)
    requires scale > 0.0
    ensures i as real * scale <= j as real * scale <==> i <= j
    ensures i as real * scale < j as real * scale <==> i < j
  {
    if i <= j {
      assert (j - i) as real * scale >= 0.0;
    } else {
      assert (i - j) as real * scale > 0.0;
    }
  }

  /** A block's click: the block's own index is passed on, and only when the user confirms. */
  function BlockDelete(blockIndex: int, confirmed: bool): (r: Option<int>)
    ensures r.Some? <==> confirmed
    ensures r.Some? ==> r.value == blockIndex
  {
    if confirmed then Some(blockIndex) else None
  }

  /** The add dialog's draft; `None` is the `NaN` that `parseInt` gives for unparsable text. */
  datatype Draft = Draft(actionLabel: string, startFrame: Option<int>, endFrame: Option<int>, confidence: real)

  /** The draft the dialog starts from and returns to: no label, ten frames from the current one. */
  function FreshDraft(currentFrame: int): (d: Draft)
    ensures d.actionLabel == [] && d.confidence == DraftConfidence
    ensures d.startFrame == Some(currentFrame) && d.endFrame == Some(currentFrame + DraftLength)
  {
    Draft([], Some(currentFrame), Some(currentFrame + DraftLength), DraftConfidence)
  }

  /** The add guard: a non-empty label and a start no later than the end (`NaN` fails the comparison). */
  predicate Addable(d: Draft)
  {
    d.actionLabel != [] && d.startFrame.Some? && d.endFrame.Some? && d.startFrame.value <= d.endFrame.value
  }

  class Timeline {
    var showAddDialog: bool
    var draft: Draft

    constructor (currentFrame: int)
      ensures !showAddDialog && draft == FreshDraft(currentFrame)
    {
      showAddDialog := false;
      draft := FreshDraft(currentFrame);
    }

    method OpenDialog()
      modifies this`showAddDialog
      ensures showAddDialog
    {
      showAddDialog := true;
    }

    method CancelDialog()
      modifies this`showAddDialog
      ensures !showAddDialog
    {
      showAddDialog := false;
    }

    /** The dialog's inputs: the label, the two parsed frame numbers and the confidence slider. */
    method EditDraft(d: Draft)
      modifies this`draft
      ensures draft == d
    {
      draft := d;
    }

    /**
     * `handleAddAction`: a draft that passes the guard is sent as an action, the dialog closes
     * and the draft starts over; any other draft leaves everything as it was.
     */
    method AddAction(currentFrame: int) returns (sent: Option<Action>)
      modifies this`showAddDialog, this`draft
      ensures sent.Some? <==> Addable(old(draft))
      ensures sent.Some? ==> sent.value == Action(old(draft).actionLabel, old(draft).startFrame.value,
        old(draft).endFrame.value, old(draft).confidence)
      ensures sent.Some? ==> !showAddDialog && draft == FreshDraft(currentFrame)
      ensures sent.None? ==> showAddDialog == old(showAddDialog) && draft == old(draft)
    {
      if Addable(draft) {
        sent := Some(Action(draft.actionLabel, draft.startFrame.value, draft.endFrame.value, draft.confidence));
        showAddDialog := false;
        draft := FreshDraft(currentFrame);
      } else {
        sent := None;
      }
    }
  }
}
