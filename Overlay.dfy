/**
 * `createOverlay` and `applyFill`: for every visible frame or component in the
 * selection, find or create the child called "Overlay" and give it the chosen
 * fill and opacity.
 */
module Overlay {
  import opened Wrappers
  import opened Fills
  import opened Opacity
  import opened Placement

  /** The part of a layer `applyFill` writes. */
  datatype Look = Look(fills: seq<Paint>, opacity: real, fillStyleId: string)

  /** A frame as the host creates it: one white solid fill, fully opaque, no style. */
  const NewFrameLook: Look := Look([Paint(Solid, true, Rgb(1.0, 1.0, 1.0), Some(1.0), "")], 1.0, "")

  /**
   * The look `applyFill` leaves. A style reference sets the layer's style (when
   * the host resolves it, to `resolved`) and the layer's own opacity; a copied
   * paint or a preset colour replaces the fills with one paint that carries the
   * opacity. `resolved` stands for the host's style lookup or library import.
   */
  function Applied(l: Look, color: ColorData, op: OpacityParam, resolved: Option<string>): Look
  {
    match color
    case StyleRef(_, _) =>
      l.(fillStyleId := if resolved.Some? then resolved.value else l.fillStyleId,
         opacity := if Effective(op).Some? then Effective(op).value else l.opacity)
    case Literal(p) =>
      l.(fills := [if Effective(op).Some? then p.(opacity := Effective(op)) else p])
    case Preset(rgb) =>
      l.(fills := [Paint(Solid, true, rgb, Effective(op), "")])
  }

  /** Applying the same fill twice is applying it once. */
  lemma AppliedIdempotent(l: Look, color: ColorData, op: OpacityParam, resolved: Option<string>)
    ensures Applied(Applied(l, color, op, resolved), color, op, resolved) == Applied(l, color, op, resolved)
  {
  }

  /**
   * What each kind of colour changes: a style touches the style and the
   * layer's opacity only; a paint or preset replaces the fills by a single
   * paint, keeps everything else, and keeps the copied paint apart from its opacity.
   */
  lemma AppliedChanges(l: Look, color: ColorData, op: OpacityParam, resolved: Option<string>)
    ensures var r := Applied(l, color, op, resolved);
      (color.StyleRef? ==>
        r.fills == l.fills && (op.Unset? ==> r.opacity == l.opacity) &&
        (resolved.None? ==> r.fillStyleId == l.fillStyleId)) &&
      (!color.StyleRef? ==>
        |r.fills| == 1 && r.opacity == l.opacity && r.fillStyleId == l.fillStyleId) &&
      (color.Literal? ==>
        r.fills[0].(opacity := color.paint.opacity) == color.paint && (op.Unset? ==> r.fills[0] == color.paint)) &&
      (color.Preset? ==>
        r.fills[0].kind == Solid && r.fills[0].color == color.rgb && r.fills[0].visible)
  {
  }

  /** A typed opacity always lands as at most 1, wherever it is applied. */
  lemma AppliedTypedOpacityAtMostOne(l: Look, color: ColorData, x: real, resolved: Option<string>)
    ensures var r := Applied(l, color, Typed(x), resolved);
      if color.StyleRef? then r.opacity <= 1.0 else r.fills[0].opacity.Some? && r.fills[0].opacity.value <= 1.0
  {
  }

  /** A child layer of a frame. Its name is fixed once the layer exists. */
  class Layer {
    const name: string
    var fills: seq<Paint>
    var opacity: real
    var fillStyleId: string

    function Appearance(): Look
      reads this
    {
      Look(fills, opacity, fillStyleId)
    }

    /** `figma.createFrame()` followed by naming it. */
    constructor (name: string)
      ensures this.name == name && Appearance() == NewFrameLook
    {
      this.name := name;
      fills := NewFrameLook.fills;
      opacity := NewFrameLook.opacity;
      fillStyleId := NewFrameLook.fillStyleId;
    }

    /**
     * `applyFill(node, color, opacity)`. Reports whether a referenced style was
     * found; when it is not, the source reports an error and goes on to set the opacity.
     */
    method ApplyFill(color: ColorData, op: OpacityParam, resolved: Option<string>) returns (styleFound: bool)
      modifies this
      ensures Appearance() == Applied(old(Appearance()), color, op, resolved)
      ensures styleFound <==> !color.StyleRef? || resolved.Some?
    {
      styleFound := true;
      match color {
        case StyleRef(_, _) =>
          if resolved.Some? {
            fillStyleId := resolved.value;
          } else {
            styleFound := false;
          }
          match op {
            case Unset =>
            case Typed(x) => opacity := Normalise(x);
            case Picked(v) => opacity := v;
          }
        case Literal(p) =>
          var fill := p;
          match op {
            case Unset =>
            case Typed(x) => fill := fill.(opacity := Some(Normalise(x)));
            case Picked(v) => fill := fill.(opacity := Some(v));
          }
          fills := [fill];
        case Preset(rgb) =>
          var fill := Paint(Solid, true, rgb, None, "");
          match op {
            case Unset =>
            case Typed(x) => fill := fill.(opacity := Some(Normalise(x)));
            case Picked(v) => fill := fill.(opacity := Some(v));
          }
          fills := [fill];
      }
    }
  }

  /** The names of a list of children, back to front. */
  function Names(children: seq<Layer>): (names: seq<string>)
    ensures |names| == |children|
    ensures forall i :: 0 <= i < |children| ==> names[i] == children[i].name
  {
    seq(|children|, i requires 0 <= i < |children| => children[i].name)
  }

  /** Inserting a layer inserts its name. */
  lemma NamesInserted(children: seq<Layer>, k: nat, x: Layer)
    requires k <= |children|
    ensures Names(Insert(children, k, x)) == Insert(Names(children), k, x.name)
  {
    InsertIndexes(children, k, x);
    InsertIndexes(Names(children), k, x.name);
    var l, r := Names(Insert(children, k, x)), Insert(Names(children), k, x.name);
    forall j | 0 <= j < |l| ensures l[j] == r[j] {
      if j > k {
        assert Insert(children, k, x)[j] == children[j - 1];
      }
    }
  }

  /** The `type` of a selected node, as far as `createOverlay` looks at it. */
  datatype NodeKind = FrameNode | ComponentNode | OtherNode

  /** A selected node with a list of children. */
  class Frame {
    const visible: bool
    const kind: NodeKind
    var children: seq<Layer>

    constructor (visible: bool, kind: NodeKind, children: seq<Layer>)
      ensures this.visible == visible && this.kind == kind && this.children == children
    {
      this.visible := visible;
      this.kind := kind;
      this.children := children;
    }

    /** Only visible frames and components get an overlay. */
    predicate Eligible()
    {
      visible && (kind == FrameNode || kind == ComponentNode)
    }

    /**
     * One frame of `createOverlay`: reuse the first child called "Overlay",
     * or create one and insert it beneath the first top layer (appending it
     * when there is none), then apply the fill to it.
     */
    method CreateOverlay(color: ColorData, op: OpacityParam, resolved: Option<string>)
      returns (overlay: Layer, styleFound: bool)
      modifies this, children
      ensures Names(children) == PlacedNames(Names(old(children)))
      ensures OverlayName in Names(old(children)) ==>
        var k := FirstNamed(Names(old(children)), OverlayName).value;
        children == old(children) && overlay == children[k] &&
        overlay.Appearance() == Applied(old(children[k].Appearance()), color, op, resolved)
      ensures OverlayName !in Names(old(children)) ==>
        fresh(overlay) && overlay.name == OverlayName &&
        children == Insert(old(children), InsertionIndex(Names(old(children))), overlay) &&
        overlay.Appearance() == Applied(NewFrameLook, color, op, resolved)
      ensures forall c :: c in old(children) && c != overlay ==> c.Appearance() == old(c.Appearance())
      ensures styleFound <==> !color.StyleRef? || resolved.Some?
    {
      var names := Names(children);
      var existing := FirstNamed(names, OverlayName);
      if existing.Some? {
        overlay := children[existing.value];
        styleFound := overlay.ApplyFill(color, op, resolved);
      } else {
        overlay := new Layer(OverlayName);
        var top := FirstTopLayer(names);
        if top.Some? {
          var index := top.value;
          children := children[..index] + [overlay] + children[index..];
        } else {
          children := children + [overlay];
        }
        assert children == Insert(old(children), InsertionIndex(names), overlay);
        NamesInserted(old(children), InsertionIndex(names), overlay);
        styleFound := overlay.ApplyFill(color, op, resolved);
      }
    }
  }

  /** The looks of a list of layers, in order. */
  function Looks(layers: seq<Layer>): (looks: seq<Look>)
    reads set c | c in layers
    ensures |looks| == |layers|
    ensures forall j :: 0 <= j < |layers| ==> looks[j] == layers[j].Appearance()
  {
    if layers == [] then [] else [layers[0].Appearance()] + Looks(layers[1..])
  }

  /**
   * What processing an eligible frame leaves, as its children and their looks
   * against the children and looks it had before: either the first child called
   * "Overlay" has the fill applied and every other child keeps its look, or a
   * new layer called "Overlay", with the fill applied to a new frame's look, is
   * inserted at the placement index and every old child keeps its look.
   */
  predicate OverlaidIn(now: seq<Layer>, nowLooks: seq<Look>, before: seq<Layer>, looks: seq<Look>,
                       color: ColorData, op: OpacityParam, resolved: Option<string>)
  {
    var names := Names(before);
    |nowLooks| == |now| && |looks| == |before| &&
    if OverlayName in names then
      var k := FirstNamed(names, OverlayName).value;
      now == before && nowLooks[k] == Applied(looks[k], color, op, resolved) &&
      forall j :: 0 <= j < |before| && before[j] != before[k] ==> nowLooks[j] == looks[j]
    else
      var k := InsertionIndex(names);
      k < |now| && now[k] !in before && now[k].name == OverlayName &&
      now == Insert(before, k, now[k]) &&
      nowLooks == Insert(looks, k, Applied(NewFrameLook, color, op, resolved))
  }

  /**
   * A frame of the selection once processed: an eligible one has the placed
   * child names and is overlaid, any other keeps its children and their looks.
   */
  predicate DoneIn(eligible: bool, now: seq<Layer>, nowLooks: seq<Look>, before: seq<Layer>, looks: seq<Look>,
                   color: ColorData, op: OpacityParam, resolved: Option<string>)
  {
    if eligible then
      Names(now) == PlacedNames(Names(before)) && OverlaidIn(now, nowLooks, before, looks, color, op, resolved)
    else
      now == before && nowLooks == looks
  }

  /** `DoneIn` for a frame as it is now. */
  predicate Done(f: Frame, before: seq<Layer>, looks: seq<Look>, color: ColorData, op: OpacityParam, resolved: Option<string>)
    reads f, f.children
  {
    DoneIn(f.Eligible(), f.children, Looks(f.children), before, looks, color, op, resolved)
  }

  /** Every layer some frame of the selection has as a child. */
  function ChildrenOf(selection: seq<Frame>): (layers: set<Layer>)
    reads selection
    ensures forall j, c :: 0 <= j < |selection| && c in selection[j].children ==> c in layers
  {
    set j, c | 0 <= j < |selection| && c in selection[j].children :: c
  }

  /** The child list of every frame of the selection. */
  function ChildLists(selection: seq<Frame>): (lists: seq<seq<Layer>>)
    reads selection
    ensures |lists| == |selection|
    ensures forall j :: 0 <= j < |selection| ==> lists[j] == selection[j].children
  {
    seq(|selection|, j requires 0 <= j < |selection| reads selection => selection[j].children)
  }

  /** The looks of the children of every frame of the selection. */
  function ChildLooks(selection: seq<Frame>): (childLooks: seq<seq<Look>>)
    reads selection, ChildrenOf(selection)
    ensures |childLooks| == |selection|
    ensures forall j :: 0 <= j < |selection| ==> childLooks[j] == Looks(selection[j].children)
  {
    if selection == [] then []
    else
      assert forall j :: 0 <= j < |selection| - 1 ==> selection[1..][j] == selection[j + 1];
      [Looks(selection[0].children)] + ChildLooks(selection[1..])
  }

  /**
   * How far the selection loop has got, against the child lists and looks each
   * frame had at the start: the first `done` frames are processed, the others
   * are as they were, and no two frames share a child.
   */
  predicate ProgressIn(frames: seq<Frame>, done: nat, befores: seq<seq<Layer>>, childLooks: seq<seq<Look>>,
                       nows: seq<seq<Layer>>, nowChildLooks: seq<seq<Look>>,
                       color: ColorData, op: OpacityParam, resolved: Option<string>)
  {
    done <= |frames| && |befores| == |frames| && |childLooks| == |frames| && |nows| == |frames| && |nowChildLooks| == |frames| &&
    (forall j, k, c :: 0 <= j < |frames| && 0 <= k < |frames| && j != k && c in nows[j] ==> c !in nows[k]) &&
    (forall j :: 0 <= j < done ==>
      DoneIn(frames[j].Eligible(), nows[j], nowChildLooks[j], befores[j], childLooks[j], color, op, resolved)) &&
    (forall j :: done <= j < |frames| ==> nows[j] == befores[j] && nowChildLooks[j] == childLooks[j])
  }

  /** Processing the next frame, with no child another frame has, advances the loop by one. */
  lemma ProgressStep(frames: seq<Frame>, i: nat, befores: seq<seq<Layer>>, childLooks: seq<seq<Look>>,
                     nows: seq<seq<Layer>>, nowChildLooks: seq<seq<Look>>, now: seq<Layer>, nowLooks: seq<Look>,
                     color: ColorData, op: OpacityParam, resolved: Option<string>)
    requires i < |frames| && ProgressIn(frames, i, befores, childLooks, nows, nowChildLooks, color, op, resolved)
    requires DoneIn(frames[i].Eligible(), now, nowLooks, befores[i], childLooks[i], color, op, resolved)
    requires forall k, c :: 0 <= k < |frames| && k != i && c in nows[k] ==> c !in now
    ensures ProgressIn(frames, i + 1, befores, childLooks, nows[i := now], nowChildLooks[i := nowLooks], color, op, resolved)
  {
  }

  /**
   * `createOverlay(selection, color, opacity)`: report an empty selection,
   * then process every eligible frame in turn. Reports whether the selection was empty.
   */
  method CreateOverlays(selection: seq<Frame>, color: ColorData, op: OpacityParam, resolved: Option<string>)
    returns (noSelection: bool)
    requires forall i, j :: 0 <= i < j < |selection| ==> selection[i] != selection[j]
    requires forall i, j, c :: 0 <= i < |selection| && 0 <= j < |selection| && i != j && c in selection[i].children ==>
      c !in selection[j].children
    modifies selection, ChildrenOf(selection)
    ensures noSelection <==> |selection| == 0
    ensures forall i :: 0 <= i < |selection| ==>
      Done(selection[i], old(selection[i].children), old(Looks(selection[i].children)), color, op, resolved)
    ensures forall i, c :: 0 <= i < |selection| && c in selection[i].children ==>
      c in old(selection[i].children) || fresh(c)
    ensures forall i, j, c :: 0 <= i < |selection| && 0 <= j < |selection| && i != j && c in selection[i].children ==>
      c !in selection[j].children
  {
    noSelection := |selection| == 0;
    ghost var nows, nowChildLooks := ProcessAll(selection, color, op, resolved);
  }

  /** The loop of `createOverlay` over the selection, stated on the recorded child lists and looks. */
  method ProcessAll(selection: seq<Frame>, color: ColorData, op: OpacityParam, resolved: Option<string>)
    returns (ghost nows: seq<seq<Layer>>, ghost nowChildLooks: seq<seq<Look>>)
    requires forall i, j :: 0 <= i < j < |selection| ==> selection[i] != selection[j]
    requires forall i, j, c :: 0 <= i < |selection| && 0 <= j < |selection| && i != j && c in selection[i].children ==>
      c !in selection[j].children
    modifies selection, ChildrenOf(selection)
    ensures ProgressIn(selection, |selection|, old(ChildLists(selection)), old(ChildLooks(selection)), nows, nowChildLooks, color, op, resolved)
    ensures Tracks(selection, nows, nowChildLooks)
    ensures forall j, c :: 0 <= j < |nows| && c in nows[j] ==> c in old(ChildLists(selection))[j] || fresh(c)
  {
    ghost var befores, childLooks := ChildLists(selection), ChildLooks(selection);
    nows, nowChildLooks := befores, childLooks;
    ghost var all := ChildrenOf(selection);
    for i := 0 to |selection|
      invariant ProgressIn(selection, i, befores, childLooks, nows, nowChildLooks, color, op, resolved)
      invariant befores == old(ChildLists(selection)) && childLooks == old(ChildLooks(selection))
      invariant all == old(ChildrenOf(selection))
      invariant Tracks(selection, nows, nowChildLooks)
      invariant forall j, c :: 0 <= j < |nows| && c in nows[j] ==> c in befores[j] || fresh(c)
    {
      assert forall c :: c in selection[i].children ==> c in all by {
        forall c | c in selection[i].children ensures c in all {
          assert c in befores[i];
        }
      }
      ghost var now, nowLooks := StepAt(selection, i, befores, childLooks, nows, nowChildLooks, color, op, resolved);
      nows, nowChildLooks := nows[i := now], nowChildLooks[i := nowLooks];
    }
  }

  /**
   * The recorded child lists and looks are those of the frames of the selection
   * as they are now.
   */
  predicate Tracks(selection: seq<Frame>, nows: seq<seq<Layer>>, nowChildLooks: seq<seq<Look>>)
    reads selection, set j, c | 0 <= j < |nows| && c in nows[j] :: c
  {
    |nows| == |selection| && |nowChildLooks| == |selection| &&
    forall j :: 0 <= j < |selection| ==> selection[j].children == nows[j] && Looks(nows[j]) == nowChildLooks[j]
  }

  /** Before the i-th step, the i-th frame still has its children from the start, which no other frame has. */
  lemma ProgressApart(frames: seq<Frame>, i: nat, befores: seq<seq<Layer>>, childLooks: seq<seq<Look>>,
                      nows: seq<seq<Layer>>, nowChildLooks: seq<seq<Look>>,
                      color: ColorData, op: OpacityParam, resolved: Option<string>)
    requires i < |frames| && ProgressIn(frames, i, befores, childLooks, nows, nowChildLooks, color, op, resolved)
    ensures nows[i] == befores[i] && nowChildLooks[i] == childLooks[i]
    ensures forall j, c :: 0 <= j < |frames| && j != i && c in nows[j] ==> c !in nows[i]
  {
  }

  /** One turn of the selection loop, stated as the progress it makes. */
  method StepAt(selection: seq<Frame>, i: nat, ghost befores: seq<seq<Layer>>, ghost childLooks: seq<seq<Look>>,
                ghost nows: seq<seq<Layer>>, ghost nowChildLooks: seq<seq<Look>>,
                color: ColorData, op: OpacityParam, resolved: Option<string>)
    returns (ghost now: seq<Layer>, ghost nowLooks: seq<Look>)
    requires i < |selection| && Tracks(selection, nows, nowChildLooks)
    requires forall j :: 0 <= j < |selection| && j != i ==> selection[j] != selection[i]
    requires ProgressIn(selection, i, befores, childLooks, nows, nowChildLooks, color, op, resolved)
    modifies selection[i], selection[i].children
    ensures Tracks(selection, nows[i := now], nowChildLooks[i := nowLooks])
    ensures ProgressIn(selection, i + 1, befores, childLooks, nows[i := now], nowChildLooks[i := nowLooks], color, op, resolved)
    ensures forall c :: c in now ==> c in befores[i] || fresh(c)
  {
    ProgressApart(selection, i, befores, childLooks, nows, nowChildLooks, color, op, resolved);
    now, nowLooks := ProcessAt(selection, i, nows, nowChildLooks, color, op, resolved);
    ProgressNext(selection, i, befores, childLooks, nows, nowChildLooks, now, nowLooks, color, op, resolved);
  }

  /**
   * The i-th step of the selection loop: the i-th frame is processed, its new
   * children are layers no frame had, and no other frame or child of another frame changes.
   */
  method ProcessAt(selection: seq<Frame>, i: nat, ghost nows: seq<seq<Layer>>, ghost nowChildLooks: seq<seq<Look>>,
                   color: ColorData, op: OpacityParam, resolved: Option<string>)
    returns (ghost now: seq<Layer>, ghost nowLooks: seq<Look>)
    requires i < |selection| && Tracks(selection, nows, nowChildLooks)
    requires forall j :: 0 <= j < |selection| && j != i ==> selection[j] != selection[i]
    requires forall j, c :: 0 <= j < |selection| && j != i && c in nows[j] ==> c !in nows[i]
    modifies selection[i], selection[i].children
    ensures Tracks(selection, nows[i := now], nowChildLooks[i := nowLooks])
    ensures DoneIn(selection[i].Eligible(), now, nowLooks, nows[i], nowChildLooks[i], color, op, resolved)
    ensures forall c :: c in now ==> c in nows[i] || forall k :: 0 <= k < |nows| ==> c !in nows[k]
    ensures forall c :: c in now ==> c in nows[i] || fresh(c)
  {
    var node := selection[i];
    ProcessNode(node, color, op, resolved);
    now, nowLooks := node.children, Looks(node.children);
    forall j | 0 <= j < |selection| && j != i
      ensures Looks(nows[j]) == nowChildLooks[j]
    {
      forall c | c in nows[j]
        ensures c.Appearance() == old(c.Appearance())
      {
        assert c !in nows[i];
      }
    }
  }

  /** Processing keeps every child a frame had. */
  lemma DoneKeeps(eligible: bool, now: seq<Layer>, nowLooks: seq<Look>, before: seq<Layer>, looks: seq<Look>,
                  color: ColorData, op: OpacityParam, resolved: Option<string>)
    requires DoneIn(eligible, now, nowLooks, before, looks, color, op, resolved)
    ensures forall c :: c in before ==> c in now
  {
    if eligible && OverlayName !in Names(before) {
      var k := InsertionIndex(Names(before));
      InsertMembers(before, k, now[k]);
    }
  }

  /**
   * A processed i-th frame whose new children are in no recorded child list
   * advances the loop by one.
   */
  lemma ProgressNext(frames: seq<Frame>, i: nat, befores: seq<seq<Layer>>, childLooks: seq<seq<Look>>,
                     nows: seq<seq<Layer>>, nowChildLooks: seq<seq<Look>>, now: seq<Layer>, nowLooks: seq<Look>,
                     color: ColorData, op: OpacityParam, resolved: Option<string>)
    requires i < |frames| && ProgressIn(frames, i, befores, childLooks, nows, nowChildLooks, color, op, resolved)
    requires DoneIn(frames[i].Eligible(), now, nowLooks, nows[i], nowChildLooks[i], color, op, resolved)
    requires forall c :: c in now ==> c in nows[i] || forall k :: 0 <= k < |nows| ==> c !in nows[k]
    ensures ProgressIn(frames, i + 1, befores, childLooks, nows[i := now], nowChildLooks[i := nowLooks], color, op, resolved)
  {
    ProgressApart(frames, i, befores, childLooks, nows, nowChildLooks, color, op, resolved);
    forall k, c | 0 <= k < |frames| && k != i && c in nows[k]
      ensures c !in now
    {
      assert c !in nows[i];
    }
    ProgressStep(frames, i, befores, childLooks, nows, nowChildLooks, now, nowLooks, color, op, resolved);
  }

  /** The body of the selection loop: only visible frames and components are touched. */
  method ProcessNode(node: Frame, color: ColorData, op: OpacityParam, resolved: Option<string>)
    modifies node, node.children
    ensures Done(node, old(node.children), old(Looks(node.children)), color, op, resolved)
    ensures forall c :: c in node.children ==> c in old(node.children) || fresh(c)
  {
    if node.visible {
      if node.kind == FrameNode || node.kind == ComponentNode {
        OverlayFrame(node, color, op, resolved);
      }
    }
  }

  /** `createOverlay`'s work on one eligible frame, stated on its children and their looks. */
  method OverlayFrame(node: Frame, color: ColorData, op: OpacityParam, resolved: Option<string>)
    modifies node, node.children
    ensures Names(node.children) == PlacedNames(Names(old(node.children)))
    ensures OverlaidIn(node.children, Looks(node.children), old(node.children), old(Looks(node.children)), color, op, resolved)
    ensures forall c :: c in node.children ==> c in old(node.children) || fresh(c)
  {
    if OverlayName in Names(node.children) {
      OverlayExisting(node, color, op, resolved);
    } else {
      OverlayInserted(node, color, op, resolved);
    }
  }

  /** `OverlayFrame` when the frame already has a child called "Overlay". */
  method OverlayExisting(node: Frame, color: ColorData, op: OpacityParam, resolved: Option<string>)
    requires OverlayName in Names(node.children)
    modifies node, node.children
    ensures Names(node.children) == PlacedNames(Names(old(node.children)))
    ensures OverlaidIn(node.children, Looks(node.children), old(node.children), old(Looks(node.children)), color, op, resolved)
    ensures node.children == old(node.children)
  {
    ghost var before, looks := node.children, Looks(node.children);
    var overlay, _ := node.CreateOverlay(color, op, resolved);
    ExistingOverlaid(before, looks, Looks(node.children), color, op, resolved);
  }

  /** `OverlayFrame` when the frame has no child called "Overlay" yet. */
  method OverlayInserted(node: Frame, color: ColorData, op: OpacityParam, resolved: Option<string>)
    requires OverlayName !in Names(node.children)
    modifies node, node.children
    ensures Names(node.children) == PlacedNames(Names(old(node.children)))
    ensures OverlaidIn(node.children, Looks(node.children), old(node.children), old(Looks(node.children)), color, op, resolved)
    ensures forall c :: c in node.children ==> c in old(node.children) || fresh(c)
  {
    ghost var before, looks := node.children, Looks(node.children);
    var overlay, _ := node.CreateOverlay(color, op, resolved);
    var k := InsertionIndex(Names(before));
    assert forall j :: 0 <= j < |before| ==> before[j].Appearance() == looks[j] by {
      forall j | 0 <= j < |before| ensures before[j].Appearance() == looks[j] {
        assert before[j] in old(node.children);
      }
    }
    LooksInserted(before, looks, k, overlay);
    InsertedOverlaid(before, looks, overlay, color, op, resolved);
    InsertMembers(before, k, overlay);
  }

  /** Applying the fill to the first child called "Overlay" and to no other child overlays the frame. */
  lemma ExistingOverlaid(before: seq<Layer>, looks: seq<Look>, nowLooks: seq<Look>,
                         color: ColorData, op: OpacityParam, resolved: Option<string>)
    requires OverlayName in Names(before) && |looks| == |before| && |nowLooks| == |before|
    requires var k := FirstNamed(Names(before), OverlayName).value;
      nowLooks[k] == Applied(looks[k], color, op, resolved) &&
      forall j :: 0 <= j < |before| && before[j] != before[k] ==> nowLooks[j] == looks[j]
    ensures OverlaidIn(before, nowLooks, before, looks, color, op, resolved)
  {
  }

  /** Inserting a new overlay at the placement index, every old child keeping its look, overlays the frame. */
  lemma InsertedOverlaid(before: seq<Layer>, looks: seq<Look>, overlay: Layer,
                         color: ColorData, op: OpacityParam, resolved: Option<string>)
    requires OverlayName !in Names(before) && overlay !in before && overlay.name == OverlayName && |looks| == |before|
    ensures var k := InsertionIndex(Names(before));
      OverlaidIn(Insert(before, k, overlay), Insert(looks, k, Applied(NewFrameLook, color, op, resolved)),
                 before, looks, color, op, resolved)
  {
    InsertIndexes(before, InsertionIndex(Names(before)), overlay);
  }

  /** The looks after an insertion: the new layer's look at its index, every old child's look around it. */
  lemma LooksInserted(before: seq<Layer>, looks: seq<Look>, k: nat, overlay: Layer)
    requires k <= |before| && |looks| == |before|
    requires forall j :: 0 <= j < |before| ==> before[j].Appearance() == looks[j]
    ensures Looks(Insert(before, k, overlay)) == Insert(looks, k, overlay.Appearance())
  {
    var now := Insert(before, k, overlay);
    forall j | 0 <= j < |now|
      ensures Looks(now)[j] == Insert(looks, k, overlay.Appearance())[j]
    {
      if j > k {
        assert now[j] == before[j - 1];
      }
    }
  }
}
