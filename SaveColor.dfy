/**
 * `saveColor`: for each visible node of the selection, capture its fill style,
 * or else its first visible fill of a savable kind, as a palette entry and
 * save it.
 */
module SaveColor {
  import opened Wrappers
  import opened Fills
  import opened Hex
  import opened Palette

  /** What the host returns for a node's fill style. */
  datatype StyleInfo = StyleInfo(name: string, id: string, key: string, remote: bool)

  /**
   * A selected node as `saveColor` sees it: its visibility, the style behind a
   * non-empty `fillStyleId` (if any), and its fills (absent on nodes without fills).
   */
  datatype SceneNode = SceneNode(visible: bool, fillStyle: Option<StyleInfo>, fills: Option<seq<Paint>>)

  /** What one step of the run reports. */
  datatype NodeReport = NoSelection | InvalidFill | Saving(report: SaveReport)

  /** The paint kinds the naming switch knows: solid, the four gradients, and image. */
  predicate Recognised(k: PaintKind)
  {
    k.Solid? || k.GradientLinear? || k.GradientRadial? || k.GradientAngular? || k.GradientDiamond? || k.Image?
  }

  predicate Savable(p: Paint)
  {
    p.visible && Recognised(p.kind)
  }

  /** `'#' + componentToHex(r) + componentToHex(g) + componentToHex(b)` */
  function SolidName(c: Rgb): string
  {
    "#" + ComponentToHex(c.r) + ComponentToHex(c.g) + ComponentToHex(c.b)
  }

  /** The display name the naming switch gives a paint of a recognised kind. */
  function PaintName(p: Paint): string
    requires Recognised(p.kind)
  {
    match p.kind
    case Solid => SolidName(p.color)
    case GradientLinear => "Linear Gradient"
    case GradientRadial => "Radial Gradient"
    case GradientAngular => "Angular Gradient"
    case GradientDiamond => "Diamond Gradient"
    case Image => "Image"
  }

  /** The position of the first savable fill, if there is one. */
  function FirstSavable(fills: seq<Paint>): (r: Option<nat>)
    ensures r.Some? ==> r.value < |fills| && Savable(fills[r.value])
    ensures r.Some? ==> forall j :: 0 <= j < r.value ==> !Savable(fills[j])
    ensures r.None? ==> forall j :: 0 <= j < |fills| ==> !Savable(fills[j])
  {
    if fills == [] then None
    else if Savable(fills[0]) then Some(0)
    else match FirstSavable(fills[1..])
      case None => None
      case Some(k) => Some(k + 1)
  }

  /** The entry the fills of a node yield: the first savable fill, under its display name. */
  function FillEntry(fills: seq<Paint>): Option<Entry>
  {
    match FirstSavable(fills)
    case None => None
    case Some(k) => Some(Named(PaintName(fills[k]), Literal(fills[k])))
  }

  /** A solid fill with channels of at least 0 is named `#RRGGBB`, one byte per channel. */
  lemma SolidNameFormat(c: Rgb)
    requires 0.0 <= c.r && 0.0 <= c.g && 0.0 <= c.b
    ensures var n := SolidName(c);
      |n| == 7 && n[0] == '#' &&
      (forall i :: 1 <= i < 7 ==> IsUpperHexDigit(n[i])) &&
      ByteValue(n[1..3]) == ChannelByte(c.r) &&
      ByteValue(n[3..5]) == ChannelByte(c.g) &&
      ByteValue(n[5..7]) == ChannelByte(c.b)
  {
    var x, y, z := ComponentToHex(c.r), ComponentToHex(c.g), ComponentToHex(c.b);
    ComponentToHexIsByte(c.r);
    ComponentToHexIsByte(c.g);
    ComponentToHexIsByte(c.b);
    assert SolidName(c) == "#" + x + y + z;
    HashParts(x, y, z);
  }

  predicate IsHexByte(h: string)
  {
    |h| == 2 && IsUpperHexDigit(h[0]) && IsUpperHexDigit(h[1])
  }

  /** Where the three bytes of "#" + x + y + z sit, and that they read back unchanged. */
  lemma HashParts(x: string, y: string, z: string)
    requires IsHexByte(x) && IsHexByte(y) && IsHexByte(z)
    ensures var n := "#" + x + y + z;
      |n| == 7 && n[0] == '#' &&
      (forall i :: 1 <= i < 7 ==> IsUpperHexDigit(n[i])) &&
      ByteValue(n[1..3]) == ByteValue(x) && ByteValue(n[3..5]) == ByteValue(y) && ByteValue(n[5..7]) == ByteValue(z)
  {
    var n := "#" + x + y + z;
    assert n[1..3] == x && n[3..5] == y && n[5..7] == z;
  }

  /** A savable fill with none before it is the first one. */
  lemma FirstSavableAt(fills: seq<Paint>, k: nat)
    requires k < |fills| && Savable(fills[k])
    requires forall j :: 0 <= j < k ==> !Savable(fills[j])
    ensures FirstSavable(fills) == Some(k)
  {
  }

  /** A white solid fill is named "#FFFFFF". */
  lemma WhiteIsFFFFFF()
    ensures SolidName(Rgb(1.0, 1.0, 1.0)) == "#FFFFFF"
  {
    ComponentToHexSaturates(1.0);
  }

  /**
   * The `fills.every(...)` walk: look at each fill in turn, name the first
   * visible one of a recognised kind, and stop there.
   */
  method ChooseFill(fills: seq<Paint>) returns (found: Option<Entry>)
    ensures found == FillEntry(fills)
  {
    var colorName: Option<string> := None;
    var colorData: Option<Paint> := None;
    var i := 0;
    while i < |fills| && colorData.None?
      invariant 0 <= i <= |fills|
      invariant colorData.None? ==> colorName.None? && forall j :: 0 <= j < i ==> !Savable(fills[j])
      invariant colorData.Some? ==> 0 < i && FirstSavable(fills) == Some(i - 1)
      invariant colorData.Some? ==> colorData.value == fills[i - 1] && colorName == Some(PaintName(fills[i - 1]))
    {
      var e := fills[i];
      if Savable(e) {
        FirstSavableAt(fills, i);
      }
      if e.visible {
        match e.kind {
          case Solid =>
            colorName := Some(SolidName(e.color));
            colorData := Some(e);
          case GradientLinear =>
            colorName := Some("Linear Gradient");
            colorData := Some(e);
          case GradientRadial =>
            colorName := Some("Radial Gradient");
            colorData := Some(e);
          case GradientAngular =>
            colorName := Some("Angular Gradient");
            colorData := Some(e);
          case GradientDiamond =>
            colorName := Some("Diamond Gradient");
            colorData := Some(e);
          case Image =>
            colorName := Some("Image");
            colorData := Some(e);
          case _ =>
        }
      }
      i := i + 1;
    }
    if colorName.Some? && colorData.Some? {
      found := Some(Named(colorName.value, Literal(colorData.value)));
    } else {
      found := None;
    }
  }

  /** A node's fill style saved as a reference: a library style by its key, a local one by its id. */
  function StyleEntry(s: StyleInfo): Entry
  {
    Named(s.name, StyleRef(if s.remote then s.key else s.id, s.remote))
  }

  /** What a visible node offers for saving: its style if it has one, else its first savable fill. */
  function NodeEntry(n: SceneNode): Option<Entry>
  {
    if n.fillStyle.Some? then Some(StyleEntry(n.fillStyle.value))
    else if n.fills.Some? then FillEntry(n.fills.value)
    else None
  }

  /**
   * The style is looked at before the fills: a visible node with a fill style
   * saves a reference to it, under the style's name, whatever its fills hold.
   */
  lemma StyleBeforeFills(stored: Option<seq<Entry>>, n: SceneNode)
    requires n.visible && n.fillStyle.Some?
    ensures var s := n.fillStyle.value;
      var (p, r) := SaveNode(stored, n);
      p.Some? && r.Some? && r.value.Saving? &&
      (forall x :: x in p.value && x !in (if stored.Some? then stored.value else []) ==>
        x.name == s.name && x.data == StyleRef(if s.remote then s.key else s.id, s.remote))
  {
  }

  /** Removing a style reference from the palette never drops a saved paint or preset. */
  lemma RemoveStyleKeepsPaints(p: seq<Entry>, s: StyleInfo, x: Entry)
    requires x in p && !x.data.StyleRef?
    ensures x in Removed(p, StyleEntry(s).data)
  {
    RemovedMembers(p, StyleEntry(s).data, x);
  }

  /** One iteration of the selection loop: the palette afterwards, and what is reported. */
  function SaveNode(stored: Option<seq<Entry>>, n: SceneNode): (Option<seq<Entry>>, Option<NodeReport>)
  {
    if !n.visible then (stored, None)
    else match NodeEntry(n)
      case None => (stored, Some(InvalidFill))
      case Some(e) =>
        (SavedIn(stored, e),
         Some(Saving(if stored.Some? && e in stored.value then AlreadySaved else Stored(e.name))))
  }

  /** The whole selection loop, node by node from the first. */
  function SaveRun(stored: Option<seq<Entry>>, selection: seq<SceneNode>): (Option<seq<Entry>>, seq<NodeReport>)
    decreases |selection|
  {
    if selection == [] then (stored, [])
    else
      var (p, reports) := SaveRun(stored, selection[..|selection| - 1]);
      var (p', r) := SaveNode(p, selection[|selection| - 1]);
      (p', if r.Some? then reports + [r.value] else reports)
  }

  predicate IsSuffix(p: seq<Entry>, r: seq<Entry>)
  {
    |p| <= |r| && r[|r| - |p|..] == p
  }

  /** The number of visible nodes in a selection. */
  function VisibleCount(selection: seq<SceneNode>): nat
  {
    |set i | 0 <= i < |selection| && selection[i].visible|
  }

  lemma VisibleCountLast(selection: seq<SceneNode>)
    requires selection != []
    ensures VisibleCount(selection) ==
      VisibleCount(selection[..|selection| - 1]) + if selection[|selection| - 1].visible then 1 else 0
  {
    var front := selection[..|selection| - 1];
    var visible := set i | 0 <= i < |selection| && selection[i].visible;
    var visibleFront := set i | 0 <= i < |front| && front[i].visible;
    assert visible == visibleFront + (if selection[|selection| - 1].visible then {|selection| - 1} else {});
  }

  /** A run only prepends: a stored palette stays, in order, at the end of the new one. */
  lemma {:induction false} SaveRunPrepends(stored: Option<seq<Entry>>, selection: seq<SceneNode>)
    ensures var p := SaveRun(stored, selection).0;
      (stored.Some? ==> p.Some? && IsSuffix(stored.value, p.value)) && (p.None? ==> stored.None?)
    decreases |selection|
  {
    if selection != [] {
      var front := selection[..|selection| - 1];
      SaveRunPrepends(stored, front);
      var p := SaveRun(stored, front).0;
      var last := selection[|selection| - 1];
      assert SaveRun(stored, selection).0 == SaveNode(p, last).0;
      if last.visible && NodeEntry(last).Some? && p.Some? {
        var e := NodeEntry(last).value;
        SavedShape(p.value, e);
        var p' := Saved(p.value, e);
        if stored.Some? && e !in p.value {
          assert p'[|p'| - |stored.value|..] == p.value[|p.value| - |stored.value|..];
        }
      }
    }
  }

  /** Every visible node that offers an entry has it in the palette after the run, and nothing stored is lost. */
  lemma {:induction false} SaveRunSavesEach(stored: Option<seq<Entry>>, selection: seq<SceneNode>)
    ensures var p := SaveRun(stored, selection).0;
      (forall n :: n in selection && n.visible && NodeEntry(n).Some? ==> p.Some? && NodeEntry(n).value in p.value) &&
      (forall x :: stored.Some? && x in stored.value ==> p.Some? && x in p.value)
    decreases |selection|
  {
    if selection != [] {
      var front := selection[..|selection| - 1];
      var last := selection[|selection| - 1];
      SaveRunSavesEach(stored, front);
      var p := SaveRun(stored, front).0;
      var p' := SaveRun(stored, selection).0;
      assert p'.Some? ==> forall x :: p.Some? && x in p.value ==> x in p'.value;
      assert selection == front + [last];
    }
  }

  /** Nothing else enters the palette: every entry was stored before or is offered by a visible node. */
  lemma {:induction false} SaveRunOnlyOffered(stored: Option<seq<Entry>>, selection: seq<SceneNode>)
    ensures var p := SaveRun(stored, selection).0;
      p.Some? ==> forall x :: x in p.value ==>
        (stored.Some? && x in stored.value) ||
        exists n :: n in selection && n.visible && NodeEntry(n) == Some(x)
    decreases |selection|
  {
    if selection != [] {
      var front := selection[..|selection| - 1];
      SaveRunOnlyOffered(stored, front);
      assert selection == front + [selection[|selection| - 1]];
    }
  }

  /** The reports of a prefix of the selection are a prefix of the reports of the whole. */
  lemma {:induction false} SaveRunReportsPrefix(stored: Option<seq<Entry>>, selection: seq<SceneNode>, i: nat)
    requires i <= |selection|
    ensures var all := SaveRun(stored, selection).1;
      var some := SaveRun(stored, selection[..i]).1;
      |some| <= |all| && all[..|some|] == some
    decreases |selection|
  {
    if i < |selection| {
      var front := selection[..|selection| - 1];
      assert front[..i] == selection[..i];
      SaveRunReportsPrefix(stored, front, i);
    } else {
      assert selection[..i] == selection;
    }
  }

  /**
   * The report of the i-th node, a visible one, is the k-th report, k being the
   * number of visible nodes before it. It is an invalid fill exactly when the
   * node offers nothing, and then the palette is left as it was; otherwise the
   * entry is saved, and "already saved" is reported exactly when it was in the
   * palette before this node.
   */
  lemma SaveRunReportOf(stored: Option<seq<Entry>>, selection: seq<SceneNode>, i: nat)
    requires i < |selection| && selection[i].visible
    ensures var before := SaveRun(stored, selection[..i]).0;
      var after := SaveRun(stored, selection[..i + 1]).0;
      var reports := SaveRun(stored, selection).1;
      var k := VisibleCount(selection[..i]);
      var e := NodeEntry(selection[i]);
      k < |reports| &&
      (reports[k] == InvalidFill <==> e.None?) &&
      (e.None? ==> after == before) &&
      (e.Some? ==> after == SavedIn(before, e.value)) &&
      (reports[k] == Saving(AlreadySaved) <==> e.Some? && before.Some? && e.value in before.value) &&
      (e.Some? && !(before.Some? && e.value in before.value) ==> reports[k] == Saving(Stored(e.value.name)))
  {
    var upTo := selection[..i + 1];
    assert upTo[..i] == selection[..i];
    assert upTo[|upTo| - 1] == selection[i];
    SaveRunReports(stored, selection[..i]);
    SaveRunReportsPrefix(stored, selection, i + 1);
  }

  /** A run keeps a duplicate-free palette duplicate-free. */
  lemma {:induction false} SaveRunUnique(stored: Option<seq<Entry>>, selection: seq<SceneNode>)
    requires stored.Some? ==> NoDuplicates(stored.value)
    ensures var p := SaveRun(stored, selection).0; p.Some? ==> NoDuplicates(p.value)
    decreases |selection|
  {
    if selection != [] {
      var front := selection[..|selection| - 1];
      var last := selection[|selection| - 1];
      SaveRunUnique(stored, front);
      var p := SaveRun(stored, front).0;
      if last.visible && NodeEntry(last).Some? && p.Some? {
        SavedKeepsNoDuplicates(p.value, NodeEntry(last).value);
      }
    }
  }

  /** Each visible node gets exactly one report; hidden nodes are skipped silently. */
  lemma {:induction false} SaveRunReports(stored: Option<seq<Entry>>, selection: seq<SceneNode>)
    ensures |SaveRun(stored, selection).1| == VisibleCount(selection)
    decreases |selection|
  {
    if selection != [] {
      SaveRunReports(stored, selection[..|selection| - 1]);
      VisibleCountLast(selection);
    }
  }

  /**
   * `saveColor(selection)`: report an empty selection, then run through the
   * nodes in order. `closePlugin` does not stop the loop, so every visible
   * node is processed and reported.
   */
  method SaveColor(storage: ClientStorage, selection: seq<SceneNode>) returns (reports: seq<NodeReport>)
    modifies storage
    ensures storage.palette == SaveRun(old(storage.palette), selection).0
    ensures reports == (if selection == [] then [NoSelection] else SaveRun(old(storage.palette), selection).1)
  {
    reports := [];
    var i := 0;
    while i < |selection|
      invariant 0 <= i <= |selection|
      invariant (storage.palette, reports) == SaveRun(old(storage.palette), selection[..i])
    {
      var node := selection[i];
      assert selection[..i + 1][..i] == selection[..i];
      if node.visible {
        if node.fillStyle.Some? {
          var r := storage.Save(StyleEntry(node.fillStyle.value));
          reports := reports + [Saving(r)];
        } else if node.fills.Some? {
          var found := ChooseFill(node.fills.value);
          if found.Some? {
            var r := storage.Save(found.value);
            reports := reports + [Saving(r)];
          } else {
            reports := reports + [InvalidFill];
          }
        } else {
          reports := reports + [InvalidFill];
        }
      }
      i := i + 1;
    }
    assert selection[..i] == selection;
    if |selection| == 0 {
      reports := [NoSelection];
    }
  }
}
