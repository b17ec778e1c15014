/**
 * Where `createOverlay` puts a new overlay in a frame's child list. Children
 * are ordered back to front: index 0 is the bottom-most layer, so inserting
 * at the index of a child puts the new layer directly beneath it.
 */
module Placement {
  import opened Wrappers
  import opened Text

  /** The name the overlay layer is created with and found by. */
  const OverlayName: string := "Overlay"

  /** Keywords of layers meant to stay above the overlay (sheets, modals, system chrome). */
  const TopLayerNames: seq<string> := [
    "sheet", "modal", "popover", "alert", "statusbar", "keyboard", "dynamicisland",
    "contextualmenu", "appclip", "notification", "faceid", "touchid"
  ]

  /** The characters `\s` matches in a JavaScript regular expression. */
  predicate IsJsWhitespace(c: char)
  {
    c == '\t' || c == '\n' || c == '\U{000B}' || c == '\U{000C}' || c == '\r' || c == ' ' ||
    c == '\U{00A0}' || c == '\U{1680}' || ('\U{2000}' <= c <= '\U{200A}') ||
    c == '\U{2028}' || c == '\U{2029}' || c == '\U{202F}' || c == '\U{205F}' ||
    c == '\U{3000}' || c == '\U{FEFF}'
  }

  /** `s.replace(/\s+/g, '')`: every whitespace character dropped, the rest kept in order. */
  function StripWhitespace(s: string): (r: string)
    ensures forall i :: 0 <= i < |r| ==> !IsJsWhitespace(r[i])
  {
    if s == [] then []
    else if IsJsWhitespace(s[0]) then StripWhitespace(s[1..])
    else [s[0]] + StripWhitespace(s[1..])
  }

  /** `name.toLowerCase().replace(/\s+/g, '')` */
  function NormalisedName(name: string): string
  {
    StripWhitespace(LowerChars(name))
  }

  /** A child that may be meant to sit above the overlay: its normalised name contains a keyword. */
  predicate IsTopLayerName(name: string)
  {
    exists k :: 0 <= k < |TopLayerNames| && Contains(NormalisedName(name), TopLayerNames[k])
  }

  /** Whitespace is dropped, not replaced: exactly the non-whitespace characters of the name survive. */
  lemma {:induction false} StripWhitespaceMembers(s: string)
    ensures forall c :: c in StripWhitespace(s) <==> c in s && !IsJsWhitespace(c)
  {
    if s != [] {
      StripWhitespaceMembers(s[1..]);
      assert s == [s[0]] + s[1..];
    }
  }

  lemma {:induction false} StripWhitespaceConcat(a: string, b: string)
    ensures StripWhitespace(a + b) == StripWhitespace(a) + StripWhitespace(b)
  {
    if a == [] {
      assert a + b == b;
    } else {
      assert (a + b)[0] == a[0];
      assert (a + b)[1..] == a[1..] + b;
      StripWhitespaceConcat(a[1..], b);
    }
  }

  lemma LowerCharsConcat(a: string, b: string)
    ensures LowerChars(a + b) == LowerChars(a) + LowerChars(b)
  {
    var l, r := LowerChars(a + b), LowerChars(a) + LowerChars(b);
    forall i | 0 <= i < |l| ensures l[i] == r[i] {
      if i < |a| {
        assert (a + b)[i] == a[i];
      } else {
        assert (a + b)[i] == b[i - |a|];
      }
    }
  }

  /** A string without whitespace is left as it is. */
  lemma {:induction false} StripWhitespaceNone(s: string)
    requires forall i :: 0 <= i < |s| ==> !IsJsWhitespace(s[i])
    ensures StripWhitespace(s) == s
  {
    if s != [] {
      StripWhitespaceNone(s[1..]);
    }
  }

  /** A name of lower-case letters only is its own normal form. */
  lemma LowerLettersKept(s: string)
    requires forall i :: 0 <= i < |s| ==> IsAsciiLower(s[i])
    ensures StripWhitespace(s) == s
  {
    StripWhitespaceNone(s);
  }

  /** Whitespace anywhere in a name makes no difference to the top-layer test. */
  lemma NormalisedIgnoresWhitespace(a: string, b: string, w: char)
    requires IsJsWhitespace(w)
    ensures NormalisedName(a + [w] + b) == NormalisedName(a + b)
  {
    var la, lb := LowerChars(a), LowerChars(b);
    LowerCharsConcat(a + [w], b);
    LowerCharsConcat(a, [w]);
    LowerCharsConcat(a, b);
    assert LowerChars([w]) == [w];
    StripWhitespaceConcat(la + [w], lb);
    StripWhitespaceConcat(la, [w]);
    StripWhitespaceConcat(la, lb);
  }

  /** Letter case makes no difference to the top-layer test. */
  lemma NormalisedIgnoresCase(name: string)
    ensures NormalisedName(ToUpper(name)) == NormalisedName(name)
  {
    assert LowerChars(ToUpper(name)) == LowerChars(name);
  }

  lemma StatusBarNormalised()
    ensures NormalisedName("Status Bar") == "statusbar"
  {
    assert "Status Bar" == "Status" + [' '] + "Bar";
    NormalisedIgnoresWhitespace("Status", "Bar", ' ');
    assert "Status" + "Bar" == "StatusBar";
    StatusBarLowered();
    StatusBarStripped();
  }

  lemma StatusBarStripped()
    ensures StripWhitespace("statusbar") == "statusbar"
  {
    LowerLettersKept("statusbar");
  }

  lemma StatusBarLowered()
    ensures LowerChars("StatusBar") == "statusbar"
  {
    var l := LowerChars("StatusBar");
    forall i | 0 <= i < 9 ensures l[i] == "statusbar"[i] {
      assert l[i] == LowerChar("StatusBar"[i]);
    }
    assert l == "statusbar";
  }

  /** "Status Bar" is a top layer. */
  lemma StatusBarIsTopLayer()
    ensures IsTopLayerName("Status Bar")
  {
    StatusBarNormalised();
    assert IsPrefix(TopLayerNames[4], "statusbar");
  }

  lemma OverlayNormalised()
    ensures NormalisedName(OverlayName) == "overlay"
  {
    var l := LowerChars(OverlayName);
    forall i | 0 <= i < 7 ensures l[i] == "overlay"[i] {
      assert l[i] == LowerChar(OverlayName[i]);
    }
    assert l == "overlay";
    LowerLettersKept("overlay");
  }

  lemma OverlayHasNoKeyword()
    ensures forall k :: 0 <= k < |TopLayerNames| ==> !Contains("overlay", TopLayerNames[k])
  {
    // each keyword has a letter that "overlay" lacks
    var missing := ['s', 'm', 'p', 't', 's', 'k', 'd', 'c', 'p', 'n', 'f', 't'];
    forall k | 0 <= k < |TopLayerNames| ensures !Contains("overlay", TopLayerNames[k]) {
      assert missing[k] in TopLayerNames[k] && missing[k] !in "overlay";
      if Contains("overlay", TopLayerNames[k]) {
        ContainsOnlyChars("overlay", TopLayerNames[k], missing[k]);
      }
    }
  }

  /** The overlay's own name contains no keyword, so the overlay is never taken for a top layer. */
  lemma OverlayIsNotTopLayer()
    ensures !IsTopLayerName(OverlayName)
  {
    OverlayNormalised();
    OverlayHasNoKeyword();
  }

  /** The first child called `name`, as `findChild(n => n.name === name)` finds it. */
  function FirstNamed(names: seq<string>, name: string): (r: Option<nat>)
    ensures r.Some? ==> r.value < |names| && names[r.value] == name
    ensures r.Some? ==> forall j :: 0 <= j < r.value ==> names[j] != name
    ensures r.None? <==> name !in names
  {
    if names == [] then None
    else if names[0] == name then Some(0)
    else match FirstNamed(names[1..], name)
      case None => None
      case Some(k) => Some(k + 1)
  }

  /** The first child whose name marks it as a top layer. */
  function FirstTopLayer(names: seq<string>): (r: Option<nat>)
    ensures r.Some? ==> r.value < |names| && IsTopLayerName(names[r.value])
    ensures r.Some? ==> forall j :: 0 <= j < r.value ==> !IsTopLayerName(names[j])
    ensures r.None? ==> forall j :: 0 <= j < |names| ==> !IsTopLayerName(names[j])
  {
    if names == [] then None
    else if IsTopLayerName(names[0]) then Some(0)
    else match FirstTopLayer(names[1..])
      case None => None
      case Some(k) => Some(k + 1)
  }

  /** Where a new overlay goes: beneath the first top layer, or on top of everything when there is none. */
  function InsertionIndex(names: seq<string>): nat
  {
    match FirstTopLayer(names)
    case Some(k) => k
    case None => |names|
  }

  /** `insertChild(k, x)` on a list of children. */
  function Insert<T>(s: seq<T>, k: nat, x: T): seq<T>
    requires k <= |s|
  {
    s[..k] + [x] + s[k..]
  }

  /** Where an insertion puts the new element and every old one. */
  lemma InsertIndexes<T>(s: seq<T>, k: nat, x: T)
    requires k <= |s|
    ensures |Insert(s, k, x)| == |s| + 1 && Insert(s, k, x)[k] == x
    ensures forall j :: 0 <= j < |s| ==> Insert(s, k, x)[if j < k then j else j + 1] == s[j]
  {
  }

  /** An insertion adds the one element and keeps every other. */
  lemma InsertMembers<T>(s: seq<T>, k: nat, x: T)
    requires k <= |s|
    ensures forall y :: y in Insert(s, k, x) <==> y in s || y == x
  {
    assert s == s[..k] + s[k..];
  }

  /** The child names after one frame has been processed. */
  function PlacedNames(names: seq<string>): seq<string>
  {
    if OverlayName in names then names else Insert(names, InsertionIndex(names), OverlayName)
  }

  /**
   * With an overlay present nothing is added. Otherwise exactly one child is
   * added, the others keep their order, and it lands at the first top layer's
   * index (just beneath it), or at the end if there is no top layer.
   */
  lemma PlacementSpec(names: seq<string>)
    ensures OverlayName in names ==> PlacedNames(names) == names
    ensures OverlayName !in names ==>
      var k := InsertionIndex(names);
      var r := PlacedNames(names);
      k <= |names| && |r| == |names| + 1 && r[k] == OverlayName &&
      r[..k] + r[k + 1..] == names &&
      (forall j :: 0 <= j < k ==> !IsTopLayerName(names[j])) &&
      (k < |names| ==> IsTopLayerName(names[k]) && IsTopLayerName(r[k + 1]))
  {
    if OverlayName !in names {
      var k := InsertionIndex(names);
      var r := PlacedNames(names);
      assert r[..k] == names[..k];
      assert r[k + 1..] == names[k..];
      assert names[..k] + names[k..] == names;
    }
  }

  /** A second run over the same frame adds nothing. */
  lemma PlacementIdempotent(names: seq<string>)
    ensures OverlayName in PlacedNames(names)
    ensures PlacedNames(PlacedNames(names)) == PlacedNames(names)
  {
    if OverlayName !in names {
      PlacementSpec(names);
    }
  }

  /** The new overlay is never itself a top layer, so the layer it was placed under is still the first one, one place up. */
  lemma PlacementKeepsTopLayer(names: seq<string>)
    requires OverlayName !in names
    requires FirstTopLayer(names).Some?
    ensures FirstTopLayer(PlacedNames(names)) == Some(FirstTopLayer(names).value + 1)
  {
    OverlayIsNotTopLayer();
    var k := InsertionIndex(names);
    var r := PlacedNames(names);
    InsertIndexes(names, k, OverlayName);
    forall j | 0 <= j < k + 1 ensures !IsTopLayerName(r[j]) {
      if j < k {
        assert r[j] == names[j];
      }
    }
    assert r[k + 1] == names[k];
    FirstTopLayerAt(r, k + 1);
    assert k + 1 == FirstTopLayer(names).value + 1;
  }

  /** A top layer with none before it is the first top layer. */
  lemma {:induction false} FirstTopLayerAt(names: seq<string>, k: nat)
    requires k < |names| && IsTopLayerName(names[k])
    requires forall j :: 0 <= j < k ==> !IsTopLayerName(names[j])
    ensures FirstTopLayer(names) == Some(k)
    decreases k
  {
    if k > 0 {
      assert !IsTopLayerName(names[0]);
      FirstTopLayerAt(names[1..], k - 1);
    }
  }
}
