/**
 * The saved palette: the list of entries the plugin keeps under the storage key
 * `overlay_colors`, newest first, with the two operations that rewrite it.
 * Equality of entries is structural; the source compares `JSON.stringify`
 * output, which also depends on key order.
 */
module Palette {
  import opened Wrappers
  import opened Fills

  /** The palette never holds the same entry twice. */
  predicate NoDuplicates(p: seq<Entry>)
  {
    forall i, j :: 0 <= i < j < |p| ==> p[i] != p[j]
  }

  /** Saving into a stored palette: an entry already present is refused, a new one is prepended. */
  function Saved(p: seq<Entry>, e: Entry): seq<Entry>
  {
    if e in p then p else [e] + p
  }

  /** The palette after a save, when the storage slot may still be empty. */
  function SavedIn(stored: Option<seq<Entry>>, e: Entry): (r: Option<seq<Entry>>)
    ensures r.Some? && e in r.value
    ensures stored.None? ==> r == Some([e])
    ensures stored.Some? ==> r == Some(Saved(stored.value, e))
  {
    match stored
    case None => Some([e])
    case Some(p) => Some(Saved(p, e))
  }

  /** `value.filter(e => e.data !== selector)`: drop every entry whose data is the selector. */
  function Removed(p: seq<Entry>, selector: ColorData): seq<Entry>
  {
    if p == [] then []
    else if p[0].data == selector then Removed(p[1..], selector)
    else [p[0]] + Removed(p[1..], selector)
  }

  /** A save either leaves the palette as it was or adds exactly the new entry in front. */
  lemma SavedShape(p: seq<Entry>, e: Entry)
    ensures e in Saved(p, e)
    ensures e in p ==> Saved(p, e) == p
    ensures e !in p ==> |Saved(p, e)| == |p| + 1 && Saved(p, e)[0] == e && Saved(p, e)[1..] == p
    ensures multiset(Saved(p, e)) == multiset(p) + (if e in p then multiset{} else multiset{e})
  {
    if e !in p {
      assert Saved(p, e)[1..] == p;
    }
  }

  /** Saving twice is saving once. */
  lemma SavedIdempotent(p: seq<Entry>, e: Entry)
    ensures Saved(Saved(p, e), e) == Saved(p, e)
  {
  }

  /** Duplicate detection keeps the palette free of repeated entries. */
  lemma SavedKeepsNoDuplicates(p: seq<Entry>, e: Entry)
    requires NoDuplicates(p)
    ensures NoDuplicates(Saved(p, e))
  {
    if e !in p {
      var r := Saved(p, e);
      forall i, j | 0 <= i < j < |r| ensures r[i] != r[j] {
        if i == 0 {
          assert r[j] == p[j - 1];
        } else {
          assert r[i] == p[i - 1] && r[j] == p[j - 1];
        }
      }
    }
  }

  /** An entry survives a removal exactly when it was there and its data is not the selector. */
  lemma {:induction false} RemovedMembers(p: seq<Entry>, selector: ColorData, x: Entry)
    ensures x in Removed(p, selector) <==> x in p && x.data != selector
  {
    if p != [] {
      RemovedMembers(p[1..], selector, x);
      assert p == [p[0]] + p[1..];
    }
  }

  /** No remaining entry has the selector as its data. */
  lemma RemovedAll(p: seq<Entry>, selector: ColorData)
    ensures forall x :: x in Removed(p, selector) ==> x.data != selector
    ensures |Removed(p, selector)| <= |p|
  {
    forall x | x in Removed(p, selector) ensures x.data != selector {
      RemovedMembers(p, selector, x);
    }
    RemovedLength(p, selector);
  }

  lemma {:induction false} RemovedLength(p: seq<Entry>, selector: ColorData)
    ensures |Removed(p, selector)| <= |p|
  {
    if p != [] {
      RemovedLength(p[1..], selector);
    }
  }

  /**
   * Removal works entry by entry, so it distributes over concatenation: the
   * entries kept from an earlier part stay before those kept from a later part.
   */
  lemma {:induction false} RemovedConcat(a: seq<Entry>, b: seq<Entry>, selector: ColorData)
    ensures Removed(a + b, selector) == Removed(a, selector) + Removed(b, selector)
  {
    if a == [] {
      assert a + b == b;
    } else {
      assert (a + b)[0] == a[0];
      assert (a + b)[1..] == a[1..] + b;
      RemovedConcat(a[1..], b, selector);
    }
  }

  /** A selector that matches nothing leaves the palette unchanged, and only such a selector does. */
  lemma {:induction false} RemovedNothing(p: seq<Entry>, selector: ColorData)
    ensures Removed(p, selector) == p <==> forall x :: x in p ==> x.data != selector
  {
    if p != [] {
      RemovedNothing(p[1..], selector);
      RemovedLength(p[1..], selector);
      if p[0].data == selector {
        assert |Removed(p, selector)| < |p|;
      }
    }
  }

  /** Removing the same selector again changes nothing. */
  lemma RemovedIdempotent(p: seq<Entry>, selector: ColorData)
    ensures Removed(Removed(p, selector), selector) == Removed(p, selector)
  {
    RemovedAll(p, selector);
    RemovedNothing(Removed(p, selector), selector);
  }

  /** Removal keeps the palette free of repeated entries. */
  lemma {:induction false} RemovedKeepsNoDuplicates(p: seq<Entry>, selector: ColorData)
    requires NoDuplicates(p)
    ensures NoDuplicates(Removed(p, selector))
  {
    if p != [] {
      assert NoDuplicates(p[1..]) by {
        forall i, j | 0 <= i < j < |p[1..]| ensures p[1..][i] != p[1..][j] {
          assert p[1..][i] == p[i + 1] && p[1..][j] == p[j + 1];
        }
      }
      RemovedKeepsNoDuplicates(p[1..], selector);
      if p[0].data != selector {
        var rest := Removed(p[1..], selector);
        var r := [p[0]] + rest;
        assert p[0] !in p[1..] by {
          forall k | 0 <= k < |p[1..]| ensures p[1..][k] != p[0] {
            assert p[1..][k] == p[k + 1];
          }
        }
        RemovedMembers(p[1..], selector, p[0]);
        forall i, j | 0 <= i < j < |r| ensures r[i] != r[j] {
          if i == 0 {
            assert r[j] == rest[j - 1];
          } else {
            assert r[i] == rest[i - 1] && r[j] == rest[j - 1];
          }
        }
      }
    }
  }

  /** Removing by the data of an entry just saved undoes the save, and more. */
  lemma RemoveAfterSave(p: seq<Entry>, e: Entry)
    ensures Removed(Saved(p, e), e.data) == Removed(p, e.data)
    ensures (forall x :: x in p ==> x.data != e.data) ==> Removed(Saved(p, e), e.data) == p
  {
    if e !in p {
      RemovedConcat([e], p, e.data);
    }
    if forall x :: x in p ==> x.data != e.data {
      RemovedNothing(p, e.data);
    }
  }

  /** How a save call ended. */
  datatype SaveReport = AlreadySaved | Stored(name: string)

  /** How a remove call ended: the source writes the filtered list, or throws inside its callback when nothing is stored. */
  datatype RemoveReport = RemovedColor | NothingStored

  /** The host's client storage, reduced to the one slot the plugin uses. */
  class ClientStorage {
    /** The value under the storage key: `undefined` or a list of entries. */
    var palette: Option<seq<Entry>>

    constructor (initial: Option<seq<Entry>>)
      ensures palette == initial
    {
      palette := initial;
    }

    /**
     * The read–compare–write at the end of both branches of `saveColor`.
     * The success message names the entry.
     */
    method Save(e: Entry) returns (report: SaveReport)
      modifies this
      ensures palette == SavedIn(old(palette), e)
      ensures report == if old(palette).Some? && e in old(palette).value then AlreadySaved else Stored(e.name)
    {
      match palette
      case None =>
        palette := Some([e]);
        report := Stored(e.name);
      case Some(p) =>
        if e in p {
          report := AlreadySaved;
        } else {
          palette := Some([e] + p);
          report := Stored(e.name);
        }
    }

    /**
     * `removeColor`: filter the stored list and write it back. With nothing
     * stored, the filter call throws and storage is left as it was.
     */
    method Remove(selector: ColorData) returns (report: RemoveReport)
      modifies this
      ensures old(palette).None? ==> palette == old(palette) && report == NothingStored
      ensures old(palette).Some? ==> palette == Some(Removed(old(palette).value, selector)) && report == RemovedColor
    {
      if palette.Some? {
        palette := Some(Removed(palette.value, selector));
        report := RemovedColor;
      } else {
        report := NothingStored;
      }
    }
  }
}
