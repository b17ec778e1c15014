/**
 * The `parameters.on('input')` handler: autocomplete suggestions for the
 * `color`, `opacity` and `colorToRemove` parameters, filtered by the query the
 * user has typed so far.
 */
module Suggestions {
  import opened Wrappers
  import opened Text
  import opened Fills

  /** The colours offered whatever is stored. */
  const PresetColors: seq<Entry> := [
    Named("Black", Preset(Rgb(0.0, 0.0, 0.0))),
    Named("White", Preset(Rgb(1.0, 1.0, 1.0)))
  ]

  /** The opacities offered, in the order the source lists them. */
  const PresetOpacities: seq<Named<real>> := [
    Named("50%", 0.5), Named("25%", 0.25), Named("75%", 0.75), Named("100%", 1.0), Named("10%", 0.1)
  ]

  /** The result of reading the palette from client storage. */
  datatype StorageRead = Loaded(value: Option<seq<Entry>>) | ReadFailed

  /** What the handler tells the host for the `colorToRemove` parameter. */
  datatype RemoveHint =
    | Offer(suggestions: seq<Entry>)
    | NoColors        // `result.setError`: there are no custom overlay fills
    | CloseOnError    // the read failed: the plugin is closed with an error

  /** `xs.filter(s => s.name.includes(query))` */
  function FilterByName<T>(xs: seq<Named<T>>, query: string): seq<Named<T>>
  {
    if xs == [] then []
    else if Contains(xs[0].name, query) then [xs[0]] + FilterByName(xs[1..], query)
    else FilterByName(xs[1..], query)
  }

  /** A suggestion is offered exactly when it is a candidate whose name contains the query. */
  lemma {:induction false} FilterByNameMembers<T>(xs: seq<Named<T>>, query: string, x: Named<T>)
    ensures x in FilterByName(xs, query) <==> x in xs && Contains(x.name, query)
  {
    if xs != [] {
      FilterByNameMembers(xs[1..], query, x);
      assert xs == [xs[0]] + xs[1..];
    }
  }

  /** Filtering keeps the candidates' order: it distributes over concatenation. */
  lemma {:induction false} FilterByNameConcat<T>(xs: seq<Named<T>>, ys: seq<Named<T>>, query: string)
    ensures FilterByName(xs + ys, query) == FilterByName(xs, query) + FilterByName(ys, query)
  {
    if xs == [] {
      assert xs + ys == ys;
    } else {
      assert (xs + ys)[0] == xs[0];
      assert (xs + ys)[1..] == xs[1..] + ys;
      FilterByNameConcat(xs[1..], ys, query);
    }
  }

  /** An empty query offers every candidate. */
  lemma {:induction false} FilterByNameEmptyQuery<T>(xs: seq<Named<T>>)
    ensures FilterByName(xs, "") == xs
  {
    if xs != [] {
      assert IsPrefix("", xs[0].name);
      FilterByNameEmptyQuery(xs[1..]);
    }
  }

  /** A query every candidate's name contains offers every candidate. */
  lemma {:induction false} FilterByNameKeepsAll<T>(xs: seq<Named<T>>, query: string)
    requires forall i :: 0 <= i < |xs| ==> Contains(xs[i].name, query)
    ensures FilterByName(xs, query) == xs
  {
    if xs != [] {
      FilterByNameKeepsAll(xs[1..], query);
    }
  }

  /**
   * Suggestions for `color`: with a non-empty stored palette, the palette
   * followed by the presets; otherwise, or when the read fails, the presets alone.
   */
  function ColorSuggestions(read: StorageRead, query: string): seq<Entry>
  {
    if read.Loaded? && read.value.Some? && |read.value.value| > 0 then
      FilterByName(read.value.value + PresetColors, query)
    else
      FilterByName(PresetColors, query)
  }

  /** Suggestions for `opacity`: the presets whose name contains the query. */
  function OpacitySuggestions(query: string): seq<Named<real>>
  {
    FilterByName(PresetOpacities, query)
  }

  /** Suggestions for `colorToRemove`: the stored entries, an error when there are none. */
  function RemoveSuggestions(read: StorageRead, query: string): RemoveHint
  {
    match read
    case ReadFailed => CloseOnError
    case Loaded(v) =>
      if v.Some? && |v.value| > 0 then Offer(FilterByName(v.value, query)) else NoColors
  }

  /**
   * Every colour suggestion names the query and comes from the palette or the
   * presets; with a non-empty palette the palette's matches come first, in
   * stored order, and the presets' matches after them.
   */
  lemma ColorSuggestionsOrder(read: StorageRead, query: string)
    ensures forall x :: x in ColorSuggestions(read, query) ==>
      Contains(x.name, query) &&
      (x in PresetColors || (read.Loaded? && read.value.Some? && x in read.value.value))
    ensures read.Loaded? && read.value.Some? && |read.value.value| > 0 ==>
      ColorSuggestions(read, query) == FilterByName(read.value.value, query) + FilterByName(PresetColors, query)
  {
    forall x | x in ColorSuggestions(read, query)
      ensures Contains(x.name, query) &&
        (x in PresetColors || (read.Loaded? && read.value.Some? && x in read.value.value))
    {
      if read.Loaded? && read.value.Some? && |read.value.value| > 0 {
        FilterByNameMembers(read.value.value + PresetColors, query, x);
      } else {
        FilterByNameMembers(PresetColors, query, x);
      }
    }
    if read.Loaded? && read.value.Some? && |read.value.value| > 0 {
      FilterByNameConcat(read.value.value, PresetColors, query);
    }
  }

  /** Every stored entry and every preset whose name contains the query is offered. */
  lemma ColorSuggestionsComplete(read: StorageRead, query: string, x: Entry)
    requires Contains(x.name, query)
    requires x in PresetColors || (read.Loaded? && read.value.Some? && x in read.value.value)
    ensures x in ColorSuggestions(read, query)
  {
    if read.Loaded? && read.value.Some? && |read.value.value| > 0 {
      FilterByNameMembers(read.value.value + PresetColors, query, x);
    } else {
      FilterByNameMembers(PresetColors, query, x);
    }
  }

  /** The removal suggestions are exactly the stored entries whose name contains the query. */
  lemma RemoveSuggestionsSound(read: StorageRead, query: string, x: Entry)
    requires RemoveSuggestions(read, query).Offer?
    ensures read.Loaded? && read.value.Some? && |read.value.value| > 0
    ensures x in RemoveSuggestions(read, query).suggestions <==> x in read.value.value && Contains(x.name, query)
  {
    FilterByNameMembers(read.value.value, query, x);
  }

  /** Typing "%" or nothing offers every opacity; typing "5" offers 50%, 25% and 75%, in that order. */
  lemma OpacitySuggestionsExamples()
    ensures OpacitySuggestions("") == PresetOpacities
    ensures OpacitySuggestions("%") == PresetOpacities
    ensures OpacitySuggestions("5") == [Named("50%", 0.5), Named("25%", 0.25), Named("75%", 0.75)]
  {
    FilterByNameEmptyQuery(PresetOpacities);
    PercentQuery();
    FiveQuery();
  }

  lemma PercentQuery()
    ensures OpacitySuggestions("%") == PresetOpacities
  {
    forall i | 0 <= i < |PresetOpacities|
      ensures Contains(PresetOpacities[i].name, "%")
    {
      ContainsChar(PresetOpacities[i].name, '%');
    }
    FilterByNameKeepsAll(PresetOpacities, "%");
  }

  lemma FiveQuery()
    ensures OpacitySuggestions("5") == [Named("50%", 0.5), Named("25%", 0.25), Named("75%", 0.75)]
  {
    var p := PresetOpacities;
    FiveQueryTail();
    ContainsChar("75%", '5');
    assert FilterByName(p[2..], "5") == [p[2]] by {
      assert p[2..][0] == p[2] && p[2..][1..] == p[3..];
    }
    ContainsChar("25%", '5');
    assert FilterByName(p[1..], "5") == [p[1], p[2]] by {
      assert p[1..][0] == p[1] && p[1..][1..] == p[2..];
    }
    ContainsChar("50%", '5');
  }

  lemma FiveQueryTail()
    ensures FilterByName(PresetOpacities[3..], "5") == []
  {
    var p := PresetOpacities;
    ContainsChar("10%", '5');
    assert FilterByName(p[4..], "5") == [] by {
      assert p[4..][0] == p[4] && p[4..][1..] == [];
    }
    ContainsChar("100%", '5');
    assert p[3..][0] == p[3] && p[3..][1..] == p[4..];
  }
}
