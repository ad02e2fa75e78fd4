/**
 * Facet extraction: the values offered as checkboxes for collection, year and designer
 * (`uniqueCollections`, `uniqueYears`, `uniqueDesigners`).
 */
module Facets {
  import opened Wrappers
  import opened JsString
  import opened JsArray
  import opened Nft

  /** The facet value filter's test: the field is present and is not blank after trimming (page.tsx, lines 86-88). */
  predicate Selectable(v: Option<string>) {
    v.Some? && Trim(v.value) != ""
  }

  /** A facet value is selectable exactly when it is present and not all white space. */
  lemma SelectableIff(v: Option<string>)
    ensures Selectable(v) <==> v.Some? && !AllWhitespace(v.value)
  {
    if v.Some? {
      TrimEmptyIff(v.value);
    }
  }

  /** Each asset's value of facet `f`, in asset order (page.tsx, line 85). */
  function Fields(assets: seq<NFTDetail>, f: Facet): (os: seq<Option<string>>)
    ensures |os| == |assets| && forall i :: 0 <= i < |os| ==> os[i] == FieldOf(assets[i], f)
  {
    seq(|assets|, i requires 0 <= i < |assets| => FieldOf(assets[i], f))
  }

  /** The present, non-blank values of facet `f`, in asset order; the type guard leaves plain strings (page.tsx, lines 84-88). */
  function Values(assets: seq<NFTDetail>, f: Facet): (vs: seq<string>)
    ensures forall i :: 0 <= i < |vs| ==> Trim(vs[i]) != ""
  {
    var kept := Filter(Fields(assets, f), Selectable);
    FilterKeeps(Fields(assets, f), Selectable);
    seq(|kept|, i requires 0 <= i < |kept| => kept[i].value)
  }

  lemma ValuesMembership(assets: seq<NFTDetail>, f: Facet, v: string)
    ensures v in Values(assets, f) <==> Trim(v) != "" && Some(v) in Fields(assets, f)
  {
    var kept := Filter(Fields(assets, f), Selectable);
    var vs := Values(assets, f);
    if v in vs {
      var i :| 0 <= i < |vs| && vs[i] == v;
      assert kept[i] in kept;
    }
    if Trim(v) != "" && Some(v) in Fields(assets, f) {
      assert Some(v) in kept;
      var i :| 0 <= i < |kept| && kept[i] == Some(v);
      assert vs[i] == v;
    }
  }

  /** The facet list: the distinct values of facet `f`, in first-occurrence order (page.tsx, lines 81-91). */
  function UniqueValues(assets: seq<NFTDetail>, f: Facet): (r: seq<string>)
    ensures NoDuplicates(r)
    ensures forall i :: 0 <= i < |r| ==> Trim(r[i]) != ""
  {
    var vs := Values(assets, f);
    var r := Distinct(vs);
    assert forall i :: 0 <= i < |r| ==> r[i] in vs;
    r
  }

  /**
   * A value is offered exactly when it is not blank and some asset carries it: absent, empty
   * and white-space-only fields contribute nothing.
   */
  lemma UniqueValuesMembership(assets: seq<NFTDetail>, f: Facet, v: string)
    ensures v in UniqueValues(assets, f) <==>
      !AllWhitespace(v) && exists i :: 0 <= i < |assets| && FieldOf(assets[i], f) == Some(v)
  {
    ValuesMembership(assets, f, v);
    TrimEmptyIff(v);
    var os := Fields(assets, f);
    if Some(v) in os {
      var i :| 0 <= i < |os| && os[i] == Some(v);
      assert FieldOf(assets[i], f) == Some(v);
    }
    if exists i :: 0 <= i < |assets| && FieldOf(assets[i], f) == Some(v) {
      var i :| 0 <= i < |assets| && FieldOf(assets[i], f) == Some(v);
      assert os[i] == Some(v);
    }
  }

  /** The facet lists its values in the order in which they first occur among the assets' values. */
  lemma UniqueValuesFirstOccurrenceOrder(assets: seq<NFTDetail>, f: Facet)
    ensures var r, vs := UniqueValues(assets, f), Values(assets, f);
      forall i, j :: 0 <= i < j < |r| ==> r[i] in vs && r[j] in vs && FirstIndex(vs, r[i]) < FirstIndex(vs, r[j])
  {
    var vs := Values(assets, f);
    var r := Distinct(vs);
    assert forall i :: 0 <= i < |r| ==> r[i] in vs;
    DistinctFirstOccurrenceOrder(vs);
  }
}
