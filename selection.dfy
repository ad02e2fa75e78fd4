/**
 * The checkbox toggle of a facet selection (`toggleSelection` on the page and the `onChange`
 * updater of `FilterSection`) and the `checked` test.
 */
module Selection {
  import opened JsArray

  /**
   * The checkbox updater (FilterSection.tsx, lines 22-26): a selected option is removed, every
   * occurrence of it, and an unselected one is appended at the end.
   */
  function Toggle(prev: seq<string>, option: string): seq<string> {
    if Includes(prev, option) then Filter(prev, item => item != option) else prev + [option]
  }

  /** Whether an option's checkbox is ticked: the selection contains it (FilterSection.tsx, line 20). */
  function Checked(selected: seq<string>, option: string): (b: bool)
    ensures b <==> option in selected
  {
    Includes(selected, option)
  }

  /** Toggling an unselected option appends it and leaves the earlier elements as they were. */
  lemma ToggleAbsentAppends(prev: seq<string>, option: string)
    requires option !in prev
    ensures var r := Toggle(prev, option);
      |r| == |prev| + 1 && r[..|prev|] == prev && r[|prev|] == option
  {
    var r := Toggle(prev, option);
    assert r == prev + [option];
    assert r[..|prev|] == prev;
  }

  /**
   * Toggling a selected option removes every occurrence of it and keeps every other element,
   * as often as before and in the same relative order.
   */
  lemma TogglePresentRemovesAll(prev: seq<string>, option: string)
    requires option in prev
    ensures var r := Toggle(prev, option);
      option !in r && Subsequence(r, prev) &&
      forall x :: x != option ==> multiset(r)[x] == multiset(prev)[x]
  {
    var p := item => item != option;
    FilterSubsequence(prev, p);
    forall x | x != option ensures multiset(Toggle(prev, option))[x] == multiset(prev)[x] {
      FilterCount(prev, p, x);
    }
  }

  /** Toggling an unselected option twice gives back the original selection. */
  lemma ToggleTwiceRestores(prev: seq<string>, option: string)
    requires option !in prev
    ensures Toggle(Toggle(prev, option), option) == prev
  {
    var p := item => item != option;
    var once := prev + [option];
    assert Toggle(prev, option) == once;
    assert option in once;
    FilterAppend(prev, [option], p);
    FilterAll(prev, p);
    assert Filter([option], p) == [];
  }

  /** A selection without duplicates stays without duplicates. */
  lemma ToggleKeepsNoDuplicates(prev: seq<string>, option: string)
    requires NoDuplicates(prev)
    ensures NoDuplicates(Toggle(prev, option))
  {
    if option in prev {
      FilterNoDuplicates(prev, item => item != option);
    } else {
      var r := prev + [option];
      forall i, j | 0 <= i < j < |r| ensures r[i] != r[j] {
        assert r[i] == prev[i];
        if j < |prev| {
          assert r[j] == prev[j];
        }
      }
    }
  }

  /** A toggle flips the membership of its option and preserves that of every other value. */
  lemma ToggleFlipsMembership(prev: seq<string>, option: string, x: string)
    ensures x in Toggle(prev, option) <==> (if x == option then x !in prev else x in prev)
  {
  }

  /** After a toggle the option's checkbox shows the opposite state and every other checkbox is unchanged. */
  lemma CheckedAfterToggle(selected: seq<string>, option: string, other: string)
    ensures Checked(Toggle(selected, option), option) == !Checked(selected, option)
    ensures other != option ==> Checked(Toggle(selected, option), other) == Checked(selected, other)
  {
    ToggleFlipsMembership(selected, option, option);
    ToggleFlipsMembership(selected, option, other);
  }
}
