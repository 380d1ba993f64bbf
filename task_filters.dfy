/**
 * The filter panel above the calendar: a search box and status/priority
 * chips. Selecting a chip adds its value to the list, selecting it again
 * takes it out, and every change is reported to the page.
 */
module TaskFilters {
  import opened Seqs

  /** The filters the page applies: selected status and priority values, and the search text. */
  datatype Filters = Filters(status: seq<string>, priority: seq<string>, search: string)

  /** Which field `handleFilterChange` is asked to change. */
  datatype FilterKind = StatusKind | PriorityKind | SearchKind

  ghost predicate NoDuplicates(s: seq<string>)
  {
    forall i, j :: 0 <= i < j < |s| ==> s[i] != s[j]
  }

  function Equals(value: string): string -> bool
  {
    (x: string) => x == value
  }

  /** `list.indexOf(value)`: the first position holding `value`, or -1. */
  function IndexOf(list: seq<string>, value: string): (i: int)
    ensures -1 <= i < |list|
    ensures i == -1 <==> value !in list
    ensures i >= 0 ==> list[i] == value && value !in list[..i]
  {
    var i := FindIndex(list, Equals(value));
    assert i >= 0 ==> forall j :: 0 <= j < i ==> list[..i][j] == list[j];
    i
  }

  /**
   * The chip toggle (`push` when absent, `splice(index, 1)` when present):
   * an absent value is appended, a present one loses its first occurrence.
   */
  function Toggle(list: seq<string>, value: string): (r: seq<string>)
    ensures value !in list ==> r == list + [value]
    ensures value in list ==> r == RemoveIndex(list, IndexOf(list, value))
  {
    var i := IndexOf(list, value);
    if i == -1 then list + [value] else list[..i] + list[i + 1..]
  }

  /** On a list without repeats, a toggle flips the membership of `value` and of nothing else. */
  lemma {:induction false} ToggleFlipsMembership(list: seq<string>, value: string, other: string)
    requires NoDuplicates(list)
    ensures value in Toggle(list, value) <==> value !in list
    ensures other != value ==> (other in Toggle(list, value) <==> other in list)
  {
    if value in list {
      var i := IndexOf(list, value);
      var r := Toggle(list, value);
      assert list == list[..i] + [list[i]] + list[i + 1..];
      forall k | 0 <= k < |r| ensures r[k] != value {
        if k < i {
          assert r[k] == list[k];
        } else {
          assert r[k] == list[k + 1];
        }
      }
    }
  }

  /** A toggle adds one entry for an absent value and takes one away for a present value. */
  lemma ToggleLength(list: seq<string>, value: string)
    ensures value !in list ==> |Toggle(list, value)| == |list| + 1
    ensures value in list ==> |Toggle(list, value)| == |list| - 1
  {
  }

  /** A toggle never introduces a repeat. */
  lemma {:induction false} ToggleKeepsNoDuplicates(list: seq<string>, value: string)
    requires NoDuplicates(list)
    ensures NoDuplicates(Toggle(list, value))
  {
    var r := Toggle(list, value);
    if value in list {
      var i := IndexOf(list, value);
      forall a, b | 0 <= a < b < |r| ensures r[a] != r[b] {
        var a', b' := if a < i then a else a + 1, if b < i then b else b + 1;
        assert r[a] == list[a'] && r[b] == list[b'] && a' < b';
      }
    }
  }

  /** Selecting a chip that was not selected and then selecting it again restores the list. */
  lemma {:induction false} ToggleTwiceFromAbsent(list: seq<string>, value: string)
    requires value !in list
    ensures Toggle(Toggle(list, value), value) == list
  {
    var once := list + [value];
    assert IndexOf(once, value) == |list| by {
      assert once[|list|] == value;
      assert once[..|list|] == list;
    }
    RemoveIndexLast(list, value);
  }

  /**
   * Deselecting and reselecting a chip restores the selection as a set on a
   * list without repeats: the value comes back, at the end of the list.
   */
  lemma {:induction false} ToggleTwiceFromPresent(list: seq<string>, value: string)
    requires NoDuplicates(list) && value in list
    ensures Toggle(Toggle(list, value), value) == RemoveIndex(list, IndexOf(list, value)) + [value]
    ensures multiset(Toggle(Toggle(list, value), value)) == multiset(list)
  {
    var i := IndexOf(list, value);
    var once := list[..i] + list[i + 1..];
    assert Toggle(list, value) == once;
    ToggleFlipsMembership(list, value, value);
    assert Toggle(once, value) == once + [value];
    RemoveIndexMultiset(list, i);
  }

  /** The order does change: deselecting and reselecting the first of two chips moves it last. */
  lemma ToggleTwiceReorders()
    ensures Toggle(Toggle(["TODO", "DONE"], "TODO"), "TODO") == ["DONE", "TODO"]
  {
    var list := ["TODO", "DONE"];
    assert IndexOf(list, "TODO") == 0 by { assert list[0] == "TODO"; }
    assert "TODO" !in ["DONE"];
  }

  /**
   * The chip branch of `handleFilterChange` on the chosen list: `push` the
   * value when `indexOf` finds nothing, otherwise `splice` it out.
   */
  method PushOrSplice(list: seq<string>, value: string) returns (r: seq<string>)
    ensures r == Toggle(list, value)
  {
    var index := IndexOf(list, value);
    if index == -1 {
      r := list + [value];
    } else {
      r := list[..index] + list[index + 1..];
    }
  }

  /** The panel's state: the chosen filters and whether the chips are shown. */
  class FilterPanel {
    var status: seq<string>
    var priority: seq<string>
    var search: string
    var isExpanded: bool

    ghost predicate Valid()
      reads this
    {
      NoDuplicates(status) && NoDuplicates(priority)
    }

    constructor ()
      ensures status == [] && priority == [] && search == "" && !isExpanded
      ensures Valid()
    {
      status, priority, search, isExpanded := [], [], "", false;
    }

    function Current(): Filters
      reads this
    {
      Filters(status, priority, search)
    }

    /**
     * `handleFilterChange`: the search text is replaced, or the chip value is
     * toggled in its own list; the other fields stay as they were, and the
     * new filters are reported.
     */
    method ChangeFilter(kind: FilterKind, value: string) returns (reported: Filters)
      modifies this
      ensures kind == SearchKind ==> search == value && status == old(status) && priority == old(priority)
      ensures kind == StatusKind ==>
        status == Toggle(old(status), value) && priority == old(priority) && search == old(search)
      ensures kind == PriorityKind ==>
        priority == Toggle(old(priority), value) && status == old(status) && search == old(search)
      ensures isExpanded == old(isExpanded)
      ensures reported == Current()
      ensures old(Valid()) ==> Valid()
      ensures kind == SearchKind ==> BadgeCount() == old(BadgeCount())
      ensures kind == StatusKind ==>
        BadgeCount() == if value in old(status) then old(BadgeCount()) - 1 else old(BadgeCount()) + 1
      ensures kind == PriorityKind ==>
        BadgeCount() == if value in old(priority) then old(BadgeCount()) - 1 else old(BadgeCount()) + 1
    {
      match kind {
        case SearchKind =>
          search := value;
        case StatusKind =>
          if old(Valid()) { ToggleKeepsNoDuplicates(status, value); }
          ToggleLength(status, value);
          status := PushOrSplice(status, value);
        case PriorityKind =>
          if old(Valid()) { ToggleKeepsNoDuplicates(priority, value); }
          ToggleLength(priority, value);
          priority := PushOrSplice(priority, value);
      }
      reported := Current();
    }

    /** `clearFilters`: nothing selected and no search text, and that is reported. */
    method ClearFilters() returns (reported: Filters)
      modifies this
      ensures status == [] && priority == [] && search == ""
      ensures isExpanded == old(isExpanded)
      ensures reported == Current() && Valid()
      ensures BadgeCount() == 0 && !ShowsClear()
    {
      status, priority, search := [], [], "";
      reported := Current();
    }

    /** The Filters button shows or hides the chips. */
    method ToggleExpanded()
      modifies this
      ensures isExpanded == !old(isExpanded)
      ensures status == old(status) && priority == old(priority) && search == old(search)
    {
      isExpanded := !isExpanded;
    }

    /** The number on the Filters button: how many chips are selected. */
    function BadgeCount(): nat
      reads this
    {
      |status| + |priority|
    }

    /** Whether the badge and the Clear Filters button show: exactly when a chip is selected. */
    predicate ShowsClear()
      reads this
      ensures ShowsClear() <==> BadgeCount() > 0
    {
      |status| > 0 || |priority| > 0
    }
  }
}
