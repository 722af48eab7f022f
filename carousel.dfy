/** The home page's card carousels. Each index list (bills, laws, amendments)
    names four of ten card slots; a paging step moves every index by four,
    around the ring of ten, and sorts the result. The bills and laws lists are
    rendered with chevrons that take these steps; the amendment list has a
    handler too, but nothing calls it and the list is never rendered. */
module Carousel {

  /** Number of card slots each list pages through. */
  const SlotCount: int := 10

  /** Cards visible at once. */
  const PageSize: int := 4

  /** The slots every list starts on. */
  const FirstPage: seq<int> := [0, 1, 2, 3]

  /** JavaScript's `a % b` on integers: truncating, so the remainder takes the
      sign of `a`. (`TimeFormat.JsRem` is the same operator on the real-valued
      times of the player; the slot indices here are integers.) */
  function JsRem(a: int, b: int): (r: int)
    requires b > 0
    ensures a >= 0 ==> 0 <= r < b && r == a % b
    ensures a < 0 ==> -b < r <= 0
  {
    if a >= 0 then a % b else -((-a) % b)
  }

  /** `(index + direction * 4 + 10) % 10`. Whenever the dividend is not
      negative (in particular for a slot and a direction of one step) this is
      the position four slots further round the ring of ten. */
  function Shift(index: int, direction: int): (slot: int)
    ensures index + direction * PageSize + SlotCount >= 0 ==>
      0 <= slot < SlotCount && slot == (index + direction * PageSize) % SlotCount
  {
    JsRem(index + direction * PageSize + SlotCount, SlotCount)
  }

  /** `visible.map(index => Shift(index, direction))`. */
  function ShiftAll(visible: seq<int>, direction: int): (r: seq<int>)
    ensures |r| == |visible|
    ensures forall i :: 0 <= i < |r| ==> r[i] == Shift(visible[i], direction)
  {
    if |visible| == 0 then [] else [Shift(visible[0], direction)] + ShiftAll(visible[1..], direction)
  }

  predicate Sorted(s: seq<int>) {
    forall i, j :: 0 <= i < j < |s| ==> s[i] <= s[j]
  }

  predicate InRange(s: seq<int>) {
    forall i :: 0 <= i < |s| ==> 0 <= s[i] < SlotCount
  }

  predicate NoDuplicates(s: seq<int>) {
    forall i, j :: 0 <= i < j < |s| ==> s[i] != s[j]
  }

  /** A valid page: four distinct slot indices in ascending order. */
  predicate IsPage(s: seq<int>) {
    |s| == PageSize && InRange(s) && Sorted(s) && NoDuplicates(s)
  }

  /** Places `x` before the first element not below it. */
  function Insert(x: int, s: seq<int>): seq<int> {
    if |s| == 0 then [x]
    else if x <= s[0] then [x] + s
    else [s[0]] + Insert(x, s[1..])
  }

  /** `sort((a, b) => a - b)`, as an insertion sort. */
  function SortAscending(s: seq<int>): seq<int> {
    if |s| == 0 then [] else Insert(s[0], SortAscending(s[1..]))
  }

  /** Inserting adds exactly the one element. */
  lemma {:induction false} InsertMultiset(x: int, s: seq<int>)
    ensures multiset(Insert(x, s)) == multiset(s) + multiset{x}
  {
    if |s| > 0 && x > s[0] {
      InsertMultiset(x, s[1..]);
      assert s == [s[0]] + s[1..];
    }
  }

  /** A bound below `x` and below every element of `s` stays below every
      element after the insertion. */
  lemma {:induction false} InsertLowerBound(x: int, s: seq<int>, lo: int)
    requires lo <= x && forall i :: 0 <= i < |s| ==> lo <= s[i]
    ensures |Insert(x, s)| == |s| + 1
    ensures forall k :: 0 <= k < |Insert(x, s)| ==> lo <= Insert(x, s)[k]
  {
    if |s| > 0 && x > s[0] {
      InsertLowerBound(x, s[1..], lo);
    }
  }

  /** Inserting into an ascending sequence keeps it ascending. */
  lemma {:induction false} InsertSorted(x: int, s: seq<int>)
    requires Sorted(s)
    ensures Sorted(Insert(x, s))
  {
    if |s| == 0 {
    } else if x <= s[0] {
      var r := [x] + s;
      forall i, j | 0 <= i < j < |r|
        ensures r[i] <= r[j]
      {
        if i > 0 {
          assert r[i] == s[i - 1] && r[j] == s[j - 1];
        } else {
          assert r[j] == s[j - 1];
        }
      }
    } else {
      var rest := Insert(x, s[1..]);
      var r := [s[0]] + rest;
      InsertSorted(x, s[1..]);
      InsertLowerBound(x, s[1..], s[0]);
      forall i, j | 0 <= i < j < |r|
        ensures r[i] <= r[j]
      {
        assert r[j] == rest[j - 1];
        if i > 0 {
          assert r[i] == rest[i - 1];
        }
      }
    }
  }

  /** The sort gives an ascending arrangement of the same elements. */
  lemma {:induction false} SortAscendingSpec(s: seq<int>)
    ensures Sorted(SortAscending(s))
    ensures multiset(SortAscending(s)) == multiset(s)
  {
    if |s| > 0 {
      SortAscendingSpec(s[1..]);
      InsertSorted(s[0], SortAscending(s[1..]));
      InsertMultiset(s[0], SortAscending(s[1..]));
      assert s == [s[0]] + s[1..];
    }
  }

  /** One paging step of `handleBillNavigation` (and of the law and amendment
      handlers): shift every index, then sort. */
  function PageStep(visible: seq<int>, direction: int): (page: seq<int>)
    ensures Sorted(page)
    ensures multiset(page) == multiset(ShiftAll(visible, direction))
  {
    SortAscendingSpec(ShiftAll(visible, direction));
    SortAscending(ShiftAll(visible, direction))
  }

  /** For a direction of one step left or right, the shift is a bijection of
      the ten slots: the opposite shift undoes it. */
  lemma ShiftInverse(index: int, direction: int)
    requires 0 <= index < SlotCount && (direction == -1 || direction == 1)
    ensures 0 <= Shift(index, direction) < SlotCount
    ensures Shift(Shift(index, direction), -direction) == index
  {
  }

  /** The shift maps distinct slots to distinct slots. */
  lemma ShiftInjective(i: int, j: int, direction: int)
    requires 0 <= i < SlotCount && 0 <= j < SlotCount && (direction == -1 || direction == 1)
    requires i != j
    ensures Shift(i, direction) != Shift(j, direction)
  {
    ShiftInverse(i, direction);
    ShiftInverse(j, direction);
  }

  /** One step keeps the length and every index within the ten slots, and
      gives the shifted indices in ascending order. */
  lemma PageStepSpec(visible: seq<int>, direction: int)
    requires InRange(visible) && (direction == -1 || direction == 1)
    ensures var r := PageStep(visible, direction);
      && |r| == |visible|
      && InRange(r)
      && Sorted(r)
      && multiset(r) == multiset(ShiftAll(visible, direction))
  {
    var shifted := ShiftAll(visible, direction);
    var r := PageStep(visible, direction);
    SortAscendingSpec(shifted);
    assert |r| == |multiset(r)| == |multiset(shifted)| == |visible|;
    forall k | 0 <= k < |r|
      ensures 0 <= r[k] < SlotCount
    {
      assert r[k] in multiset(shifted);
      var j :| 0 <= j < |shifted| && shifted[j] == r[k];
      ShiftInverse(visible[j], direction);
    }
  }

  lemma {:induction false} ShiftAllAppend(a: seq<int>, b: seq<int>, direction: int)
    ensures ShiftAll(a + b, direction) == ShiftAll(a, direction) + ShiftAll(b, direction)
  {
    var whole, parts := ShiftAll(a + b, direction), ShiftAll(a, direction) + ShiftAll(b, direction);
    forall k | 0 <= k < |whole|
      ensures whole[k] == parts[k]
    {
      if k < |a| {
        assert (a + b)[k] == a[k];
      } else {
        assert (a + b)[k] == b[k - |a|];
      }
    }
  }

  /** Taking one element out before mapping the shift takes its image out after. */
  lemma ShiftAllRemove(b: seq<int>, j: nat, direction: int)
    requires j < |b|
    ensures multiset(ShiftAll(b, direction))
      == multiset(ShiftAll(b[..j] + b[j + 1..], direction)) + multiset{Shift(b[j], direction)}
  {
    assert b == b[..j] + ([b[j]] + b[j + 1..]);
    ShiftAllAppend(b[..j], [b[j]] + b[j + 1..], direction);
    ShiftAllAppend([b[j]], b[j + 1..], direction);
    ShiftAllAppend(b[..j], b[j + 1..], direction);
  }

  /** Mapping the shift over two sequences with the same elements gives
      sequences with the same elements. */
  lemma {:induction false} ShiftAllMultiset(a: seq<int>, b: seq<int>, direction: int)
    requires multiset(a) == multiset(b)
    ensures multiset(ShiftAll(a, direction)) == multiset(ShiftAll(b, direction))
  {
    if |a| == 0 {
      assert |b| == |multiset(b)| == 0;
    } else {
      assert a == [a[0]] + a[1..];
      assert a[0] in multiset(b);
      var j :| 0 <= j < |b| && b[j] == a[0];
      var b' := b[..j] + b[j + 1..];
      assert b == b[..j] + [b[j]] + b[j + 1..];
      assert multiset(b) == multiset(b[..j]) + multiset{b[j]} + multiset(b[j + 1..]);
      assert multiset(b') == multiset(b) - multiset{a[0]};
      assert multiset(a[1..]) == multiset(a) - multiset{a[0]};
      ShiftAllMultiset(a[1..], b', direction);
      ShiftAllRemove(b, j, direction);
    }
  }

  /** The first element of an ascending sequence is its least. */
  lemma SortedHeadLeast(s: seq<int>, x: int)
    requires Sorted(s) && |s| > 0 && x in multiset(s)
    ensures s[0] <= x
  {
    var i :| 0 <= i < |s| && s[i] == x;
  }

  /** Two ascending sequences with the same elements are equal. */
  lemma {:induction false} SortedUnique(s: seq<int>, t: seq<int>)
    requires Sorted(s) && Sorted(t) && multiset(s) == multiset(t)
    ensures s == t
  {
    assert |s| == |multiset(s)| == |multiset(t)| == |t|;
    if |s| > 0 {
      SortedHeadLeast(s, t[0]);
      SortedHeadLeast(t, s[0]);
      assert s[0] == t[0];
      assert s == [s[0]] + s[1..] && t == [t[0]] + t[1..];
      assert multiset(s[1..]) == multiset(s) - multiset{s[0]};
      assert multiset(t[1..]) == multiset(t) - multiset{t[0]};
      SortedUnique(s[1..], t[1..]);
    }
  }

  /** Shifting every index one way and then the other gives the indices back. */
  lemma ShiftAllInverse(visible: seq<int>, direction: int)
    requires InRange(visible) && (direction == -1 || direction == 1)
    ensures ShiftAll(ShiftAll(visible, direction), -direction) == visible
  {
    var back := ShiftAll(ShiftAll(visible, direction), -direction);
    forall k | 0 <= k < |visible|
      ensures back[k] == visible[k]
    {
      ShiftInverse(visible[k], direction);
    }
  }

  /** A step right followed by a step left (or left then right) gives back
      the page it started from. */
  lemma PageStepRoundTrip(visible: seq<int>, direction: int)
    requires InRange(visible) && Sorted(visible) && (direction == -1 || direction == 1)
    ensures PageStep(PageStep(visible, direction), -direction) == visible
  {
    var shifted := ShiftAll(visible, direction);
    var page := PageStep(visible, direction);
    SortAscendingSpec(shifted);
    ShiftAllMultiset(page, shifted, -direction);
    ShiftAllInverse(visible, direction);
    PageStepIs(page, -direction, visible);
  }

  /** A sequence without repeats has each value at most once. */
  lemma {:induction false} NoDuplicatesCount(s: seq<int>, x: int)
    requires NoDuplicates(s)
    ensures multiset(s)[x] <= 1
  {
    if |s| > 0 {
      assert s == [s[0]] + s[1..];
      NoDuplicatesCount(s[1..], x);
      if s[0] == x {
        assert x !in s[1..];
      }
    }
  }

  /** A value at two positions occurs at least twice. */
  lemma CountRepeat(t: seq<int>, i: nat, j: nat)
    requires i < j < |t| && t[i] == t[j]
    ensures multiset(t)[t[i]] >= 2
  {
    assert t == t[..j] + t[j..];
    assert t[i] in multiset(t[..j]);
    assert t[j] in multiset(t[j..]);
  }

  /** A sequence in which every value occurs at most once has no repeats. */
  lemma CountNoDuplicates(t: seq<int>)
    requires forall x :: multiset(t)[x] <= 1
    ensures NoDuplicates(t)
  {
    forall i, j | 0 <= i < j < |t|
      ensures t[i] != t[j]
    {
      if t[i] == t[j] {
        CountRepeat(t, i, j);
      }
    }
  }

  /** Distinct visible indices stay distinct after a step. */
  lemma PageStepDistinct(visible: seq<int>, direction: int)
    requires InRange(visible) && NoDuplicates(visible) && (direction == -1 || direction == 1)
    ensures NoDuplicates(PageStep(visible, direction))
  {
    var shifted := ShiftAll(visible, direction);
    forall i, j | 0 <= i < j < |shifted|
      ensures shifted[i] != shifted[j]
    {
      ShiftInjective(visible[i], visible[j], direction);
    }
    SortAscendingSpec(shifted);
    forall x
      ensures multiset(PageStep(visible, direction))[x] <= 1
    {
      NoDuplicatesCount(shifted, x);
    }
    CountNoDuplicates(PageStep(visible, direction));
  }

  /** A step maps a page (four distinct ascending slots) to a page. */
  lemma PageStepKeepsPage(visible: seq<int>, direction: int)
    requires IsPage(visible) && (direction == -1 || direction == 1)
    ensures IsPage(PageStep(visible, direction))
  {
    PageStepSpec(visible, direction);
    PageStepDistinct(visible, direction);
  }

  /** A step's result is determined by its elements: any ascending arrangement
      of the shifted indices is it. */
  lemma PageStepIs(visible: seq<int>, direction: int, expected: seq<int>)
    requires Sorted(expected)
    requires multiset(expected) == multiset(ShiftAll(visible, direction))
    ensures PageStep(visible, direction) == expected
  {
    SortAscendingSpec(ShiftAll(visible, direction));
    SortedUnique(PageStep(visible, direction), expected);
  }

  /** From the first page a step right shows slots 4..7. */
  lemma FirstPageRight()
    ensures PageStep(FirstPage, 1) == [4, 5, 6, 7]
  {
    assert ShiftAll(FirstPage, 1) == [4, 5, 6, 7] by {
      assert Shift(0, 1) == 4 && Shift(1, 1) == 5 && Shift(2, 1) == 6 && Shift(3, 1) == 7;
    }
    PageStepIs(FirstPage, 1, [4, 5, 6, 7]);
  }

  /** A second step right wraps around: slots 0, 1, 8 and 9. */
  lemma SecondPageRight()
    ensures PageStep(PageStep(FirstPage, 1), 1) == [0, 1, 8, 9]
  {
    FirstPageRight();
    StepRightFromSecondPage(PageStep(FirstPage, 1));
  }

  /** From slots 4..7 a step right wraps around to slots 0, 1, 8 and 9. */
  lemma StepRightFromSecondPage(second: seq<int>)
    requires second == [4, 5, 6, 7]
    ensures PageStep(second, 1) == [0, 1, 8, 9]
  {
    assert ShiftAll(second, 1) == [8, 9, 0, 1] by {
      assert Shift(4, 1) == 8 && Shift(5, 1) == 9 && Shift(6, 1) == 0 && Shift(7, 1) == 1;
    }
    var shifted: seq<int> := [8, 9, 0, 1];
    assert SortAscending(shifted[3..]) == [1];
    assert SortAscending(shifted[2..]) == Insert(0, [1]) == [0, 1];
    assert SortAscending(shifted[1..]) == Insert(9, [0, 1]) == [0, 1, 9];
    assert SortAscending(shifted) == Insert(8, [0, 1, 9]) == [0, 1, 8, 9];
  }

  /** From the first page a step left shows slots 6..9. */
  lemma FirstPageLeft()
    ensures PageStep(FirstPage, -1) == [6, 7, 8, 9]
  {
    assert ShiftAll(FirstPage, -1) == [6, 7, 8, 9] by {
      assert Shift(0, -1) == 6 && Shift(1, -1) == 7 && Shift(2, -1) == 8 && Shift(3, -1) == 9;
    }
    PageStepIs(FirstPage, -1, [6, 7, 8, 9]);
  }

  /** The home page's three index lists. */
  class HomePage {
    var visibleBills: seq<int>
    var visibleLaws: seq<int>
    var visibleAmendments: seq<int>

    ghost predicate Valid()
      reads this
    {
      IsPage(visibleBills) && IsPage(visibleLaws) && IsPage(visibleAmendments)
    }

    /** Every list starts on slots 0..3. */
    constructor ()
      ensures Valid()
      ensures visibleBills == FirstPage && visibleLaws == FirstPage && visibleAmendments == FirstPage
    {
      visibleBills := FirstPage;
      visibleLaws := FirstPage;
      visibleAmendments := FirstPage;
    }

    /** `handleBillNavigation(direction)`, called by the bills chevrons with
        -1 or 1. */
    method HandleBillNavigation(direction: int)
      requires Valid() && (direction == -1 || direction == 1)
      modifies this
      ensures Valid()
      ensures visibleBills == PageStep(old(visibleBills), direction)
      ensures visibleLaws == old(visibleLaws) && visibleAmendments == old(visibleAmendments)
    {
      PageStepKeepsPage(visibleBills, direction);
      visibleBills := PageStep(visibleBills, direction);
    }

    /** `handleLawNavigation(direction)`, called by the laws chevrons with
        -1 or 1. */
    method HandleLawNavigation(direction: int)
      requires Valid() && (direction == -1 || direction == 1)
      modifies this
      ensures Valid()
      ensures visibleLaws == PageStep(old(visibleLaws), direction)
      ensures visibleBills == old(visibleBills) && visibleAmendments == old(visibleAmendments)
    {
      PageStepKeepsPage(visibleLaws, direction);
      visibleLaws := PageStep(visibleLaws, direction);
    }

    /** `handleAmendmentNavigation(direction)`. Nothing calls it; it is held
        to the same directions as the other two handlers. */
    method HandleAmendmentNavigation(direction: int)
      requires Valid() && (direction == -1 || direction == 1)
      modifies this
      ensures Valid()
      ensures visibleAmendments == PageStep(old(visibleAmendments), direction)
      ensures visibleBills == old(visibleBills) && visibleLaws == old(visibleLaws)
    {
      PageStepKeepsPage(visibleAmendments, direction);
      visibleAmendments := PageStep(visibleAmendments, direction);
    }
  }
}
