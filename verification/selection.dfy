/** The selection kept by the containers and images pages: a JavaScript `Set`
    of IDs, which iterates in insertion order, modelled as a sequence without
    repeats (src/app/page.tsx, src/app/images/page.tsx). */
module Selection {
  import opened Wrappers

  /** No ID occurs twice: what makes a sequence a `Set`. */
  predicate Distinct(s: seq<string>) {
    forall i, j :: 0 <= i < j < |s| ==> s[i] != s[j]
  }

  /** The position of the first occurrence of `x` in `s`. */
  function IndexIn(s: seq<string>, x: string): (i: nat)
    requires x in s
    ensures i < |s| && s[i] == x && x !in s[..i]
  {
    if s[0] == x then 0 else IndexIn(s[1..], x) + 1
  }

  /** `set.delete(x)`: drops `x`, keeping the order of the rest. */
  function Without(s: seq<string>, x: string): (r: seq<string>)
    ensures forall y :: y in r <==> y in s && y != x
    ensures Distinct(s) ==> Distinct(r)
    ensures x !in s ==> r == s
    ensures Distinct(s) && x in s ==> |r| == |s| - 1
    ensures Distinct(s) && x in s ==> r == s[..IndexIn(s, x)] + s[IndexIn(s, x) + 1..]
  {
    if |s| == 0 then []
    else if s[0] == x then
      var rest := Without(s[1..], x);
      if Distinct(s) then
        assert s[0] !in s[1..] by { assert forall j :: 1 <= j < |s| ==> s[0] != s[j]; }
        rest
      else rest
    else
      var rest := Without(s[1..], x);
      if Distinct(s) then
        assert s[0] !in s[1..] by { assert forall j :: 1 <= j < |s| ==> s[0] != s[j]; }
        DistinctCons(s[0], rest);
        WithoutInTail(s, x, rest);
        [s[0]] + rest
      else [s[0]] + rest
  }

  /** The step of `Without` past a head that is not the deleted ID. */
  lemma WithoutInTail(s: seq<string>, x: string, rest: seq<string>)
    requires |s| > 0 && s[0] != x
    requires x in s ==> rest == s[1..][..IndexIn(s[1..], x)] + s[1..][IndexIn(s[1..], x) + 1..]
    ensures x in s ==> [s[0]] + rest == s[..IndexIn(s, x)] + s[IndexIn(s, x) + 1..]
  {
    if x in s {
      var i := IndexIn(s[1..], x);
      assert IndexIn(s, x) == i + 1;
      assert [s[0]] + s[1..][..i] == s[..i + 1];
      assert s[1..][i + 1..] == s[i + 2..];
    }
  }

  /** Putting a new ID in front of a selection keeps it free of repeats. */
  lemma DistinctCons(x: string, s: seq<string>)
    requires x !in s && Distinct(s)
    ensures Distinct([x] + s)
  {
    var t := [x] + s;
    forall i, j | 0 <= i < j < |t|
      ensures t[i] != t[j]
    {
      if i > 0 {
        assert t[i] == s[i - 1] && t[j] == s[j - 1];
      } else {
        assert t[j] in s;
      }
    }
  }

  /** The toggle handlers of both pages (`toggleContainer`, `toggleImageSelection`):
      delete a present ID, or add an absent one at the end. */
  function Toggle(sel: seq<string>, id: string): (r: seq<string>)
    requires Distinct(sel)
    ensures Distinct(r)
    ensures id in r <==> id !in sel
    ensures forall x :: x != id ==> (x in r <==> x in sel)
    ensures id !in sel ==> r == sel + [id]
    ensures id in sel ==> exists i :: 0 <= i < |sel| && sel[i] == id && r == sel[..i] + sel[i + 1..]
    ensures |r| == if id in sel then |sel| - 1 else |sel| + 1
  {
    if id in sel then
      var i := IndexIn(sel, id);
      assert sel[i] == id && Without(sel, id) == sel[..i] + sel[i + 1..];
      Without(sel, id)
    else sel + [id]
  }

  /** Toggling the same ID twice gives back the same members. */
  lemma ToggleTwiceSameMembers(sel: seq<string>, id: string)
    requires Distinct(sel)
    ensures forall x :: x in Toggle(Toggle(sel, id), id) <==> x in sel
    ensures |Toggle(Toggle(sel, id), id)| == |sel|
  {
  }

  /** Toggling an unselected ID twice restores the selection exactly, order included. */
  lemma ToggleTwiceRestoresAbsent(sel: seq<string>, id: string)
    requires Distinct(sel) && id !in sel
    ensures Toggle(Toggle(sel, id), id) == sel
  {
    WithoutLast(sel, id);
  }

  /** Removing the element just appended gives back the original. */
  lemma {:induction false} WithoutLast(s: seq<string>, x: string)
    requires x !in s
    ensures Without(s + [x], x) == s
  {
    if |s| > 0 {
      assert (s + [x])[1..] == s[1..] + [x];
      WithoutLast(s[1..], x);
    }
  }

  /** Toggling a selected ID twice moves it to the end: insertion order is not restored. */
  lemma ToggleTwiceMovesToEnd()
    ensures Toggle(Toggle(["a", "b"], "a"), "a") == ["b", "a"]
  {
    assert Without(["a", "b"], "a") == ["b"];
  }

  /** `new Set(ids)`: each ID once, in order of first occurrence. */
  function Dedup(ids: seq<string>): (r: seq<string>)
    ensures Distinct(r)
    ensures forall x :: x in r <==> x in ids
    ensures |r| <= |ids|
  {
    if |ids| == 0 then []
    else
      var d := Dedup(ids[..|ids| - 1]);
      var x := ids[|ids| - 1];
      assert forall y :: y in ids <==> y in ids[..|ids| - 1] || y == x;
      if x in d then d else d + [x]
  }

  /** Building a `Set` from IDs that are already distinct keeps them all, in order. */
  lemma {:induction false} DedupOfDistinct(ids: seq<string>)
    requires Distinct(ids)
    ensures Dedup(ids) == ids
  {
    if |ids| > 0 {
      var init := ids[..|ids| - 1];
      DedupOfDistinct(init);
      assert ids[|ids| - 1] !in init;
      assert init + [ids[|ids| - 1]] == ids;
    }
  }

  /** The select-all handler of both pages: when the selection has as many members as there
      are items, clear it; otherwise select every item's ID. */
  function SelectAll(sel: seq<string>, ids: seq<string>): (r: seq<string>)
    ensures Distinct(r)
    ensures |sel| == |ids| ==> r == []
    ensures |sel| != |ids| ==> forall x :: x in r <==> x in ids
    ensures |sel| != |ids| && Distinct(ids) ==> r == ids
  {
    if |sel| == |ids| then []
    else
      if Distinct(ids) then DedupOfDistinct(ids); Dedup(ids) else Dedup(ids)
  }

  /** The rule compares sizes, not members: one stale ID against one different
      item reads as "everything selected" and clears. */
  lemma SelectAllComparesSizes()
    ensures SelectAll(["gone"], ["a"]) == []
  {
  }

  /** Pressing select-all twice over distinct IDs selects everything, then nothing. */
  lemma SelectAllTwice(sel: seq<string>, ids: seq<string>)
    requires Distinct(ids) && |sel| != |ids|
    ensures SelectAll(sel, ids) == ids
    ensures SelectAll(SelectAll(sel, ids), ids) == []
  {
  }

  /** `items.map(item => item.Id)`: the IDs of a page's items, in order. */
  function IdsOf<T>(items: seq<T>, id: T -> string): (ids: seq<string>)
    ensures |ids| == |items|
    ensures forall k :: 0 <= k < |ids| ==> ids[k] == id(items[k])
  {
    seq(|items|, k requires 0 <= k < |items| => id(items[k]))
  }

  /** The header of a list page: the select-all button and the bulk-action
      button, each with its text, or `None` when it is not rendered. */
  datatype Header = Header(selectAllText: Option<string>, bulkText: Option<string>, bulkDisabled: bool)

  /** Both buttons need items; the bulk button also needs a selection. The
      select-all button's text follows the same size test as its handler. The
      bulk button is disabled while `busy`: the containers page passes its
      action-loading flag, and the images page, whose bulk button has no
      `disabled` property, passes false. */
  function HeaderControls(sel: seq<string>, itemCount: nat, bulkText: string, busy: bool): (h: Header)
    ensures h.selectAllText.Some? <==> itemCount > 0
    ensures h.bulkText.Some? <==> itemCount > 0 && |sel| > 0
    ensures h.bulkText.Some? ==> h.bulkText.value == bulkText
    ensures h.bulkDisabled <==> h.bulkText.Some? && busy
    ensures h.selectAllText == Some("Deselect All") <==> itemCount > 0 && |sel| == itemCount
  {
    if itemCount == 0 then Header(None, None, false)
    else
      Header(Some(if |sel| == itemCount then "Deselect All" else "Select All"),
             if |sel| > 0 then Some(bulkText) else None,
             |sel| > 0 && busy)
  }

  /** "Deselect All" shows exactly when pressing the button empties the selection. */
  lemma SelectAllTextMatchesEffect(sel: seq<string>, ids: seq<string>, bulkText: string, busy: bool)
    requires |ids| > 0 && Distinct(ids)
    ensures HeaderControls(sel, |ids|, bulkText, busy).selectAllText == Some("Deselect All")
        <==> SelectAll(sel, ids) == []
  {
  }
}
