/**
 The product comparison list: clicking a product's compare button toggles
 its id in a list of at most four ids, and a counter on the page shows the
 list's length after every click.
 */
module Comparison {

  /** Most products the list may hold. */
  const MaxCompare: nat := 4

  /** Which branch a click took; `Rejected` is the "at most 4 products" alert. */
  datatype Outcome = Removed | Added | Rejected(limit: nat)

  /** The counter element: missing from the page, or showing a number. */
  datatype Counter = NoCounter | Shows(n: nat)

  /** The list of selected ids, in selection order, and the counter. */
  datatype Selection<Id> = Selection(ids: seq<Id>, counter: Counter)

  predicate NoDuplicates<T(==)>(s: seq<T>) {
    forall i, j :: 0 <= i < j < |s| ==> s[i] != s[j]
  }

  /** What every click keeps: at most four ids, none twice, and the counter showing the length. */
  predicate Valid<Id(==)>(sel: Selection<Id>) {
    && |sel.ids| <= MaxCompare
    && NoDuplicates(sel.ids)
    && (sel.counter.Shows? ==> sel.counter.n == |sel.ids|)
  }

  /** The page as loaded: an empty list, and the counter (when the page has one) taken to show 0. */
  function Initial<Id(==)>(hasCounter: bool): (sel: Selection<Id>)
    ensures sel.ids == []
    ensures sel.counter.Shows? <==> hasCounter
    ensures Valid(sel)
  {
    Selection([], if hasCounter then Shows(0) else NoCounter)
  }

  /** `indexOf`: position of the first occurrence. */
  function IndexOf<T(==)>(s: seq<T>, x: T): (k: nat)
    requires x in s
    ensures k < |s| && s[k] == x
    ensures forall j :: 0 <= j < k ==> s[j] != x
  {
    if s[0] == x then 0 else 1 + IndexOf(s[1..], x)
  }

  /** `splice(k, 1)`: drops the element at position `k`. */
  function RemoveAt<T>(s: seq<T>, k: nat): (r: seq<T>)
    requires k < |s|
    ensures |r| == |s| - 1
    ensures forall j :: 0 <= j < k ==> r[j] == s[j]
    ensures forall j :: k <= j < |r| ==> r[j] == s[j + 1]
  {
    s[..k] + s[k + 1..]
  }

  /** The list part of a click. */
  function ToggleIds<Id(==)>(ids: seq<Id>, id: Id): (r: (seq<Id>, Outcome))
    ensures id in ids ==> r.1 == Removed && |r.0| == |ids| - 1 && multiset(r.0) == multiset(ids) - multiset{id}
    ensures id !in ids && |ids| < MaxCompare ==> r.1 == Added && |r.0| == |ids| + 1 && r.0[..|ids|] == ids && r.0[|ids|] == id
    ensures id !in ids && |ids| >= MaxCompare ==> r.1 == Rejected(MaxCompare) && r.0 == ids
  {
    if id in ids then
      var k := IndexOf(ids, id);
      assert ids == ids[..k] + [ids[k]] + ids[k + 1..];
      (RemoveAt(ids, k), Removed)
    else if |ids| < MaxCompare then
      (ids + [id], Added)
    else
      (ids, Rejected(MaxCompare))
  }

  /** One click on the compare button of product `id`, followed by the counter refresh. */
  function Click<Id(==)>(sel: Selection<Id>, id: Id): (r: (Selection<Id>, Outcome))
    ensures r.0.ids == ToggleIds(sel.ids, id).0 && r.1 == ToggleIds(sel.ids, id).1
    ensures r.0.counter.Shows? <==> sel.counter.Shows?
    ensures r.0.counter.Shows? ==> r.0.counter.n == |r.0.ids|
  {
    var (ids, outcome) := ToggleIds(sel.ids, id);
    var counter := if sel.counter.Shows? then Shows(|ids|) else NoCounter;
    (Selection(ids, counter), outcome)
  }

  /** Clicks applied in order. */
  function Run<Id(==)>(sel: Selection<Id>, clicks: seq<Id>): Selection<Id>
    decreases |clicks|
  {
    if |clicks| == 0 then sel else Run(Click(sel, clicks[0]).0, clicks[1..])
  }

  // ---------------------------------------------------------------------
  // Reference definition and lemmas.

  /** Every element other than `x`, in order. */
  function Without<T(==)>(s: seq<T>, x: T): (r: seq<T>)
    ensures x !in r
  {
    if |s| == 0 then [] else (if s[0] == x then [] else [s[0]]) + Without(s[1..], x)
  }

  lemma {:induction false} WithoutAbsent<T>(s: seq<T>, x: T)
    requires x !in s
    ensures Without(s, x) == s
    decreases |s|
  {
    if |s| > 0 {
      WithoutAbsent(s[1..], x);
    }
  }

  lemma {:induction false} WithoutAppend<T>(a: seq<T>, b: seq<T>, x: T)
    ensures Without(a + b, x) == Without(a, x) + Without(b, x)
    decreases |a|
  {
    if |a| > 0 {
      assert (a + b)[1..] == a[1..] + b;
      WithoutAppend(a[1..], b, x);
    } else {
      assert a + b == b;
    }
  }

  /**
   Toggling a held id removes exactly that id and keeps the others in their
   original order.
   */
  lemma {:induction false} RemoveKeepsOrder<Id>(ids: seq<Id>, id: Id)
    requires NoDuplicates(ids) && id in ids
    ensures ToggleIds(ids, id).0 == Without(ids, id)
    ensures ToggleIds(ids, id).1 == Removed
  {
    var k := IndexOf(ids, id);
    assert ids == ids[..k] + [id] + ids[k + 1..];
    assert id !in ids[..k];
    assert id !in ids[k + 1..] by {
      forall j | k + 1 <= j < |ids|
        ensures ids[j] != id
      {
        assert ids[k] != ids[j];
      }
    }
    WithoutAbsent(ids[..k], id);
    WithoutAbsent(ids[k + 1..], id);
    WithoutAppend(ids[..k] + [id], ids[k + 1..], id);
    WithoutAppend(ids[..k], [id], id);
  }

  /** Every click keeps the list short, duplicate-free and mirrored by the counter. */
  lemma ClickPreservesValid<Id>(sel: Selection<Id>, id: Id)
    requires Valid(sel)
    ensures Valid(Click(sel, id).0)
  {
    var r := Click(sel, id).0;
    if id in sel.ids {
      RemoveKeepsOrder(sel.ids, id);
      WithoutSubsequence(sel.ids, id);
    } else if |sel.ids| < MaxCompare {
      assert r.ids == sel.ids + [id];
    }
  }

  /** Elements of `Without(s, x)` appear in `s` in the same relative order, so no duplicates appear. */
  lemma {:induction false} WithoutSubsequence<T>(s: seq<T>, x: T)
    requires NoDuplicates(s)
    ensures NoDuplicates(Without(s, x))
    ensures forall y :: y in Without(s, x) ==> y in s
    decreases |s|
  {
    if |s| > 0 {
      WithoutSubsequence(s[1..], x);
      var rest := Without(s[1..], x);
      assert s[0] !in s[1..] by {
        forall j | 1 <= j < |s|
          ensures s[j] != s[0]
        {
          assert s[0] != s[j];
        }
      }
      if s[0] != x {
        assert Without(s, x) == [s[0]] + rest;
        assert s[0] !in rest;
      } else {
        assert Without(s, x) == rest;
      }
    }
  }

  /** Any sequence of clicks from the loaded page keeps the invariant. */
  lemma {:induction false} RunPreservesValid<Id>(sel: Selection<Id>, clicks: seq<Id>)
    requires Valid(sel)
    ensures Valid(Run(sel, clicks))
    decreases |clicks|
  {
    if |clicks| > 0 {
      ClickPreservesValid(sel, clicks[0]);
      RunPreservesValid(Click(sel, clicks[0]).0, clicks[1..]);
    }
  }

  lemma InitialValid<Id>(hasCounter: bool)
    ensures Valid(Initial<Id>(hasCounter))
  {
  }

  /** Selecting a product and then deselecting it restores the list as it was. */
  lemma AddThenRemove<Id>(ids: seq<Id>, id: Id)
    requires NoDuplicates(ids) && id !in ids && |ids| < MaxCompare
    ensures ToggleIds(ToggleIds(ids, id).0, id).0 == ids
  {
    var added := ids + [id];
    assert ToggleIds(ids, id).0 == added;
    assert NoDuplicates(added);
    RemoveKeepsOrder(added, id);
    WithoutAppend(ids, [id], id);
    WithoutAbsent(ids, id);
  }

  /** A fifth distinct product is refused and the list and counter stay as they are. */
  lemma FifthIsRejected<Id>(sel: Selection<Id>, id: Id)
    requires Valid(sel) && |sel.ids| == MaxCompare && id !in sel.ids
    ensures Click(sel, id).0 == sel
    ensures Click(sel, id).1 == Rejected(4)
  {
  }
}
