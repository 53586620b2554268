/** Filtering a list by a partial function, and how it reacts to appending and removing elements. */
module Collecting {
  import opened DramTypes
  import opened Wrappers

  /** The values f yields along s, in order. */
  function Collect<T, U>(s: seq<T>, f: T -> Option<U>): seq<U> {
    if s == [] then []
    else if f(s[0]).Some? then [f(s[0]).value] + Collect(s[1..], f)
    else Collect(s[1..], f)
  }

  function CollectOption<T, U>(o: Option<T>, f: T -> Option<U>): seq<U> {
    if o.Some? && f(o.value).Some? then [f(o.value).value] else []
  }

  lemma {:induction false} CollectConcat<T, U>(s: seq<T>, t: seq<T>, f: T -> Option<U>)
    ensures Collect(s + t, f) == Collect(s, f) + Collect(t, f)
  {
    if s == [] {
      assert s + t == t;
    } else {
      assert (s + t)[1..] == s[1..] + t;
      CollectConcat(s[1..], t, f);
    }
  }

  lemma CollectAppend<T, U>(s: seq<T>, x: T, f: T -> Option<U>)
    ensures Collect(s + [x], f) == Collect(s, f) + CollectOption(Some(x), f)
  {
    CollectConcat(s, [x], f);
    assert Collect([x], f) == CollectOption(Some(x), f) by {
      assert [x][1..] == [];
    }
  }

  lemma {:induction false} CollectNothing<T, U>(s: seq<T>, f: T -> Option<U>)
    requires forall k :: 0 <= k < |s| ==> f(s[k]).None?
    ensures Collect(s, f) == []
  {
    if s != [] {
      CollectNothing(s[1..], f);
    }
  }

  /** Removing an element that f skips, or the first one that it does not, takes it off the front. */
  lemma {:induction false} CollectRemove<T, U>(s: seq<T>, i: nat, f: T -> Option<U>)
    requires i < |s|
    requires f(s[i]).Some? ==> forall k :: 0 <= k < i ==> f(s[k]).None?
    ensures Collect(s, f) == CollectOption(Some(s[i]), f) + Collect(RemoveAt(s, i), f)
    decreases i
  {
    if i == 0 {
      assert RemoveAt(s, 0) == s[1..];
    } else {
      assert RemoveAt(s, i)[1..] == RemoveAt(s[1..], i - 1);
      CollectRemove(s[1..], i - 1, f);
    }
  }

  /** As above, with the skipped element in front of it removed as well. */
  lemma {:induction false} CollectRemovePair<T, U>(s: seq<T>, i: nat, f: T -> Option<U>)
    requires 0 < i < |s| && f(s[i - 1]).None?
    requires f(s[i]).Some? ==> forall k :: 0 <= k < i ==> f(s[k]).None?
    ensures Collect(s, f) == CollectOption(Some(s[i]), f) + Collect(RemovePairAt(s, i), f)
    decreases i
  {
    if i == 1 {
      CollectRemove(s[1..], 0, f);
      assert RemovePairAt(s, 1) == RemoveAt(s[1..], 0);
    } else {
      assert RemovePairAt(s, i)[1..] == RemovePairAt(s[1..], i - 1);
      CollectRemovePair(s[1..], i - 1, f);
    }
  }

  /** The first element that f does not skip, when there is one. */
  lemma {:induction false} CollectFirst<T, U>(s: seq<T>, f: T -> Option<U>)
    requires |Collect(s, f)| > 0
    ensures exists k :: 0 <= k < |s| && f(s[k]).Some?
  {
    if f(s[0]).None? {
      CollectFirst(s[1..], f);
      var k :| 0 <= k < |s[1..]| && f(s[1..][k]).Some?;
      assert f(s[k + 1]).Some?;
    }
  }
}
