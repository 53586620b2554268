/** The checkpoint upgrader: missing version tags are applied one by one, each after the tags it depends on. */
module CheckpointUpgrade {
  import opened Wrappers

  type Tag = string

  datatype Upgrader = Upgrader(tag: Tag, depends: seq<Tag>)

  /** Every upgrader that was loaded, by its tag. */
  type Registry = r: map<Tag, Upgrader> | forall t :: t in r ==> r[t].tag == t witness map[]

  predicate IsReady(u: Upgrader, tags: set<Tag>) {
    forall d :: d in u.depends ==> d in tags
  }

  /** Applying the tags in this order meets every dependency: it is in the checkpoint or applied earlier. */
  predicate Respects(registry: Registry, tags: set<Tag>, order: seq<Tag>) {
    forall i :: 0 <= i < |order| ==>
      order[i] in registry && IsReady(registry[order[i]], tags + Elements(order[..i]))
  }

  function Elements(s: seq<Tag>): set<Tag> {
    set t | t in s
  }

  predicate Distinct(s: seq<Tag>) {
    forall i, j :: 0 <= i < j < |s| ==> s[i] != s[j]
  }

  /** An order that applies exactly the missing tags, each once and after its dependencies. */
  ghost predicate Resolves(registry: Registry, tags: set<Tag>, order: seq<Tag>) {
    Distinct(order) && Elements(order) == registry.Keys - tags && Respects(registry, tags, order)
  }

  /** Missing tags none of which can come first among them: each needs another of them or a tag nobody can supply. */
  ghost predicate Deadlocked(registry: Registry, tags: set<Tag>, stuck: set<Tag>) {
    && stuck != {} && stuck <= registry.Keys - tags
    && forall t :: t in stuck ==>
         exists d :: d in registry[t].depends && (d in stuck || (d !in tags && d !in registry))
  }

  // ---- Orders ----

  lemma ElementsSnoc(s: seq<Tag>, t: Tag)
    ensures Elements(s + [t]) == Elements(s) + {t}
  {
  }

  lemma RespectsSnoc(registry: Registry, tags: set<Tag>, order: seq<Tag>, t: Tag)
    requires Respects(registry, tags, order)
    requires t in registry && IsReady(registry[t], tags + Elements(order))
    ensures Respects(registry, tags, order + [t])
  {
    forall i | 0 <= i < |order| + 1
      ensures (order + [t])[i] in registry
        && IsReady(registry[(order + [t])[i]], tags + Elements((order + [t])[..i]))
    {
      assert (order + [t])[..i] == order[..i];
      assert order[..|order|] == order;
    }
  }

  /** Tags that block one another are never reached by an order that respects the dependencies. */
  lemma {:induction false} StuckNeverApplied(registry: Registry, tags: set<Tag>, stuck: set<Tag>, order: seq<Tag>, i: nat)
    requires Deadlocked(registry, tags, stuck) && Respects(registry, tags, order) && i <= |order|
    ensures Elements(order[..i]) !! stuck
  {
    hide Deadlocked, IsReady;
    if i > 0 {
      var done, t := order[..i - 1], order[i - 1];
      StuckNeverApplied(registry, tags, stuck, order, i - 1);
      assert order[..i] == done + [t];
      ElementsSnoc(done, t);
      forall d | d in Elements(done)
        ensures d in registry
      {
        Applicable(registry, tags, order, i - 1, d);
      }
      ReadyIsFree(registry, tags, stuck, Elements(done), t);
    }
  }

  lemma ReadyIsFree(registry: Registry, tags: set<Tag>, stuck: set<Tag>, done: set<Tag>, t: Tag)
    requires Deadlocked(registry, tags, stuck) && done !! stuck && done <= registry.Keys
    requires t in registry && IsReady(registry[t], tags + done)
    ensures t !in stuck
  {
  }

  lemma Applicable(registry: Registry, tags: set<Tag>, order: seq<Tag>, i: nat, t: Tag)
    requires Respects(registry, tags, order) && i <= |order| && t in Elements(order[..i])
    ensures t in registry
  {
    var k :| 0 <= k < i && order[k] == t;
  }

  /** Tags that block one another rule out every order. */
  lemma DeadlockPreventsOrder(registry: Registry, tags: set<Tag>, stuck: set<Tag>, order: seq<Tag>)
    requires Deadlocked(registry, tags, stuck)
    ensures !Resolves(registry, tags, order)
  {
    if Respects(registry, tags, order) {
      StuckNeverApplied(registry, tags, stuck, order, |order|);
      assert order[..|order|] == order;
      assert Elements(order) == registry.Keys - tags ==> stuck <= Elements(order);
      var t :| t in stuck;
      assert t !in Elements(order);
    }
  }

  // ---- The loop ----

  class Checkpoint {
    var tags: set<Tag>
    /** The upgraders that were run on the file, in order. */
    var applied: seq<Tag>

    constructor (tags: set<Tag>)
      ensures this.tags == tags && applied == []
    {
      this.tags, applied := tags, [];
    }

    method Update(u: Upgrader)
      modifies this
      ensures tags == old(tags) + {u.tag} && applied == old(applied) + [u.tag]
    {
      applied := applied + [u.tag];
      tags := tags + {u.tag};
    }
  }

  /** What has been applied so far, in an order that respects the dependencies. */
  ghost predicate Progress(registry: Registry, start: set<Tag>, tags: set<Tag>, applied: seq<Tag>) {
    && Distinct(applied) && Respects(registry, start, applied)
    && Elements(applied) !! start && tags == start + Elements(applied)
  }

  lemma ProgressStep(registry: Registry, start: set<Tag>, tags: set<Tag>, applied: seq<Tag>, t: Tag)
    requires Progress(registry, start, tags, applied)
    requires t in registry && t !in tags && IsReady(registry[t], tags)
    ensures Progress(registry, start, tags + {t}, applied + [t])
  {
    RespectsSnoc(registry, start, applied, t);
    ElementsSnoc(applied, t);
  }

  /** When nothing is ready, the remaining tags are the largest set of tags that block one another. */
  lemma NothingReady(registry: Registry, start: set<Tag>, tags: set<Tag>, applied: seq<Tag>, stuck: set<Tag>)
    requires Progress(registry, start, tags, applied)
    requires stuck == registry.Keys - tags && stuck != {}
    requires forall t :: t in stuck ==> !IsReady(registry[t], tags)
    ensures Deadlocked(registry, start, stuck)
    ensures forall s :: Deadlocked(registry, start, s) ==> s <= stuck
  {
    forall t | t in stuck
      ensures exists d :: d in registry[t].depends && (d in stuck || (d !in start && d !in registry))
    {
      var d :| d in registry[t].depends && d !in tags;
    }
    forall s | Deadlocked(registry, start, s)
      ensures s <= stuck
    {
      StuckNeverApplied(registry, start, s, applied, |applied|);
      assert applied[..|applied|] == applied;
    }
  }

  /** When nothing is left, what was applied is an order of the kind the dependencies ask for. */
  lemma NothingLeft(registry: Registry, start: set<Tag>, tags: set<Tag>, applied: seq<Tag>)
    requires Progress(registry, start, tags, applied)
    requires registry.Keys - tags == {}
    ensures Resolves(registry, start, applied)
    ensures tags == start + registry.Keys
  {
    forall t | t in registry
      ensures t in tags
    {
      assert t in tags || t in registry.Keys - tags;
    }
    forall t | t in Elements(applied)
      ensures t in registry
    {
      assert applied[..|applied|] == applied;
      Applicable(registry, start, applied, |applied|, t);
    }
  }

  /** In such an order every dependency is in the checkpoint or stands earlier. */
  lemma DependenciesFirst(registry: Registry, start: set<Tag>, order: seq<Tag>)
    requires Resolves(registry, start, order)
    ensures forall i :: 0 <= i < |order| ==> order[i] in registry
    ensures forall i, d :: 0 <= i < |order| && d in registry[order[i]].depends ==> d in start || exists j :: 0 <= j < i && order[j] == d
  {
    forall i, d | 0 <= i < |order| && order[i] in registry && d in registry[order[i]].depends
      ensures d in start || exists j :: 0 <= j < i && order[j] == d
    {
      assert IsReady(registry[order[i]], start + Elements(order[..i]));
      if d in Elements(order[..i]) {
        var j :| 0 <= j < i && order[..i][j] == d;
        assert order[j] == d;
      }
    }
  }

  lemma ReadyGrows(u: Upgrader, tags: set<Tag>, more: set<Tag>)
    requires IsReady(u, tags) && tags <= more
    ensures IsReady(u, more)
  {
  }

  /** One round: all tags that were ready at its start are applied, in any order. */
  method ApplyReady(registry: Registry, cpt: Checkpoint, ready: set<Tag>, ghost start: set<Tag>)
    requires Progress(registry, start, cpt.tags, cpt.applied)
    requires forall t :: t in ready ==> t in registry && t !in cpt.tags && IsReady(registry[t], cpt.tags)
    modifies cpt
    ensures Progress(registry, start, cpt.tags, cpt.applied) && cpt.tags == old(cpt.tags) + ready
  {
    hide Progress, IsReady;
    var left := ready;
    while left != {}
      invariant left <= ready && cpt.tags == old(cpt.tags) + (ready - left)
      invariant Progress(registry, start, cpt.tags, cpt.applied)
      decreases |left|
    {
      var tag :| tag in left;
      ReadyGrows(registry[tag], old(cpt.tags), cpt.tags);
      ProgressStep(registry, start, cpt.tags, cpt.applied, tag);
      cpt.Update(registry[tag]);
      left := left - {tag};
    }
  }

  /**
   * The upgrades of process_file; Some is the abort, with the tags that could not be applied. It aborts exactly when
   * no order resolves the dependencies, and then reports the largest set of tags that block one another.
   */
  method ApplyUpgrades(registry: Registry, cpt: Checkpoint) returns (stuck: Option<set<Tag>>)
    requires cpt.applied == []
    modifies cpt
    ensures stuck.None? <==> exists order :: Resolves(registry, old(cpt.tags), order)
    ensures stuck.None? ==> Resolves(registry, old(cpt.tags), cpt.applied) && cpt.tags == old(cpt.tags) + registry.Keys
    ensures stuck.None? ==> forall i, d :: 0 <= i < |cpt.applied| && d in registry[cpt.applied[i]].depends ==>
      d in old(cpt.tags) || exists j :: 0 <= j < i && cpt.applied[j] == d
    ensures stuck.Some? ==> Deadlocked(registry, old(cpt.tags), stuck.value)
    ensures stuck.Some? ==> forall s :: Deadlocked(registry, old(cpt.tags), s) ==> s <= stuck.value
  {
    hide Progress, Deadlocked, Resolves;
    ghost var start := cpt.tags;
    var toApply := registry.Keys - cpt.tags;
    NoProgressYet(registry, start);
    while toApply != {}
      invariant toApply == registry.Keys - cpt.tags
      invariant Progress(registry, start, cpt.tags, cpt.applied)
      decreases |toApply|
    {
      var ready := set t | t in toApply && IsReady(registry[t], cpt.tags);
      if ready == {} {
        assert forall t :: t in toApply ==> t in ready || !IsReady(registry[t], cpt.tags);
        NothingReady(registry, start, cpt.tags, cpt.applied, toApply);
        forall order: seq<Tag>
          ensures !Resolves(registry, start, order)
        {
          DeadlockPreventsOrder(registry, start, toApply, order);
        }
        return Some(toApply);
      }
      ApplyReady(registry, cpt, ready, start);
      Shrinks(toApply, ready);
      toApply := toApply - ready;
    }
    NothingLeft(registry, start, cpt.tags, cpt.applied);
    DependenciesFirst(registry, start, cpt.applied);
    return None;
  }

  lemma NoProgressYet(registry: Registry, start: set<Tag>)
    ensures Progress(registry, start, start, [])
  {
  }

  lemma Shrinks(s: set<Tag>, part: set<Tag>)
    requires part <= s && part != {}
    ensures |s - part| < |s|
  {
    assert |s - part| + |part| == |s|;
  }
}
