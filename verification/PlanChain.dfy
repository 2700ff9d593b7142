/** The walk from a plan up to its root, over a store whose parent links may form
    a cycle or lead nowhere. A plan without a parent has the empty parent key. */
module PlanChain {
  import opened Tables

  /** The parent key of every plan that can be fetched. */
  type Store = map<string, string>

  datatype Plan = Plan(key: string, parent: string)

  datatype Outcome = Chain(plans: seq<Plan>) | Cycle(key: string) | Unfetched(key: string)

  // ------------------------------------------------------- the parent path

  /** The plan `n` parents above `key`, if the path gets that far. */
  ghost function Up(store: Store, key: string, n: nat): Option<Plan>
    requires key in store
  {
    if n == 0 then Some(Plan(key, store[key]))
    else
      var below := Up(store, key, n - 1);
      if below.None? || Stuck(store, below.value) then None
      else Some(Plan(below.value.parent, store[below.value.parent]))
  }

  /** No plan can be fetched above this one. */
  ghost predicate Stuck(store: Store, plan: Plan) {
    plan.parent == "" || plan.parent !in store
  }

  ghost predicate Reaches(store: Store, key: string)
    requires key in store
  {
    exists n: nat :: Up(store, key, n).Some? && Up(store, key, n).value.parent == ""
  }

  /** The path needs a plan that cannot be fetched. */
  ghost predicate Needs(store: Store, key: string, missing: string)
    requires key in store
  {
    missing != "" && missing !in store && exists n: nat :: Up(store, key, n).Some? && Up(store, key, n).value.parent == missing
  }

  /** The path comes to a plan twice. */
  ghost predicate Revisits(store: Store, key: string, plan: string)
    requires key in store
  {
    exists i: nat, j: nat :: i < j && At(store, key, i, plan) && At(store, key, j, plan)
  }

  ghost predicate At(store: Store, key: string, n: nat, plan: string)
    requires key in store
  {
    Up(store, key, n).Some? && Up(store, key, n).value.key == plan
  }

  lemma {:induction false} PathIsInStore(store: Store, key: string, n: nat)
    requires key in store && Up(store, key, n).Some?
    ensures Up(store, key, n).value.key in store && Up(store, key, n).value.parent == store[Up(store, key, n).value.key]
  {
    if n == 0 {
    } else {
      PathIsInStore(store, key, n - 1);
    }
  }

  /** From the same plan the path goes the same way. */
  lemma {:induction false} SameWay(store: Store, key: string, i: nat, j: nat, d: nat, plan: string)
    requires key in store && At(store, key, i, plan) && At(store, key, j, plan)
    ensures Up(store, key, i + d) == Up(store, key, j + d)
  {
    if d == 0 {
      PathIsInStore(store, key, i);
      PathIsInStore(store, key, j);
    } else {
      SameWay(store, key, i, j, d - 1, plan);
    }
  }

  /** Nothing lies above a stuck plan. */
  lemma {:induction false} NothingAbove(store: Store, key: string, n: nat, m: nat)
    requires key in store && n < m && Up(store, key, n).Some? && Stuck(store, Up(store, key, n).value)
    ensures Up(store, key, m).None?
    decreases m
  {
    if m > n + 1 {
      NothingAbove(store, key, n, m - 1);
    }
  }

  lemma StuckOnce(store: Store, key: string, n: nat, m: nat)
    requires key in store
    requires Up(store, key, n).Some? && Stuck(store, Up(store, key, n).value)
    requires Up(store, key, m).Some? && Stuck(store, Up(store, key, m).value)
    ensures n == m
  {
    if n < m {
      NothingAbove(store, key, n, m);
    } else if m < n {
      NothingAbove(store, key, m, n);
    }
  }

  /** A path that comes to a plan twice never ends. */
  lemma RevisitsForever(store: Store, key: string, i: nat, j: nat, plan: string, n: nat)
    requires key in store && i < j && At(store, key, i, plan) && At(store, key, j, plan)
    requires Up(store, key, n).Some?
    ensures !Stuck(store, Up(store, key, n).value)
  {
    var earlier: nat := if n >= j then i + (n - j) else 0;
    if n >= j { SameWay(store, key, i, j, n - j, plan); }
    if Stuck(store, Up(store, key, n).value) {
      if n < j { NothingAbove(store, key, n, j); } else { NothingAbove(store, key, earlier, n); }
    }
  }

  /** The path ends at a root, or ends at a missing plan, or revisits: one of the three. */
  lemma OneFateOnly(store: Store, key: string)
    requires key in store
    ensures Reaches(store, key) ==> forall missing :: !Needs(store, key, missing)
    ensures Reaches(store, key) ==> forall plan :: !Revisits(store, key, plan)
    ensures forall missing, plan :: Needs(store, key, missing) ==> !Revisits(store, key, plan)
    ensures forall missing, other :: Needs(store, key, missing) && Needs(store, key, other) ==> missing == other
  {
    hide Up;
    forall missing | Needs(store, key, missing)
      ensures !Reaches(store, key)
      ensures forall plan :: !Revisits(store, key, plan)
      ensures forall other :: Needs(store, key, other) ==> missing == other
    {
      var n: nat :| Up(store, key, n).Some? && Up(store, key, n).value.parent == missing;
      if Reaches(store, key) {
        var m: nat :| Up(store, key, m).Some? && Up(store, key, m).value.parent == "";
        StuckOnce(store, key, n, m);
      }
      forall plan ensures !Revisits(store, key, plan) {
        if Revisits(store, key, plan) {
          var i: nat, j: nat :| i < j && At(store, key, i, plan) && At(store, key, j, plan);
          RevisitsForever(store, key, i, j, plan, n);
          assert false;
        }
      }
      forall other | Needs(store, key, other) ensures missing == other {
        var m: nat :| Up(store, key, m).Some? && Up(store, key, m).value.parent == other;
        StuckOnce(store, key, n, m);
      }
    }
    if Reaches(store, key) {
      var n: nat :| Up(store, key, n).Some? && Up(store, key, n).value.parent == "";
      forall plan ensures !Revisits(store, key, plan) {
        if Revisits(store, key, plan) {
          var i: nat, j: nat :| i < j && At(store, key, i, plan) && At(store, key, j, plan);
          RevisitsForever(store, key, i, j, plan, n);
          assert false;
        }
      }
    }
  }

  // -------------------------------------------------------------- the chain

  ghost predicate Under(child: Plan, parent: Plan) {
    child.parent != "" && child.parent == parent.key
  }

  ghost predicate AfterParent(plans: seq<Plan>, i: int)
    requires 0 < i < |plans|
  {
    Under(plans[i], plans[i - 1])
  }

  ghost predicate BeforeParent(plans: seq<Plan>, i: int)
    requires 0 <= i < |plans| - 1
  {
    Under(plans[i], plans[i + 1])
  }

  ghost predicate Fetched(store: Store, plan: Plan) {
    plan.key in store && plan.parent == store[plan.key]
  }

  /** From a root down to `key`, each plan the parent of the next, none twice. */
  ghost predicate IsChain(store: Store, key: string, plans: seq<Plan>) {
    && plans != [] && plans[0].parent == "" && plans[|plans| - 1].key == key
    && (forall i | 0 <= i < |plans| :: Fetched(store, plans[i]))
    && (forall i | 0 < i < |plans| :: AfterParent(plans, i))
    && (forall i, j | 0 <= i < j < |plans| :: plans[i].key != plans[j].key)
  }

  lemma {:induction false} ChainIsPath(store: Store, key: string, plans: seq<Plan>, n: nat)
    requires key in store && IsChain(store, key, plans) && n < |plans|
    ensures Up(store, key, n) == Some(plans[|plans| - 1 - n])
  {
    var i := |plans| - 1 - n;
    assert Fetched(store, plans[i]);
    if n == 0 {
    } else {
      ChainIsPath(store, key, plans, n - 1);
      assert AfterParent(plans, i + 1);
    }
  }

  /** There is at most one chain, so being one pins it down. */
  lemma ChainIsUnique(store: Store, key: string, a: seq<Plan>, b: seq<Plan>)
    requires key in store && IsChain(store, key, a) && IsChain(store, key, b)
    ensures a == b
  {
    ChainIsPath(store, key, a, |a| - 1);
    ChainIsPath(store, key, b, |b| - 1);
    StuckOnce(store, key, |a| - 1, |b| - 1);
    forall i | 0 <= i < |a|
      ensures a[i] == b[i]
    {
      ChainIsPath(store, key, a, |a| - 1 - i);
      ChainIsPath(store, key, b, |a| - 1 - i);
    }
  }

  // --------------------------------------------------------------- the walk

  function Reversed<T>(s: seq<T>): (r: seq<T>)
    ensures |r| == |s| && forall i | 0 <= i < |s| :: r[i] == s[|s| - 1 - i]
  {
    if s == [] then [] else Reversed(s[1..]) + [s[0]]
  }

  ghost predicate Walked(store: Store, key: string, chain: seq<Plan>, seen: set<string>)
    requires key in store
  {
    && chain != [] && (forall i | 0 <= i < |chain| :: Up(store, key, i) == Some(chain[i]))
    && (forall i, j | 0 <= i < j < |chain| :: chain[i].key != chain[j].key)
    && (forall k :: k in seen <==> exists i | 0 <= i < |chain| :: chain[i].key == k)
    && (forall k | k in seen :: k in store)
  }

  lemma WalkedOn(store: Store, key: string, chain: seq<Plan>, seen: set<string>, parent: string)
    requires key in store && Walked(store, key, chain, seen) && parent == chain[|chain| - 1].parent
    requires parent != "" && parent !in seen && parent in store
    ensures Walked(store, key, chain + [Plan(parent, store[parent])], seen + {parent})
  {
    var chain' := chain + [Plan(parent, store[parent])];
    assert Up(store, key, |chain| - 1) == Some(chain[|chain| - 1]);
    assert Up(store, key, |chain|) == Some(chain'[|chain|]);
    forall k
      ensures k in seen + {parent} <==> exists i | 0 <= i < |chain'| :: chain'[i].key == k
    {
      if i :| 0 <= i < |chain| && chain[i].key == k { assert chain'[i].key == k; }
      if k == parent { assert chain'[|chain|].key == k; }
    }
  }

  lemma WalkedLinks(store: Store, key: string, chain: seq<Plan>, seen: set<string>, i: nat)
    requires key in store && Walked(store, key, chain, seen) && i < |chain|
    ensures Fetched(store, chain[i])
    ensures i + 1 < |chain| ==> Under(chain[i], chain[i + 1])
  {
    PathIsInStore(store, key, i);
    assert Up(store, key, i) == Some(chain[i]);
    if i + 1 < |chain| { assert Up(store, key, i + 1) == Some(chain[i + 1]); }
  }

  lemma RootFirst(store: Store, key: string, chain: seq<Plan>)
    requires chain != [] && chain[0].key == key && chain[|chain| - 1].parent == ""
    requires forall i | 0 <= i < |chain| :: Fetched(store, chain[i])
    requires forall i | 0 <= i < |chain| - 1 :: BeforeParent(chain, i)
    requires forall i, j | 0 <= i < j < |chain| :: chain[i].key != chain[j].key
    ensures IsChain(store, key, Reversed(chain))
  {
    hide Reversed, Under, Fetched;
    var plans := Reversed(chain);
    forall i | 0 < i < |plans|
      ensures AfterParent(plans, i)
    {
      assert BeforeParent(chain, |chain| - 1 - i);
    }
  }

  lemma WalkedToRoot(store: Store, key: string, chain: seq<Plan>, seen: set<string>)
    requires key in store && Walked(store, key, chain, seen) && chain[|chain| - 1].parent == ""
    ensures Reaches(store, key) && IsChain(store, key, Reversed(chain))
  {
    hide Reversed, IsChain, Under, Fetched;
    assert chain[0].key == key by { assert Up(store, key, 0) == Some(chain[0]); }
    hide Up;
    var top := |chain| - 1;
    assert Reaches(store, key) by { assert Up(store, key, top).Some?; }
    assert forall i, j | 0 <= i < j < |chain| :: chain[i].key != chain[j].key;
    hide Walked, Reaches;
    forall i | 0 <= i < |chain|
      ensures Fetched(store, chain[i])
    {
      WalkedLinks(store, key, chain, seen, i);
    }
    forall i | 0 <= i < |chain| - 1
      ensures BeforeParent(chain, i)
    {
      WalkedLinks(store, key, chain, seen, i);
    }
    RootFirst(store, key, chain);
  }

  lemma WalkedIntoCycle(store: Store, key: string, chain: seq<Plan>, seen: set<string>)
    requires key in store && Walked(store, key, chain, seen)
    requires chain[|chain| - 1].parent != "" && chain[|chain| - 1].parent in seen
    ensures Revisits(store, key, chain[|chain| - 1].parent)
  {
    var parent := chain[|chain| - 1].parent;
    var i :| 0 <= i < |chain| && chain[i].key == parent;
    assert Up(store, key, i) == Some(chain[i]);
    assert Up(store, key, |chain| - 1) == Some(chain[|chain| - 1]);
    assert At(store, key, i, parent) && At(store, key, |chain|, parent);
  }

  /** The walk up from a fetched plan. */
  method BuildChain(store: Store, key: string) returns (outcome: Outcome)
    requires key in store
    ensures outcome.Chain? <==> Reaches(store, key)
    ensures outcome.Chain? ==> IsChain(store, key, outcome.plans)
    ensures outcome.Cycle? <==> exists plan :: Revisits(store, key, plan)
    ensures outcome.Cycle? ==> Revisits(store, key, outcome.key)
    ensures outcome.Unfetched? <==> exists missing :: Needs(store, key, missing)
    ensures outcome.Unfetched? ==> Needs(store, key, outcome.key)
  {
    OneFateOnly(store, key);
    var current := Plan(key, store[key]);
    var chain := [current];
    var seen := {key};
    assert Walked(store, key, chain, seen) by { assert chain[0].key == key; }
    hide Up, IsChain, Reaches, Revisits;
    while current.parent != ""
      invariant Walked(store, key, chain, seen) && current == chain[|chain| - 1]
      decreases store.Keys - seen
    {
      var parentKey := current.parent;
      if parentKey in seen {
        WalkedIntoCycle(store, key, chain, seen);
        return Cycle(parentKey);
      }
      if parentKey !in store {
        assert Up(store, key, |chain| - 1) == Some(current);
        assert Needs(store, key, parentKey);
        return Unfetched(parentKey);
      }
      WalkedOn(store, key, chain, seen, parentKey);
      var parent := Plan(parentKey, store[parentKey]);
      chain := chain + [parent];
      assert parentKey in store.Keys - seen && parentKey !in store.Keys - (seen + {parentKey});
      seen := seen + {parentKey};
      current := parent;
    }
    WalkedToRoot(store, key, chain, seen);
    return Chain(Reversed(chain));
  }
}
