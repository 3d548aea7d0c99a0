/** The flush loop both branches of splitActiveResultPage run, over any items and charges. */
module PackingLoop {
  import opened Options

  function Concat<T>(batches: seq<seq<T>>): seq<T> {
    if batches == [] then [] else Concat(batches[..|batches|-1]) + batches[|batches|-1]
  }

  function TotalCost<T>(items: seq<T>, cost: T -> Option<nat>): nat {
    if items == [] then 0
    else
      var last := cost(items[|items|-1]);
      TotalCost(items[..|items|-1], cost) + (if last.Some? then last.value else 0)
  }

  /** Every item once and in order, every batch within the limit, and no batch closed early. */
  ghost predicate Packing<T>(items: seq<T>, batches: seq<seq<T>>, cost: T -> Option<nat>, limit: nat) {
    && Concat(batches) == items
    && (batches == [[]] || (batches != [] && Packed(batches, cost, limit)))
  }

  ghost predicate Packed<T>(batches: seq<seq<T>>, cost: T -> Option<nat>, limit: nat) {
    && (forall i | 0 <= i < |batches| :: batches[i] != [] && TotalCost(batches[i], cost) <= limit)
    && forall i, j | 0 <= i < j < |batches| && j == i + 1 :: TotalCost(batches[i] + batches[j][..1], cost) > limit
  }

  /** The loop's state after `i` items: batches closed so far, and the one being filled. */
  ghost predicate Filling<T>(items: seq<T>, i: nat, batches: seq<seq<T>>, current: seq<T>,
                             cost: T -> Option<nat>, limit: nat)
  {
    && i <= |items| && Concat(batches + [current]) == items[..i]
    && if |current| == 0 then |batches| == 0 else Packed(batches + [current], cost, limit)
  }

  method Pack<T>(items: seq<T>, cost: T -> Option<nat>, limit: nat) returns (r: Option<seq<seq<T>>>)
    requires forall i | 0 <= i < |items| :: cost(items[i]).Some? ==> cost(items[i]).value > 0
    ensures r.Some? <==> forall i | 0 <= i < |items| :: cost(items[i]).Some? && cost(items[i]).value <= limit
    ensures r.Some? ==> Packing(items, r.value, cost, limit)
  {
    var batches: seq<seq<T>> := [];
    var current: seq<T> := [];
    var currentCost := 0;
    for i := 0 to |items|
      invariant forall j | 0 <= j < i :: cost(items[j]).Some? && cost(items[j]).value <= limit
      invariant Filling(items, i, batches, current, cost, limit)
      invariant currentCost == TotalCost(current, cost) && (currentCost == 0 <==> |current| == 0)
    {
      var charge := cost(items[i]);
      if charge.None? || charge.value > limit { return None; }
      CostAppend(current, items[i], cost);
      if currentCost > 0 && currentCost + charge.value > limit {
        Close(items, i, batches, current, cost, limit);
        batches := batches + [current];
        current := [items[i]];
        currentCost := charge.value;
      } else {
        Extend(items, i, batches, current, cost, limit);
        current := current + [items[i]];
        currentCost := currentCost + charge.value;
      }
    }
    assert items[..|items|] == items;
    if currentCost > 0 || |batches| == 0 { batches := batches + [current]; }
    return Some(batches);
  }

  lemma CostAppend<T>(items: seq<T>, item: T, cost: T -> Option<nat>)
    requires cost(item).Some?
    ensures TotalCost(items + [item], cost) == TotalCost(items, cost) + cost(item).value
  {
    assert (items + [item])[..|items|] == items;
  }

  lemma PackedAppend<T>(batches: seq<seq<T>>, item: T, cost: T -> Option<nat>, limit: nat)
    requires batches != [] && Packed(batches, cost, limit)
    requires TotalCost(batches[|batches|-1] + [item], cost) > limit >= TotalCost([item], cost)
    ensures Packed(batches + [[item]], cost, limit)
  {
    var all := batches + [[item]];
    forall k, j | 0 <= k < j < |all| && j == k + 1 ensures TotalCost(all[k] + all[j][..1], cost) > limit {
      assert all[k] == batches[k];
      if j < |batches| { assert all[j] == batches[j]; } else { assert all[j][..1] == [item]; }
    }
  }

  lemma ConcatNext<T>(items: seq<T>, i: nat, batches: seq<seq<T>>)
    requires i < |items| && Concat(batches) == items[..i]
    ensures Concat(batches + [[items[i]]]) == items[..i + 1]
  {
    assert (batches + [[items[i]]])[..|batches|] == batches;
  }

  lemma Close<T>(items: seq<T>, i: nat, batches: seq<seq<T>>, current: seq<T>, cost: T -> Option<nat>, limit: nat)
    requires i < |items| && cost(items[i]).Some? && |current| > 0 && Filling(items, i, batches, current, cost, limit)
    requires TotalCost(current + [items[i]], cost) > limit >= cost(items[i]).value
    ensures TotalCost([items[i]], cost) == cost(items[i]).value
    ensures Filling(items, i + 1, batches + [current], [items[i]], cost, limit)
  {
    var item, closed := items[i], batches + [current];
    assert TotalCost([item], cost) == cost(item).value by {
      CostAppend([], item, cost);
      assert [] + [item] == [item];
    }
    assert Packed(closed + [[item]], cost, limit) by {
      assert closed[|closed|-1] == current;
      PackedAppend(closed, item, cost, limit);
    }
    ConcatNext(items, i, closed);
  }

  lemma Extend<T>(items: seq<T>, i: nat, batches: seq<seq<T>>, current: seq<T>, cost: T -> Option<nat>, limit: nat)
    requires i < |items| && Filling(items, i, batches, current, cost, limit)
    requires TotalCost(current + [items[i]], cost) <= limit
    ensures Filling(items, i + 1, batches, current + [items[i]], cost, limit)
  {
    var all := batches + [current + [items[i]]];
    assert all[..|batches|] == batches == (batches + [current])[..|batches|];
    assert items[..i + 1] == items[..i] + [items[i]];
    forall k, j | 0 <= k < j < |all| && j == k + 1 ensures TotalCost(all[k] + all[j][..1], cost) > limit {
      assert (batches + [current])[k] == all[k];
      assert all[j][..1] == (batches + [current])[j][..1];
    }
  }

  lemma {:induction false} ConcatContains<T>(batches: seq<seq<T>>, k: nat)
    requires k < |batches|
    ensures forall i | 0 <= i < |batches[k]| :: batches[k][i] in Concat(batches)
    decreases |batches|
  {
    if k < |batches| - 1 { ConcatContains(batches[..|batches|-1], k); }
  }

  lemma {:induction false} ConcatPrefix<T>(batches: seq<seq<T>>, k: nat)
    requires k <= |batches|
    ensures Concat(batches[..k]) <= Concat(batches)
    decreases |batches|
  {
    if k < |batches| {
      ConcatPrefix(batches[..|batches|-1], k);
      assert batches[..|batches|-1][..k] == batches[..k];
    } else {
      assert batches[..k] == batches;
    }
  }

  lemma ConcatStep<T>(base: seq<T>, batches: seq<seq<T>>, b: nat)
    requires b < |batches|
    ensures Concat(batches[..b + 1]) == Concat(batches[..b]) + batches[b]
    ensures base + Concat(batches[..b + 1]) == base + Concat(batches[..b]) + batches[b]
  {
    assert batches[..b + 1][..b] == batches[..b];
  }
}
