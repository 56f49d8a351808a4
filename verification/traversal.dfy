/** `deep_iter`: every mapping of a parsed document, in pre-order. */
module Traversal {
  import opened Json

  /**
   * The mappings `deep_iter(v)` yields: an object first, then those of its
   * values in member order; an array those of its items in order; a scalar
   * nothing.
   */
  function DeepIter(v: Json): (r: seq<Json>)
    ensures forall k | 0 <= k < |r| :: r[k].JObject?
    ensures v.JObject? ==> |r| > 0 && r[0] == v
    ensures !v.JObject? && !v.JArray? ==> r == []
    decreases v
  {
    match v
    case JObject(members) => [v] + DeepIterMembers(members)
    case JArray(items) => DeepIterItems(items)
    case _ => []
  }

  function DeepIterMembers(members: seq<Member>): (r: seq<Json>)
    ensures forall k | 0 <= k < |r| :: r[k].JObject?
    decreases members
  {
    if members == [] then [] else DeepIter(members[0].value) + DeepIterMembers(members[1..])
  }

  function DeepIterItems(items: seq<Json>): (r: seq<Json>)
    ensures forall k | 0 <= k < |r| :: r[k].JObject?
    decreases items
  {
    if items == [] then [] else DeepIter(items[0]) + DeepIterItems(items[1..])
  }

  /** `x` is `v` itself or occurs somewhere below it. */
  ghost predicate Within(x: Json, v: Json)
    decreases v
  {
    || x == v
    || (v.JArray? && exists k | 0 <= k < |v.items| :: Within(x, v.items[k]))
    || (v.JObject? && exists k | 0 <= k < |v.members| :: Within(x, v.members[k].value))
  }

  /** `deep_iter` yields exactly the mappings of the tree, and nothing else. */
  lemma {:induction false} DeepIterYieldsMappings(x: Json, v: Json)
    ensures x in DeepIter(v) <==> x.JObject? && Within(x, v)
    decreases v, 1
  {
    match v
    case JObject(members) =>
      DeepIterMembersYield(x, members);
    case JArray(items) =>
      DeepIterItemsYield(x, items);
    case _ =>
  }

  lemma {:induction false} DeepIterMembersYield(x: Json, members: seq<Member>)
    ensures x in DeepIterMembers(members) <==>
            x.JObject? && exists k | 0 <= k < |members| :: Within(x, members[k].value)
    decreases members, 0
  {
    if members != [] {
      DeepIterYieldsMappings(x, members[0].value);
      DeepIterMembersYield(x, members[1..]);
      assert forall k | 1 <= k < |members| :: members[1..][k - 1] == members[k];
      if exists k | 0 <= k < |members| :: Within(x, members[k].value) {
        var k :| 0 <= k < |members| && Within(x, members[k].value);
        if k > 0 {
          assert Within(x, members[1..][k - 1].value);
        }
      }
    }
  }

  lemma {:induction false} DeepIterItemsYield(x: Json, items: seq<Json>)
    ensures x in DeepIterItems(items) <==>
            x.JObject? && exists k | 0 <= k < |items| :: Within(x, items[k])
    decreases items, 0
  {
    if items != [] {
      DeepIterYieldsMappings(x, items[0]);
      DeepIterItemsYield(x, items[1..]);
      assert forall k | 1 <= k < |items| :: items[1..][k - 1] == items[k];
      if exists k | 0 <= k < |items| :: Within(x, items[k]) {
        var k :| 0 <= k < |items| && Within(x, items[k]);
        if k > 0 {
          assert Within(x, items[1..][k - 1]);
        }
      }
    }
  }

  /** List elements are walked in order: the walk of `a + b` is the walk of `a`, then of `b`. */
  lemma {:induction false} DeepIterItemsOrder(a: seq<Json>, b: seq<Json>)
    ensures DeepIterItems(a + b) == DeepIterItems(a) + DeepIterItems(b)
  {
    if a != [] {
      assert (a + b)[1..] == a[1..] + b;
      DeepIterItemsOrder(a[1..], b);
    } else {
      assert a + b == b;
    }
  }

  /** Member values are walked in document order. */
  lemma {:induction false} DeepIterMembersOrder(a: seq<Member>, b: seq<Member>)
    ensures DeepIterMembers(a + b) == DeepIterMembers(a) + DeepIterMembers(b)
  {
    if a == [] {
      assert a + b == b;
    } else {
      var ab := a + b;
      assert ab[0] == a[0];
      assert ab[1..] == a[1..] + b;
      DeepIterMembersOrder(a[1..], b);
      calc {
        DeepIterMembers(ab);
        DeepIter(a[0].value) + DeepIterMembers(a[1..] + b);
        DeepIter(a[0].value) + (DeepIterMembers(a[1..]) + DeepIterMembers(b));
      }
    }
  }
}
