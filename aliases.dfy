/**
 * The module-alias map that lets component files import each other as
 * `'@' + handle` (`aliases`, `makeAlias` and `registerBabel` in src/adapter.js).
 *
 * The component tree is walked depth first, left to right; every leaf
 * component writes its view path under its alias key, later writes winning.
 * The map is shared by the whole module and is never cleared.
 */
module Aliases {
  import opened Wrappers

  /** A node of the host's component registry: a component, or a collection of nodes. */
  datatype Item = Leaf(handle: string, viewPath: string) | Collection(items: seq<Item>)

  type AliasMap = map<string, string>

  /** Alias keys are the handles prefixed with `@`. */
  predicate IsAliasKey(k: string) {
    |k| > 0 && k[0] == '@'
  }

  function AliasKey(handle: string): (k: string)
    ensures IsAliasKey(k) && k[1..] == handle
  {
    "@" + handle
  }

  /** Two different handles never share an alias key. */
  lemma AliasKeyInjective(h1: string, h2: string)
    ensures AliasKey(h1) == AliasKey(h2) <==> h1 == h2
  {
  }

  /** Key `k` holds a different entry (or a new one) in `r` compared with `m`. */
  predicate Changed(m: AliasMap, r: AliasMap, k: string) {
    k in r && (k !in m || r[k] != m[k])
  }

  /** The alias map after `makeAlias(item)`, starting from `m`. */
  function AliasItem(m: AliasMap, item: Item): (r: AliasMap)
    ensures m.Keys <= r.Keys
    ensures forall k :: Changed(m, r, k) ==> IsAliasKey(k)
    decreases item
  {
    match item
    case Leaf(h, p) => m[AliasKey(h) := p]
    case Collection(children) => AliasItems(m, children)
  }

  /** The alias map after `items.forEach(makeAlias)`, starting from `m`. */
  function AliasItems(m: AliasMap, items: seq<Item>): (r: AliasMap)
    ensures m.Keys <= r.Keys
    ensures forall k :: Changed(m, r, k) ==> IsAliasKey(k)
    decreases items
  {
    if items == [] then m
    else
      var m1 := AliasItem(m, items[0]);
      var r := AliasItems(m1, items[1..]);
      assert forall k :: Changed(m, r, k) ==> Changed(m, m1, k) || Changed(m1, r, k);
      r
  }

  /** Walking `a + b` is walking `a`, then `b`. */
  lemma {:induction false} AliasItemsAppend(m: AliasMap, a: seq<Item>, b: seq<Item>)
    ensures AliasItems(m, a + b) == AliasItems(AliasItems(m, a), b)
    decreases a
  {
    if a == [] {
      assert a + b == b;
    } else {
      assert (a + b)[0] == a[0];
      assert (a + b)[1..] == a[1..] + b;
      AliasItemsAppend(AliasItem(m, a[0]), a[1..], b);
    }
  }

  // ---------------------------------------------------------------------
  // An independent statement of the walk: the list of (alias key, view path)
  // bindings in depth-first, left-to-right order, applied one after another.

  /** The bindings contributed by the leaves under `item`, in visiting order. */
  function Bindings(item: Item): (bs: seq<(string, string)>)
    ensures forall b :: b in bs ==> IsAliasKey(b.0)
    decreases item
  {
    match item
    case Leaf(h, p) => [(AliasKey(h), p)]
    case Collection(children) => BindingsOf(children)
  }

  function BindingsOf(items: seq<Item>): (bs: seq<(string, string)>)
    ensures forall b :: b in bs ==> IsAliasKey(b.0)
    decreases items
  {
    if items == [] then [] else Bindings(items[0]) + BindingsOf(items[1..])
  }

  /** Applies bindings to `m` one by one; a later binding overwrites an earlier one. */
  function Apply(m: AliasMap, bs: seq<(string, string)>): AliasMap
    decreases |bs|
  {
    if bs == [] then m else Apply(m[bs[0].0 := bs[0].1], bs[1..])
  }

  /** The leaf `Leaf(h, p)` occurs somewhere in the tree under `item`. */
  ghost predicate Reaches(item: Item, h: string, p: string)
    decreases item
  {
    match item
    case Leaf(h', p') => h' == h && p' == p
    case Collection(children) => exists c :: c in children && Reaches(c, h, p)
  }

  lemma {:induction false} ApplyAppend(m: AliasMap, a: seq<(string, string)>, b: seq<(string, string)>)
    ensures Apply(m, a + b) == Apply(Apply(m, a), b)
    decreases |a|
  {
    if a == [] {
      assert a + b == b;
    } else {
      assert (a + b)[0] == a[0];
      assert (a + b)[1..] == a[1..] + b;
      ApplyAppend(m[a[0].0 := a[0].1], a[1..], b);
    }
  }

  /** Keys no binding mentions are left as they were. */
  lemma {:induction false} ApplyUntouched(m: AliasMap, bs: seq<(string, string)>, k: string)
    requires forall i :: 0 <= i < |bs| ==> bs[i].0 != k
    ensures k in Apply(m, bs) <==> k in m
    ensures k in m ==> Apply(m, bs)[k] == m[k]
    decreases |bs|
  {
    if bs != [] {
      ApplyUntouched(m[bs[0].0 := bs[0].1], bs[1..], k);
    }
  }

  /** The last binding for a key decides its value. */
  lemma {:induction false} ApplyLastWins(m: AliasMap, bs: seq<(string, string)>, i: nat)
    requires i < |bs|
    requires forall j :: i < j < |bs| ==> bs[j].0 != bs[i].0
    ensures bs[i].0 in Apply(m, bs) && Apply(m, bs)[bs[i].0] == bs[i].1
    decreases |bs|
  {
    var m1 := m[bs[0].0 := bs[0].1];
    if i == 0 {
      ApplyUntouched(m1, bs[1..], bs[0].0);
    } else {
      ApplyLastWins(m1, bs[1..], i - 1);
    }
  }

  /** A key is in the result exactly when it was in `m` or some binding names it. */
  lemma {:induction false} ApplyKeys(m: AliasMap, bs: seq<(string, string)>, k: string)
    ensures k in Apply(m, bs) <==> k in m || exists i :: 0 <= i < |bs| && bs[i].0 == k
    decreases |bs|
  {
    if bs != [] {
      ApplyKeys(m[bs[0].0 := bs[0].1], bs[1..], k);
      if exists i :: 0 <= i < |bs| && bs[i].0 == k {
        var i :| 0 <= i < |bs| && bs[i].0 == k;
        if i > 0 {
          assert bs[1..][i - 1].0 == k;
        }
      }
      if exists i :: 0 <= i < |bs[1..]| && bs[1..][i].0 == k {
        var i :| 0 <= i < |bs[1..]| && bs[1..][i].0 == k;
        assert bs[i + 1].0 == k;
      }
    }
  }

  /** The walk does exactly what applying its bindings in visiting order does. */
  lemma {:induction false} AliasItemIsApply(m: AliasMap, item: Item)
    ensures AliasItem(m, item) == Apply(m, Bindings(item))
    decreases item
  {
    match item
    case Leaf(h, p) =>
      assert Apply(m[AliasKey(h) := p], []) == m[AliasKey(h) := p];
    case Collection(children) =>
      AliasItemsIsApply(m, children);
  }

  lemma {:induction false} AliasItemsIsApply(m: AliasMap, items: seq<Item>)
    ensures AliasItems(m, items) == Apply(m, BindingsOf(items))
    decreases items
  {
    if items != [] {
      var m1 := AliasItem(m, items[0]);
      AliasItemIsApply(m, items[0]);
      AliasItemsIsApply(m1, items[1..]);
      ApplyAppend(m, Bindings(items[0]), BindingsOf(items[1..]));
    }
  }

  /** Every binding belongs to a leaf of the tree, and every leaf has its binding. */
  lemma {:induction false} ReachesIffBinding(item: Item, h: string, p: string)
    ensures Reaches(item, h, p) <==> (AliasKey(h), p) in Bindings(item)
    decreases item
  {
    match item
    case Leaf(h', p') =>
      AliasKeyInjective(h, h');
    case Collection(children) =>
      ReachesIffBindingOf(children, h, p);
  }

  lemma {:induction false} ReachesIffBindingOf(items: seq<Item>, h: string, p: string)
    ensures (exists c :: c in items && Reaches(c, h, p)) <==> (AliasKey(h), p) in BindingsOf(items)
    decreases items
  {
    if items != [] {
      ReachesIffBinding(items[0], h, p);
      ReachesIffBindingOf(items[1..], h, p);
      assert forall c :: c in items <==> c == items[0] || c in items[1..];
    }
  }

  // ---------------------------------------------------------------------
  // What the walk promises.

  /** Every leaf reachable from the registry's top-level items has its alias key. */
  lemma WalkCoversReachable(m: AliasMap, items: seq<Item>, h: string, p: string)
    requires Reaches(Collection(items), h, p)
    ensures AliasKey(h) in AliasItems(m, items)
  {
    var bs := BindingsOf(items);
    ReachesIffBindingOf(items, h, p);
    var i :| 0 <= i < |bs| && bs[i] == (AliasKey(h), p);
    AliasItemsIsApply(m, items);
    ApplyKeys(m, bs, AliasKey(h));
  }

  /**
   * With duplicated handles, the leaf visited last (depth first, left to right)
   * decides the view path of the alias.
   */
  lemma WalkLastWins(m: AliasMap, items: seq<Item>, i: nat)
    requires i < |BindingsOf(items)|
    requires forall j :: i < j < |BindingsOf(items)| ==> BindingsOf(items)[j].0 != BindingsOf(items)[i].0
    ensures BindingsOf(items)[i].0 in AliasItems(m, items)
    ensures AliasItems(m, items)[BindingsOf(items)[i].0] == BindingsOf(items)[i].1
  {
    AliasItemsIsApply(m, items);
    ApplyLastWins(m, BindingsOf(items), i);
  }

  /** A key that is not the alias of any reachable leaf keeps what it had before the walk. */
  lemma WalkLeavesOthers(m: AliasMap, items: seq<Item>, k: string)
    requires forall h, p :: Reaches(Collection(items), h, p) ==> AliasKey(h) != k
    ensures k in AliasItems(m, items) <==> k in m
    ensures k in m ==> AliasItems(m, items)[k] == m[k]
  {
    var bs := BindingsOf(items);
    forall i | 0 <= i < |bs| ensures bs[i].0 != k {
      var (key, p) := bs[i];
      assert bs[i] in bs;
      var h := key[1..];
      assert AliasKey(h) == key;
      ReachesIffBindingOf(items, h, p);
      assert Reaches(Collection(items), h, p);
    }
    AliasItemsIsApply(m, items);
    ApplyUntouched(m, bs, k);
  }

  /** The module-level alias dictionary, updated in place. */
  class AliasRegistry {
    var aliases: AliasMap

    /** `var aliases = {}`. */
    constructor()
      ensures aliases == map[]
    {
      aliases := map[];
    }

    /** `_.merge(aliases, options.aliases)` when `options.aliases` is given. */
    method Merge(user: Option<AliasMap>)
      modifies this
      ensures aliases == if user.Some? then old(aliases) + user.value else old(aliases)
      ensures old(aliases).Keys <= aliases.Keys
    {
      if user.Some? {
        aliases := aliases + user.value;
      }
    }

    /** `makeAlias(item)`. */
    method MakeAlias(item: Item)
      modifies this
      ensures aliases == AliasItem(old(aliases), item)
      decreases item
    {
      match item
      case Leaf(h, p) =>
        aliases := aliases[AliasKey(h) := p];
      case Collection(children) =>
        MakeAliasEach(children);
    }

    /** `items.forEach(makeAlias)`. */
    method MakeAliasEach(items: seq<Item>)
      modifies this
      ensures aliases == AliasItems(old(aliases), items)
      decreases items
    {
      var i := 0;
      while i < |items|
        invariant 0 <= i <= |items|
        invariant aliases == AliasItems(old(aliases), items[..i])
      {
        AliasItemsAppend(old(aliases), items[..i], [items[i]]);
        assert items[..i + 1] == items[..i] + [items[i]];
        MakeAlias(items[i]);
        i := i + 1;
      }
      assert items[..i] == items;
    }

    /**
     * `registerBabel(app, config)`: walks the registry's top-level components
     * into the shared alias map, which only grows.
     */
    method RegisterBabel(components: seq<Item>)
      modifies this
      ensures aliases == AliasItems(old(aliases), components)
      ensures old(aliases).Keys <= aliases.Keys
    {
      MakeAliasEach(components);
    }
  }
}
