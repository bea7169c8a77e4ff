// The shop's component graph and the iterative three-colour depth-first
// search that admits only acyclic recipes.
module Recipes {
  import opened Geometry
  import opened Waves

  type ItemId = nat

  /** Shop entries a match may list; sizes the colour table and the search stack. */
  const MAX_SHOP_ITEMS: nat := 64

  datatype ShopEntry = ShopEntry(id: ItemId, cost: int, components: seq<ItemId>)

  datatype Fault = DuplicateItem | UnknownComponent | CyclicRecipe | TraversalState

  datatype Verdict = Accepted | Rejected(fault: Fault)

  // ---------------------------------------------------------------- what a sound shop is

  predicate UniqueIds(shop: seq<ShopEntry>) {
    forall i, j :: 0 <= i < j < |shop| ==> shop[i].id != shop[j].id
  }

  /** First entry that sells the item. */
  function IndexOf(shop: seq<ShopEntry>, item: ItemId): (r: Option<nat>)
    ensures r.Some? ==> r.value < |shop| && shop[r.value].id == item
    ensures r.None? ==> forall i :: 0 <= i < |shop| ==> shop[i].id != item
    ensures r.Some? ==> forall i :: 0 <= i < r.value ==> shop[i].id != item
  {
    if shop == [] then None
    else if shop[0].id == item then Some(0)
    else match IndexOf(shop[1..], item) case None => None case Some(i) => Some(i + 1)
  }

  ghost predicate Resolves(shop: seq<ShopEntry>) {
    forall i, k :: 0 <= i < |shop| && 0 <= k < |shop[i].components| ==>
      exists j :: 0 <= j < |shop| && shop[j].id == shop[i].components[k]
  }

  /** From a recipe to each entry that sells one of its components. */
  ghost function RecipeEdges(shop: seq<ShopEntry>): Edges {
    (a: nat, b: nat) => a < |shop| && b < |shop| && shop[b].id in shop[a].components
  }

  ghost predicate Acyclic(edges: Edges) {
    forall walk :: IsWalk(edges, walk) && 2 <= |walk| ==> walk[0] != walk[|walk| - 1]
  }

  ghost predicate SoundShop(shop: seq<ShopEntry>) {
    UniqueIds(shop) && Resolves(shop) && Acyclic(RecipeEdges(shop))
  }

  // ---------------------------------------------------------------- component-first orders

  /** Every component of the entry is sold by one of the `earlier` entries. */
  ghost predicate Closed(shop: seq<ShopEntry>, entry: nat, earlier: seq<nat>)
    requires entry < |shop|
  {
    forall k :: 0 <= k < |shop[entry].components| ==>
      var j := IndexOf(shop, shop[entry].components[k]);
      j.Some? && j.value in earlier
  }

  /** Different entries, each after all its components. */
  ghost predicate ComponentsFirst(shop: seq<ShopEntry>, order: seq<nat>) {
    && Distinct(order)
    && (forall p :: 0 <= p < |order| ==> order[p] < |shop|)
    && (forall p :: 0 <= p < |order| ==> Closed(shop, order[p], order[..p]))
  }

  ghost predicate Covers(shop: seq<ShopEntry>, order: seq<nat>) {
    forall i :: 0 <= i < |shop| ==> i in order
  }

  lemma IndexOfUnique(shop: seq<ShopEntry>, i: nat)
    requires UniqueIds(shop) && i < |shop|
    ensures IndexOf(shop, shop[i].id) == Some(i)
  {
  }

  /** Along a walk the place in a component-first order falls with every step. */
  lemma {:induction false} WalkDescends(shop: seq<ShopEntry>, order: seq<nat>, walk: seq<nat>, p: nat)
    returns (q: nat)
    requires UniqueIds(shop) && ComponentsFirst(shop, order)
    requires IsWalk(RecipeEdges(shop), walk) && 2 <= |walk|
    requires p < |order| && order[p] == walk[0]
    ensures q < p && order[q] == walk[|walk| - 1]
  {
    assert RecipeEdges(shop)(walk[0], walk[0 + 1]);
    assert Closed(shop, order[p], order[..p]);
    var k :| 0 <= k < |shop[walk[0]].components| && shop[walk[0]].components[k] == shop[walk[1]].id;
    IndexOfUnique(shop, walk[1]);
    q :| 0 <= q < p && order[q] == walk[1];
    if 2 < |walk| {
      var rest := walk[1..];
      forall i | 0 <= i < |rest| - 1 ensures RecipeEdges(shop)(rest[i], rest[i + 1]) {
        assert RecipeEdges(shop)(walk[i + 1], walk[i + 1 + 1]);
      }
      q := WalkDescends(shop, order, rest, q);
    }
  }

  /** A component-first order of the whole shop proves it sound. */
  lemma OrderedIsSound(shop: seq<ShopEntry>, order: seq<nat>)
    requires UniqueIds(shop) && ComponentsFirst(shop, order) && Covers(shop, order)
    ensures SoundShop(shop)
  {
    forall i, k | 0 <= i < |shop| && 0 <= k < |shop[i].components|
      ensures exists j :: 0 <= j < |shop| && shop[j].id == shop[i].components[k]
    {
      assert i in order;
      var p :| 0 <= p < |order| && order[p] == i;
      assert Closed(shop, order[p], order[..p]);
    }
    forall walk | IsWalk(RecipeEdges(shop), walk) && 2 <= |walk|
      ensures walk[0] != walk[|walk| - 1]
    {
      assert RecipeEdges(shop)(walk[0], walk[0 + 1]);
      assert walk[0] in order;
      var p :| 0 <= p < |order| && order[p] == walk[0];
      var q := WalkDescends(shop, order, walk, p);
    }
  }

  ghost predicate HasSuccessor(edges: Edges, s: set<nat>, a: nat) {
    exists b: nat :: b in s && edges(a, b)
  }

  lemma WalkExtends(edges: Edges, a: nat, rest: seq<nat>)
    requires rest != [] && edges(a, rest[0]) && IsWalk(edges, rest)
    ensures IsWalk(edges, [a] + rest)
  {
    var walk := [a] + rest;
    forall i | 0 <= i < |walk| - 1 ensures edges(walk[i], walk[i + 1]) {
      if i > 0 {
        assert edges(rest[i - 1], rest[i - 1 + 1]);
      }
    }
  }

  lemma StretchIsWalk(edges: Edges, walk: seq<nat>, i: nat, j: nat)
    requires IsWalk(edges, walk) && i <= j <= |walk|
    ensures IsWalk(edges, walk[i..j])
  {
    var part := walk[i..j];
    forall k | 0 <= k < |part| - 1 ensures edges(part[k], part[k + 1]) {
      assert edges(walk[i + k], walk[i + k + 1]);
    }
  }

  /** In a set where every entry has a successor in the set, walks of any length exist. */
  lemma {:induction false} EndlessWalk(edges: Edges, s: set<nat>, start: nat, length: nat)
    returns (walk: seq<nat>)
    requires start in s
    requires forall a :: a in s ==> HasSuccessor(edges, s, a)
    ensures IsWalk(edges, walk) && |walk| == length + 1 && walk[0] == start
    ensures forall i :: 0 <= i < |walk| ==> walk[i] in s
    decreases length
  {
    if length == 0 {
      walk := [start];
    } else {
      assert HasSuccessor(edges, s, start);
      var next: nat :| next in s && edges(start, next);
      var rest := EndlessWalk(edges, s, next, length - 1);
      walk := [start] + rest;
      WalkExtends(edges, start, rest);
    }
  }

  /** Some entry of a nonempty set has no component sold inside the set. */
  lemma SinkExists(shop: seq<ShopEntry>, s: set<nat>) returns (sink: nat)
    requires Acyclic(RecipeEdges(shop)) && s != {}
    requires forall a :: a in s ==> a < |shop|
    ensures sink in s && !HasSuccessor(RecipeEdges(shop), s, sink)
  {
    var edges := RecipeEdges(shop);
    if forall a :: a in s ==> HasSuccessor(edges, s, a) {
      var start :| start in s;
      NoEndlessWalk(edges, s, start, |shop|);
    }
    sink :| sink in s && !HasSuccessor(edges, s, sink);
  }

  /** Without cycles a walk never repeats an entry. */
  lemma AcyclicWalkIsShort(edges: Edges, walk: seq<nat>, n: nat)
    requires Acyclic(edges) && IsWalk(edges, walk)
    requires forall i :: 0 <= i < |walk| ==> walk[i] < n
    ensures Distinct(walk) && |walk| <= n
  {
    forall i, j | 0 <= i < j < |walk| ensures walk[i] != walk[j] {
      StretchIsWalk(edges, walk, i, j + 1);
      var loop := walk[i..j + 1];
      assert loop[0] == walk[i] && loop[|loop| - 1] == walk[j];
    }
    DistinctBound(walk, n);
  }

  lemma NoEndlessWalk(edges: Edges, s: set<nat>, start: nat, n: nat)
    requires start in s && Acyclic(edges)
    requires forall a :: a in s ==> a < n
    ensures exists a :: a in s && !HasSuccessor(edges, s, a)
  {
    if forall a :: a in s ==> HasSuccessor(edges, s, a) {
      var walk := EndlessWalk(edges, s, start, n);
      AcyclicWalkIsShort(edges, walk, n);
    }
  }

  lemma SinkIsClosed(shop: seq<ShopEntry>, order: seq<nat>, rest: set<nat>, sink: nat)
    requires UniqueIds(shop) && Resolves(shop) && sink < |shop|
    requires forall i: nat :: i in rest <==> i < |shop| && i !in order
    requires !HasSuccessor(RecipeEdges(shop), rest, sink)
    ensures Closed(shop, sink, order)
  {
    forall k | 0 <= k < |shop[sink].components|
      ensures IndexOf(shop, shop[sink].components[k]).Some?
           && IndexOf(shop, shop[sink].components[k]).value in order
    {
      var j := IndexOf(shop, shop[sink].components[k]);
      assert RecipeEdges(shop)(sink, j.value);
    }
  }

  lemma OrderGrows(shop: seq<ShopEntry>, order: seq<nat>, entry: nat)
    requires ComponentsFirst(shop, order) && entry < |shop| && entry !in order && Closed(shop, entry, order)
    ensures ComponentsFirst(shop, order + [entry])
  {
    var longer := order + [entry];
    forall p | 0 <= p < |longer| ensures Closed(shop, longer[p], longer[..p]) {
      if p < |order| {
        assert longer[..p] == order[..p] && Closed(shop, order[p], order[..p]);
      } else {
        assert longer[..p] == order;
      }
    }
  }

  lemma {:induction false} ExtendOrder(shop: seq<ShopEntry>, order: seq<nat>, rest: set<nat>) returns (full: seq<nat>)
    requires SoundShop(shop) && ComponentsFirst(shop, order)
    requires forall i: nat :: i in rest <==> i < |shop| && i !in order
    ensures ComponentsFirst(shop, full) && Covers(shop, full)
    decreases |rest|
  {
    if rest == {} {
      full := order;
      assert Covers(shop, full) by {
        forall i | 0 <= i < |shop| ensures i in full { assert i !in rest; }
      }
    } else {
      var sink := SinkExists(shop, rest);
      SinkIsClosed(shop, order, rest, sink);
      OrderGrows(shop, order, sink);
      var longer := order + [sink];
      assert forall i :: i in longer <==> i == sink || i in order;
      full := ExtendOrder(shop, longer, rest - {sink});
    }
  }

  ghost function Entries(shop: seq<ShopEntry>): (entries: set<nat>)
    ensures forall i: nat :: i in entries <==> i < |shop|
  {
    if shop == [] then {} else Entries(shop[..|shop| - 1]) + {|shop| - 1}
  }

  /** A sound shop can be listed with every recipe after its components. */
  lemma SoundIsOrdered(shop: seq<ShopEntry>) returns (order: seq<nat>)
    requires SoundShop(shop)
    ensures ComponentsFirst(shop, order) && Covers(shop, order)
  {
    order := ExtendOrder(shop, [], Entries(shop));
  }

  // ---------------------------------------------------------------- the search state

  /** Entry under traversal and how many of its components have been taken. */
  type Frame = (nat, nat)

  const WHITE: nat := 0
  const GREY: nat := 1
  const BLACK: nat := 2

  ghost predicate OnStack(stack: seq<Frame>, entry: nat) {
    exists d :: 0 <= d < |stack| && stack[d].0 == entry
  }

  /** A taken component is finished, or it is the frame above. */
  ghost predicate FrameTaken(shop: seq<ShopEntry>, stack: seq<Frame>, order: seq<nat>, d: nat)
    requires d < |stack| && stack[d].0 < |shop| && stack[d].1 <= |shop[stack[d].0].components|
  {
    forall k :: 0 <= k < stack[d].1 ==>
      var j := IndexOf(shop, shop[stack[d].0].components[k]);
      j.Some? && (j.value in order || (d + 1 < |stack| && j.value == stack[d + 1].0))
  }

  ghost predicate FramesFit(shop: seq<ShopEntry>, stack: seq<Frame>) {
    && (forall d :: 0 <= d < |stack| ==> stack[d].0 < |shop| && stack[d].1 <= |shop[stack[d].0].components|)
    && (forall c, d :: 0 <= c < d < |stack| ==> stack[c].0 != stack[d].0)
    && (forall d :: 0 <= d < |stack| - 1 ==> RecipeEdges(shop)(stack[d].0, stack[d + 1].0))
  }

  ghost predicate Coloured(shop: seq<ShopEntry>, colors: seq<nat>, stack: seq<Frame>, order: seq<nat>) {
    && |colors| == |shop|
    && (forall i :: 0 <= i < |shop| ==> colors[i] <= BLACK)
    && (forall i :: 0 <= i < |shop| ==> (colors[i] == BLACK <==> i in order))
    && (forall i :: 0 <= i < |shop| ==> (colors[i] == GREY <==> OnStack(stack, i)))
  }

  /** Black entries form a component-first order and grey ones are the path on the stack. */
  ghost predicate Searching(shop: seq<ShopEntry>, colors: seq<nat>, stack: seq<Frame>, order: seq<nat>) {
    && FramesFit(shop, stack)
    && Coloured(shop, colors, stack, order)
    && ComponentsFirst(shop, order)
    && (forall d :: 0 <= d < |stack| ==> FrameTaken(shop, stack, order, d))
  }

  function White(colors: seq<nat>): (count: nat)
    ensures count <= |colors|
  {
    if colors == [] then 0
    else (if colors[0] == WHITE then 1 else 0) + White(colors[1..])
  }

  lemma {:induction false} WhiteAfter(colors: seq<nat>, i: nat, c: nat)
    requires i < |colors| && c != WHITE
    ensures White(colors[i := c]) == White(colors) - (if colors[i] == WHITE then 1 else 0)
  {
    if i == 0 {
      assert colors[i := c][1..] == colors[1..];
    } else {
      WhiteAfter(colors[1..], i - 1, c);
      assert colors[i := c][1..] == colors[1..][i - 1 := c];
    }
  }

  lemma FinishFrame(shop: seq<ShopEntry>, colors: seq<nat>, stack: seq<Frame>, order: seq<nat>)
    requires Searching(shop, colors, stack, order) && stack != []
    requires stack[|stack| - 1].1 == |shop[stack[|stack| - 1].0].components|
    ensures stack[|stack| - 1].0 < |colors|
    ensures Searching(shop, colors[stack[|stack| - 1].0 := BLACK], stack[..|stack| - 1], order + [stack[|stack| - 1].0])
  {
    var last := |stack| - 1;
    var top := stack[last].0;
    assert OnStack(stack, top);
    assert colors[top] == GREY;
    assert FrameTaken(shop, stack, order, last);
    OrderGrows(shop, order, top);
    var stack', order' := stack[..last], order + [top];
    assert forall i :: i in order' <==> i == top || i in order;
    FinishColours(shop, colors, stack, order);
    forall d | 0 <= d < last ensures FrameTaken(shop, stack', order', d) {
      assert FrameTaken(shop, stack, order, d);
    }
  }

  lemma FinishColours(shop: seq<ShopEntry>, colors: seq<nat>, stack: seq<Frame>, order: seq<nat>)
    requires FramesFit(shop, stack) && Coloured(shop, colors, stack, order) && stack != []
    ensures Coloured(shop, colors[stack[|stack| - 1].0 := BLACK], stack[..|stack| - 1], order + [stack[|stack| - 1].0])
  {
    var last := |stack| - 1;
    var top := stack[last].0;
    var colors', stack', order' := colors[top := BLACK], stack[..last], order + [top];
    forall i | 0 <= i < |shop|
      ensures colors'[i] == BLACK <==> i in order'
      ensures colors'[i] == GREY <==> OnStack(stack', i)
    {
      assert i in order' <==> i == top || i in order;
      if OnStack(stack, i) && i != top {
        var d :| 0 <= d < |stack| && stack[d].0 == i;
        assert stack'[d].0 == i;
      }
      if OnStack(stack', i) {
        var d :| 0 <= d < |stack'| && stack'[d].0 == i;
        assert stack[d].0 == i;
      }
    }
  }

  /** Taking a component whose recipe is already finished. */
  lemma TakeFinished(shop: seq<ShopEntry>, colors: seq<nat>, stack: seq<Frame>, order: seq<nat>, next: nat)
    requires Searching(shop, colors, stack, order) && stack != []
    requires stack[|stack| - 1].1 < |shop[stack[|stack| - 1].0].components|
    requires IndexOf(shop, shop[stack[|stack| - 1].0].components[stack[|stack| - 1].1]) == Some(next)
    requires next < |colors| && colors[next] == BLACK
    ensures Searching(shop, colors, stack[|stack| - 1 := (stack[|stack| - 1].0, stack[|stack| - 1].1 + 1)], order)
  {
    var last := |stack| - 1;
    var stack' := stack[last := (stack[last].0, stack[last].1 + 1)];
    SameEntries(stack, stack');
    forall d | 0 <= d < |stack'| ensures FrameTaken(shop, stack', order, d) {
      assert FrameTaken(shop, stack, order, d);
    }
  }

  lemma SameEntries(stack: seq<Frame>, other: seq<Frame>)
    requires |stack| == |other|
    requires forall d :: 0 <= d < |stack| ==> stack[d].0 == other[d].0
    ensures forall i: nat :: OnStack(stack, i) <==> OnStack(other, i)
  {
    forall i: nat ensures OnStack(stack, i) <==> OnStack(other, i) {
      if OnStack(stack, i) {
        var d :| 0 <= d < |stack| && stack[d].0 == i;
        assert other[d].0 == i;
      }
    }
  }

  /** Descending into a component nobody has visited. */
  lemma PushFrame(shop: seq<ShopEntry>, colors: seq<nat>, stack: seq<Frame>, order: seq<nat>, next: nat)
    requires Searching(shop, colors, stack, order) && stack != []
    requires stack[|stack| - 1].1 < |shop[stack[|stack| - 1].0].components|
    requires IndexOf(shop, shop[stack[|stack| - 1].0].components[stack[|stack| - 1].1]) == Some(next)
    requires next < |colors| && colors[next] == WHITE
    ensures Searching(shop, colors[next := GREY],
                      stack[|stack| - 1 := (stack[|stack| - 1].0, stack[|stack| - 1].1 + 1)] + [(next, 0)], order)
  {
    var last := |stack| - 1;
    var raised := stack[last := (stack[last].0, stack[last].1 + 1)];
    var stack' := raised + [(next, 0)];
    assert RecipeEdges(shop)(stack[last].0, next);
    assert !OnStack(stack, next);
    assert forall d :: 0 <= d < |stack| ==> stack[d].0 != next;
    PushColours(shop, colors, stack, raised, order, next);
    hide Coloured, IndexOf, OnStack;
    forall d | 0 <= d < |stack'| ensures FrameTaken(shop, stack', order, d) {
      if d < |stack| {
        assert FrameTaken(shop, stack, order, d);
      }
    }
  }

  lemma PushColours(shop: seq<ShopEntry>, colors: seq<nat>, stack: seq<Frame>, raised: seq<Frame>, order: seq<nat>, next: nat)
    requires Coloured(shop, colors, stack, order) && next < |shop| && colors[next] == WHITE
    requires |stack| == |raised| && forall d :: 0 <= d < |stack| ==> stack[d].0 == raised[d].0
    ensures Coloured(shop, colors[next := GREY], raised + [(next, 0)], order)
  {
    SameEntries(stack, raised);
    forall i | 0 <= i < |shop| ensures colors[next := GREY][i] == GREY <==> OnStack(raised + [(next, 0)], i) {
      StackGrows(raised, (next, 0), i);
    }
  }

  lemma StackGrows(stack: seq<Frame>, frame: Frame, i: nat)
    ensures OnStack(stack + [frame], i) <==> OnStack(stack, i) || frame.0 == i
  {
    if OnStack(stack, i) {
      var d :| 0 <= d < |stack| && stack[d].0 == i;
      assert (stack + [frame])[d].0 == i;
    }
    if frame.0 == i {
      assert (stack + [frame])[|stack|].0 == i;
    }
  }

  /** A component that is still on the stack closes a cycle. */
  lemma GreyIsCycle(shop: seq<ShopEntry>, colors: seq<nat>, stack: seq<Frame>, order: seq<nat>, next: nat)
    requires Searching(shop, colors, stack, order) && stack != []
    requires RecipeEdges(shop)(stack[|stack| - 1].0, next)
    requires next < |colors| && colors[next] == GREY
    ensures !Acyclic(RecipeEdges(shop))
  {
    assert OnStack(stack, next);
    var d :| 0 <= d < |stack| && stack[d].0 == next;
    var walk := seq(|stack| - d + 1, k requires 0 <= k <= |stack| - d =>
      if d + k < |stack| then stack[d + k].0 else next);
    forall k | 0 <= k < |walk| - 1 ensures RecipeEdges(shop)(walk[k], walk[k + 1]) {
      if d + k + 1 < |stack| {
        assert RecipeEdges(shop)(stack[d + k].0, stack[d + k + 1].0);
      }
    }
    assert IsWalk(RecipeEdges(shop), walk) && walk[0] == walk[|walk| - 1];
  }

  /** The stack holds different entries, so a white entry always leaves room for one more frame. */
  lemma StackHasRoom(shop: seq<ShopEntry>, colors: seq<nat>, stack: seq<Frame>, order: seq<nat>, next: nat)
    requires Searching(shop, colors, stack, order)
    requires next < |colors| && colors[next] == WHITE
    ensures |stack| < |shop|
  {
    var entries := seq(|stack|, d requires 0 <= d < |stack| => stack[d].0);
    assert next !in entries by {
      if next in entries {
        assert OnStack(stack, next);
      }
    }
    DistinctBound(entries + [next], |shop|);
  }

  // ---------------------------------------------------------------- the search

  /** Nothing is under traversal; `order` lists the entries finished so far. */
  ghost predicate Resting(shop: seq<ShopEntry>, colors: seq<nat>, order: seq<nat>) {
    Searching(shop, colors, [], order)
  }

  lemma StartSearch(shop: seq<ShopEntry>, colors: seq<nat>, order: seq<nat>, root: nat)
    requires Resting(shop, colors, order) && root < |shop| && colors[root] == WHITE
    ensures Searching(shop, colors[root := GREY], [(root, 0)], order)
  {
    PushColours(shop, colors, [], [], order, root);
  }

  /** Explores every entry reachable from `root` that no earlier search finished. */
  method ValidateRecipeFrom(shop: seq<ShopEntry>, root: nat, colors: array<nat>, ghost before: seq<nat>)
    returns (verdict: Verdict, ghost order: seq<nat>)
    requires |shop| <= MAX_SHOP_ITEMS && root < |shop| && UniqueIds(shop)
    requires colors.Length == |shop| && Resting(shop, colors[..], before) && colors[root] == WHITE
    modifies colors
    ensures verdict == Accepted ==> Resting(shop, colors[..], order) && root in order && before <= order
    ensures verdict == Rejected(UnknownComponent) ==> !Resolves(shop)
    ensures verdict == Rejected(CyclicRecipe) ==> !Acyclic(RecipeEdges(shop))
    ensures verdict in {Accepted, Rejected(UnknownComponent), Rejected(CyclicRecipe)}
  {
    hide Searching, Resolves, Acyclic, FramesFit, Coloured, OnStack, White, UniqueIds, IndexOf;
    order := before;
    StartSearch(shop, colors[..], order, root);
    var stack := new Frame[MAX_SHOP_ITEMS](_ => (0, 0));
    var depth := 1;
    ghost var was := colors[..];
    stack[0] := (root, 0);
    colors[root] := GREY;
    assert colors[..] == was[root := GREY] && stack[..depth] == [(root, 0)];
    while depth > 0
      invariant depth <= MAX_SHOP_ITEMS
      invariant fresh(stack) && stack.Length == MAX_SHOP_ITEMS
      invariant Searching(shop, colors[..], stack[..depth], order)
      invariant before <= order && (depth > 0 ==> stack[0].0 == root) && (depth == 0 ==> root in order)
      decreases White(colors[..]), depth, if depth > 0 then Remaining(shop, stack[depth - 1]) else 0
    {
      ghost var colours, frames := colors[..], stack[..depth];
      SearchFits(shop, colours, frames, order);
      var (entry, taken) := stack[depth - 1];
      var components := shop[entry].components;
      if taken == |components| {
        FinishFrame(shop, colours, frames, order);
        WhiteAfter(colours, entry, BLACK);
        order := order + [entry];
        colors[entry] := BLACK;
        depth := depth - 1;
        assert stack[..depth] == frames[..depth];
        assert colors[..] == colours[entry := BLACK];
        continue;
      }
      var component := components[taken];
      stack[depth - 1] := (entry, taken + 1);
      var position := IndexOf(shop, component);
      if position.None? {
        Unresolved(shop, entry, taken);
        return Rejected(UnknownComponent), order;
      }
      var next := position.value;
      if colors[next] == WHITE {
        StackHasRoom(shop, colours, frames, order, next);
        PushFrame(shop, colours, frames, order, next);
        WhiteAfter(colours, next, GREY);
        colors[next] := GREY;
        assert depth < MAX_SHOP_ITEMS;
        stack[depth] := (next, 0);
        depth := depth + 1;
        assert stack[..depth] == frames[|frames| - 1 := (entry, taken + 1)] + [(next, 0)];
        assert colors[..] == colours[next := GREY];
      } else if colors[next] == GREY {
        GreyIsCycle(shop, colours, frames, order, next);
        return Rejected(CyclicRecipe), order;
      } else if colors[next] == BLACK {
        TakeFinished(shop, colours, frames, order, next);
        assert stack[..depth] == frames[|frames| - 1 := (entry, taken + 1)];
      } else {
        assert false;
      }
    }
    assert stack[..depth] == [];
    verdict := Accepted;
  }

  function Remaining(shop: seq<ShopEntry>, frame: Frame): int {
    if frame.0 < |shop| then |shop[frame.0].components| - frame.1 else 0
  }

  lemma SearchFits(shop: seq<ShopEntry>, colors: seq<nat>, stack: seq<Frame>, order: seq<nat>)
    requires Searching(shop, colors, stack, order)
    ensures |colors| == |shop| && forall i :: 0 <= i < |shop| ==> colors[i] <= BLACK
    ensures stack != [] ==>
      var (entry, taken) := stack[|stack| - 1];
      entry < |shop| && taken <= |shop[entry].components| && colors[entry] == GREY
  {
    if stack != [] {
      assert OnStack(stack, stack[|stack| - 1].0);
    }
  }

  lemma Unresolved(shop: seq<ShopEntry>, entry: nat, k: nat)
    requires entry < |shop| && k < |shop[entry].components|
    requires IndexOf(shop, shop[entry].components[k]).None?
    ensures !Resolves(shop)
  {
  }

  /** Whether two entries sell the same item. */
  predicate HasDuplicate(shop: seq<ShopEntry>) {
    exists i, j :: 0 <= j < i < |shop| && shop[j].id == shop[i].id
  }

  /**
   * Accepts a shop exactly when its item ids differ, its components resolve
   * and its component graph is acyclic; the fault names what is wrong.
   */
  method ValidateShopRecipes(shop: seq<ShopEntry>) returns (verdict: Verdict)
    requires |shop| <= MAX_SHOP_ITEMS
    ensures verdict == Accepted <==> SoundShop(shop)
    ensures verdict == Rejected(DuplicateItem) <==> !UniqueIds(shop)
    ensures verdict == Rejected(UnknownComponent) ==> !Resolves(shop)
    ensures verdict == Rejected(CyclicRecipe) ==> !Acyclic(RecipeEdges(shop))
    ensures verdict != Rejected(TraversalState)
  {
    if HasDuplicate(shop) {
      return Rejected(DuplicateItem);
    }
    var colors := new nat[|shop|](_ => WHITE);
    ghost var order := [];
    assert Resting(shop, colors[..], order);
    for root := 0 to |shop|
      invariant Resting(shop, colors[..], order)
      invariant forall i :: 0 <= i < root ==> i in order
    {
      if colors[root] == WHITE {
        ghost var before := order;
        verdict, order := ValidateRecipeFrom(shop, root, colors, order);
        if verdict != Accepted {
          return;
        }
        assert forall i :: i in before ==> i in order;
      } else {
        NotWhiteIsFinished(shop, colors[..], order, root);
      }
    }
    OrderedIsSound(shop, order);
    verdict := Accepted;
  }

  lemma NotWhiteIsFinished(shop: seq<ShopEntry>, colors: seq<nat>, order: seq<nat>, i: nat)
    requires Resting(shop, colors, order) && i < |colors| && colors[i] != WHITE
    ensures i in order
  {
    assert colors[i] == GREY <==> OnStack([], i);
  }
}
