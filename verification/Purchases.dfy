// What a purchase still needs: the bounded stack expansion of a recipe against
// the parts already held, proved against the recursive greedy expansion.
module Purchases {
  import opened Geometry
  import opened Waves
  import opened Recipes

  /** Bag and stash slots one purchase may fill. */
  const MAX_PURCHASE_SLOTS: nat := 15
  const HERO_BAG_SLOTS: nat := 9

  datatype BuyRequirement = BuyRequirement(missingCost: int, missingSlots: nat, firstMissing: Option<ItemId>)

  datatype BuyFault = UnknownItem | CostOverflow | ExpansionLimit

  datatype Outcome = Needs(requirement: BuyRequirement) | Failed(fault: BuyFault)

  // ---------------------------------------------------------------- ranks

  lemma OrderExists(shop: seq<ShopEntry>)
    requires SoundShop(shop)
    ensures exists order :: ComponentsFirst(shop, order) && Covers(shop, order)
  {
    var order := SoundIsOrdered(shop);
  }

  ghost function ShopOrder(shop: seq<ShopEntry>): (order: seq<nat>)
    requires SoundShop(shop)
    ensures ComponentsFirst(shop, order) && Covers(shop, order)
  {
    OrderExists(shop);
    var order :| ComponentsFirst(shop, order) && Covers(shop, order);
    order
  }

  predicate Sold(shop: seq<ShopEntry>, item: ItemId) { IndexOf(shop, item).Some? }

  predicate AllSold(shop: seq<ShopEntry>, items: seq<ItemId>) {
    forall i :: 0 <= i < |items| ==> Sold(shop, items[i])
  }

  function Components(shop: seq<ShopEntry>, item: ItemId): seq<ItemId>
    requires Sold(shop, item)
  {
    shop[IndexOf(shop, item).value].components
  }

  function Cost(shop: seq<ShopEntry>, item: ItemId): int {
    match IndexOf(shop, item) case Some(i) => shop[i].cost case None => 0
  }

  ghost function Rank(shop: seq<ShopEntry>, item: ItemId): (p: nat)
    requires SoundShop(shop) && Sold(shop, item)
    ensures p < |ShopOrder(shop)| && ShopOrder(shop)[p] == IndexOf(shop, item).value
  {
    assert IndexOf(shop, item).value in ShopOrder(shop);
    var p: nat :| p < |ShopOrder(shop)| && ShopOrder(shop)[p] == IndexOf(shop, item).value;
    p
  }

  ghost predicate RanksBelow(shop: seq<ShopEntry>, items: seq<ItemId>, bound: nat)
    requires SoundShop(shop) && AllSold(shop, items)
  {
    forall i :: 0 <= i < |items| ==> Rank(shop, items[i]) < bound
  }

  /** One more than the largest rank in the list. */
  ghost function Height(shop: seq<ShopEntry>, items: seq<ItemId>): (h: nat)
    requires SoundShop(shop) && AllSold(shop, items)
    decreases |items|
  {
    if items == [] then 0
    else
      var rest := Height(shop, items[1..]);
      var first := Rank(shop, items[0]) + 1;
      if first > rest then first else rest
  }

  lemma {:induction false} HeightIsLeast(shop: seq<ShopEntry>, items: seq<ItemId>, bound: nat)
    requires SoundShop(shop) && AllSold(shop, items) && RanksBelow(shop, items, bound)
    ensures Height(shop, items) <= bound
    decreases |items|
  {
    hide SoundShop;
    if items != [] {
      assert Rank(shop, items[0]) < bound;
      forall i | 0 <= i < |items[1..]| ensures Rank(shop, items[1..][i]) < bound {
        assert items[1..][i] == items[i + 1];
      }
      HeightIsLeast(shop, items[1..], bound);
    }
  }

  lemma RankIsPlace(shop: seq<ShopEntry>, item: ItemId, q: nat)
    requires SoundShop(shop) && Sold(shop, item)
    requires q < |ShopOrder(shop)| && ShopOrder(shop)[q] == IndexOf(shop, item).value
    ensures Rank(shop, item) == q
  {
  }

  lemma ComponentsRankLower(shop: seq<ShopEntry>, item: ItemId)
    requires SoundShop(shop) && Sold(shop, item)
    ensures AllSold(shop, Components(shop, item))
    ensures Height(shop, Components(shop, item)) <= Rank(shop, item)
  {
    hide SoundShop;
    var order, p := ShopOrder(shop), Rank(shop, item);
    var parts := Components(shop, item);
    assert Closed(shop, order[p], order[..p]);
    forall k | 0 <= k < |parts| ensures Sold(shop, parts[k]) && Rank(shop, parts[k]) < p {
      var j := IndexOf(shop, parts[k]).value;
      var q: nat :| q < p && order[q] == j;
      RankIsPlace(shop, parts[k], q);
    }
    HeightIsLeast(shop, parts, p);
  }

  // ---------------------------------------------------------------- the recursive expansion

  /** Leaves that have to be bought, in purchase order, and what is left of the held parts. */
  datatype Shortage = Shortage(leaves: seq<ItemId>, held: multiset<ItemId>)

  /** One item: a held part is used up, a leaf is missing, a recipe is bought part by part. */
  ghost function MissingOne(shop: seq<ShopEntry>, item: ItemId, held: multiset<ItemId>): Shortage
    requires SoundShop(shop) && Sold(shop, item)
    decreases Rank(shop, item) + 1, 0
  {
    if item in held then Shortage([], held - multiset{item})
    else if Components(shop, item) == [] then Shortage([item], held)
    else (
      ComponentsRankLower(shop, item);
      Missing(shop, Components(shop, item), held)
    )
  }

  /** The listed items one after the other, each against what the earlier ones left. */
  ghost function Missing(shop: seq<ShopEntry>, items: seq<ItemId>, held: multiset<ItemId>): Shortage
    requires SoundShop(shop) && AllSold(shop, items)
    decreases Height(shop, items), |items| + 1
  {
    if items == [] then Shortage([], held)
    else
      var first := MissingOne(shop, items[0], held);
      HeightOfTail(shop, items);
      var rest := Missing(shop, items[1..], first.held);
      Shortage(first.leaves + rest.leaves, rest.held)
  }

  lemma HeightOfTail(shop: seq<ShopEntry>, items: seq<ItemId>)
    requires SoundShop(shop) && AllSold(shop, items) && items != []
    ensures Height(shop, items[1..]) <= Height(shop, items)
    ensures Rank(shop, items[0]) + 1 <= Height(shop, items)
  {
  }

  /** Buying a concatenation is buying its parts in turn. */
  lemma {:induction false} MissingConcat(shop: seq<ShopEntry>, a: seq<ItemId>, b: seq<ItemId>, held: multiset<ItemId>)
    requires SoundShop(shop) && AllSold(shop, a) && AllSold(shop, b)
    ensures AllSold(shop, a + b)
    ensures var first := Missing(shop, a, held);
            var rest := Missing(shop, b, first.held);
            Missing(shop, a + b, held) == Shortage(first.leaves + rest.leaves, rest.held)
    decreases |a|
  {
    hide SoundShop, MissingOne;
    if a == [] {
      assert a + b == b;
    } else {
      var head := MissingOne(shop, a[0], held);
      assert (a + b)[1..] == a[1..] + b;
      MissingConcat(shop, a[1..], b, head.held);
    }
  }

  /** All leaves of the listed items, as bought by a player who holds nothing. */
  ghost function Whole(shop: seq<ShopEntry>, items: seq<ItemId>): multiset<ItemId>
    requires SoundShop(shop) && AllSold(shop, items)
  {
    multiset(Missing(shop, items, multiset{}).leaves)
  }

  /** The expansion only takes from the parts held. */
  lemma {:induction false} HeldShrinks(shop: seq<ShopEntry>, items: seq<ItemId>, held: multiset<ItemId>)
    requires SoundShop(shop) && AllSold(shop, items)
    ensures Missing(shop, items, held).held <= held
    decreases Height(shop, items), |items| + 1
  {
    hide SoundShop;
    if items != [] {
      HeightOfTail(shop, items);
      if items[0] !in held && Components(shop, items[0]) != [] {
        ComponentsRankLower(shop, items[0]);
        HeldShrinks(shop, Components(shop, items[0]), held);
      }
      HeldShrinks(shop, items[1..], MissingOne(shop, items[0], held).held);
    }
  }

  lemma WholeOfConcat(shop: seq<ShopEntry>, a: seq<ItemId>, b: seq<ItemId>)
    requires SoundShop(shop) && AllSold(shop, a) && AllSold(shop, b)
    ensures AllSold(shop, a + b) && Whole(shop, a + b) == Whole(shop, a) + Whole(shop, b)
  {
    hide SoundShop, Missing;
    MissingConcat(shop, a, b, multiset{});
    HeldShrinks(shop, a, multiset{});
    assert Missing(shop, a, multiset{}).held == multiset{};
  }

  lemma WholeOfOne(shop: seq<ShopEntry>, item: ItemId)
    requires SoundShop(shop) && Sold(shop, item)
    ensures AllSold(shop, Components(shop, item))
    ensures Whole(shop, [item])
         == if Components(shop, item) == [] then multiset{item} else Whole(shop, Components(shop, item))
  {
    hide SoundShop;
    ComponentsRankLower(shop, item);
    var one := MissingOne(shop, item, multiset{});
    assert [item][1..] == [] && one.leaves + [] == one.leaves;
    assert Missing(shop, [item], multiset{}).leaves == one.leaves;
  }

  /**
   * Conservation: the missing leaves together with the leaves of the parts used
   * up are exactly the leaves of the listed items, and the parts used up are
   * exactly those gone from the bag.
   */
  lemma {:induction false} MissingConserves(shop: seq<ShopEntry>, items: seq<ItemId>, held: multiset<ItemId>)
    returns (used: seq<ItemId>)
    requires SoundShop(shop) && AllSold(shop, items)
    ensures AllSold(shop, used)
    ensures held == Missing(shop, items, held).held + multiset(used)
    ensures Whole(shop, items) == multiset(Missing(shop, items, held).leaves) + Whole(shop, used)
    decreases Height(shop, items), |items| + 1
  {
    hide SoundShop, Whole;
    if items == [] {
      used := [];
      WholeOfNothing(shop);
    } else {
      HeightOfTail(shop, items);
      var one := OneConserves(shop, items[0], held);
      var rest := MissingConserves(shop, items[1..], MissingOne(shop, items[0], held).held);
      used := one + rest;
      PartsConserve(shop, items, held, one, rest);
    }
  }

  /** What the first item and the others conserve, together they conserve. */
  lemma PartsConserve(shop: seq<ShopEntry>, items: seq<ItemId>, held: multiset<ItemId>, one: seq<ItemId>, rest: seq<ItemId>)
    requires SoundShop(shop) && AllSold(shop, items) && items != [] && AllSold(shop, one) && AllSold(shop, rest)
    requires var first := MissingOne(shop, items[0], held);
      var others := Missing(shop, items[1..], first.held);
      && held == first.held + multiset(one)
      && first.held == others.held + multiset(rest)
      && Whole(shop, [items[0]]) == multiset(first.leaves) + Whole(shop, one)
      && Whole(shop, items[1..]) == multiset(others.leaves) + Whole(shop, rest)
    ensures AllSold(shop, one + rest)
    ensures held == Missing(shop, items, held).held + multiset(one + rest)
    ensures Whole(shop, items) == multiset(Missing(shop, items, held).leaves) + Whole(shop, one + rest)
  {
    hide SoundShop, Whole, Missing, MissingOne;
    MissingSplits(shop, items, held);
    WholeSplits(shop, items);
    WholeOfConcat(shop, one, rest);
    hide AllSold;
    var first := MissingOne(shop, items[0], held);
    var others := Missing(shop, items[1..], first.held);
    BagsConserve(held, first.held, others.held, one, rest);
    LeavesConserve(Whole(shop, [items[0]]), Whole(shop, items[1..]), first.leaves, others.leaves,
                   Whole(shop, one), Whole(shop, rest));
  }

  lemma WholeSplits(shop: seq<ShopEntry>, items: seq<ItemId>)
    requires SoundShop(shop) && AllSold(shop, items) && items != []
    ensures Whole(shop, items) == Whole(shop, [items[0]]) + Whole(shop, items[1..])
  {
    hide SoundShop, Whole;
    assert items == [items[0]] + items[1..];
    WholeOfConcat(shop, [items[0]], items[1..]);
  }

  lemma BagsConserve(held: multiset<ItemId>, first: multiset<ItemId>, others: multiset<ItemId>,
                     one: seq<ItemId>, rest: seq<ItemId>)
    requires held == first + multiset(one) && first == others + multiset(rest)
    ensures held == others + multiset(one + rest)
  {
    JoinedMultiset(one, rest);
    BagsAdd(held, first, others, multiset(one), multiset(rest));
  }

  lemma LeavesConserve(head: multiset<ItemId>, tail: multiset<ItemId>, first: seq<ItemId>, others: seq<ItemId>,
                       one: multiset<ItemId>, rest: multiset<ItemId>)
    requires head == multiset(first) + one && tail == multiset(others) + rest
    ensures head + tail == multiset(first + others) + (one + rest)
  {
    JoinedMultiset(first, others);
    Regrouped(multiset(first), one, multiset(others), rest);
  }

  lemma JoinedMultiset(a: seq<ItemId>, b: seq<ItemId>)
    ensures multiset(a + b) == multiset(a) + multiset(b)
  {
  }

  lemma BagsAdd(held: multiset<ItemId>, first: multiset<ItemId>, others: multiset<ItemId>,
                one: multiset<ItemId>, rest: multiset<ItemId>)
    requires held == first + one && first == others + rest
    ensures held == others + (one + rest)
  {
  }

  lemma Regrouped(a: multiset<ItemId>, b: multiset<ItemId>, c: multiset<ItemId>, d: multiset<ItemId>)
    ensures (a + b) + (c + d) == (a + c) + (b + d)
  {
  }

  lemma MissingSplits(shop: seq<ShopEntry>, items: seq<ItemId>, held: multiset<ItemId>)
    requires SoundShop(shop) && AllSold(shop, items) && items != []
    ensures var first := MissingOne(shop, items[0], held);
      var others := Missing(shop, items[1..], first.held);
      Missing(shop, items, held) == Shortage(first.leaves + others.leaves, others.held)
  {
    hide SoundShop, MissingOne;
  }

  lemma {:induction false} OneConserves(shop: seq<ShopEntry>, item: ItemId, held: multiset<ItemId>)
    returns (used: seq<ItemId>)
    requires SoundShop(shop) && Sold(shop, item)
    ensures AllSold(shop, used)
    ensures held == MissingOne(shop, item, held).held + multiset(used)
    ensures Whole(shop, [item]) == multiset(MissingOne(shop, item, held).leaves) + Whole(shop, used)
    decreases Rank(shop, item) + 1, 0
  {
    hide SoundShop, Whole, Missing;
    WholeOfOne(shop, item);
    WholeOfNothing(shop);
    if item in held {
      used := [item];
    } else if Components(shop, item) == [] {
      used := [];
    } else {
      ComponentsRankLower(shop, item);
      used := MissingConserves(shop, Components(shop, item), held);
    }
  }

  lemma WholeOfNothing(shop: seq<ShopEntry>)
    requires SoundShop(shop)
    ensures Whole(shop, []) == multiset{}
  {
  }

  // ---------------------------------------------------------------- pricing the missing leaves

  ghost function Price(shop: seq<ShopEntry>, leaves: seq<ItemId>): int {
    if leaves == [] then 0 else Price(shop, leaves[..|leaves| - 1]) + Cost(shop, leaves[|leaves| - 1])
  }

  /** Every running total up to `count` leaves stays within 32 bits. */
  ghost predicate PricesFit(shop: seq<ShopEntry>, leaves: seq<ItemId>, count: nat)
    requires count <= |leaves|
  {
    forall k :: 0 <= k <= count ==> FitsI32(Price(shop, leaves[..k]))
  }

  /** Leaves that enter the total: counting stops one past the slots a purchase can fill. */
  function Counted(leaves: seq<ItemId>): (k: nat)
    ensures k <= |leaves|
  {
    if |leaves| <= MAX_PURCHASE_SLOTS then |leaves| else MAX_PURCHASE_SLOTS + 1
  }

  ghost function Requirement(shop: seq<ShopEntry>, leaves: seq<ItemId>): Outcome {
    var k := Counted(leaves);
    if PricesFit(shop, leaves, k)
    then Needs(BuyRequirement(Price(shop, leaves[..k]), k, if k == 0 then None else Some(leaves[0])))
    else Failed(CostOverflow)
  }

  // ---------------------------------------------------------------- the stack expansion

  function Reversed(s: seq<ItemId>): (r: seq<ItemId>)
    ensures |r| == |s| && forall i :: 0 <= i < |s| ==> r[i] == s[|s| - 1 - i]
  {
    seq(|s|, i requires 0 <= i < |s| => s[|s| - 1 - i])
  }

  function EdgeCount(shop: seq<ShopEntry>): nat {
    if shop == [] then 0 else EdgeCount(shop[..|shop| - 1]) + |shop[|shop| - 1].components|
  }

  /** First place of a value, as a scan finds it. */
  function PositionOf(items: seq<ItemId>, item: ItemId): (r: Option<nat>)
    ensures r.Some? ==> r.value < |items| && items[r.value] == item
    ensures r.None? <==> item !in items
  {
    if items == [] then None
    else if items[0] == item then Some(0)
    else match PositionOf(items[1..], item) case None => None case Some(i) => Some(i + 1)
  }

  /** Progress of the expansion towards the recursive result. */
  ghost predicate Expanding(shop: seq<ShopEntry>, goal: Shortage, found: seq<ItemId>, stack: seq<ItemId>, held: seq<ItemId>)
    requires SoundShop(shop)
  {
    && AllSold(shop, Reversed(stack))
    && var rest := Missing(shop, Reversed(stack), multiset(held));
       goal == Shortage(found + rest.leaves, rest.held)
  }

  lemma PopIsHead(stack: seq<ItemId>)
    requires stack != []
    ensures Reversed(stack) == [stack[|stack| - 1]] + Reversed(stack[..|stack| - 1])
    ensures Reversed(stack)[1..] == Reversed(stack[..|stack| - 1])
  {
  }

  lemma PushIsPrefix(stack: seq<ItemId>, parts: seq<ItemId>)
    ensures Reversed(stack + Reversed(parts)) == parts + Reversed(stack)
  {
  }

  /** Popping a held part or a leaf. */
  lemma PopTerminal(shop: seq<ShopEntry>, goal: Shortage, found: seq<ItemId>, stack: seq<ItemId>, held: seq<ItemId>, left: seq<ItemId>)
    requires SoundShop(shop) && Expanding(shop, goal, found, stack, held) && stack != []
    requires var item := stack[|stack| - 1];
      if item in held then multiset(left) == multiset(held) - multiset{item}
      else left == held && Sold(shop, item) && Components(shop, item) == []
    ensures var item := stack[|stack| - 1];
      Expanding(shop, goal, if item in held then found else found + [item], stack[..|stack| - 1], left)
  {
    hide SoundShop;
    var item := stack[|stack| - 1];
    PopIsHead(stack);
    var rest := Missing(shop, Reversed(stack[..|stack| - 1]), multiset(left));
    assert Missing(shop, Reversed(stack), multiset(held))
      == Shortage((if item in held then [] else [item]) + rest.leaves, rest.held);
    assert found + ([item] + rest.leaves) == found + [item] + rest.leaves;
    assert [] + rest.leaves == rest.leaves;
  }

  /** Replacing a recipe by its components. */
  lemma PopComposite(shop: seq<ShopEntry>, goal: Shortage, found: seq<ItemId>, stack: seq<ItemId>, held: seq<ItemId>)
    requires SoundShop(shop) && Expanding(shop, goal, found, stack, held) && stack != []
    requires stack[|stack| - 1] !in held && Sold(shop, stack[|stack| - 1])
    requires Components(shop, stack[|stack| - 1]) != []
    ensures Expanding(shop, goal, found, stack[..|stack| - 1] + Reversed(Components(shop, stack[|stack| - 1])), held)
  {
    hide SoundShop, Missing;
    var item, below := stack[|stack| - 1], stack[..|stack| - 1];
    PopIsHead(stack);
    AllSoldTail(shop, Reversed(stack));
    ExpandHead(shop, item, Reversed(below), multiset(held));
    PushIsPrefix(below, Components(shop, item));
  }

  lemma AllSoldTail(shop: seq<ShopEntry>, items: seq<ItemId>)
    requires AllSold(shop, items) && items != []
    ensures AllSold(shop, items[1..])
  {
  }

  /** A recipe at the head may be replaced by its components. */
  lemma ExpandHead(shop: seq<ShopEntry>, item: ItemId, tail: seq<ItemId>, held: multiset<ItemId>)
    requires SoundShop(shop) && Sold(shop, item) && AllSold(shop, tail)
    requires item !in held && Components(shop, item) != []
    ensures AllSold(shop, [item] + tail) && AllSold(shop, Components(shop, item) + tail)
    ensures Missing(shop, [item] + tail, held) == Missing(shop, Components(shop, item) + tail, held)
  {
    hide SoundShop;
    ComponentsRankLower(shop, item);
    MissingConcat(shop, Components(shop, item), tail, held);
    assert ([item] + tail)[1..] == tail;
  }

  /** Composite pops in a row walk down the component graph. */
  ghost predicate Descent(shop: seq<ShopEntry>, run: seq<nat>, stack: seq<ItemId>) {
    && IsWalk(RecipeEdges(shop), run)
    && (forall i :: 0 <= i < |run| ==> run[i] < |shop|)
    && (run != [] ==> stack != [] && stack[|stack| - 1] in shop[run[|run| - 1]].components)
  }

  lemma DescentGrows(shop: seq<ShopEntry>, run: seq<nat>, stack: seq<ItemId>)
    requires SoundShop(shop) && Descent(shop, run, stack) && stack != []
    requires Sold(shop, stack[|stack| - 1]) && Components(shop, stack[|stack| - 1]) != []
    ensures Descent(shop, run + [IndexOf(shop, stack[|stack| - 1]).value],
                    stack[..|stack| - 1] + Reversed(Components(shop, stack[|stack| - 1])))
    ensures |run| + 1 <= |shop|
  {
    hide IndexOf, Reversed;
    var entry := IndexOf(shop, stack[|stack| - 1]).value;
    var parts := shop[entry].components;
    WalkGrows(shop, run, entry);
    AcyclicWalkIsShort(RecipeEdges(shop), run + [entry], |shop|);
    hide SoundShop;
    PushedTop(stack[..|stack| - 1], parts);
  }

  lemma WalkGrows(shop: seq<ShopEntry>, run: seq<nat>, entry: nat)
    requires IsWalk(RecipeEdges(shop), run) && entry < |shop|
    requires forall i :: 0 <= i < |run| ==> run[i] < |shop|
    requires run != [] ==> shop[entry].id in shop[run[|run| - 1]].components
    ensures IsWalk(RecipeEdges(shop), run + [entry])
    ensures forall i :: 0 <= i < |run| + 1 ==> (run + [entry])[i] < |shop|
  {
    var longer := run + [entry];
    forall i | 0 <= i < |longer| - 1 ensures RecipeEdges(shop)(longer[i], longer[i + 1]) {
      if i < |run| - 1 {
        assert RecipeEdges(shop)(run[i], run[i + 1]);
      }
    }
  }

  lemma PushedTop(below: seq<ItemId>, parts: seq<ItemId>)
    requires parts != []
    ensures var stack := below + Reversed(parts); stack != [] && stack[|stack| - 1] == parts[0]
  {
  }

  /** The limit leaves room for every pop: each terminal pop follows at most `|shop|` composite ones. */
  lemma LimitSuffices(entries: nat, edges: nat, held: nat, terminal: nat, run: nat, pops: nat)
    requires terminal <= held + MAX_PURCHASE_SLOTS && run <= entries
    requires pops <= terminal * (entries + 1) + run
    ensures pops < (MAX_PURCHASE_SLOTS + held + 1) * (entries + edges + 1)
  {
    MulMonotone(terminal, held + MAX_PURCHASE_SLOTS, entries + 1);
    MulMonotone(entries + 1, entries + edges + 1, MAX_PURCHASE_SLOTS + held + 1);
  }

  /** Pop count after a terminal pop that ends a run of composite ones. */
  lemma RunEnds(entries: nat, terminal: nat, run: nat, pops: nat)
    requires run <= entries && pops <= terminal * (entries + 1) + run
    ensures pops + 1 <= (terminal + 1) * (entries + 1) + 0
  {
  }

  /** The leaves found so far are counted and priced. */
  ghost predicate Priced(shop: seq<ShopEntry>, found: seq<ItemId>, requirement: BuyRequirement) {
    && |found| <= MAX_PURCHASE_SLOTS
    && PricesFit(shop, found, |found|)
    && requirement == BuyRequirement(Price(shop, found), |found|, if found == [] then None else Some(found[0]))
  }

  lemma PriceOneMore(shop: seq<ShopEntry>, found: seq<ItemId>, item: ItemId)
    requires PricesFit(shop, found, |found|)
    ensures Price(shop, found + [item]) == Price(shop, found) + Cost(shop, item)
    ensures PricesFit(shop, found + [item], |found| + 1) <==> FitsI32(Price(shop, found) + Cost(shop, item))
  {
    var more := found + [item];
    assert more[..|found|] == found && more[..|found| + 1] == more;
    assert forall k :: 0 <= k <= |found| ==> more[..k] == found[..k];
  }

  /** A total that overflows on a prefix overflows for the whole list. */
  lemma OverflowStays(shop: seq<ShopEntry>, found: seq<ItemId>, rest: seq<ItemId>)
    requires found != [] && |found| <= MAX_PURCHASE_SLOTS + 1 && !PricesFit(shop, found, |found|)
    ensures Requirement(shop, found + rest) == Failed(CostOverflow)
  {
    var all := found + rest;
    var k :| 0 <= k <= |found| && !FitsI32(Price(shop, found[..k]));
    assert all[..k] == found[..k];
    assert k <= Counted(all);
  }

  lemma CountedPrefix(shop: seq<ShopEntry>, found: seq<ItemId>, rest: seq<ItemId>)
    requires PricesFit(shop, found, |found|)
    requires |found| == MAX_PURCHASE_SLOTS + 1 || (|found| <= MAX_PURCHASE_SLOTS && rest == [])
    ensures Requirement(shop, found + rest)
         == Needs(BuyRequirement(Price(shop, found), |found|, if found == [] then None else Some(found[0])))
  {
    var all := found + rest;
    assert all[..|found|] == found;
    assert forall k :: 0 <= k <= |found| ==> all[..k] == found[..k];
  }

  /** Ghost history of one expansion: leaves found, current composite run, terminal pops. */
  datatype Trail = Trail(found: seq<ItemId>, run: seq<nat>, terminal: nat)

  /** Loop invariant of the expansion after `pops` pops. */
  ghost predicate Progress(shop: seq<ShopEntry>, goal: Shortage, parts: nat, trail: Trail,
                           stack: seq<ItemId>, held: seq<ItemId>, requirement: BuyRequirement, pops: nat)
    requires SoundShop(shop)
  {
    && Expanding(shop, goal, trail.found, stack, held)
    && Priced(shop, trail.found, requirement)
    && Descent(shop, trail.run, stack) && |trail.run| <= |shop|
    && |held| <= parts && trail.terminal == parts - |held| + |trail.found|
    && pops <= trail.terminal * (|shop| + 1) + |trail.run|
  }

  lemma ProgressStarts(shop: seq<ShopEntry>, goal: Shortage, stack: seq<ItemId>, held: seq<ItemId>)
    requires SoundShop(shop) && Expanding(shop, goal, [], stack, held)
    ensures Progress(shop, goal, |held|, Trail([], [], 0), stack, held, BuyRequirement(0, 0, None), 0)
  {
  }

  lemma ProgressFinishes(shop: seq<ShopEntry>, goal: Shortage, parts: nat, trail: Trail,
                         held: seq<ItemId>, requirement: BuyRequirement, pops: nat)
    requires SoundShop(shop) && Progress(shop, goal, parts, trail, [], held, requirement, pops)
    ensures Requirement(shop, goal.leaves) == Needs(requirement)
  {
    EmptyStack(shop, goal, trail.found, held);
    CountedPrefix(shop, trail.found, []);
  }

  lemma ProgressIsShort(shop: seq<ShopEntry>, goal: Shortage, parts: nat, trail: Trail,
                        stack: seq<ItemId>, held: seq<ItemId>, requirement: BuyRequirement, pops: nat)
    requires SoundShop(shop) && Progress(shop, goal, parts, trail, stack, held, requirement, pops)
    ensures pops < (MAX_PURCHASE_SLOTS + parts + 1) * (|shop| + EdgeCount(shop) + 1)
    ensures stack != [] ==> Sold(shop, stack[|stack| - 1])
  {
    hide SoundShop, Expanding, Descent, PricesFit;
    LimitSuffices(|shop|, EdgeCount(shop), parts, trail.terminal, |trail.run|, pops);
    if stack != [] {
      TopIsSold(shop, goal, trail.found, stack, held);
    }
  }

  lemma HeldStep(shop: seq<ShopEntry>, goal: Shortage, parts: nat, trail: Trail,
                 stack: seq<ItemId>, held: seq<ItemId>, requirement: BuyRequirement, pops: nat, i: nat)
    requires SoundShop(shop) && Progress(shop, goal, parts, trail, stack, held, requirement, pops)
    requires stack != [] && i < |held| && held[i] == stack[|stack| - 1]
    ensures Progress(shop, goal, parts, trail.(run := [], terminal := trail.terminal + 1),
                     stack[..|stack| - 1], held[..i] + held[i + 1..], requirement, pops + 1)
  {
    hide SoundShop, Expanding, Priced;
    RemoveOne(held, i);
    PopTerminal(shop, goal, trail.found, stack, held, held[..i] + held[i + 1..]);
    RunEnds(|shop|, trail.terminal, |trail.run|, pops);
  }

  lemma CompositeStep(shop: seq<ShopEntry>, goal: Shortage, parts: nat, trail: Trail,
                      stack: seq<ItemId>, held: seq<ItemId>, requirement: BuyRequirement, pops: nat, entry: nat)
    requires SoundShop(shop) && Progress(shop, goal, parts, trail, stack, held, requirement, pops)
    requires stack != [] && stack[|stack| - 1] !in held
    requires IndexOf(shop, stack[|stack| - 1]) == Some(entry) && shop[entry].components != []
    ensures Progress(shop, goal, parts, trail.(run := trail.run + [entry]),
                     stack[..|stack| - 1] + Reversed(shop[entry].components), held, requirement, pops + 1)
  {
    hide SoundShop, Expanding, Priced, Descent;
    PopComposite(shop, goal, trail.found, stack, held);
    DescentGrows(shop, trail.run, stack);
  }

  /** A leaf either overflows the total, fills one slot too many, or is added to the requirement. */
  lemma LeafStep(shop: seq<ShopEntry>, goal: Shortage, parts: nat, trail: Trail,
                 stack: seq<ItemId>, held: seq<ItemId>, requirement: BuyRequirement, pops: nat, entry: nat)
    returns (next: BuyRequirement)
    requires SoundShop(shop) && Progress(shop, goal, parts, trail, stack, held, requirement, pops)
    requires stack != [] && stack[|stack| - 1] !in held
    requires IndexOf(shop, stack[|stack| - 1]) == Some(entry) && shop[entry].components == []
    ensures next == BuyRequirement(requirement.missingCost + shop[entry].cost, requirement.missingSlots + 1,
      if requirement.firstMissing.None? then Some(stack[|stack| - 1]) else requirement.firstMissing)
    ensures !FitsI32(next.missingCost) ==> Requirement(shop, goal.leaves) == Failed(CostOverflow)
    ensures FitsI32(next.missingCost) ==>
      if next.missingSlots > MAX_PURCHASE_SLOTS then Requirement(shop, goal.leaves) == Needs(next)
      else Progress(shop, goal, parts,
                    trail.(found := trail.found + [stack[|stack| - 1]], run := [], terminal := trail.terminal + 1),
                    stack[..|stack| - 1], held, next, pops + 1)
  {
    hide SoundShop, Expanding, PricesFit, Requirement;
    var item := stack[|stack| - 1];
    var found := trail.found + [item];
    next := BuyRequirement(requirement.missingCost + shop[entry].cost, requirement.missingSlots + 1,
      if requirement.firstMissing.None? then Some(item) else requirement.firstMissing);
    PopTerminal(shop, goal, trail.found, stack, held, held);
    PriceOneMore(shop, trail.found, item);
    RunEnds(|shop|, trail.terminal, |trail.run|, pops);
    GoalExtends(shop, goal, found, stack[..|stack| - 1], held);
    if !FitsI32(next.missingCost) {
      OverflowStays(shop, found, goal.leaves[|found|..]);
    } else if next.missingSlots > MAX_PURCHASE_SLOTS {
      CountedPrefix(shop, found, goal.leaves[|found|..]);
    }
  }

  /** Expands the stack, top first, until it is empty or the purchase needs too many slots. */
  method ExpandMissingParts(shop: seq<ShopEntry>, heldBefore: seq<ItemId>, stackBefore: seq<ItemId>, limit: nat,
                            ghost goal: Shortage)
    returns (outcome: Outcome)
    requires SoundShop(shop) && Expanding(shop, goal, [], stackBefore, heldBefore)
    requires limit == (MAX_PURCHASE_SLOTS + |heldBefore| + 1) * (|shop| + EdgeCount(shop) + 1)
    ensures outcome == Requirement(shop, goal.leaves)
  {
    hide SoundShop, Expanding, Requirement, Progress;
    var held, stack := heldBefore, stackBefore;
    var requirement := BuyRequirement(0, 0, None);
    ghost var trail := Trail([], [], 0);
    ProgressStarts(shop, goal, stack, held);
    for pops := 0 to limit
      invariant Progress(shop, goal, |heldBefore|, trail, stack, held, requirement, pops)
    {
      if stack == [] {
        ProgressFinishes(shop, goal, |heldBefore|, trail, held, requirement, pops);
        return Needs(requirement);
      }
      ProgressIsShort(shop, goal, |heldBefore|, trail, stack, held, requirement, pops);
      ghost var was := stack;
      var item := stack[|stack| - 1];
      stack := stack[..|stack| - 1];
      var index := PositionOf(held, item);
      if index.Some? {
        HeldStep(shop, goal, |heldBefore|, trail, was, held, requirement, pops, index.value);
        held := held[..index.value] + held[index.value + 1..];
        trail := trail.(run := [], terminal := trail.terminal + 1);
        continue;
      }
      var entry := IndexOf(shop, item).value;
      if shop[entry].components == [] {
        ghost var next := LeafStep(shop, goal, |heldBefore|, trail, was, held, requirement, pops, entry);
        var total := requirement.missingCost + shop[entry].cost;
        if !FitsI32(total) {
          return Failed(CostOverflow);
        }
        requirement := BuyRequirement(total, requirement.missingSlots + 1,
          if requirement.firstMissing.None? then Some(item) else requirement.firstMissing);
        if requirement.missingSlots > MAX_PURCHASE_SLOTS {
          return Needs(requirement);
        }
        trail := trail.(found := trail.found + [item], run := [], terminal := trail.terminal + 1);
        continue;
      }
      CompositeStep(shop, goal, |heldBefore|, trail, was, held, requirement, pops, entry);
      trail := trail.(run := trail.run + [entry]);
      stack := stack + Reversed(shop[entry].components);
    }
    ProgressIsShort(shop, goal, |heldBefore|, trail, stack, held, requirement, limit);
    assert false;
  }

  /** What the purchase of one shop item needs beyond the parts held. */
  method MissingBuyRequirement(shop: seq<ShopEntry>, item: ItemId, held: seq<ItemId>) returns (outcome: Outcome)
    requires SoundShop(shop)
    ensures !Sold(shop, item) ==> outcome == Failed(UnknownItem)
    ensures Sold(shop, item) && Components(shop, item) == [] ==>
      outcome == Needs(BuyRequirement(Cost(shop, item), 1, Some(item)))
    ensures Sold(shop, item) && Components(shop, item) != [] ==>
      && AllSold(shop, Components(shop, item))
      && outcome == Requirement(shop, Missing(shop, Components(shop, item), multiset(held)).leaves)
    ensures outcome != Failed(ExpansionLimit)
  {
    hide SoundShop, Missing, Expanding, Requirement;
    var position := IndexOf(shop, item);
    if position.None? {
      return Failed(UnknownItem);
    }
    var root := shop[position.value];
    if root.components == [] {
      return Needs(BuyRequirement(root.cost, 1, Some(item)));
    }
    var stack := Reversed(root.components);
    ComponentsRankLower(shop, item);
    ghost var goal := Missing(shop, root.components, multiset(held));
    StartExpanding(shop, root.components, held);
    RequirementIsNoLimit(shop, goal.leaves);
    outcome := ExpandMissingParts(shop, held, stack,
      (MAX_PURCHASE_SLOTS + |held| + 1) * (|shop| + EdgeCount(shop) + 1), goal);
  }

  lemma StartExpanding(shop: seq<ShopEntry>, parts: seq<ItemId>, held: seq<ItemId>)
    requires SoundShop(shop) && AllSold(shop, parts)
    ensures Expanding(shop, Missing(shop, parts, multiset(held)), [], Reversed(parts), held)
  {
    assert Reversed(Reversed(parts)) == parts;
    var goal := Missing(shop, parts, multiset(held));
    assert goal.leaves == [] + goal.leaves;
  }

  lemma RequirementIsNoLimit(shop: seq<ShopEntry>, leaves: seq<ItemId>)
    ensures Requirement(shop, leaves) in {Failed(CostOverflow)} || Requirement(shop, leaves).Needs?
  {
  }

  lemma EmptyStack(shop: seq<ShopEntry>, goal: Shortage, found: seq<ItemId>, held: seq<ItemId>)
    requires SoundShop(shop) && Expanding(shop, goal, found, [], held)
    ensures goal.leaves == found + []
  {
  }

  lemma GoalExtends(shop: seq<ShopEntry>, goal: Shortage, found: seq<ItemId>, stack: seq<ItemId>, held: seq<ItemId>)
    requires SoundShop(shop) && Expanding(shop, goal, found, stack, held)
    ensures |found| <= |goal.leaves| && goal.leaves == found + goal.leaves[|found|..]
  {
  }

  lemma TopIsSold(shop: seq<ShopEntry>, goal: Shortage, found: seq<ItemId>, stack: seq<ItemId>, held: seq<ItemId>)
    requires SoundShop(shop) && Expanding(shop, goal, found, stack, held) && stack != []
    ensures Sold(shop, stack[|stack| - 1])
  {
    assert Reversed(stack)[0] == stack[|stack| - 1];
  }

  lemma RemoveOne(held: seq<ItemId>, i: nat)
    requires i < |held|
    ensures multiset(held[..i] + held[i + 1..]) == multiset(held) - multiset{held[i]}
  {
    assert held == held[..i] + [held[i]] + held[i + 1..];
  }
}
