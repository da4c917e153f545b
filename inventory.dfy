/** Stock bookkeeping of the order controller: the first-match variation
    lookup, the item-by-item decrement run on confirmation, and the
    variation-only credit-back run on an administrator's cancellation. */
module Inventory {
  import opened Domain

  predicate Matches(v: Variation, color: string, size: string)
  {
    v.color == color && v.size == size
  }

  /** Index of the first variation at or after `from` with this color and size. */
  function FindFrom(vs: seq<Variation>, color: string, size: string, from: nat): (r: Option<nat>)
    requires from <= |vs|
    decreases |vs| - from
    ensures r.Some? ==> from <= r.value < |vs| && Matches(vs[r.value], color, size)
    ensures r.Some? ==> forall j :: from <= j < r.value ==> !Matches(vs[j], color, size)
    ensures r.None? ==> forall j :: from <= j < |vs| ==> !Matches(vs[j], color, size)
  {
    if from == |vs| then None
    else if Matches(vs[from], color, size) then Some(from)
    else FindFrom(vs, color, size, from + 1)
  }

  /** The index of the first variation with this color and size, scanning from the start. */
  function FindVariation(vs: seq<Variation>, color: string, size: string): Option<nat>
  {
    FindFrom(vs, color, size, 0)
  }

  /** The stock of the variation that lookup finds, if it finds one. */
  function Stock(vs: seq<Variation>, color: string, size: string): Option<int>
  {
    match FindVariation(vs, color, size)
    case None => None
    case Some(k) => Some(vs[k].quantity)
  }

  /** The variation list with `delta` added to the quantity of entry `k`. */
  function Bump(vs: seq<Variation>, k: nat, delta: int): (ws: seq<Variation>)
    requires k < |vs|
    ensures |ws| == |vs| && ws[k].quantity == vs[k].quantity + delta
    ensures forall j :: 0 <= j < |vs| ==> ws[j].color == vs[j].color && ws[j].size == vs[j].size
    ensures forall j :: 0 <= j < |vs| && j != k ==> ws[j] == vs[j]
  {
    vs[k := vs[k].(quantity := vs[k].quantity + delta)]
  }

  /** Adds `d` to a stock reading that exists. */
  function Shift(q: Option<int>, d: int): Option<int>
  {
    match q
    case None => None
    case Some(n) => Some(n + d)
  }

  /** Two variation lists with the same colors and sizes at the same places
      answer every lookup alike. */
  lemma FindVariationSameKeys(vs: seq<Variation>, ws: seq<Variation>, color: string, size: string)
    requires |vs| == |ws|
    requires forall j :: 0 <= j < |vs| ==> vs[j].color == ws[j].color && vs[j].size == ws[j].size
    ensures FindVariation(vs, color, size) == FindVariation(ws, color, size)
  {
    var a, b := FindVariation(vs, color, size), FindVariation(ws, color, size);
    if a.Some? && b.Some? {
      if a.value < b.value {
        assert Matches(ws[a.value], color, size);
      } else if b.value < a.value {
        assert Matches(vs[b.value], color, size);
      }
    }
  }

  /** Bumping the first match of (vs[k].color, vs[k].size) moves that one
      reading by `delta` and leaves every other (color, size) reading alone. */
  lemma StockAfterBump(vs: seq<Variation>, k: nat, delta: int, color: string, size: string)
    requires k < |vs| && FindVariation(vs, vs[k].color, vs[k].size) == Some(k)
    ensures Stock(Bump(vs, k, delta), color, size)
         == if Matches(vs[k], color, size) then Shift(Stock(vs, color, size), delta)
            else Stock(vs, color, size)
  {
  }

  /** The confirmation decrement of one item: variation and product total both drop. */
  function Take(p: Product, k: nat, n: int): (q: Product)
    requires k < |p.variations|
    ensures q.name == p.name && q.price == p.price && q.quantity == p.quantity - n
    ensures q.variations == Bump(p.variations, k, -n)
  {
    p.(quantity := p.quantity - n, variations := Bump(p.variations, k, -n))
  }

  /** The cancellation credit of one item: only the variation rises. */
  function Give(p: Product, k: nat, n: int): (q: Product)
    requires k < |p.variations|
    ensures q.name == p.name && q.price == p.price && q.quantity == p.quantity
    ensures q.variations == Bump(p.variations, k, n)
  {
    p.(variations := Bump(p.variations, k, n))
  }

  /** The products after a run of the confirmation loop, and whether it reached the end. */
  datatype Run = Run(stock: map<Id, Product>, ok: bool)

  /** The confirmation loop: items whose product is missing are skipped; the
      first item whose variation is missing or short stops the run, keeping
      the decrements already made; otherwise each item takes its quantity off
      its first matching variation and off its product's total. */
  function ConfirmRun(products: map<Id, Product>, items: seq<Item>): Run
    decreases |items|
  {
    if items == [] then Run(products, true)
    else
      var it := items[0];
      if it.productId !in products then ConfirmRun(products, items[1..])
      else
        var p := products[it.productId];
        match FindVariation(p.variations, it.color, it.size)
        case None => Run(products, false)
        case Some(k) =>
          if p.variations[k].quantity < it.quantity then Run(products, false)
          else ConfirmRun(products[it.productId := Take(p, k, it.quantity)], items[1..])
  }

  /** The administrator's credit-back loop: each item whose product and
      matching variation exist adds its quantity to that variation; the
      product's total is never touched; anything missing is skipped. */
  function CreditRun(products: map<Id, Product>, items: seq<Item>): map<Id, Product>
    decreases |items|
  {
    if items == [] then products
    else
      var it := items[0];
      if it.productId !in products then CreditRun(products, items[1..])
      else
        var p := products[it.productId];
        match FindVariation(p.variations, it.color, it.size)
        case None => CreditRun(products, items[1..])
        case Some(k) => CreditRun(products[it.productId := Give(p, k, it.quantity)], items[1..])
  }

  /** Whether item `it` asks for variation (color, size) of product `pid`. */
  predicate Asks(it: Item, pid: Id, color: string, size: string)
  {
    it.productId == pid && it.color == color && it.size == size
  }

  /** Total quantity the items ask of variation (color, size) of product `pid`. */
  function Demand(items: seq<Item>, pid: Id, color: string, size: string): int
    decreases |items|
  {
    if items == [] then 0
    else (if Asks(items[0], pid, color, size) then items[0].quantity else 0) + Demand(items[1..], pid, color, size)
  }

  /** With no negative quantity, no variation is asked for less than nothing. */
  lemma {:induction false} DemandNonNegative(items: seq<Item>, pid: Id, color: string, size: string)
    requires forall i :: 0 <= i < |items| ==> items[i].quantity >= 0
    decreases |items|
    ensures Demand(items, pid, color, size) >= 0
  {
    if items != [] {
      DemandNonNegative(items[1..], pid, color, size);
    }
  }

  /** A variation no item asks for has no demand. */
  lemma {:induction false} DemandUnasked(items: seq<Item>, pid: Id, color: string, size: string)
    requires forall i :: 0 <= i < |items| ==> !Asks(items[i], pid, color, size)
    decreases |items|
    ensures Demand(items, pid, color, size) == 0
  {
    if items != [] {
      DemandUnasked(items[1..], pid, color, size);
    }
  }

  /** The signed change of a run: added on credit, taken off on confirmation. */
  function Delta(credit: bool, n: int): int
  {
    if credit then n else -n
  }

  /** Entry by entry, `after` is `before` with each entry that is the first
      match of its own color and size moved by the items' demand on it (added
      when `credit`, taken off otherwise), and every later duplicate, every
      color and every size left as it was. */
  predicate MovedByDemand(before: seq<Variation>, after: seq<Variation>, items: seq<Item>, pid: Id, credit: bool)
  {
    |after| == |before| &&
    forall j :: 0 <= j < |before| ==>
      after[j].color == before[j].color && after[j].size == before[j].size &&
      after[j].quantity == before[j].quantity +
        (if FindVariation(before, before[j].color, before[j].size) == Some(j)
         then Delta(credit, Demand(items, pid, before[j].color, before[j].size)) else 0)
  }

  /** One step of a run on product `pid`: moving the first match of the first
      item, then the rest of the items, moves every entry by the whole demand. */
  lemma MovedStep(vs: seq<Variation>, us: seq<Variation>, k: nat, items: seq<Item>, pid: Id, credit: bool)
    requires items != [] && items[0].productId == pid
    requires FindVariation(vs, items[0].color, items[0].size) == Some(k)
    requires MovedByDemand(Bump(vs, k, Delta(credit, items[0].quantity)), us, items[1..], pid, credit)
    ensures MovedByDemand(vs, us, items, pid, credit)
  {
    var ws := Bump(vs, k, Delta(credit, items[0].quantity));
    forall j | 0 <= j < |vs|
      ensures us[j].quantity == vs[j].quantity +
        (if FindVariation(vs, vs[j].color, vs[j].size) == Some(j)
         then Delta(credit, Demand(items, pid, vs[j].color, vs[j].size)) else 0)
    {
      FindVariationSameKeys(vs, ws, vs[j].color, vs[j].size);
      if Asks(items[0], pid, vs[j].color, vs[j].size) && j != k {
        assert FindVariation(vs, vs[j].color, vs[j].size) == Some(k);
      }
    }
  }

  /** An item that moves nothing on product `pid` (another product, or no
      matching variation) changes no entry's demand. */
  lemma MovedSkip(vs: seq<Variation>, us: seq<Variation>, items: seq<Item>, pid: Id, credit: bool)
    requires items != []
    requires items[0].productId != pid || FindVariation(vs, items[0].color, items[0].size).None?
    requires MovedByDemand(vs, us, items[1..], pid, credit)
    ensures MovedByDemand(vs, us, items, pid, credit)
  {
    forall j | 0 <= j < |vs| && FindVariation(vs, vs[j].color, vs[j].size) == Some(j)
      ensures Demand(items, pid, vs[j].color, vs[j].size) == Demand(items[1..], pid, vs[j].color, vs[j].size)
    {
      assert !Asks(items[0], pid, vs[j].color, vs[j].size);
    }
  }

  /** Total quantity the items ask of product `pid`, over all variations. */
  function Total(items: seq<Item>, pid: Id): int
    decreases |items|
  {
    if items == [] then 0
    else (if items[0].productId == pid then items[0].quantity else 0) + Total(items[1..], pid)
  }

  /** Whether the confirmation loop stops at item `it` given the current products. */
  predicate Short(products: map<Id, Product>, it: Item)
  {
    it.productId in products &&
    match Stock(products[it.productId].variations, it.color, it.size)
    case None => true
    case Some(q) => q < it.quantity
  }

  predicate StockNonNegative(products: map<Id, Product>)
  {
    forall pid, j :: pid in products && 0 <= j < |products[pid].variations| ==>
      products[pid].variations[j].quantity >= 0
  }

  /** The readings half of `ConfirmExact`: totals and first-match stock. */
  lemma {:induction false} ConfirmReadings(products: map<Id, Product>, items: seq<Item>)
    requires ConfirmRun(products, items).ok
    ensures ConfirmRun(products, items).stock.Keys == products.Keys
    ensures forall pid :: pid in products ==>
      var after := ConfirmRun(products, items).stock[pid];
      after.name == products[pid].name && after.price == products[pid].price &&
      after.quantity == products[pid].quantity - Total(items, pid)
    ensures forall pid, color, size :: pid in products ==>
      Stock(ConfirmRun(products, items).stock[pid].variations, color, size)
      == Shift(Stock(products[pid].variations, color, size), -Demand(items, pid, color, size))
  {
    if items != [] {
      var it := items[0];
      var rest := items[1..];
      if it.productId !in products {
        ConfirmReadings(products, rest);
      } else {
        var p := products[it.productId];
        var k := FindVariation(p.variations, it.color, it.size).value;
        var mid := products[it.productId := Take(p, k, it.quantity)];
        ConfirmReadings(mid, rest);
        var after := ConfirmRun(mid, rest).stock;
        forall pid, color, size | pid in products
          ensures Stock(after[pid].variations, color, size)
               == Shift(Stock(products[pid].variations, color, size), -Demand(items, pid, color, size))
        {
          if pid == it.productId {
            StockAfterBump(p.variations, k, -it.quantity, color, size);
          }
        }
      }
    }
  }

  /** Item `it` finds its variation with stock enough for everything the
      items ask of that variation, or names a product that no longer exists. */
  predicate EnoughFor(products: map<Id, Product>, items: seq<Item>, it: Item)
  {
    it.productId in products ==>
      var q := Stock(products[it.productId].variations, it.color, it.size);
      q.Some? && q.value >= Demand(items, it.productId, it.color, it.size)
  }

  predicate EnoughStock(products: map<Id, Product>, items: seq<Item>)
  {
    forall i :: 0 <= i < |items| ==> EnoughFor(products, items, items[i])
  }

  /** With no negative quantity, a confirmation completes when every item
      whose product exists finds its variation holding the whole demand on it. */
  lemma {:induction false} ConfirmCompletes(products: map<Id, Product>, items: seq<Item>)
    requires forall i :: 0 <= i < |items| ==> items[i].quantity >= 0
    requires EnoughStock(products, items)
    decreases |items|
    ensures ConfirmRun(products, items).ok
  {
    if items == [] {
      return;
    }
    var it := items[0];
    var rest := items[1..];
    assert forall i :: 0 <= i < |rest| ==> rest[i] == items[i + 1];
    if it.productId !in products {
      forall i | 0 <= i < |rest|
        ensures EnoughFor(products, rest, rest[i])
      {
        assert EnoughFor(products, items, items[i + 1]);
      }
      ConfirmCompletes(products, rest);
    } else {
      assert EnoughFor(products, items, items[0]);
      var p := products[it.productId];
      var k := FindVariation(p.variations, it.color, it.size).value;
      DemandNonNegative(rest, it.productId, it.color, it.size);
      var mid := products[it.productId := Take(p, k, it.quantity)];
      forall i | 0 <= i < |rest|
        ensures EnoughFor(mid, rest, rest[i])
      {
        var r := rest[i];
        assert EnoughFor(products, items, items[i + 1]);
        if r.productId == it.productId {
          StockAfterBump(p.variations, k, -it.quantity, r.color, r.size);
        }
      }
      ConfirmCompletes(mid, rest);
    }
  }

  /** The first item keeps enough stock for its own demand when the rest of
      the items found enough after its decrement. */
  lemma EnoughForFirst(products: map<Id, Product>, items: seq<Item>, k: nat)
    requires items != [] && items[0].productId in products
    requires FindVariation(products[items[0].productId].variations, items[0].color, items[0].size) == Some(k)
    requires products[items[0].productId].variations[k].quantity >= items[0].quantity
    requires EnoughStock(products[items[0].productId := Take(products[items[0].productId], k, items[0].quantity)], items[1..])
    ensures EnoughFor(products, items, items[0])
  {
    var it, rest := items[0], items[1..];
    var p := products[it.productId];
    if exists m :: 0 <= m < |rest| && Asks(rest[m], it.productId, it.color, it.size) {
      var m :| 0 <= m < |rest| && Asks(rest[m], it.productId, it.color, it.size);
      StockAfterBump(p.variations, k, -it.quantity, it.color, it.size);
      assert EnoughFor(products[it.productId := Take(p, k, it.quantity)], rest, rest[m]);
    } else {
      DemandUnasked(rest, it.productId, it.color, it.size);
    }
  }

  /** A later item keeps enough stock before the first item's decrement when
      it had enough after it. */
  lemma EnoughForLater(products: map<Id, Product>, items: seq<Item>, k: nat, i: nat)
    requires items != [] && items[0].productId in products
    requires FindVariation(products[items[0].productId].variations, items[0].color, items[0].size) == Some(k)
    requires 0 < i < |items|
    requires EnoughFor(products[items[0].productId := Take(products[items[0].productId], k, items[0].quantity)], items[1..], items[i])
    ensures EnoughFor(products, items, items[i])
  {
    var it, r := items[0], items[i];
    if r.productId == it.productId {
      StockAfterBump(products[it.productId].variations, k, -it.quantity, r.color, r.size);
    }
  }

  /** Conversely, a confirmation that completes found, for every item whose
      product exists, its variation holding the whole demand on it. */
  lemma {:induction false} ConfirmNeedsEnoughStock(products: map<Id, Product>, items: seq<Item>)
    requires ConfirmRun(products, items).ok
    decreases |items|
    ensures EnoughStock(products, items)
  {
    if items == [] {
      return;
    }
    var it := items[0];
    var rest := items[1..];
    if it.productId !in products {
      ConfirmNeedsEnoughStock(products, rest);
      forall i | 0 < i < |items|
        ensures EnoughFor(products, items, items[i])
      {
        assert items[i] == rest[i - 1];
        assert EnoughFor(products, rest, rest[i - 1]);
      }
    } else {
      var p := products[it.productId];
      var k := FindVariation(p.variations, it.color, it.size).value;
      ConfirmNeedsEnoughStock(products[it.productId := Take(p, k, it.quantity)], rest);
      EnoughForFirst(products, items, k);
      forall i | 0 < i < |items|
        ensures EnoughFor(products, items, items[i])
      {
        assert items[i] == rest[i - 1];
        EnoughForLater(products, items, k, i);
      }
    }
  }

  /** Item `i` finds its variation with stock enough for what items 0..i ask
      of that variation, or names a product that no longer exists. */
  predicate EnoughAt(products: map<Id, Product>, items: seq<Item>, i: nat)
    requires i < |items|
  {
    var it := items[i];
    it.productId in products ==>
      var q := Stock(products[it.productId].variations, it.color, it.size);
      q.Some? && q.value >= Demand(items[..i + 1], it.productId, it.color, it.size)
  }

  /** The demand of items 0..i splits into the first item's and that of the
      rest up to item i. */
  lemma DemandPrefix(items: seq<Item>, i: nat, pid: Id, color: string, size: string)
    requires 0 < i < |items|
    ensures Demand(items[..i + 1], pid, color, size)
         == (if Asks(items[0], pid, color, size) then items[0].quantity else 0)
            + Demand(items[1..][..i], pid, color, size)
  {
    assert items[..i + 1][0] == items[0];
    assert items[..i + 1][1..] == items[1..][..i];
  }

  /** Skipping a first item whose product is missing changes no later item's check. */
  lemma EnoughAtSkip(products: map<Id, Product>, items: seq<Item>, i: nat)
    requires 0 < i < |items| && items[0].productId !in products
    ensures EnoughAt(products, items, i) == EnoughAt(products, items[1..], i - 1)
  {
    var r := items[i];
    assert items[1..][i - 1] == r;
    assert items[1..][..i - 1 + 1] == items[1..][..i];
    DemandPrefix(items, i, r.productId, r.color, r.size);
  }

  /** Taking the first item's quantity off its variation changes no later
      item's check, its demand moving out of the prefix as its stock drops. */
  lemma EnoughAtTake(products: map<Id, Product>, items: seq<Item>, k: nat, i: nat)
    requires 0 < i < |items| && items[0].productId in products
    requires FindVariation(products[items[0].productId].variations, items[0].color, items[0].size) == Some(k)
    ensures EnoughAt(products, items, i)
         == EnoughAt(products[items[0].productId := Take(products[items[0].productId], k, items[0].quantity)], items[1..], i - 1)
  {
    var it, r := items[0], items[i];
    assert items[1..][i - 1] == r;
    assert items[1..][..i - 1 + 1] == items[1..][..i];
    DemandPrefix(items, i, r.productId, r.color, r.size);
    if r.productId == it.productId {
      StockAfterBump(products[it.productId].variations, k, -it.quantity, r.color, r.size);
    }
  }

  /** For every order, negative quantities included, a confirmation completes
      exactly when each item whose product exists finds its variation holding
      what that item and the items before it ask of that variation. */
  lemma {:induction false} ConfirmCompletesExactly(products: map<Id, Product>, items: seq<Item>)
    decreases |items|
    ensures ConfirmRun(products, items).ok <==>
      forall i :: 0 <= i < |items| ==> EnoughAt(products, items, i)
  {
    if items == [] {
      return;
    }
    var it := items[0];
    var rest := items[1..];
    assert items[..1] == [it];
    assert Demand([it], it.productId, it.color, it.size) == it.quantity;
    if it.productId !in products {
      ConfirmCompletesExactly(products, rest);
      forall i | 0 < i < |items| {
        EnoughAtSkip(products, items, i);
      }
      if forall j :: 0 <= j < |rest| ==> EnoughAt(products, rest, j) {
        forall i | 0 < i < |items|
          ensures EnoughAt(products, items, i)
        {
          assert EnoughAt(products, rest, i - 1);
        }
      } else {
        var j :| 0 <= j < |rest| && !EnoughAt(products, rest, j);
        assert !EnoughAt(products, items, j + 1);
      }
    } else {
      var p := products[it.productId];
      match FindVariation(p.variations, it.color, it.size)
      case None =>
        assert !EnoughAt(products, items, 0);
      case Some(k) =>
        if p.variations[k].quantity < it.quantity {
          assert !EnoughAt(products, items, 0);
        } else {
          var mid := products[it.productId := Take(p, k, it.quantity)];
          ConfirmCompletesExactly(mid, rest);
          forall i | 0 < i < |items| {
            EnoughAtTake(products, items, k, i);
          }
          assert EnoughAt(products, items, 0);
          if forall j :: 0 <= j < |rest| ==> EnoughAt(mid, rest, j) {
            forall i | 0 < i < |items|
              ensures EnoughAt(products, items, i)
            {
              assert EnoughAt(mid, rest, i - 1);
            }
          } else {
            var j :| 0 <= j < |rest| && !EnoughAt(mid, rest, j);
            assert !EnoughAt(products, items, j + 1);
          }
        }
    }
  }

  /** A confirmation that stops has stopped at some item `j`: the products are
      those of a complete run over the items before `j` (their decrements
      persist), and item `j` is short against them. */
  lemma {:induction false} ConfirmStopsAt(products: map<Id, Product>, items: seq<Item>)
    requires !ConfirmRun(products, items).ok
    ensures exists j :: (0 <= j < |items| &&
      ConfirmRun(products, items[..j]) == Run(ConfirmRun(products, items).stock, true) &&
      Short(ConfirmRun(products, items).stock, items[j]))
  {
    var it := items[0];
    var rest := items[1..];
    if it.productId !in products {
      ConfirmStopsAt(products, rest);
      var j :| 0 <= j < |rest| &&
        ConfirmRun(products, rest[..j]) == Run(ConfirmRun(products, rest).stock, true) &&
        Short(ConfirmRun(products, rest).stock, rest[j]);
      assert items[..j + 1][1..] == rest[..j];
      assert items[j + 1] == rest[j];
    } else {
      var p := products[it.productId];
      match FindVariation(p.variations, it.color, it.size)
      case None =>
        assert items[..0] == [];
      case Some(k) =>
        if p.variations[k].quantity < it.quantity {
          assert items[..0] == [];
        } else {
          var mid := products[it.productId := Take(p, k, it.quantity)];
          ConfirmStopsAt(mid, rest);
          var j :| 0 <= j < |rest| &&
            ConfirmRun(mid, rest[..j]) == Run(ConfirmRun(mid, rest).stock, true) &&
            Short(ConfirmRun(mid, rest).stock, rest[j]);
          assert items[..j + 1][1..] == rest[..j];
          assert items[j + 1] == rest[j];
        }
    }
  }

  /** The confirmation check keeps every variation stock at or above zero. */
  lemma {:induction false} ConfirmKeepsStockNonNegative(products: map<Id, Product>, items: seq<Item>)
    requires StockNonNegative(products)
    ensures StockNonNegative(ConfirmRun(products, items).stock)
  {
    if items != [] {
      var it := items[0];
      if it.productId !in products {
        ConfirmKeepsStockNonNegative(products, items[1..]);
      } else {
        var p := products[it.productId];
        match FindVariation(p.variations, it.color, it.size)
        case None =>
        case Some(k) =>
          if p.variations[k].quantity >= it.quantity {
            var mid := products[it.productId := Take(p, k, it.quantity)];
            assert StockNonNegative(mid);
            ConfirmKeepsStockNonNegative(mid, items[1..]);
          }
      }
    }
  }

  /** The readings half of `CreditExact`: totals and first-match stock. */
  lemma {:induction false} CreditReadings(products: map<Id, Product>, items: seq<Item>)
    ensures CreditRun(products, items).Keys == products.Keys
    ensures forall pid :: pid in products ==>
      var after := CreditRun(products, items)[pid];
      after.name == products[pid].name && after.price == products[pid].price &&
      after.quantity == products[pid].quantity
    ensures forall pid, color, size :: pid in products ==>
      Stock(CreditRun(products, items)[pid].variations, color, size)
      == Shift(Stock(products[pid].variations, color, size), Demand(items, pid, color, size))
  {
    if items != [] {
      var it := items[0];
      var rest := items[1..];
      if it.productId !in products {
        CreditReadings(products, rest);
      } else {
        var p := products[it.productId];
        match FindVariation(p.variations, it.color, it.size)
        case None =>
          CreditReadings(products, rest);
          forall pid, color, size | pid in products
            ensures Stock(CreditRun(products, items)[pid].variations, color, size)
                 == Shift(Stock(products[pid].variations, color, size), Demand(items, pid, color, size))
          {
            if pid == it.productId && color == it.color && size == it.size {
              assert Stock(p.variations, color, size) == None;
            }
          }
        case Some(k) =>
          var mid := products[it.productId := Give(p, k, it.quantity)];
          CreditReadings(mid, rest);
          var after := CreditRun(mid, rest);
          forall pid, color, size | pid in products
            ensures Stock(after[pid].variations, color, size)
                 == Shift(Stock(products[pid].variations, color, size), Demand(items, pid, color, size))
          {
            if pid == it.productId {
              StockAfterBump(p.variations, k, it.quantity, color, size);
            }
          }
      }
    }
  }

  /** The entry-by-entry half of `ConfirmExact`. */
  lemma {:induction false} ConfirmEntries(products: map<Id, Product>, items: seq<Item>)
    requires ConfirmRun(products, items).ok
    decreases |items|
    ensures ConfirmRun(products, items).stock.Keys == products.Keys
    ensures forall pid :: pid in products ==>
      MovedByDemand(products[pid].variations, ConfirmRun(products, items).stock[pid].variations, items, pid, false)
  {
    if items == [] {
      return;
    }
    var it := items[0];
    if it.productId !in products {
      ConfirmEntries(products, items[1..]);
      var after := ConfirmRun(products, items[1..]).stock;
      forall pid | pid in products
        ensures MovedByDemand(products[pid].variations, after[pid].variations, items, pid, false)
      {
        MovedSkip(products[pid].variations, after[pid].variations, items, pid, false);
      }
    } else {
      var p := products[it.productId];
      var k := FindVariation(p.variations, it.color, it.size).value;
      var mid := products[it.productId := Take(p, k, it.quantity)];
      ConfirmEntries(mid, items[1..]);
      var after := ConfirmRun(mid, items[1..]).stock;
      forall pid | pid in products
        ensures MovedByDemand(products[pid].variations, after[pid].variations, items, pid, false)
      {
        if pid == it.productId {
          MovedStep(p.variations, after[pid].variations, k, items, pid, false);
        } else {
          MovedSkip(products[pid].variations, after[pid].variations, items, pid, false);
        }
      }
    }
  }

  /** The entry-by-entry half of `CreditExact`. */
  lemma {:induction false} CreditEntries(products: map<Id, Product>, items: seq<Item>)
    decreases |items|
    ensures CreditRun(products, items).Keys == products.Keys
    ensures forall pid :: pid in products ==>
      MovedByDemand(products[pid].variations, CreditRun(products, items)[pid].variations, items, pid, true)
  {
    if items == [] {
      return;
    }
    var it := items[0];
    if it.productId in products && FindVariation(products[it.productId].variations, it.color, it.size).Some? {
      var p := products[it.productId];
      var k := FindVariation(p.variations, it.color, it.size).value;
      var mid := products[it.productId := Give(p, k, it.quantity)];
      CreditEntries(mid, items[1..]);
      var after := CreditRun(mid, items[1..]);
      forall pid | pid in products
        ensures MovedByDemand(products[pid].variations, after[pid].variations, items, pid, true)
      {
        if pid == it.productId {
          MovedStep(p.variations, after[pid].variations, k, items, pid, true);
        } else {
          MovedSkip(products[pid].variations, after[pid].variations, items, pid, true);
        }
      }
    } else {
      CreditEntries(products, items[1..]);
      var after := CreditRun(products, items[1..]);
      forall pid | pid in products
        ensures MovedByDemand(products[pid].variations, after[pid].variations, items, pid, true)
      {
        MovedSkip(products[pid].variations, after[pid].variations, items, pid, true);
      }
    }
  }

  /** A confirmation that reaches the end has taken exactly each variation's
      demand off the first entry matching its color and size, and each
      product's demand off its total; later duplicate entries, colors, sizes,
      names and prices stay, and no product is added or removed. */
  lemma ConfirmExact(products: map<Id, Product>, items: seq<Item>)
    requires ConfirmRun(products, items).ok
    ensures ConfirmRun(products, items).stock.Keys == products.Keys
    ensures forall pid :: pid in products ==>
      var after := ConfirmRun(products, items).stock[pid];
      after.name == products[pid].name && after.price == products[pid].price &&
      after.quantity == products[pid].quantity - Total(items, pid)
    ensures forall pid, color, size :: pid in products ==>
      Stock(ConfirmRun(products, items).stock[pid].variations, color, size)
      == Shift(Stock(products[pid].variations, color, size), -Demand(items, pid, color, size))
    ensures forall pid :: pid in products ==>
      MovedByDemand(products[pid].variations, ConfirmRun(products, items).stock[pid].variations, items, pid, false)
  {
    ConfirmReadings(products, items);
    ConfirmEntries(products, items);
  }

  /** An administrator's credit-back adds each variation's demand to the
      first entry matching its color and size, whatever the order's status;
      later duplicate entries and every product's total, name and price stay. */
  lemma CreditExact(products: map<Id, Product>, items: seq<Item>)
    ensures CreditRun(products, items).Keys == products.Keys
    ensures forall pid :: pid in products ==>
      var after := CreditRun(products, items)[pid];
      after.name == products[pid].name && after.price == products[pid].price &&
      after.quantity == products[pid].quantity
    ensures forall pid, color, size :: pid in products ==>
      Stock(CreditRun(products, items)[pid].variations, color, size)
      == Shift(Stock(products[pid].variations, color, size), Demand(items, pid, color, size))
    ensures forall pid :: pid in products ==>
      MovedByDemand(products[pid].variations, CreditRun(products, items)[pid].variations, items, pid, true)
  {
    CreditReadings(products, items);
    CreditEntries(products, items);
  }

  /** Confirming an order and then cancelling it as an administrator puts
      every variation's stock back where it was, but leaves each product's
      total lower by what the order took from it. */
  lemma ConfirmThenAdminCancel(products: map<Id, Product>, items: seq<Item>)
    requires ConfirmRun(products, items).ok
    ensures var back := CreditRun(ConfirmRun(products, items).stock, items);
      back.Keys == products.Keys &&
      (forall pid, color, size :: pid in products ==>
        Stock(back[pid].variations, color, size) == Stock(products[pid].variations, color, size)) &&
      (forall pid :: pid in products ==> back[pid].quantity == products[pid].quantity - Total(items, pid))
  {
    var mid := ConfirmRun(products, items).stock;
    ConfirmReadings(products, items);
    CreditReadings(mid, items);
  }

  /** The confirmation loop: one item at a time, reading the product afresh
      each time, stopping at the first short item without undoing anything. */
  method DecrementStock(products: map<Id, Product>, items: seq<Item>) returns (stock: map<Id, Product>, ok: bool)
    ensures Run(stock, ok) == ConfirmRun(products, items)
  {
    stock := products;
    var i := 0;
    while i < |items|
      invariant 0 <= i <= |items|
      invariant ConfirmRun(stock, items[i..]) == ConfirmRun(products, items)
    {
      var item := items[i];
      assert items[i..][1..] == items[i + 1..];
      if item.productId in stock {
        var product := stock[item.productId];
        var found := FindVariation(product.variations, item.color, item.size);
        if found.None? || product.variations[found.value].quantity < item.quantity {
          return stock, false;
        }
        stock := stock[item.productId := Take(product, found.value, item.quantity)];
      }
      i := i + 1;
    }
    ok := true;
  }

  /** The credit-back loop of an administrator's cancellation. */
  method CreditStock(products: map<Id, Product>, items: seq<Item>) returns (stock: map<Id, Product>)
    ensures stock == CreditRun(products, items)
  {
    stock := products;
    var i := 0;
    while i < |items|
      invariant 0 <= i <= |items|
      invariant CreditRun(stock, items[i..]) == CreditRun(products, items)
    {
      var item := items[i];
      assert items[i..][1..] == items[i + 1..];
      if item.productId in stock {
        var product := stock[item.productId];
        var found := FindVariation(product.variations, item.color, item.size);
        if found.Some? {
          stock := stock[item.productId := Give(product, found.value, item.quantity)];
        }
      }
      i := i + 1;
    }
  }
}
