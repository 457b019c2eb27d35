/** The product price table of the customer page and the order total computed from it. */
module Catalog {

  /** The eleven product keys of the price table, one constructor per key. */
  datatype ProductKey =
    | Blazer | Shirt | Pants | Vest | Sweater | Necktie | Sandals
    | PeShirt | PeHalfpants | PeJacket | PePants

  /** The keys in the table's order, which is also the order the forms render them in. */
  const Products: seq<ProductKey> :=
    [Blazer, Shirt, Pants, Vest, Sweater, Necktie, Sandals, PeShirt, PeHalfpants, PeJacket, PePants]

  /** The key string the storage layer uses for a product. */
  function KeyName(k: ProductKey): string
  {
    match k
    case Blazer => "blazer"
    case Shirt => "shirt"
    case Pants => "pants"
    case Vest => "vest"
    case Sweater => "sweater"
    case Necktie => "necktie"
    case Sandals => "sandals"
    case PeShirt => "pe_shirt"
    case PeHalfpants => "pe_halfpants"
    case PeJacket => "pe_jacket"
    case PePants => "pe_pants"
  }

  /** Unit price in yen. */
  function Price(k: ProductKey): nat
  {
    match k
    case Blazer => 12000
    case Shirt => 2000
    case Pants => 3000
    case Vest => 4000
    case Sweater => 4500
    case Necktie => 1500
    case Sandals => 1800
    case PeShirt => 2200
    case PeHalfpants => 2000
    case PeJacket => 5000
    case PePants => 3800
  }

  /** Position of a key in the table. */
  function Position(k: ProductKey): (i: nat)
    ensures i < |Products| && Products[i] == k
  {
    match k
    case Blazer => 0
    case Shirt => 1
    case Pants => 2
    case Vest => 3
    case Sweater => 4
    case Necktie => 5
    case Sandals => 6
    case PeShirt => 7
    case PeHalfpants => 8
    case PeJacket => 9
    case PePants => 10
  }

  /** Every key occurs in the table exactly once. */
  lemma ProductsDistinct()
    ensures forall k: ProductKey :: k in Products
    ensures forall i, j :: 0 <= i < |Products| && 0 <= j < |Products| && Products[i] == Products[j] ==> i == j
  {
    forall k ensures k in Products {
      assert Products[Position(k)] == k;
    }
    forall i | 0 <= i < |Products| ensures Position(Products[i]) == i {
    }
  }

  /** Quantities per product, as the `items` dictionary holds them. */
  type Quantities = map<ProductKey, int>

  /** Every product has an entry. */
  predicate Covers(q: Quantities)
  {
    forall k: ProductKey :: k in q
  }

  /** Every product has an entry between 0 and `most`, as a bounded selection widget yields. */
  predicate Selectable(q: Quantities, most: int)
  {
    Covers(q) && forall k :: k in q ==> 0 <= q[k] <= most
  }

  /** Sum of quantity times price over the keys `ks`, accumulated left to right. */
  function Subtotal(q: Quantities, ks: seq<ProductKey>): int
    requires Covers(q)
  {
    if ks == [] then 0
    else Subtotal(q, ks[..|ks| - 1]) + q[ks[|ks| - 1]] * Price(ks[|ks| - 1])
  }

  lemma SubtotalStep(q: Quantities, ks: seq<ProductKey>, i: nat)
    requires Covers(q) && i < |ks|
    ensures Subtotal(q, ks[..i + 1]) == Subtotal(q, ks[..i]) + q[ks[i]] * Price(ks[i])
  {
    assert ks[..i + 1][..i] == ks[..i];
  }

  /** The order total: the sum over all eleven products of quantity times price. */
  function Total(q: Quantities): int
    requires Covers(q)
  {
    Subtotal(q, Products)
  }

  lemma {:induction false} SubtotalAppend(q: Quantities, a: seq<ProductKey>, b: seq<ProductKey>)
    requires Covers(q)
    ensures Subtotal(q, a + b) == Subtotal(q, a) + Subtotal(q, b)
  {
    if b == [] {
      assert a + b == a;
    } else {
      var n := |b| - 1;
      assert (a + b)[..|a + b| - 1] == a + b[..n];
      SubtotalAppend(q, a, b[..n]);
    }
  }

  /** A subtotal depends only on the quantities of the keys it sums over. */
  lemma {:induction false} SubtotalAgree(q1: Quantities, q2: Quantities, ks: seq<ProductKey>)
    requires Covers(q1) && Covers(q2)
    requires forall i :: 0 <= i < |ks| ==> q1[ks[i]] == q2[ks[i]]
    ensures Subtotal(q1, ks) == Subtotal(q2, ks)
  {
    if ks != [] {
      var n := |ks| - 1;
      assert q1[ks[n]] == q2[ks[n]];
      SubtotalAgree(q1, q2, ks[..n]);
    }
  }

  lemma {:induction false} SubtotalNonNegative(q: Quantities, ks: seq<ProductKey>)
    requires Covers(q) && forall k :: k in q ==> q[k] >= 0
    ensures Subtotal(q, ks) >= 0
  {
    if ks != [] {
      SubtotalNonNegative(q, ks[..|ks| - 1]);
    }
  }

  /** With no negative quantity, a subtotal is zero exactly when every summed quantity is zero. */
  lemma {:induction false} SubtotalZeroIff(q: Quantities, ks: seq<ProductKey>)
    requires Covers(q) && forall k :: k in q ==> q[k] >= 0
    ensures Subtotal(q, ks) == 0 <==> forall i :: 0 <= i < |ks| ==> q[ks[i]] == 0
  {
    if ks != [] {
      var n := |ks| - 1;
      var init := ks[..n];
      SubtotalZeroIff(q, init);
      SubtotalNonNegative(q, init);
      assert forall i :: 0 <= i < n ==> init[i] == ks[i];
      if Subtotal(q, ks) == 0 {
        assert q[ks[n]] * Price(ks[n]) == 0;
      }
    }
  }

  /** The total is non-negative when no quantity is; zero exactly when every quantity is zero. */
  lemma TotalZeroIff(q: Quantities)
    requires Covers(q) && forall k :: k in q ==> q[k] >= 0
    ensures Total(q) >= 0
    ensures Total(q) == 0 <==> forall k :: q[k] == 0
  {
    ProductsDistinct();
    SubtotalNonNegative(q, Products);
    SubtotalZeroIff(q, Products);
    if Total(q) == 0 {
      forall k ensures q[k] == 0 {
        assert Products[Position(k)] == k;
      }
    }
  }

  /** Removing the same element from both sides keeps two multisets equal. */
  lemma RemoveOne(a: seq<ProductKey>, x: ProductKey, b: seq<ProductKey>, j: nat)
    requires j < |b| && b[j] == x
    requires multiset(a + [x]) == multiset(b)
    ensures multiset(a) == multiset(b[..j] + b[j + 1..])
  {
    assert b == b[..j] + [x] + b[j + 1..];
    assert multiset(b) == multiset(b[..j]) + multiset{x} + multiset(b[j + 1..]);
    assert multiset(a + [x]) == multiset(a) + multiset{x};
    assert multiset(b[..j] + b[j + 1..]) == multiset(b[..j]) + multiset(b[j + 1..]);
    assert multiset(a) == multiset(a + [x]) - multiset{x};
  }

  /** A subtotal is the subtotal without position `j` plus the line at `j`. */
  lemma SubtotalWithout(q: Quantities, b: seq<ProductKey>, j: nat)
    requires Covers(q) && j < |b|
    ensures Subtotal(q, b) == Subtotal(q, b[..j] + b[j + 1..]) + q[b[j]] * Price(b[j])
  {
    var x := b[j];
    assert b == b[..j] + [x] + b[j + 1..];
    SubtotalAppend(q, b[..j] + [x], b[j + 1..]);
    SubtotalAppend(q, b[..j], [x]);
    SubtotalAppend(q, b[..j], b[j + 1..]);
    assert Subtotal(q, [x]) == q[x] * Price(x) by {
      assert [x][..0] == [];
    }
  }

  /** Summing in any order gives the same subtotal. */
  lemma {:induction false} SubtotalPermutation(q: Quantities, a: seq<ProductKey>, b: seq<ProductKey>)
    requires Covers(q)
    requires multiset(a) == multiset(b)
    ensures Subtotal(q, a) == Subtotal(q, b)
    decreases |a|
  {
    if a == [] {
      assert |b| == |multiset(b)| == 0;
    } else {
      var n := |a| - 1;
      var x := a[n];
      assert a == a[..n] + [x];
      assert x in multiset(b);
      var j :| 0 <= j < |b| && b[j] == x;
      RemoveOne(a[..n], x, b, j);
      SubtotalPermutation(q, a[..n], b[..j] + b[j + 1..]);
      SubtotalWithout(q, b, j);
    }
  }

  /** The total does not depend on the order the line items are summed in. */
  lemma TotalAnyOrder(q: Quantities, ks: seq<ProductKey>)
    requires Covers(q)
    requires multiset(ks) == multiset(Products)
    ensures Subtotal(q, ks) == Total(q)
  {
    SubtotalPermutation(q, ks, Products);
  }

  /** The quantities chosen by one selection widget per product, in table order. */
  predicate Choices(choice: seq<int>, most: int)
  {
    |choice| == |Products| && forall i :: 0 <= i < |choice| ==> 0 <= choice[i] <= most
  }

  /**
   * The input-page loop that gathers one quantity per product into the `items`
   * dictionary, keyed by product.
   */
  method CollectQuantities(choice: seq<int>) returns (q: Quantities)
    requires Choices(choice, 10)
    ensures Selectable(q, 10)
    ensures forall i :: 0 <= i < |Products| ==> q[Products[i]] == choice[i]
  {
    ProductsDistinct();
    q := map[];
    var i := 0;
    while i < |Products|
      invariant 0 <= i <= |Products|
      invariant forall k :: k in q <==> Position(k) < i
      invariant forall k :: k in q ==> q[k] == choice[Position(k)]
    {
      q := q[Products[i] := choice[i]];
      i := i + 1;
    }
  }

  /** The quantities the widgets show, keyed by product. */
  ghost function ChoiceMap(choice: seq<int>): (q: Quantities)
    requires |choice| == |Products|
    ensures Covers(q) && forall k :: q[k] == choice[Position(k)]
  {
    ProductsDistinct();
    map k: ProductKey | k in Products :: choice[Position(k)]
  }

  /**
   * The waiting-page loop: it rebuilds the `items` dictionary from one widget per
   * product and keeps a running total.
   */
  method RecomputeTotal(choice: seq<int>) returns (items: Quantities, total: int)
    requires Choices(choice, 10)
    ensures Selectable(items, 10)
    ensures forall i :: 0 <= i < |Products| ==> items[Products[i]] == choice[i]
    ensures total == Total(items)
  {
    ProductsDistinct();
    ghost var target := ChoiceMap(choice);
    items := map[];
    total := 0;
    var i := 0;
    while i < |Products|
      invariant 0 <= i <= |Products|
      invariant forall k :: k in items <==> Position(k) < i
      invariant forall k :: k in items ==> items[k] == choice[Position(k)]
      invariant Covers(target) && total == Subtotal(target, Products[..i])
    {
      var key := Products[i];
      items := items[key := choice[i]];
      SubtotalStep(target, Products, i);
      total := total + choice[i] * Price(key);
      i := i + 1;
    }
    assert Products[..i] == Products;
    SubtotalAgree(target, items, Products);
  }

  /** A subtotal over `before + [k] + after` is the two outer subtotals plus line `k`. */
  lemma SubtotalAround(q: Quantities, before: seq<ProductKey>, k: ProductKey, after: seq<ProductKey>)
    requires Covers(q)
    ensures Subtotal(q, before + [k] + after) == Subtotal(q, before) + q[k] * Price(k) + Subtotal(q, after)
  {
    SubtotalAppend(q, before + [k], after);
    SubtotalAppend(q, before, [k]);
    SubtotalStep(q, [k], 0);
    assert [k][..0] == [] && [k][..1] == [k];
  }

  /** Changing the quantity of a key not summed over leaves a subtotal as it was. */
  lemma SubtotalWithoutKey(q: Quantities, k: ProductKey, v: int, ks: seq<ProductKey>)
    requires Covers(q) && k !in ks
    ensures Subtotal(q[k := v], ks) == Subtotal(q, ks)
  {
    forall j | 0 <= j < |ks| ensures q[ks[j]] == q[k := v][ks[j]] {
      assert ks[j] in ks;
    }
    SubtotalAgree(q, q[k := v], ks);
  }

  /** One more of `k`, summed once between keys other than `k`, adds its price once. */
  lemma SubtotalBump(q: Quantities, k: ProductKey, before: seq<ProductKey>, after: seq<ProductKey>)
    requires Covers(q) && k !in before && k !in after
    ensures Subtotal(q[k := q[k] + 1], before + [k] + after) == Subtotal(q, before + [k] + after) + Price(k)
  {
    var more := q[k := q[k] + 1];
    calc {
      Subtotal(more, before + [k] + after);
    == { SubtotalAround(more, before, k, after); }
      Subtotal(more, before) + more[k] * Price(k) + Subtotal(more, after);
    == { SubtotalWithoutKey(q, k, q[k] + 1, before); SubtotalWithoutKey(q, k, q[k] + 1, after); }
      Subtotal(q, before) + (q[k] + 1) * Price(k) + Subtotal(q, after);
    == { SubtotalAround(q, before, k, after); }
      Subtotal(q, before + [k] + after) + Price(k);
    }
  }

  /** Choosing one more of a product raises the order total by exactly that product's price. */
  lemma TotalIncrement(q: Quantities, k: ProductKey)
    requires Covers(q)
    ensures Total(q[k := q[k] + 1]) == Total(q) + Price(k)
  {
    var i := Position(k);
    var before, after := Products[..i], Products[i + 1..];
    assert Products == before + [k] + after;
    ProductsDistinct();
    assert k !in before && k !in after by {
      forall j | 0 <= j < |before| ensures before[j] != k {
        assert before[j] == Products[j];
      }
      forall j | 0 <= j < |after| ensures after[j] != k {
        assert after[j] == Products[i + 1 + j];
      }
    }
    SubtotalBump(q, k, before, after);
  }

  /** All quantities are zero except two shirts: the total is 4000 yen. */
  lemma TwoShirtsTotal(q: Quantities)
    requires Covers(q)
    requires q[Shirt] == 2 && forall k :: k != Shirt ==> q[k] == 0
    ensures Total(q) == 4000
  {
    ProductsDistinct();
    var back := Products[2..];
    SubtotalAppend(q, Products[..2], back);
    assert Products[..2] + back == Products;
    assert forall i :: 0 <= i < |back| ==> back[i] == Products[i + 2] != Shirt;
    SubtotalZeroIff(q, back);
    SubtotalStep(q, Products, 0);
    SubtotalStep(q, Products, 1);
  }
}
