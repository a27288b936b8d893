/**
 * The cart state manager: the four cart transitions and the start-up load.
 *
 * Each transition is a pure function from the current state (the cart in
 * memory and the persisted keys) and the answers of the remote catalog to
 * the next state and the notice shown. A failed remote lookup is `None`.
 * Every failure leaves the state as it was; every successful mutation
 * writes the new cart to the persisted cart key.
 */
module CartState {
  import opened Wrappers
  import opened CartTypes

  // ---------------------------------------------------------------------
  // Queries and invariants
  // ---------------------------------------------------------------------

  predicate InCart(cart: Cart, id: int) {
    exists i :: 0 <= i < |cart| && cart[i].id == id
  }

  /** No two line items share an id. */
  predicate UniqueIds(cart: Cart) {
    forall i, j :: 0 <= i < j < |cart| ==> cart[i].id != cart[j].id
  }

  /** Every line item holds at least one unit. */
  predicate PositiveAmounts(cart: Cart) {
    forall i :: 0 <= i < |cart| ==> cart[i].amount >= 1
  }

  predicate ValidCart(cart: Cart) {
    UniqueIds(cart) && PositiveAmounts(cart)
  }

  /** Position of the first line item with the given id: the item a linear `find` selects. */
  function IndexOf(cart: Cart, id: int): (r: Option<nat>)
    ensures r.Some? <==> InCart(cart, id)
    ensures r.Some? ==> r.value < |cart| && cart[r.value].id == id
    ensures r.Some? ==> forall j :: 0 <= j < r.value ==> cart[j].id != id
  {
    if |cart| == 0 then None
    else if cart[0].id == id then Some(0)
    else
      match IndexOf(cart[1..], id)
      case None =>
        assert forall i :: 1 <= i < |cart| ==> cart[i] == cart[1..][i - 1];
        None
      case Some(k) => Some(k + 1)
  }

  /** The quantity of `id` the cart holds: the found item's amount, or 0 when it is absent. */
  function AmountOf(cart: Cart, id: int): (r: int)
    ensures !InCart(cart, id) ==> r == 0
    ensures UniqueIds(cart) ==> forall i :: 0 <= i < |cart| && cart[i].id == id ==> r == cart[i].amount
  {
    match IndexOf(cart, id)
    case None => 0
    case Some(i) => cart[i].amount
  }

  /**
   * `after` is `before` with the amount of the item at position `i` set to
   * `amount`; length, order and every other field and item are the same.
   */
  predicate AmountSetAt(before: Cart, after: Cart, i: nat, amount: int) {
    && |after| == |before|
    && i < |before|
    && after[i] == before[i].(amount := amount)
    && forall j :: 0 <= j < |before| && j != i ==> after[j] == before[j]
  }

  /** Setting the amount of the first item with `id` keeps it the first, so `AmountOf` reads the new amount. */
  lemma AmountOfAfterSet(before: Cart, after: Cart, id: int, amount: int)
    requires InCart(before, id)
    requires AmountSetAt(before, after, IndexOf(before, id).value, amount)
    ensures IndexOf(after, id) == IndexOf(before, id)
    ensures AmountOf(after, id) == amount
  {
    assert after[IndexOf(before, id).value].id == id;
  }

  // ---------------------------------------------------------------------
  // Persistence
  // ---------------------------------------------------------------------

  /** The start-up load: the persisted cart if the key is present, otherwise the empty cart. */
  function LoadCart(storage: Storage): (r: Cart)
    ensures storage.cart.None? ==> r == []
    ensures storage.cart.Some? ==> r == storage.cart.value
  {
    match storage.cart
    case None => []
    case Some(c) => c
  }

  /** A reload would show exactly the cart held in memory. */
  predicate Consistent(s: State) {
    LoadCart(s.storage) == s.cart
  }

  /** The state the provider starts from, given what the browser has persisted. */
  function Init(storage: Storage): (r: State)
    ensures r.storage == storage
    ensures Consistent(r)
    ensures storage.cart.None? ==> r.cart == []
  {
    State(LoadCart(storage), storage)
  }

  /** A successful mutation: the new cart goes to memory and to the persisted cart key. */
  function Commit(s: State, cart: Cart): (r: Step)
    ensures r.notice == Ok
    ensures r.state.cart == cart
    ensures Consistent(r.state)
    ensures r.state.storage.order == s.storage.order
  {
    Step(State(cart, s.storage.(cart := Some(cart))), Ok)
  }

  // ---------------------------------------------------------------------
  // The four transitions
  // ---------------------------------------------------------------------

  /** A new line item built from a catalog record, holding one unit. */
  function NewItem(p: Product): Item {
    Item(p.id, p.name, p.description, p.price, 1)
  }

  /**
   * Adds one unit of `productId`. `stock` is the answer of the stock lookup
   * and `product` that of the catalog lookup, which is only made when the
   * item is new.
   */
  function AddProduct(s: State, productId: int, stock: Option<Stock>, product: Option<Product>): (r: Step)
    ensures r.notice in {Ok, OutOfStock, AdditionFailed}
    ensures r.notice == OutOfStock <==>
              stock.Some? && AmountOf(s.cart, productId) + 1 > stock.value.amount
    ensures r.notice == Ok <==>
              && stock.Some?
              && AmountOf(s.cart, productId) + 1 <= stock.value.amount
              && (InCart(s.cart, productId) || product.Some?)
    ensures r.notice != Ok ==> r.state == s
    ensures r.notice == Ok ==> r.state.storage == s.storage.(cart := Some(r.state.cart))
    ensures r.notice == Ok && InCart(s.cart, productId) ==>
              && IndexOf(s.cart, productId).Some?
              && AmountSetAt(s.cart, r.state.cart, IndexOf(s.cart, productId).value,
                             AmountOf(s.cart, productId) + 1)
    ensures r.notice == Ok && !InCart(s.cart, productId) ==>
              && product.Some?
              && |r.state.cart| == |s.cart| + 1
              && r.state.cart[..|s.cart|] == s.cart
              && r.state.cart[|s.cart|] == NewItem(product.value)
              && r.state.cart[|s.cart|].amount == 1
    ensures r.notice == Ok && (product.Some? ==> product.value.id == productId) ==>
              AmountOf(r.state.cart, productId) == AmountOf(s.cart, productId) + 1 <= stock.value.amount
    ensures ValidCart(s.cart) && (product.Some? ==> product.value.id == productId) ==>
              ValidCart(r.state.cart)
    ensures Consistent(s) ==> Consistent(r.state)
  {
    match stock
    case None => Step(s, AdditionFailed)
    case Some(st) =>
      var amount := AmountOf(s.cart, productId) + 1;
      if amount > st.amount then Step(s, OutOfStock)
      else
        match IndexOf(s.cart, productId)
        case Some(i) =>
          var cart := s.cart[i := s.cart[i].(amount := amount)];
          assert AmountSetAt(s.cart, cart, i, amount);
          AmountOfAfterSet(s.cart, cart, productId, amount);
          assert PositiveAmounts(s.cart) ==> PositiveAmounts(cart);
          assert UniqueIds(s.cart) ==> UniqueIds(cart);
          Commit(s, cart)
        case None =>
          match product
          case None => Step(s, AdditionFailed)
          case Some(p) =>
            var cart := s.cart + [NewItem(p)];
            assert cart[|s.cart|].id == p.id;
            assert p.id == productId ==> IndexOf(cart, productId) == Some(|s.cart|);
            Commit(s, cart)
  }

  /** The cart with every item whose id is `id` left out, the rest in their order. */
  function WithoutId(cart: Cart, id: int): (r: Cart)
    ensures forall x :: x in r <==> x in cart && x.id != id
    ensures InCart(cart, id) ==> |r| < |cart|
    ensures !InCart(cart, id) ==> r == cart
  {
    if |cart| == 0 then []
    else
      var rest := WithoutId(cart[1..], id);
      assert forall i :: 1 <= i < |cart| ==> cart[i] == cart[1..][i - 1];
      if cart[0].id == id then rest
      else [cart[0]] + rest
  }

  /** Ids are unique exactly when the head's id does not recur and the tail's ids are unique. */
  lemma UniqueIdsCons(cart: Cart)
    requires |cart| > 0
    ensures UniqueIds(cart) <==> !InCart(cart[1..], cart[0].id) && UniqueIds(cart[1..])
  {
    var tail := cart[1..];
    assert forall i :: 1 <= i < |cart| ==> cart[i] == tail[i - 1];
    if !InCart(tail, cart[0].id) && UniqueIds(tail) {
      forall i, j | 0 <= i < j < |cart|
        ensures cart[i].id != cart[j].id
      {
        if i > 0 {
          assert tail[i - 1].id != tail[j - 1].id;
        } else {
          assert tail[j - 1].id != cart[0].id;
        }
      }
    }
    if UniqueIds(cart) {
      forall i | 0 <= i < |tail|
        ensures tail[i].id != cart[0].id
      {
        assert cart[i + 1] == tail[i];
      }
    }
  }

  /** A cart is valid exactly when its head is, its head's id does not recur, and its tail is valid. */
  lemma ValidCartCons(cart: Cart)
    requires |cart| > 0
    ensures ValidCart(cart) <==>
              cart[0].amount >= 1 && !InCart(cart[1..], cart[0].id) && ValidCart(cart[1..])
  {
    UniqueIdsCons(cart);
    assert forall i :: 1 <= i < |cart| ==> cart[i] == cart[1..][i - 1];
  }

  /** An item of the cart puts its id in the cart. */
  lemma MemberInCart(cart: Cart, x: Item)
    requires x in cart
    ensures InCart(cart, x.id)
  {
    var i :| 0 <= i < |cart| && cart[i] == x;
  }

  /** Leaving items out keeps ids unique and amounts positive. */
  lemma {:induction false} WithoutIdValid(cart: Cart, id: int)
    ensures ValidCart(cart) ==> ValidCart(WithoutId(cart, id))
  {
    if ValidCart(cart) && |cart| > 0 {
      var tail := cart[1..];
      ValidCartCons(cart);
      WithoutIdValid(tail, id);
      var rest := WithoutId(tail, id);
      if cart[0].id != id {
        var r := [cart[0]] + rest;
        assert r[1..] == rest;
        if InCart(rest, cart[0].id) {
          var k :| 0 <= k < |rest| && rest[k].id == cart[0].id;
          assert rest[k] in rest;
          MemberInCart(tail, rest[k]);
          assert false;
        }
        ValidCartCons(r);
      }
    }
  }

  /** Removes the line item `productId`; removing an absent item is an error. */
  function RemoveProduct(s: State, productId: int): (r: Step)
    ensures r.notice in {Ok, RemovalFailed}
    ensures r.notice == Ok <==> InCart(s.cart, productId)
    ensures r.notice != Ok ==> r.state == s
    ensures r.notice == Ok ==> r.state.storage == s.storage.(cart := Some(r.state.cart))
    ensures r.notice == Ok ==> |r.state.cart| < |s.cart|
    ensures forall x :: x in r.state.cart <==> x in s.cart && x.id != productId
    ensures !InCart(r.state.cart, productId)
    ensures ValidCart(s.cart) ==> ValidCart(r.state.cart)
    ensures Consistent(s) ==> Consistent(r.state)
  {
    if InCart(s.cart, productId) then
      WithoutIdValid(s.cart, productId);
      Commit(s, WithoutId(s.cart, productId))
    else Step(s, RemovalFailed)
  }

  /**
   * Sets the quantity of `productId` to `amount`. A quantity of zero or less
   * is a removal and does not consult the stock; otherwise the stock check
   * comes before the check that the item is in the cart.
   */
  function UpdateProductAmount(s: State, productId: int, amount: int, stock: Option<Stock>): (r: Step)
    ensures amount <= 0 ==> r == RemoveProduct(s, productId)
    ensures amount > 0 ==> r.notice in {Ok, OutOfStock, UpdateFailed}
    ensures amount > 0 ==> (r.notice == OutOfStock <==> stock.Some? && amount > stock.value.amount)
    ensures amount > 0 ==>
              (r.notice == Ok <==>
                 stock.Some? && amount <= stock.value.amount && InCart(s.cart, productId))
    ensures r.notice != Ok ==> r.state == s
    ensures r.notice == Ok ==> r.state.storage == s.storage.(cart := Some(r.state.cart))
    ensures r.notice == Ok && amount > 0 ==>
              && IndexOf(s.cart, productId).Some?
              && AmountSetAt(s.cart, r.state.cart, IndexOf(s.cart, productId).value, amount)
              && AmountOf(r.state.cart, productId) == amount
    ensures ValidCart(s.cart) ==> ValidCart(r.state.cart)
    ensures Consistent(s) ==> Consistent(r.state)
  {
    if amount <= 0 then RemoveProduct(s, productId)
    else
      match stock
      case None => Step(s, UpdateFailed)
      case Some(st) =>
        if amount > st.amount then Step(s, OutOfStock)
        else
          match IndexOf(s.cart, productId)
          case None => Step(s, UpdateFailed)
          case Some(i) =>
            var cart := s.cart[i := s.cart[i].(amount := amount)];
            AmountOfAfterSet(s.cart, cart, productId, amount);
            Commit(s, cart)
  }

  /**
   * Empties the cart in memory. The persisted cart key is not touched, so a
   * reload agrees with memory only if the persisted cart was already empty.
   */
  function ResetCart(s: State): (r: State)
    ensures r.cart == []
    ensures r.storage == s.storage
    ensures Consistent(r) <==> LoadCart(s.storage) == []
  {
    State([], s.storage)
  }

  // ---------------------------------------------------------------------
  // Properties relating several calls
  // ---------------------------------------------------------------------

  /** Putting the head back in front of the tail with one position cut out. */
  lemma ConsCut(cart: Cart, i: nat)
    requires 0 < i < |cart|
    ensures [cart[0]] + (cart[1..][..i - 1] + cart[1..][i..]) == cart[..i] + cart[i + 1..]
  {
    assert cart[1..][..i - 1] == cart[1..i];
    assert cart[1..][i..] == cart[i + 1..];
    assert [cart[0]] + cart[1..i] == cart[..i];
  }

  /** When the item at `i` is the only one with its id, removing that id removes just position `i`. */
  lemma {:induction false} WithoutSoleId(cart: Cart, i: nat)
    requires i < |cart|
    requires forall j :: 0 <= j < |cart| && j != i ==> cart[j].id != cart[i].id
    ensures WithoutId(cart, cart[i].id) == cart[..i] + cart[i + 1..]
  {
    var id := cart[i].id;
    var tail := cart[1..];
    if i == 0 {
      forall j | 0 <= j < |tail|
        ensures tail[j].id != id
      {
        assert tail[j] == cart[j + 1];
      }
      assert !InCart(tail, id);
      assert cart[..0] + cart[1..] == tail;
    } else {
      assert cart[0].id != id;
      assert tail[i - 1] == cart[i];
      forall j | 0 <= j < |tail| && j != i - 1
        ensures tail[j].id != id
      {
        assert tail[j] == cart[j + 1];
      }
      WithoutSoleId(tail, i - 1);
      ConsCut(cart, i);
    }
  }

  /** With unique ids, removing the item at `i` keeps the others in their relative order. */
  lemma WithoutUniqueId(cart: Cart, i: nat)
    requires UniqueIds(cart)
    requires i < |cart|
    ensures WithoutId(cart, cart[i].id) == cart[..i] + cart[i + 1..]
  {
    WithoutSoleId(cart, i);
  }

  /** A successful removal from a cart with unique ids drops exactly the one item and keeps the order. */
  lemma RemoveKeepsOrder(s: State, productId: int)
    requires UniqueIds(s.cart)
    requires InCart(s.cart, productId)
    ensures IndexOf(s.cart, productId).Some?
    ensures var i := IndexOf(s.cart, productId).value;
            RemoveProduct(s, productId).state.cart == s.cart[..i] + s.cart[i + 1..]
  {
    WithoutUniqueId(s.cart, IndexOf(s.cart, productId).value);
  }

  function Max(a: int, b: int): int {
    if a >= b then a else b
  }

  /** The state after `n` add requests for one product, each answered with the same stock and catalog record. */
  function AddRepeatedly(s: State, productId: int, stock: Stock, product: Product, n: nat): State
    decreases n
  {
    if n == 0 then s
    else AddRepeatedly(AddProduct(s, productId, Some(stock), Some(product)).state, productId, stock, product, n - 1)
  }

  /**
   * Repeated adds climb one unit at a time and stop at the stock: the
   * quantity never passes the stock unless it was already above it.
   */
  lemma {:induction false} RepeatedAddsStopAtStock(s: State, productId: int, stock: Stock, product: Product, n: nat)
    requires product.id == productId
    ensures var before := AmountOf(s.cart, productId);
            AmountOf(AddRepeatedly(s, productId, stock, product, n).cart, productId)
              == if before + n <= stock.amount then before + n else Max(before, stock.amount)
    decreases n
  {
    if n > 0 {
      var r := AddProduct(s, productId, Some(stock), Some(product));
      RepeatedAddsStopAtStock(r.state, productId, stock, product, n - 1);
    }
  }

  /** A reset on its own leaves a persisted cart that reappears on reload. */
  lemma ResetAloneLeavesStaleCart(s: State)
    requires Consistent(s)
    requires s.cart != []
    ensures !Consistent(ResetCart(s))
    ensures LoadCart(ResetCart(s).storage) == s.cart
  {
  }
}
