/**
 * The checkout page: cart totals, the quantity buttons, the order form and
 * the order submission, composed with the cart state manager.
 */
module Checkout {
  import opened Wrappers
  import opened CartTypes
  import opened CartState

  // ---------------------------------------------------------------------
  // Totals
  // ---------------------------------------------------------------------

  /** The flat delivery fee, R$ 3,50, in cents. */
  const DeliveryFee: int := 350

  function LineTotal(item: Item): int {
    item.amount * item.price
  }

  /**
   * The sum of quantity times price over the cart, accumulated from the
   * first item to the last as a left fold starting at 0.
   */
  function SubTotal(cart: Cart): (r: int)
    ensures |cart| == 0 ==> r == 0
    ensures |cart| == 1 ==> r == LineTotal(cart[0])
  {
    if |cart| == 0 then 0 else SubTotal(cart[..|cart| - 1]) + LineTotal(cart[|cart| - 1])
  }

  /** What the page shows as the total: the subtotal plus the delivery fee. */
  function Total(cart: Cart): (r: int)
    ensures |cart| == 0 ==> r == DeliveryFee
    ensures |cart| == 1 ==> r == LineTotal(cart[0]) + DeliveryFee
  {
    SubTotal(cart) + DeliveryFee
  }

  /** The page's running fold: the subtotal and the total with the delivery fee. */
  method ComputeTotals(cart: Cart) returns (subTotal: int, total: int)
    ensures subTotal == SubTotal(cart)
    ensures total == subTotal + DeliveryFee
    ensures cart == [] ==> subTotal == 0 && total == DeliveryFee
  {
    subTotal := 0;
    var i := 0;
    while i < |cart|
      invariant 0 <= i <= |cart|
      invariant subTotal == SubTotal(cart[..i])
    {
      assert cart[..i + 1][..i] == cart[..i];
      subTotal := subTotal + LineTotal(cart[i]);
      i := i + 1;
    }
    assert cart[..|cart|] == cart;
    total := subTotal + DeliveryFee;
  }

  /** The subtotal of two carts laid end to end is the sum of their subtotals. */
  lemma {:induction false} SubTotalAppend(a: Cart, b: Cart)
    ensures SubTotal(a + b) == SubTotal(a) + SubTotal(b)
    decreases |b|
  {
    if |b| == 0 {
      assert a + b == a;
    } else {
      var b' := b[..|b| - 1];
      assert (a + b)[..|a + b| - 1] == a + b';
      SubTotalAppend(a, b');
    }
  }

  /** The same sum folded from the front: the first line plus the subtotal of the rest. */
  lemma SubTotalFirst(cart: Cart)
    requires |cart| > 0
    ensures SubTotal(cart) == LineTotal(cart[0]) + SubTotal(cart[1..])
    ensures Total(cart) == LineTotal(cart[0]) + Total(cart[1..])
  {
    assert cart == [cart[0]] + cart[1..];
    SubTotalAppend([cart[0]], cart[1..]);
  }

  /** With no negative amounts or prices the subtotal is not negative. */
  lemma {:induction false} SubTotalNonNegative(cart: Cart)
    requires forall i :: 0 <= i < |cart| ==> cart[i].amount >= 0 && cart[i].price >= 0
    ensures SubTotal(cart) >= 0
    ensures Total(cart) >= DeliveryFee
    decreases |cart|
  {
    if |cart| > 0 {
      SubTotalNonNegative(cart[..|cart| - 1]);
    }
  }

  /** A one-item cart totals that item's line. */
  lemma SubTotalSingle(x: Item)
    ensures SubTotal([x]) == LineTotal(x)
  {
    assert [x][..0] == [];
  }

  /** The subtotal is the part before `i`, plus the line at `i`, plus the part after it. */
  lemma SubTotalSplit(cart: Cart, i: nat)
    requires i < |cart|
    ensures SubTotal(cart) == SubTotal(cart[..i]) + LineTotal(cart[i]) + SubTotal(cart[i + 1..])
  {
    var front := cart[..i + 1];
    assert cart == front + cart[i + 1..];
    SubTotalAppend(front, cart[i + 1..]);
    assert front[..|front| - 1] == cart[..i];
  }

  /** Replacing the item at `i` moves the subtotal by the difference of the two line totals. */
  lemma SubTotalReplaceAt(before: Cart, i: nat, x: Item)
    requires i < |before|
    ensures SubTotal(before[i := x]) == SubTotal(before) - LineTotal(before[i]) + LineTotal(x)
  {
    var after := before[i := x];
    SubTotalSplit(before, i);
    SubTotalSplit(after, i);
    assert after[..i] == before[..i];
    assert after[i + 1..] == before[i + 1..];
  }

  /** Two lines at the same price differ by the difference in amount times that price. */
  lemma LineTotalDiff(x: Item, y: Item)
    requires x.price == y.price
    ensures LineTotal(y) - LineTotal(x) == (y.amount - x.amount) * x.price
  {
    var p := x.price;
    assert y.amount * p - x.amount * p == (y.amount - x.amount) * p;
  }

  /** Changing one item's amount moves the subtotal by the change times that item's price. */
  lemma SubTotalAmountSet(before: Cart, after: Cart, i: nat, amount: int)
    requires AmountSetAt(before, after, i, amount)
    ensures SubTotal(after) == SubTotal(before) + (amount - before[i].amount) * before[i].price
  {
    assert after == before[i := after[i]];
    SubTotalReplaceAt(before, i, after[i]);
    LineTotalDiff(before[i], after[i]);
  }

  /** Leaving out the item at `i` lowers the subtotal by exactly that item's line total. */
  lemma SubTotalRemoveAt(cart: Cart, i: nat)
    requires i < |cart|
    ensures SubTotal(cart[..i] + cart[i + 1..]) == SubTotal(cart) - LineTotal(cart[i])
  {
    SubTotalSplit(cart, i);
    SubTotalAppend(cart[..i], cart[i + 1..]);
  }

  /** Adding one unit to the item at `i` raises the subtotal by its price. */
  lemma SubTotalOneMore(before: Cart, after: Cart, i: nat)
    requires i < |before|
    requires AmountSetAt(before, after, i, before[i].amount + 1)
    ensures SubTotal(after) == SubTotal(before) + before[i].price
  {
    SubTotalAmountSet(before, after, i, before[i].amount + 1);
  }

  /** Appending one item raises the subtotal by its line total. */
  lemma SubTotalAppendOne(cart: Cart, x: Item)
    ensures SubTotal(cart + [x]) == SubTotal(cart) + LineTotal(x)
  {
    assert (cart + [x])[..|cart|] == cart;
  }

  /** A successful add raises the subtotal by one unit price of the product added. */
  lemma SubTotalAfterAdd(s: State, productId: int, stock: Option<Stock>, product: Option<Product>)
    requires AddProduct(s, productId, stock, product).notice == Ok
    ensures var after := AddProduct(s, productId, stock, product).state.cart;
            match IndexOf(s.cart, productId)
            case Some(i) => SubTotal(after) == SubTotal(s.cart) + s.cart[i].price
            case None => product.Some? && SubTotal(after) == SubTotal(s.cart) + product.value.price
  {
    var after := AddProduct(s, productId, stock, product).state.cart;
    match IndexOf(s.cart, productId)
    case Some(i) =>
      assert AmountOf(s.cart, productId) == s.cart[i].amount;
      SubTotalOneMore(s.cart, after, i);
    case None =>
      assert after == s.cart + [NewItem(product.value)];
      SubTotalAppendOne(s.cart, NewItem(product.value));
  }

  /** A successful amount update replaces the item's line total by the line total at the new amount. */
  lemma SubTotalAfterUpdate(s: State, productId: int, amount: int, stock: Option<Stock>)
    requires amount > 0
    requires UpdateProductAmount(s, productId, amount, stock).notice == Ok
    ensures IndexOf(s.cart, productId).Some?
    ensures var i := IndexOf(s.cart, productId).value;
            SubTotal(UpdateProductAmount(s, productId, amount, stock).state.cart)
              == SubTotal(s.cart) - LineTotal(s.cart[i]) + amount * s.cart[i].price
  {
    var i := IndexOf(s.cart, productId).value;
    var after := UpdateProductAmount(s, productId, amount, stock).state.cart;
    assert after == s.cart[i := s.cart[i].(amount := amount)];
    SubTotalReplaceAt(s.cart, i, s.cart[i].(amount := amount));
  }

  /** Removing an item from a cart with unique ids lowers the subtotal by its line total. */
  lemma SubTotalAfterRemove(s: State, productId: int)
    requires UniqueIds(s.cart)
    requires InCart(s.cart, productId)
    ensures IndexOf(s.cart, productId).Some?
    ensures SubTotal(RemoveProduct(s, productId).state.cart)
              == SubTotal(s.cart) - LineTotal(s.cart[IndexOf(s.cart, productId).value])
  {
    RemoveKeepsOrder(s, productId);
    SubTotalRemoveAt(s.cart, IndexOf(s.cart, productId).value);
  }

  // ---------------------------------------------------------------------
  // Quantity buttons
  // ---------------------------------------------------------------------

  /** The "+" button on a displayed line item: asks for one unit more. */
  function Increment(s: State, item: Item, stock: Option<Stock>): (r: Step)
    ensures r.notice != Ok ==> r.state == s
    ensures item.amount < 0 ==> r == RemoveProduct(s, item.id)
    ensures item.amount < 0 ==> (r.notice == Ok <==> InCart(s.cart, item.id))
    ensures item.amount >= 0 ==> r.notice in {Ok, OutOfStock, UpdateFailed}
    ensures item.amount >= 0 ==>
              (r.notice == Ok <==>
                 stock.Some? && item.amount + 1 <= stock.value.amount && InCart(s.cart, item.id))
    ensures item.amount >= 0 ==>
              (r.notice == OutOfStock <==> stock.Some? && item.amount + 1 > stock.value.amount)
    ensures r.notice == Ok ==> r.state.storage == s.storage.(cart := Some(r.state.cart))
    ensures r.notice == Ok && item.amount >= 0 ==>
              && AmountOf(r.state.cart, item.id) == item.amount + 1 <= stock.value.amount
              && IndexOf(s.cart, item.id).Some?
              && AmountSetAt(s.cart, r.state.cart, IndexOf(s.cart, item.id).value, item.amount + 1)
    ensures ValidCart(s.cart) ==> ValidCart(r.state.cart)
    ensures Consistent(s) ==> Consistent(r.state)
  {
    UpdateProductAmount(s, item.id, item.amount + 1, stock)
  }

  /** The "-" button on a displayed line item: asks for one unit less; from one unit it removes the item. */
  function Decrement(s: State, item: Item, stock: Option<Stock>): (r: Step)
    ensures r.notice != Ok ==> r.state == s
    ensures item.amount <= 1 ==> r == RemoveProduct(s, item.id)
    ensures item.amount <= 1 ==> (r.notice == Ok <==> InCart(s.cart, item.id))
    ensures item.amount <= 1 ==> r.notice in {Ok, RemovalFailed} && !InCart(r.state.cart, item.id)
    ensures item.amount <= 1 ==> forall x :: x in r.state.cart <==> x in s.cart && x.id != item.id
    ensures item.amount > 1 ==>
              (r.notice == Ok <==>
                 stock.Some? && item.amount - 1 <= stock.value.amount && InCart(s.cart, item.id))
    ensures item.amount > 1 ==> r.notice in {Ok, OutOfStock, UpdateFailed}
    ensures item.amount > 1 ==>
              (r.notice == OutOfStock <==> stock.Some? && item.amount - 1 > stock.value.amount)
    ensures r.notice == Ok && item.amount > 1 ==>
              && AmountOf(r.state.cart, item.id) == item.amount - 1
              && IndexOf(s.cart, item.id).Some?
              && AmountSetAt(s.cart, r.state.cart, IndexOf(s.cart, item.id).value, item.amount - 1)
    ensures r.notice == Ok ==> r.state.storage == s.storage.(cart := Some(r.state.cart))
    ensures ValidCart(s.cart) ==> ValidCart(r.state.cart)
    ensures Consistent(s) ==> Consistent(r.state)
  {
    UpdateProductAmount(s, item.id, item.amount - 1, stock)
  }

  /** Decrementing a one-unit item from a cart with unique ids takes exactly that item out, keeping the order. */
  lemma DecrementLastUnitRemoves(s: State, i: nat, stock: Option<Stock>)
    requires UniqueIds(s.cart)
    requires i < |s.cart| && s.cart[i].amount == 1
    ensures Decrement(s, s.cart[i], stock).notice == Ok
    ensures Decrement(s, s.cart[i], stock).state.cart == s.cart[..i] + s.cart[i + 1..]
  {
    WithoutUniqueId(s.cart, i);
  }

  // ---------------------------------------------------------------------
  // The order form
  // ---------------------------------------------------------------------

  function PaymentTypeName(p: PaymentType): string {
    match p
    case CreditCard => "creditCard"
    case DebitCard => "debitCard"
    case Money => "money"
  }

  /** The form's payment field accepts exactly the names of the three payment types. */
  function ParsePaymentType(name: string): (r: Option<PaymentType>)
    ensures r.Some? <==> exists p :: PaymentTypeName(p) == name
    ensures r.Some? ==> PaymentTypeName(r.value) == name
  {
    if name == "creditCard" then assert PaymentTypeName(CreditCard) == name; Some(CreditCard)
    else if name == "debitCard" then assert PaymentTypeName(DebitCard) == name; Some(DebitCard)
    else if name == "money" then assert PaymentTypeName(Money) == name; Some(Money)
    else None
  }

  lemma PaymentTypeRoundTrip(p: PaymentType)
    ensures ParsePaymentType(PaymentTypeName(p)) == Some(p)
  {
  }

  /**
   * The submitted form values: a field missing from them is `None`. A text
   * input left blank is `Some("")`; only the payment choice can be missing.
   */
  datatype RawForm = RawForm(
    zipCode: Option<string>,
    street: Option<string>,
    numberHouse: Option<string>,
    complement: Option<string>,
    district: Option<string>,
    city: Option<string>,
    uf: Option<string>,
    paymentType: Option<string>)

  /** The form once validated: every field present except the optional complement. */
  datatype FormData = FormData(
    zipCode: string,
    street: string,
    numberHouse: string,
    complement: Option<string>,
    district: string,
    city: string,
    uf: string,
    paymentType: PaymentType)

  /** The fields exactly as a filled form would carry them. */
  function FormFields(d: FormData): RawForm {
    RawForm(Some(d.zipCode), Some(d.street), Some(d.numberHouse), d.complement,
            Some(d.district), Some(d.city), Some(d.uf), Some(PaymentTypeName(d.paymentType)))
  }

  /**
   * The form schema: every text field is required except the complement,
   * any text (the empty text included) is accepted, and the payment field
   * must name a payment type.
   */
  function ParseForm(raw: RawForm): (r: Option<FormData>)
    ensures r.Some? <==>
              && raw.zipCode.Some? && raw.street.Some? && raw.numberHouse.Some?
              && raw.district.Some? && raw.city.Some? && raw.uf.Some?
              && raw.paymentType.Some? && ParsePaymentType(raw.paymentType.value).Some?
    ensures r.Some? ==> FormFields(r.value) == raw
  {
    if && raw.zipCode.Some? && raw.street.Some? && raw.numberHouse.Some?
       && raw.district.Some? && raw.city.Some? && raw.uf.Some? && raw.paymentType.Some?
    then
      match ParsePaymentType(raw.paymentType.value)
      case None => None
      case Some(p) =>
        Some(FormData(raw.zipCode.value, raw.street.value, raw.numberHouse.value, raw.complement,
                      raw.district.value, raw.city.value, raw.uf.value, p))
    else None
  }

  /** Validation gives back any validated form from its fields, with or without the complement. */
  lemma FormRoundTrip(d: FormData)
    ensures ParseForm(FormFields(d)) == Some(d)
    ensures ParseForm(FormFields(d).(complement := None)) == Some(d.(complement := None))
  {
    PaymentTypeRoundTrip(d.paymentType);
  }

  // ---------------------------------------------------------------------
  // Order submission
  // ---------------------------------------------------------------------

  /** The order written at checkout and the state left behind. */
  datatype Submission = Submission(order: Order, state: State)

  /**
   * Submits a validated form: the order snapshots the cart and its total,
   * is written to the order key, the persisted cart key is removed and the
   * cart in memory is reset.
   */
  function CreateRequest(s: State, data: FormData): (r: Submission)
    ensures r.order.products == s.cart
    ensures r.order.total == SubTotal(s.cart) + DeliveryFee
    ensures r.order.paymentType == data.paymentType && r.order.complement == data.complement
    ensures && r.order.zipCode == data.zipCode && r.order.street == data.street
            && r.order.numberHouse == data.numberHouse && r.order.district == data.district
            && r.order.city == data.city && r.order.uf == data.uf
    ensures r.state.cart == [] && ValidCart(r.state.cart)
    ensures r.state.storage == Storage(None, Some(r.order))
    ensures LoadCart(r.state.storage) == [] && Consistent(r.state)
  {
    var order := Order(data.zipCode, data.street, data.numberHouse, data.complement,
                       data.district, data.city, data.uf, data.paymentType,
                       Total(s.cart), s.cart);
    var written := s.storage.(order := Some(order));
    var cleared := written.(cart := None);
    Submission(order, ResetCart(State(s.cart, cleared)))
  }

  /** One coffee at R$ 9,90 with five in stock, added to an empty cart. */
  lemma FirstAddScenario(storage: Storage)
    ensures var p := Product(1, "Expresso", "", 990);
            var r := AddProduct(State([], storage), 1, Some(Stock(1, 5)), Some(p));
            && r.notice == Ok
            && r.state.cart == [Item(1, "Expresso", "", 990, 1)]
            && SubTotal(r.state.cart) == 990
            && Total(r.state.cart) == 1340
  {
    var p := Product(1, "Expresso", "", 990);
    var r := AddProduct(State([], storage), 1, Some(Stock(1, 5)), Some(p));
    assert r.state.cart == [] + [NewItem(p)];
    assert r.state.cart[..0] == [];
  }
}
