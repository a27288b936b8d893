/**
 * A browsing session: the actions the storefront offers on the cart, run
 * one after another from the state loaded at start-up.
 */
module Session {
  import opened Wrappers
  import opened CartTypes
  import opened CartState
  import opened Checkout

  /**
   * A user action together with the remote answers it receives. The quantity
   * buttons name a displayed line item by its position in the cart.
   */
  datatype Action =
    | AddToCart(productId: int, stock: Option<Stock>, product: Option<Product>)
    | IncrementItem(index: nat, stock: Option<Stock>)
    | DecrementItem(index: nat, stock: Option<Stock>)
    | RemoveItem(productId: int)
    | SubmitOrder(form: RawForm)

  /** The catalog answers an add with the record of the product asked for. */
  predicate CatalogAgrees(a: Action) {
    a.AddToCart? && a.product.Some? ==> a.product.value.id == a.productId
  }

  function Apply(s: State, a: Action): State {
    match a
    case AddToCart(id, stock, product) => AddProduct(s, id, stock, product).state
    case IncrementItem(i, stock) => if i < |s.cart| then Increment(s, s.cart[i], stock).state else s
    case DecrementItem(i, stock) => if i < |s.cart| then Decrement(s, s.cart[i], stock).state else s
    case RemoveItem(id) => RemoveProduct(s, id).state
    case SubmitOrder(raw) =>
      match ParseForm(raw)
      case None => s
      case Some(data) => CreateRequest(s, data).state
  }

  function Run(s: State, actions: seq<Action>): State
    decreases |actions|
  {
    if |actions| == 0 then s else Run(Apply(s, actions[0]), actions[1..])
  }

  /** Every action keeps ids unique, amounts positive, and the persisted cart in step with memory. */
  lemma ApplyKeepsInvariants(s: State, a: Action)
    requires ValidCart(s.cart) && Consistent(s)
    requires CatalogAgrees(a)
    ensures ValidCart(Apply(s, a).cart) && Consistent(Apply(s, a))
  {
  }

  lemma {:induction false} RunKeepsInvariants(s: State, actions: seq<Action>)
    requires ValidCart(s.cart) && Consistent(s)
    requires forall k :: 0 <= k < |actions| ==> CatalogAgrees(actions[k])
    ensures ValidCart(Run(s, actions).cart) && Consistent(Run(s, actions))
    decreases |actions|
  {
    if |actions| > 0 {
      ApplyKeepsInvariants(s, actions[0]);
      assert forall k :: 0 <= k < |actions| - 1 ==> actions[1..][k] == actions[k + 1];
      RunKeepsInvariants(Apply(s, actions[0]), actions[1..]);
    }
  }

  /**
   * From a valid persisted cart, whatever the user does, the cart stays
   * valid and a reload shows exactly the cart in memory.
   */
  lemma SessionKeepsInvariants(storage: Storage, actions: seq<Action>)
    requires ValidCart(LoadCart(storage))
    requires forall k :: 0 <= k < |actions| ==> CatalogAgrees(actions[k])
    ensures var r := Run(Init(storage), actions);
            ValidCart(r.cart) && LoadCart(r.storage) == r.cart
  {
    RunKeepsInvariants(Init(storage), actions);
  }
}
