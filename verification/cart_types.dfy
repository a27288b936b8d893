/**
 * Records shared by the cart state manager and the checkout page.
 * Money is counted in integer cents (R$ 9,90 is 990).
 */
module CartTypes {
  import opened Wrappers

  /** A catalog record as answered by `GET /products/{id}`. */
  datatype Product = Product(id: int, name: string, description: string, price: int)

  /** A stock record as answered by `GET /stock/{id}`: the most that may be bought. */
  datatype Stock = Stock(id: int, amount: int)

  /** A cart line item: the catalog record merged with the quantity in the cart. */
  datatype Item = Item(id: int, name: string, description: string, price: int, amount: int)

  /** The cart, in insertion (display) order. */
  type Cart = seq<Item>

  /** The payment methods the checkout form offers. */
  datatype PaymentType = CreditCard | DebitCard | Money

  /** The order snapshot written at checkout; `total` is kept in cents, not as formatted text. */
  datatype Order = Order(
    zipCode: string,
    street: string,
    numberHouse: string,
    complement: Option<string>,
    district: string,
    city: string,
    uf: string,
    paymentType: PaymentType,
    total: int,
    products: Cart)

  /**
   * The browser's persisted keys: the cart key and the order key.
   * `None` means the key is absent.
   */
  datatype Storage = Storage(cart: Option<Cart>, order: Option<Order>)

  /** The cart held in memory together with the persisted copy. */
  datatype State = State(cart: Cart, storage: Storage)

  /** The toast an operation shows; `Ok` when it shows none. */
  datatype Notice = Ok | OutOfStock | AdditionFailed | RemovalFailed | UpdateFailed

  /** What a cart operation leaves behind: the new state and its notice. */
  datatype Step = Step(state: State, notice: Notice)
}
