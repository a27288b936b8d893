# Coffee-delivery cart, modelled in Dafny

This project models the shopping cart of a small coffee-delivery storefront.
It covers the cart state manager (`src/contexts/CartContext.tsx`) and the
checkout page's cart logic (`src/pages/Cart/index.tsx`).

The cart is an ordered sequence of line items. Each item holds the catalog
record (`id`, `name`, `description`, `price`) and the `amount` in the cart.
The manager offers four transitions: add one unit, set an amount, remove an
item, and reset. Each is a pure function from a `State` to a `Step`:

- The `State` holds the cart in memory and the persisted keys (`Storage`: the
  cart key and the order key, `None` when a key is absent).
- The answers of the remote stock and catalog lookups are `Option` parameters.
  `None` is a failed request.
- The toast the operation shows is a `Notice`: `Ok`, `OutOfStock`,
  `AdditionFailed`, `RemovalFailed` or `UpdateFailed`.

Every failure leaves the state exactly as it was. Every successful mutation
writes the new cart to the persisted cart key and leaves the order key alone.

The checkout page adds these pieces:

- the subtotal, a left fold of `amount * price`, and the total with the flat
  R$ 3,50 delivery fee;
- the "+" and "−" buttons, which ask for the item's amount plus or minus one;
- the order form's schema: every field is required except the complement, and
  the payment type is one of `creditCard`, `debitCard`, `money`;
- the submission, which snapshots the cart into an order, writes the order,
  removes the persisted cart and resets the cart in memory.

Money is counted in integer cents: R$ 9,90 is `990` and the fee is `350`.

Files:

- `wrappers.dfy`: `Option`.
- `cart_types.dfy`: the records.
- `cart_state.dfy`: the manager.
- `checkout.dfy`: the checkout page.
- `session.dfy`: any sequence of user actions, run from the state loaded at
  start-up.

Lemmas relate the operations to one another:

- removal keeps the order of the other items;
- repeated adds climb one unit at a time and stop at the stock;
- each transition moves the subtotal by exactly the expected amount;
- a whole session keeps ids unique and amounts positive, and a reload always
  shows the cart held in memory.

`resetCart` clears only the cart in memory. On its own it would leave a
persisted cart that comes back on reload (`ResetAloneLeavesStaleCart`). The
page calls it only after removing the persisted cart key, so no user action
sequence reaches that state (`Session.SessionKeepsInvariants`).

## Model

| member | source | states |
|---|---|---|
| CartState.Init | src/contexts/CartContext.tsx:26-34 | the start-up cart is the persisted cart, or empty when the key is absent, so a reload agrees with memory |
| CartState.IndexOf | src/contexts/CartContext.tsx:43-45 | finds the first item with the id: it is present exactly when the cart holds the id, and no earlier item has that id |
| CartState.AmountOf | src/contexts/CartContext.tsx:49 | the current quantity is 0 for an absent id and otherwise the amount of the (unique) item with that id |
| CartState.LoadCart | src/contexts/CartContext.tsx:27-33 | the start-up read gives the persisted cart when the key is present and the empty cart when it is absent |
| CartState.Commit | src/contexts/CartContext.tsx:69-70 | every successful mutation (also lines 82-83 and 118-119) answers Ok, puts the new cart in memory, persists it so that a reload reads back the same cart, and leaves the order key alone |
| CartState.AddProduct | src/contexts/CartContext.tsx:40-74 | OutOfStock exactly when current amount + 1 exceeds the stock, AdditionFailed on a failed lookup. On any failure the state is unchanged. Otherwise an existing item gains exactly one unit and nothing else changes, or a new item with amount 1 is appended after an unchanged prefix. The persisted copy equals the new cart, and validity and reload-consistency are kept |
| CartState.RepeatedAddsStopAtStock | src/contexts/CartContext.tsx:46-56 | n adds with the same stock raise the quantity by n while it stays within stock, and never past the stock unless it already was |
| CartState.WithoutId | src/contexts/CartContext.tsx:81 | the filtered cart holds exactly the items whose id differs, is shorter when the id was present, and is unchanged when it was absent |
| CartState.WithoutIdValid | src/contexts/CartContext.tsx:81 | filtering keeps ids unique and amounts positive |
| CartState.WithoutUniqueId | src/contexts/CartContext.tsx:81 | with unique ids, filtering out item i yields the cart with only position i removed, the rest in order |
| CartState.RemoveProduct | src/contexts/CartContext.tsx:76-90 | Ok exactly when the id is present, else RemovalFailed with the state unchanged. The result holds exactly the other items and no item with that id. The persisted copy equals the new cart, and validity and reload-consistency are kept |
| CartState.RemoveKeepsOrder | src/contexts/CartContext.tsx:76-89 | a successful removal from a cart with unique ids drops only the found item and keeps the relative order of the rest |
| CartState.UpdateProductAmount | src/contexts/CartContext.tsx:92-127 | an amount of zero or less is exactly removeProduct, whatever the stock. Otherwise OutOfStock exactly when the amount exceeds the stock, even for a missing id. Ok exactly when the stock was read, the amount is within it and the id is present, and then only that item's amount changes. Every failure (a missing id, a failed lookup) leaves the state unchanged, and validity and reload-consistency are kept |
| CartState.ResetCart | src/contexts/CartContext.tsx:36-38 | memory becomes empty and storage is untouched, so a reload agrees with memory exactly when the persisted cart was empty |
| CartState.ResetAloneLeavesStaleCart | src/contexts/CartContext.tsx:36-38 | after a reset alone, a reload brings back the non-empty cart that was in memory before |
| Checkout.SubTotal | src/pages/Cart/index.tsx:49-51 | the sum of amount × price: 0 for the empty cart and the single line's amount × price for a one-item cart; the sum over longer carts is stated by `SubTotalFirst`, `SubTotalAppend` and `SubTotalNonNegative` |
| Checkout.Total | src/pages/Cart/index.tsx:55 | the amount charged: the delivery fee alone for the empty cart, and the single line plus the fee for a one-item cart |
| Checkout.SubTotalFirst | src/pages/Cart/index.tsx:49-51 | the left fold agrees with folding from the front: the first line plus the subtotal (and total) of the rest |
| Checkout.ComputeTotals | src/pages/Cart/index.tsx:49-55 | the fold over the cart equals the left-to-right sum of amount × price; total is subtotal + 350; the empty cart has subtotal 0 |
| Checkout.SubTotalAppend | src/pages/Cart/index.tsx:49-51 | the subtotal of two concatenated carts is the sum of their subtotals |
| Checkout.SubTotalNonNegative | src/pages/Cart/index.tsx:49-55 | with no negative amounts or prices, the subtotal is not negative and the total is at least the delivery fee |
| Checkout.SubTotalReplaceAt | src/pages/Cart/index.tsx:49-51 | replacing one item moves the subtotal by the difference of the two line totals |
| Checkout.SubTotalAmountSet | src/pages/Cart/index.tsx:49-51 | changing one item's amount moves the subtotal by the change times its price |
| Checkout.SubTotalRemoveAt | src/pages/Cart/index.tsx:49-51 | removing the item at a position lowers the subtotal by its line total |
| Checkout.SubTotalAfterAdd | src/pages/Cart/index.tsx:49-51 | a successful add raises the subtotal by one unit price of the product added |
| Checkout.SubTotalAfterUpdate | src/pages/Cart/index.tsx:49-51 | a successful amount update replaces the item's line total by the new amount times its price |
| Checkout.SubTotalAfterRemove | src/pages/Cart/index.tsx:49-51 | removing an item from a cart with unique ids lowers the subtotal by its line total |
| Checkout.Increment | src/pages/Cart/index.tsx:57-62 | for a negative amount, amount + 1 is at most 0 and the press is exactly removeProduct of the item, whatever the stock (Ok exactly when the item is in the cart). For an amount of 0 or more: Ok exactly when the stock was read, amount + 1 is within it and the item is in the cart; then the found item's amount becomes amount + 1 ≤ stock and every other item is unchanged, and the persisted cart key holds the new cart while the order key is untouched. OutOfStock exactly when the stock was read and amount + 1 exceeds it, UpdateFailed otherwise. A failure changes nothing |
| Checkout.Decrement | src/pages/Cart/index.tsx:64-69 | from one unit, it is exactly removeProduct of the item, whatever the stock (RemovalFailed if absent). Above one unit, Ok exactly when amount − 1 is within the stock read and the item is present, and then only the found item's amount changes, to amount − 1, the persisted cart key holds the new cart and the order key is untouched. A failure above one unit is OutOfStock exactly when the stock was read and amount − 1 exceeds it, otherwise UpdateFailed, and changes nothing |
| Checkout.DecrementLastUnitRemoves | src/pages/Cart/index.tsx:64-69 | decrementing a one-unit item of a cart with unique ids succeeds and removes exactly that position, keeping the order |
| Checkout.ParsePaymentType | src/pages/Cart/index.tsx:28 | a payment name is accepted exactly when it names one of the three payment types, and parsing returns that type |
| Checkout.PaymentTypeRoundTrip | src/pages/Cart/index.tsx:28 | every payment type parses back from its name |
| Checkout.ParseForm | src/pages/Cart/index.tsx:20-28 | the form validates exactly when every field except the complement is present and the payment name is valid; the validated data carry exactly the submitted fields |
| Checkout.FormRoundTrip | src/pages/Cart/index.tsx:20-28 | any validated form is recovered from its fields, with or without the complement |
| Checkout.CreateRequest | src/pages/Cart/index.tsx:71-95 | the order carries the form data, the cart at submission and subtotal + fee. Afterwards memory is empty, the cart key is removed and the order key holds the order, so a reload shows an empty cart |
| Checkout.FirstAddScenario | src/pages/Cart/index.tsx:49-55 | adding product 1 (R$ 9,90, stock 5) to an empty cart gives one item with amount 1, subtotal 990 and total 1340 |
| Session.RunKeepsInvariants | src/contexts/CartContext.tsx:36-127 | any sequence of adds, button presses, removals and submissions keeps ids unique, amounts ≥ 1 and the persisted cart in step with memory |
| Session.SessionKeepsInvariants | src/contexts/CartContext.tsx:26-34 | starting from a valid persisted cart, every session ends with a valid cart that a reload reproduces |

## Left out

- React plumbing (context, provider, `useState`, hooks): the state is passed as an explicit value.
- Overlapping asynchronous calls: two calls that both read the same old `cart` are concurrency and are not modelled. Each operation runs to completion on the state it was given.
- The in-place mutation of a line item through the shallow copy of the cart is modelled as a functional update of that item. The resulting cart is the same.
- Network calls: `GET /stock/{id}` and `GET /products/{id}` are `Option` parameters. The stock record's `id` is carried but, as in the source, not consulted. An appended item takes its id from the catalog answer, as the source does. The invariant lemmas therefore assume the catalog answers with the product that was asked for (`Session.CatalogAgrees`).
- `addProduct` receives a whole product but uses only its id. The model takes the id.
- Storage keys: the source writes the cart under `@CoffeDelivery:cart` and the order under `@CoffeDelivery:pedido`. The model names them as the two fields of `Storage`.
- JSON serialisation and `localStorage`: the storage holds carts and orders directly, so no serialise/parse round trip is modelled. The start-up load does not catch a `JSON.parse` error on a malformed stored cart; malformed storage is not modelled. A storage write that throws (after memory was already updated) is not modelled either: writes always succeed.
- Toasts and `console` output become the returned `Notice`. `console.log` of the order is dropped.
- Floating-point prices and BRL formatting: money is integer cents. The order's `total` is the amount in cents, not the formatted text.
- Amounts are integers. A fractional JavaScript number passed as an amount is not modelled.
- zod and react-hook-form internals: only the schema's outcome is modelled (`Checkout.ParseForm`): which fields are required and which payment names are accepted. `navigate('/success')`, the JSX, icons and styling are left out.
- Session: a quantity button names its line item by position in the displayed cart. A position past the end is a button that does not exist, and the action is a no-op.
