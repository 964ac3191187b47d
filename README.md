# Shopping-cart store, modelled in Dafny

This project models the cart store of a small storefront client
(`src/hooks/useCart.tsx`). The store keeps an ordered cart of entries. Each entry
holds a product id, an amount and the product's display fields. The store
mirrors the cart to persistent storage and offers three operations:

- **addProduct** adds one unit of a product. It increments the product's entry
  if the cart has one. Otherwise it appends the fetched product with amount 1.
  It refuses when the new amount would be greater than the stock.
- **removeProduct** deletes the product's entry. It fails when there is none.
- **updateProductAmount** sets an entry's amount. It ignores amounts of 0 or
  less without a message. It refuses amounts at or above the stock. It fails
  when the product has no entry.

In the model every operation either commits or changes nothing. To commit, it
publishes the new cart and writes the same cart to storage. This holds only
while the storage write succeeds (see "Left out").

The project has two modules:

- `cart.dfy`, module `Cart`: the values (`Entry`, `Product`, `Outcome`) and
  one step function per operation. A step function maps the old cart and the
  services' answers to an outcome and the new cart. It also holds the
  invariants (unique ids, positive amounts) and the lemmas that every
  operation keeps them, alone and over any sequence of requests.
- `cart_store.dfy`, module `Store`: the class `CartStore` with two fields.
  `cart` is the published cart and `stored` is what storage holds under the
  cart key (`@RocketShoes:cart`). The class has a constructor that loads from
  storage and one method per operation. Each method copies the cart, changes
  the copy step by step and then commits. Its contract ties the outcome and the
  new cart to the step function. It also keeps `Persisted()`: reloading from
  storage gives back the cart in memory. Five client methods replay the worked
  examples of the cart's behaviour against these contracts.

The answers of the stock service and the product service are parameters of
type `Option`. `None` stands for a request that threw. The outcome enum stands
for the toast messages. `Ok` means success, which the source signals only by
publishing the new cart. `Ignored` is the silent return for a non-positive
update amount.

The two stock checks are kept as the source writes them, and they differ.
Add refuses only when the new amount is greater than the stock, so add can
reach the stock exactly. Update refuses when the amount is at or above the
stock, so update can never set the stock amount. `Cart.StockCeilingAsymmetry`
states this difference.

A new entry takes its id from the product service's answer. It does not take
the requested id. So the add operation keeps ids unique only when the service
answers with the product that was asked for. `Cart.AddKeepsWellFormed` assumes
this answer, and `Cart.AddTrustsProductId` shows the duplicate id that
results otherwise.

## Model

| member | source | states |
|---|---|---|
| `Cart.IndexOf` | src/hooks/useCart.tsx:76-76 | Returns the position of the first entry with the id, or None exactly when no entry has it, the way `find` and `findIndex` search |
| `Cart.CurrentAmount` | src/hooks/useCart.tsx:43-43 | 0 when no entry has the id; otherwise the amount of the first entry that has it |
| `Cart.Without` | src/hooks/useCart.tsx:78-78 | Deleting position i shortens the cart by one and keeps every other entry in its relative order |
| `Cart.AddProductStep` | src/hooks/useCart.tsx:35-71 | Outcome is OutOfStock iff current amount + 1 > stock, and AddFailed iff the stock lookup failed or the product lookup for an absent id failed. Otherwise it is Ok: a present entry gains one unit in place with length, order and all other entries unchanged, or an absent product is appended with amount 1 behind the unchanged old entries. The cart is unchanged on every outcome but Ok |
| `Cart.RemoveProductStep` | src/hooks/useCart.tsx:73-88 | RemoveFailed iff no entry has the id, with the cart unchanged. Otherwise exactly the first matching entry is deleted, the length drops by one and the rest keep their order |
| `Cart.UpdateAmountStep` | src/hooks/useCart.tsx:90-121 | Ignored iff amount <= 0. OutOfStock iff amount > 0 and amount >= stock. UpdateFailed iff the stock lookup failed or the id is absent. Ok iff 0 < amount < stock and the id is present, and then only that entry's amount becomes `amount`. The cart is unchanged on every outcome but Ok |
| `Cart.AddKeepsWellFormed` | src/hooks/useCart.tsx:51-66 | Add keeps ids unique and amounts positive, given that the product service answers with the requested product |
| `Cart.RemoveKeepsWellFormed` | src/hooks/useCart.tsx:75-80 | Remove keeps ids unique and amounts positive |
| `Cart.UpdateKeepsWellFormed` | src/hooks/useCart.tsx:107-113 | Update keeps ids unique and amounts positive |
| `Cart.RemoveTwiceFails` | src/hooks/useCart.tsx:76-87 | In a well-formed cart the id is gone after a remove, so a second remove returns RemoveFailed and changes nothing |
| `Cart.AddThenFind` | src/hooks/useCart.tsx:39-53 | After a successful add, on any cart, the product's amount is one more than before and at most the stock, given that the product service answers with the requested product |
| `Cart.StockCeilingAsymmetry` | src/hooks/useCart.tsx:46-102 | With stock s and s - 1 units in the cart, add succeeds and reaches s, while updating to s is refused as out of stock with the cart unchanged |
| `Cart.Apply` | src/hooks/useCart.tsx:35-121 | Any single request, whether add, remove or update, leaves the cart unchanged unless its outcome is Ok |
| `Cart.RunKeepsWellFormed` | src/hooks/useCart.tsx:35-121 | Starting from a well-formed cart, any sequence of requests leaves ids unique and amounts positive, whatever each one's outcome, given that the product service answers with the requested products |
| `Cart.AddTrustsProductId` | src/hooks/useCart.tsx:55-62 | The appended entry's id comes from the product service's answer, so an answer with an id already in the cart creates a duplicate |
| `Store.CartStore.constructor` | src/hooks/useCart.tsx:25-33 | The cart starts as the stored sequence, or empty when storage holds nothing. Storage is left as found, so reloading gives the same cart |
| `Store.CartStore.AddProduct` | src/hooks/useCart.tsx:35-71 | The outcome and the new cart are those of AddProductStep. On Ok storage holds the new cart. On any other outcome cart and storage are untouched. Persistence is kept, and so are the invariants when the product service answers with the requested product |
| `Store.CartStore.RemoveProduct` | src/hooks/useCart.tsx:73-88 | The outcome and the new cart are those of RemoveProductStep. On Ok storage holds the new cart. On RemoveFailed cart and storage are untouched. Persistence and the invariants are kept |
| `Store.CartStore.UpdateProductAmount` | src/hooks/useCart.tsx:90-121 | The outcome and the new cart are those of UpdateAmountStep. On Ok storage holds the new cart. On any other outcome cart and storage are untouched. Persistence and the invariants are kept |

## Left out

- React context, provider and hook plumbing (`createContext`, `useState`, `useContext`, JSX): UI framework wiring with no logic.
- The network requests to the stock and product endpoints: they are replaced by `Option` parameters, with `None` for a request that threw. A malformed answer, such as a stock response without a numeric `amount`, is not modelled.
- Toast notifications: replaced by the returned `Outcome`. The message texts are not modelled.
- JSON serialisation and `localStorage`: storage is the field `stored` holding the parsed sequence. Malformed stored data and an empty stored string, which is falsy and so yields an empty cart, are not modelled.
- A storage write that throws: the source publishes the new cart before it writes storage, so a failing write would show the failure message with the new cart already published and the old contents still in storage. The model assumes the write succeeds.
- The race between overlapping asynchronous calls, which read the cart before awaiting and write it after: this is concurrency, and each method here runs to completion.
- Aliasing from the shallow copy `[...cart]` followed by assigning an entry's `amount`: that assignment also changes the object shared with the previous state. Entries here are immutable values, so the old cart is never affected.
- Product display fields other than `id` and `amount`: they are an opaque `Details` string carried unchanged.
- Amounts and ids are JavaScript numbers. They are modelled as unbounded integers, so fractional or non-finite values are not covered.
