# Lesson storefront view-model in Dafny

This project models the view-model of a single-page storefront for lessons
(`app.js`). The view-model holds an inventory of lessons, each with a subject, a
location, a price and a number of remaining spaces. It also holds a shopping cart,
the sort settings, the search query and the checkout form (name and phone).

It has two kinds of logic:

- **Computed views**, modelled as functions:
  - `sortedLessons`: a copy of the inventory, sorted on one field, ascending or descending.
  - `filteredLessons`: the sorted lessons whose subject, location, price or spaces contain the search query, ignoring case.
  - `validForm`: the two regular expressions on the form fields.
  - `cartTotal`: the sum of price times quantity.
- **Handlers**, modelled as methods of the class `App.Storefront`:
  - `toggleOrder`
  - `addToCart`
  - `removeFromCart`
  - `checkout`

  The inventory is an `array<Lesson>` that the cart handlers update in place. The cart is a sequence of lines. Each handler is proved against a pure step function in module `Cart` (`AddStep`, `RemoveStep`, `OrderFor`). The lemmas about those functions state the storefront's guarantees:
  - the cart holds at most one line per lesson;
  - each add raises a quantity by exactly one;
  - capacity is conserved: a lesson's `spaces` plus the quantity reserved for it in the cart stays constant over any session of adds and successful removes.

The catalog service's calls are awaited by the handlers. Their outcomes are parameters: `updateOk` for the spaces update in `removeFromCart`, and `submitOk` for posting the order in `checkout`.

Modules:
- `Model`: the entities.
- `Text`: lower-casing, substring search and decimal numerals.
- `Sorting`
- `Filtering`
- `Forms`
- `Cart`
- `App`: the class.

Details of `removeFromCart` that the model keeps:
- It returns the line's quantity to the lesson before it awaits the spaces update (app.js:67-68). When that update rejects, the handler throws before the splice (app.js:68-70). The line then stays in the cart after its places were returned. `Cart.RemoveStepFailure` states the resulting over-count.
- It drops a whole line. It never decrements the quantity.
- An index outside the cart names no line. With a non-empty inventory, the lookup reads the missing line's id and throws. With an empty inventory, the lookup never runs. `splice` then applies its own index rule: a negative index counts from the end and is clamped at 0, and an index at or past the end removes nothing. The handler resolves in that case.

## Model

| member | source | states |
|---|---|---|
| Sorting.Comparator | app.js:20-25 | The comparator is zero exactly on equal keys. Ascending, it is negative iff the first key is smaller and positive iff it is larger. Descending flips both. |
| Sorting.KeyTrichotomy | app.js:22-23 | On every sort key, two lessons are equal, or exactly one of them is smaller. |
| Sorting.StrLess | app.js:22-23 | `a < b` on strings holds iff there is a position where the two agree before it, and there either `a` ends while `b` goes on, or `a`'s character is smaller. |
| Sorting.StrLessTransitive | app.js:22-23 | String `<` is transitive. |
| Sorting.StrLessTrichotomy | app.js:22-23 | Of two strings, one is smaller or they are equal. |
| Sorting.PrecedesTransitive | app.js:20-25 | "May come first" under the comparator is transitive, in both directions. |
| Sorting.PrecedesTotal | app.js:20-25 | Any two lessons can be ordered one way. Both ways only when their keys are equal. |
| Sorting.SortBy | app.js:20-25 | The sorted view is a permutation of the inventory. It is non-decreasing on the key when ascending, and non-increasing otherwise. |
| Sorting.SortByStable | app.js:20-25 | Lessons with equal keys keep their inventory order. |
| Sorting.StableSortUnique | app.js:20-25 | Two sequences that are both sorted and stable with the same key classes are equal. So any stable sort with this comparator produces this view. |
| Sorting.SortedLessonsCorrect | app.js:19-25 | The sorted view is an ordered, stable permutation, and it is the only one. |
| Text.LowerChar | app.js:28 | No result is an ASCII capital. A capital maps to the letter at its own position in the lower-case alphabet. Every other character is unchanged. |
| Text.ToLower | app.js:31-32 | Lower-casing keeps the length and lower-cases each character in place. |
| Text.ToLowerIdempotent | app.js:28-32 | Lower-casing twice is lower-casing once. |
| Text.Includes | app.js:31-34 | `includes` is true iff the query occurs at some position of the string. |
| Text.EmptyIsIncluded | app.js:31 | Every string includes the empty string. |
| Text.NatToDecimal | app.js:33-34 | The decimal form is non-empty and all digits, with no leading zero except for 0. |
| Text.DecimalRoundTrip | app.js:33-34 | Reading the decimal form back gives the number. |
| Text.IntToDecimal | app.js:33-34 | `toString` of an integer starts with `-` iff the number is negative, and has at least one digit after that sign. It is all digits after the sign, with no leading zero except for 0 itself. Read back, the digits give the number's absolute value. |
| Filtering.Matches | app.js:30-34 | A lesson matches iff the lower-cased query occurs in the lower-cased subject or location, or in the decimal form of the price or the spaces. The empty query matches every lesson. |
| Filtering.FilterLessons | app.js:29-35 | The filter's result is an order-preserving subsequence of its input. It keeps every copy of a matching lesson and no copy of another. A lesson is in it iff it is in the input and matches. |
| Filtering.EmptyQueryKeepsAll | app.js:27-35 | An empty query keeps every lesson, in order. |
| Filtering.MatchesIgnoresQueryCase | app.js:28-34 | Lower-casing the query first changes nothing. |
| Filtering.FilterKeepsSorted | app.js:29 | Filtering the sorted view leaves it sorted. |
| Forms.MatchPlus | app.js:38 | `^[class]+$` holds iff the string is non-empty and every character is in the class. |
| Forms.MatchCount | app.js:39 | `^[class]{n}$` holds iff the string has exactly n characters, all in the class. |
| Forms.ValidForm | app.js:37-41 | The form is valid iff the name is non-empty and all ASCII letters or white space, and the phone is exactly 10 ASCII digits. |
| Forms.ValidFormAccepts | app.js:37-41 | "Jo Ann" with "1234567890" is valid. |
| Forms.ValidFormRejects | app.js:37-41 | "Jo1", a 5-digit phone and an empty name are each refused. |
| Cart.LineIndex | app.js:53 | The cart lookup finds the first line with the lesson's id, or reports that none has it. |
| Cart.FindLesson | app.js:65 | The inventory lookup finds the first lesson with the line's id, or reports that none has it. |
| Cart.Splice | app.js:70 | Splicing deletes exactly the line at the index. The lines before it stay in place, and the lines after it move up by one in order. |
| Cart.AddStep | app.js:50-61 | Adding to the cart changes only the `spaces` of inventory lessons. |
| Cart.SpliceOneIndexRule | app.js:70 | `splice(k, 1)` deletes the line at k when k is in range. A negative k counts from the end, and one below `-length` deletes the first line. A k at or past the end deletes nothing. |
| Cart.RemoveStep | app.js:63-71 | Removing from the cart changes only the `spaces` of inventory lessons, with an index in or out of range. |
| Cart.RemoveResolves | app.js:63-71 | When the handler resolves, the new cart is the old one spliced at the index by `splice`'s rule. When it throws, the cart is unchanged. |
| Cart.Step | app.js:50-71 | Cart operations change only the `spaces` of inventory lessons. |
| Cart.AddStepGuard | app.js:51 | A lesson with no spaces left leaves cart and inventory unchanged. No lesson's spaces become negative. |
| Cart.AddStepLine | app.js:53-58 | The lesson's line quantity goes up by exactly 1. An existing line changes only its quantity and keeps the lesson copy it holds. A line is appended only when there was none, holding the lesson copied before the decrement with quantity 1. Other lessons' lines are untouched. At most one line per id is preserved. |
| Cart.AddStepReserves | app.js:53-60 | The chosen lesson's reserved quantity goes up by 1. Other lessons' reserved quantities are unchanged. |
| Cart.AddStepConserves | app.js:55-60 | With unique lesson ids, spaces plus reserved quantity is unchanged for every inventory lesson. |
| Cart.AddStepKeepsWellFormed | app.js:50-61 | Adding keeps the invariant: unique ids, one line per lesson, quantities of at least 1, non-negative spaces. |
| Cart.ReservedIsLineQuantity | app.js:53-58 | With one line per lesson, the reserved quantity is that line's quantity. |
| Cart.RemoveStepReserves | app.js:67-70 | A successful removal lowers the line's lesson's reserved quantity by the line's quantity. No other lesson's changes. |
| Cart.RemoveStepConserves | app.js:64-70 | A successful removal deletes exactly the line at the index. Spaces plus reserved quantity is unchanged for every inventory lesson, including when no lesson has the line's id. |
| Cart.RemoveStepFailure | app.js:66-70 | When the spaces update fails, the line stays, and that lesson's spaces plus reserved quantity grows by the line's quantity. Other lessons are unchanged. |
| Cart.RemoveStepKeepsWellFormed | app.js:63-71 | Removal keeps the invariant when the update succeeds and when it fails. |
| Cart.RunConserves | app.js:50-71 | Over any sequence of adds and successful removes, every lesson's spaces plus reserved quantity stays what it was before the first one. |
| Cart.Reduce | app.js:43 | The left-to-right reduction from a start value is that value plus the sum of price × quantity. |
| Cart.CartTotal | app.js:42-44 | The total equals the sum over lines of price × quantity. |
| Cart.AddStepTotal | app.js:43-57 | Each effective add raises the total by the price on the lesson's line. |
| Cart.CartTotalNonNegative | app.js:43 | With non-negative prices and quantities the total is non-negative. |
| Cart.OrderLines | app.js:81-85 | There is one order line per cart line, in cart order, carrying its id, subject and quantity. |
| Cart.OrderFor | app.js:76-86 | An order exists iff the form is valid and the cart is non-empty. It carries the name, the phone and lines mirroring the cart one-to-one. |
| Cart.ThreeAddsExample | app.js:43-60 | Three adds on a lesson with 5 spaces at price 10 give one line of quantity 3, 2 spaces left and a total of 30. |
| App.Storefront.constructor | app.js:5-16 | The initial state, once the inventory is loaded: empty cart and form, sorted by subject ascending. |
| App.Storefront.SortedLessons | app.js:19-26 | The computed sorted view is an ordered, stable permutation of the inventory. |
| App.Storefront.FilteredLessons | app.js:27-36 | The computed filtered view is sorted and a subsequence of the sorted view. It holds exactly the inventory lessons matching the query, and everything when the query is empty. |
| App.Storefront.ToggleOrder | app.js:47-49 | Flips the direction and touches nothing else. |
| App.Storefront.AddToCart | app.js:50-62 | The new inventory and cart are `AddStep` of the old ones. The invariant holds and capacity is conserved. Only the cart and inventory change. |
| App.Storefront.RemoveFromCart | app.js:63-71 | The new state is `RemoveStep` of the old one. The handler resolves exactly when `RemoveResolves` says. It throws on a failed update, and on an index outside the cart when the inventory is non-empty. The invariant holds after every outcome. Capacity is conserved when the update succeeds. |
| App.Storefront.Checkout | app.js:75-99 | The order posted is `OrderFor` the old name, phone and cart. On success the cart, name and phone are cleared and the confirmation is raised. Otherwise all four are unchanged. |

## Left out

- `api.js`, the HTTP client of the catalog service, is not part of this model. Its four calls become outcome parameters, or nothing where the outcome changes no local state.
- `fetchLessons`, `search`, the `searchQuery` watcher and `mounted` replace the inventory wholesale with network results. The inventory is a fixed array loaded by the constructor, and the race between stale search responses is not modelled.
- `showCart` and `toggleCart` are a UI flag. Vue reactivity is replaced by functions that read the current state.
- The five-second timer that clears `orderConfirmed`, `alert` and `console.error` are not modelled.
- Interleaving at `await` is not modelled. Each handler runs to completion as one step. In the source, another handler can run while `removeFromCart` awaits, and `index` may then name a different line by the time of the splice.
- App.Storefront.constructor: the model assumes the loaded inventory has unique `_id`s and non-negative spaces. The constructor requires this, and the handlers require the invariant it starts. The source checks neither property when it stores a loaded inventory (app.js:102, 113). Both rest on the catalog service's data. With duplicate ids, conservation fails: an add decrements the copy that was clicked, while a remove (app.js:65) returns the places to the first copy with that id.
- App.Storefront.AddToCart: the lesson is addressed by its inventory position rather than by object reference. The outcome of its spaces update (a rejected promise when it fails) is not returned, because local state is the same either way.
- Sorting.StrLess: compares Unicode scalar values. JavaScript compares UTF-16 code units. The two orders differ only between characters above U+FFFF and those from U+E000 to U+FFFF.
- Sorting.SortBy: the engine's sort algorithm is not modelled. Instead, `StableSortUnique` shows that every stable sort with this comparator gives the same result. Mixed-type key comparisons are not modelled: each key is a string or an integer.
- Text.ToLower: only ASCII capitals are mapped. JavaScript's `toLowerCase` also maps non-ASCII letters.
- Text.NatToDecimal: prices and spaces are integers (price in the smallest currency unit). Fractional prices are not modelled, nor JavaScript's exponent notation for numbers of 10^21 and above.
