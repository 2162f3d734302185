# Grocery management core in Dafny

A model of the inventory and billing core of a single-store grocery console
tool (`grocery_management.cpp`). The store keeps an ordered list of items, each in one of four
fixed categories with a fixed discount. It persists the list to a
comma-separated file, supports add/edit/delete by id, and runs a billing
session. That session takes stock out item by item, then applies a
membership discount and two 5% taxes (CGST and SGST).

Everything is pure functions over immutable values. Prices are `real`, so
the percentage arithmetic is exact.

- `wrappers.dfy`, module `Wrappers`: `Option` and `Result`.
- `catalog.dfy`, module `Catalog`: the category tag with its discount and label. It also holds the `Item`
  record, the final price, stock reduction and `edit`. The four subclasses
  differ only in those two constants, so the category is a tag.
- `text.dfy`, module `Text`: splitting on a separator (what repeated
  `getline(stream, field, ',')` yields), joining, and the stream's decimal rendering of an `int`. It also has
  a strict decimal reader.
- `records.dfy`, module `Records`: one record line parsed and rendered, and the
  whole file loaded and saved. Includes the round-trip theorems.
- `store.dfy`, module `Store`: first-match lookup, add by category choice,
  edit by id and delete by id over `seq<Item>`. Duplicate ids are allowed.
- `billing.dfy`, module `Billing`: the billing loop as a fold over `(id, qty)`
  requests. The fold carries the store, the running subtotal and the basket. Then the
  membership rate and the invoice arithmetic.

The number conversions stay abstract. They are parameters of the functions that need them:
`toInt` for `stoi`, `toReal` for `stod`, and `showReal` for the stream's printing
of a `double`. The round-trip lemmas name what they assume of these as two predicates:
- `InvertsDecimal`: `toInt` reads back any rendered 32-bit `int`.
- `PriceCodec`: a printed price is plain field text, it reads back, and reprinting the
  value read gives the same text.

`Records.ReadDecimalInvertsDecimal` shows that the first assumption can be met.

Errors are values, not printed messages. Edit and delete of an absent id give
`Failure(NotFound)`; an add with an unknown category choice gives
`Failure(InvalidCategory)`. In both cases the caller's store is left as it was.

Behaviour kept as written:
- Line 270 refuses only `qty > stock`. A negative quantity is therefore accepted: it raises
  the stock and lowers the subtotal (`Billing.NegativeQuantityRestocks`).
- The discount written as the sixth field is never read back
  (`Records.DiscountFieldIgnored`).
- Lookups return the first match (`Store.DeleteDuplicateKeepsSecond`).

## Model

| member | source | states |
|---|---|---|
| Catalog.Discount | grocery_management.cpp:62-88 | each category has one fixed rate (Dairy 10, Frozen Veggies 15, Fruits 5, Cooking Material 20), a multiple of 5 strictly between 0 and 100 |
| Catalog.DiscountIdentifiesCategory | grocery_management.cpp:62-88 | the four rates are pairwise different, so the rate determines the category |
| Catalog.Label | grocery_management.cpp:62-88 | each category reports a fixed non-empty label with no comma or newline, so it can sit in one field of a record |
| Catalog.ParseLabel | grocery_management.cpp:126-133 | a label is accepted exactly when it is one of the four category labels, and the result carries that label |
| Catalog.ParseLabelOfLabel | grocery_management.cpp:126-133 | reading any category's label gives back that category |
| Catalog.FinalPrice | grocery_management.cpp:38-40 | final price is price × (100 − discount)/100; for a non-negative price it lies in [0, price], and for a positive price it is strictly below it |
| Catalog.ReduceQuantity | grocery_management.cpp:42 | the stock drops by exactly q with no bound check; id, name, category and price stay |
| Catalog.ReduceQuantityComposes | grocery_management.cpp:42 | two reductions equal one reduction by their sum, and reducing never changes the final price |
| Catalog.Edit | grocery_management.cpp:44-48 | name, price and quantity take the new values; id, category and discount are unchanged |
| Catalog.EditLastWins | grocery_management.cpp:44-48 | after two edits only the second one's values remain |
| Text.Split | grocery_management.cpp:108-113 | the comma pieces of a line contain no comma, there is at least one, and joining them with commas gives the line back |
| Text.SplitOfJoin | grocery_management.cpp:108-113 | joining comma-free fields and splitting the result gives back exactly those fields |
| Text.SplitUnlines | grocery_management.cpp:102-103 | reading newline-terminated lines back line by line gives exactly those lines, then one empty piece |
| Text.IntToString | grocery_management.cpp:146-150 | an integer is written as a non-empty string of digits with at most a leading '-' |
| Text.ReadDecimal | grocery_management.cpp:122-124 | a strict integer reader accepts exactly an optional '-' followed by one or more digits |
| Text.ReadDecimalOfIntToString | grocery_management.cpp:122-124 | the strict reader returns n for the text written for n, for every integer n |
| Records.ReadDecimalInvertsDecimal | grocery_management.cpp:122-124 | the integer-reader assumption of the round trip can be satisfied |
| Records.ParseLine | grocery_management.cpp:103-133 | a line yields an item exactly when it is non-blank, its five leading fields are non-empty, id, price and quantity read, and the label is known; the item's id, price and quantity are what those fields read as, its name is the second field verbatim, and its category is the one whose label is the third field |
| Records.ShortLineSkipped | grocery_management.cpp:108-119 | a line with fewer than five fields never yields an item |
| Records.DiscountFieldIgnored | grocery_management.cpp:113-133 | two non-blank lines that agree on their first five fields parse identically, whatever the sixth field says |
| Records.UnreadablePriceLine | grocery_management.cpp:121-138 | a line whose price field does not read contributes no item, whatever its other fields hold |
| Records.MalformedLineSkipped | grocery_management.cpp:121-138 | a good Dairy line followed by a line with an unreadable price loads as exactly the one Dairy item, with discount 10 although 99 is stored |
| Records.LineItems | grocery_management.cpp:121-138 | one line contributes at most one item, whose name has no comma or newline |
| Records.LoadLines | grocery_management.cpp:102-139 | loading never produces more items than lines, and from newline-free lines every name is non-empty and holds no comma or newline |
| Records.LoadText | grocery_management.cpp:97-141 | every item loaded from a file has a name that can be written back unchanged |
| Records.RenderItem | grocery_management.cpp:146-151 | a record is one line that splits back into id, name, label, price, quantity and discount |
| Records.SaveText | grocery_management.cpp:143-154 | the saved text is empty exactly when the store is empty |
| Records.SplitSaved | grocery_management.cpp:143-154 | a saved file splits on newlines into its record lines, one per item in store order, then an empty piece |
| Records.ParseRenderedItem | grocery_management.cpp:103-151 | parsing a written record gives back its id, name, category and quantity, and the price passed through print and read |
| Records.LoadSaved | grocery_management.cpp:97-154 | loading a saved store gives the same items in the same order, changed only in the printed-and-read price |
| Records.SaveLoadSaveStable | grocery_management.cpp:143-154 | saving what was loaded from a saved file reproduces that file byte for byte |
| Store.FindFrom | grocery_management.cpp:205-209 | the scan from position i returns the first matching index at or after i, or -1 exactly when there is none |
| Store.FindItem | grocery_management.cpp:205-209 | returns -1 exactly when no item has the id, otherwise the lowest index with that id |
| Store.ScanForId | grocery_management.cpp:205-209 | the index loop as written computes the first-match lookup |
| Store.FindItemDependsOnlyOnIds | grocery_management.cpp:205-209 | lookup depends only on the ids in each position |
| Store.CategoryOfChoice | grocery_management.cpp:175-180 | menu choices 1 to 4 name a category and every other choice names none |
| Store.AddItem | grocery_management.cpp:175-184 | choices 1 to 4 append exactly one item of that category and keep the existing items; any other choice fails with InvalidCategory |
| Store.AddedItemLookup | grocery_management.cpp:175-179 | no duplicate-id guard: an existing id still finds the older item, and a fresh id finds the new last item |
| Store.EditItem | grocery_management.cpp:219-227 | an absent id gives NotFound; otherwise only the first matching item changes, by `edit`, and all other items and the length stay the same |
| Store.EditKeepsLookups | grocery_management.cpp:219-227 | after an edit every id is found at the same position as before and every category is unchanged |
| Store.DeleteItem | grocery_management.cpp:237-241 | an absent id gives NotFound; otherwise exactly the first matching item is removed, the rest keep their order, and the length drops by one |
| Store.DeleteDuplicateKeepsSecond | grocery_management.cpp:237-241 | with two items sharing an id, one delete removes only the first, and the id then finds the second |
| Billing.ProcessRequest | grocery_management.cpp:259-280 | an unknown id or a quantity above stock changes nothing; otherwise that item's stock becomes s − q ≥ 0, the subtotal grows by q × final price, the line is appended, and no other item changes |
| Billing.Checkout | grocery_management.cpp:254-287 | the loop keeps the store's length, changes only stock counts, and only appends to the basket |
| Billing.ProcessRequestBalances | grocery_management.cpp:277-280 | one round keeps subtotal − basket total fixed and moves units from the store to the basket without loss |
| Billing.CheckoutBalances | grocery_management.cpp:248-287 | over all rounds the subtotal stays the sum of q × final price over the basket, and store stock plus units bought is conserved |
| Billing.CheckoutKeepsStockNonNegative | grocery_management.cpp:270-279 | a store without negative stock never gets one through billing |
| Billing.SecondRequestSeesReducedStock | grocery_management.cpp:270-279 | stock is taken when a line is accepted, so a later request for the same item is checked against the reduced stock |
| Billing.NegativeQuantityRestocks | grocery_management.cpp:270-279 | a negative quantity passes the stock check, raises the stock and lowers the subtotal |
| Billing.MemberRate | grocery_management.cpp:289-296 | codes 2, 3 and 4 give 5, 10 and 15 percent; every other code gives 0 |
| Billing.ComputeInvoice | grocery_management.cpp:298-302 | the member amount is T·m/100 and the remainder is T minus it; CGST equals SGST, and together they are 10% of the remainder; the final bill is remainder + CGST + SGST, equal to (T − T·m/100) × 1.1, and never exceeds 1.1·T for T ≥ 0 |
| Billing.GoldInvoiceExample | grocery_management.cpp:294-302 | subtotal 1000 with code 3 gives 100 off, 45 CGST, 45 SGST and 990 payable |
| Billing.BillingSession | grocery_management.cpp:247-302 | after a session the invoice is the invoice arithmetic applied to the basket's total and the membership code, only stock counts changed, units sold equal the stock removed, and no stock went negative |

## Left out

- Console I/O: prompts, `cin` reads, the menu loop in `main`, the item table in `display`/`showItems`, and the printed invoice (lines 50-58, 187-203, 304-329, 340-362). These are presentation only. The operator's answers reach the model as already-parsed values: the request list, the category choice, the edit values and the membership code.
- `formatMoney` (lines 11-15): fixed-point formatting of doubles.
- Opening, closing and truncating the file, and the missing-file no-op in `loadItems`/`saveItems`. Only the text read and written is modelled. The save that follows every add, edit, delete and billing session is the caller writing `Records.SaveText` of the new store.
- `stoi`/`stod` and the stream's printing of a `double` are parameters, not definitions. Their exact behaviour is not modelled: prefix parsing such as "12abc", leading blanks, out-of-range exceptions, 6-significant-digit output.
- Records.LoadSaved: promises the price back only as "print, then read". It does not promise the original price, because the stream prints doubles to 6 significant digits.
- Records.ParseRenderedItem: same weakening of the price as `LoadSaved`.
- IEEE double rounding: prices and totals are exact `real`s.
- 32-bit `int` wrap-around: ids, quantities and `quantity -= q` are unbounded integers. The 32-bit range appears only in the assumption about `stoi`. A huge negative billing quantity could overflow the stock in the program, and that overflow is not modelled.
- Raw pointers, `new`/`delete` and the destructor (lines 240, 334-336): items are values in a sequence. A basket line keeps a copy of the item instead of a pointer; the invoice reads only the name and final price, and billing changes neither.
- `loadItems` appends to whatever the store already holds. It is only called on the empty store at start-up, so loading is modelled as producing the whole store.
