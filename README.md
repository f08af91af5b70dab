# Author royalty accounting — a Dafny model

This project models the business logic of a small royalty-accounting API (`index.js`). The API tracks four things: authors, their books, sale events per book, and withdrawal requests. It computes:

- an author's total earnings: the sum of `quantity × royalty` over every sale of every book the author owns;
- the amount withdrawn: the sum of the author's withdrawal amounts;
- the balance: earnings minus withdrawn, recomputed every time and never stored.

The API admits a withdrawal only after three checks, in a fixed order:

1. the author must exist;
2. the amount must be at least 500;
3. the amount must not exceed the balance.

An admitted withdrawal is appended to the log with id `length + 1` and status `pending`.

Modules, one per component of the logic:

- `Data` (`data.dfy`): the records, `authors.find`, and the three `filter`s (an author's books, a book's sales, an author's withdrawals).
- `EarningsCalculator` (`earnings.dfy`): the specification sums. It also holds `CalculateAuthorEarnings`, the source's nested loops over a running total, proved equal to the specification.
- `BalanceCalculator` (`balances.dfy`): `calculateWithdrawnAmount` (a filter followed by a reduce) and the balance.
- `AdmissionControl` (`admission.dfy`):
  - `Admit`, the pure decision of the `POST /withdrawals` handler;
  - `Apply`, the log after that decision;
  - the `Store` class, which holds the four collections as `seq` fields. Its `CreateWithdrawal` method runs the checks and appends to the `withdrawals` field. It is proved to return `Admit(...)` and to leave the log as `Apply(...)`.
- `Views` (`views.dfy`): the authors summary and the author detail with its per-book breakdown, as pure functions of the store. Because they are functions, asking twice of an unchanged store gives the same answer.

Amounts, royalties and quantities are unbounded integers. The seed data is an arbitrary initial state. The timestamp is an opaque `createdAt` string passed in by the caller.

## Model

| member | source | states |
|---|---|---|
| `Data.FindAuthor` | index.js:94-97 | `find` returns nothing exactly when no author has the id; otherwise it returns an author of the store with that id, and no earlier author has that id |
| `Data.AuthorBooks` | index.js:11 | definition of the `books.filter` by `author_id`, in catalogue order; its properties are in `Data.AuthorBooksMembers`, `Data.AuthorBooksConcat` and `Data.AuthorBooksNone` |
| `Data.BookSales` | index.js:16 | definition of the `sales.filter` by `book_id`, in log order; its properties are in `Data.BookSalesMembers` and `Data.BookSalesNone` |
| `Data.AuthorWithdrawals` | index.js:27 | definition of the `withdrawals.filter` by `author_id`, in log order; its properties are in `Data.AuthorWithdrawalsMembers`, `Data.AuthorWithdrawalsAppend` and `Data.AuthorWithdrawalsNone` |
| `Data.AuthorBooksMembers` | index.js:11 | the filter keeps every catalogue book with that `author_id`, as many times as it occurs (multiset count), and no other book |
| `Data.BookSalesMembers` | index.js:16 | the filter keeps every sale with that `book_id`, as many times as it occurs (so two identical sale records both count), and no other sale |
| `Data.AuthorWithdrawalsMembers` | index.js:27 | the filter keeps every withdrawal with that `author_id`, as many times as it occurs, and no other withdrawal |
| `Data.AuthorBooksConcat` | index.js:11 | filtering a concatenated catalogue gives the concatenation of the filtered parts |
| `Data.AuthorWithdrawalsAppend` | index.js:27 | appending a withdrawal adds it to the author's filtered list exactly when it is theirs |
| `Data.AuthorBooksNone` | index.js:11 | when no book has the `author_id`, the filter is empty |
| `Data.BookSalesNone` | index.js:16 | when no sale has the `book_id`, the filter is empty |
| `Data.AuthorWithdrawalsNone` | index.js:27 | when no withdrawal has the `author_id`, the filter is empty |
| `EarningsCalculator.SalesRoyalty` | index.js:17-19 | definition: the inner `forEach`'s accumulation of `quantity × royalty` over one book's sales; its properties are in `SalesRoyaltyConcat`, `SalesRoyaltyPermutation`, `SalesRoyaltyIsSoldTimesRoyalty` and `SalesRoyaltyNonNegative` |
| `EarningsCalculator.BooksEarnings` | index.js:15-20 | definition: the outer `forEach` over a list of books, adding each book's royalty sum; its properties are in `BooksEarningsConcat`, `BooksEarningsPermutation`, `BooksEarningsSalesPermutation`, `BooksEarningsWithoutSales` and `BooksEarningsNonNegative` |
| `EarningsCalculator.Quantities` | index.js:66 | definition: the `reduce` summing sale quantities from 0; it is the units sold of `TotalSold`, and `SalesRoyaltyIsSoldTimesRoyalty` relates it to the royalty sum |
| `EarningsCalculator.Earnings` | index.js:10-23 | definition: the double sum of `quantity × royalty` over the author's books and each book's sales; computed by `CalculateAuthorEarnings`, its properties are in the lemmas below |
| `EarningsCalculator.TotalSold` | index.js:65-66 | definition: the sum of the quantities of one book's sales; related to the royalty sum by `SalesRoyaltyIsSoldTimesRoyalty` |
| `EarningsCalculator.CalculateAuthorEarnings` | index.js:10-23 | the running total of the two nested loops equals the double sum of `quantity × royalty` over the author's books and each book's sales |
| `EarningsCalculator.SalesRoyaltyIsSoldTimesRoyalty` | index.js:66-73 | over one book's sales, the sum of `quantity × royalty` equals the units sold times the royalty |
| `EarningsCalculator.BooksEarningsConcat` | index.js:15-20 | the earnings of a concatenated book list are the sum of the earnings of the parts |
| `EarningsCalculator.EarningsSplitBooks` | index.js:10-23 | splitting the catalogue splits an author's earnings, and swapping the two parts leaves them unchanged |
| `EarningsCalculator.SalesRoyaltyConcat` | index.js:17-19 | the royalty sum over concatenated sales lists is the sum over the parts |
| `EarningsCalculator.SalesRoyaltyPermutation` | index.js:17-19 | two sales lists with the same multiset of records have the same royalty sum |
| `EarningsCalculator.BooksEarningsPermutation` | index.js:15-20 | two book lists with the same multiset of records have the same earnings |
| `EarningsCalculator.BooksEarningsSalesPermutation` | index.js:15-20 | reordering the sales log (same multiset) changes no book list's earnings |
| `EarningsCalculator.EarningsPermutation` | index.js:10-23 | an author's earnings depend on the catalogue and the sales log only as multisets: any reordering of either leaves them unchanged |
| `EarningsCalculator.EarningsWithoutBooks` | index.js:10-23 | an id that no book names earns 0, whatever the catalogue and the sales log |
| `EarningsCalculator.UnknownAuthorEarnsNothing` | index.js:10-23 | when every book's `author_id` names an existing author, an id that is no author's earns 0; the source itself checks nothing, so without that invariant an unknown id can earn |
| `EarningsCalculator.BooksEarningsWithoutSales` | index.js:15-20 | books with no sale earn 0 |
| `EarningsCalculator.EarningsWithoutSales` | index.js:10-23 | an author none of whose books has a sale earns 0 |
| `EarningsCalculator.SalesRoyaltyNonNegative` | index.js:17-19 | with a non-negative royalty and non-negative quantities, a book's royalty sum is non-negative |
| `EarningsCalculator.BooksEarningsNonNegative` | index.js:15-20 | with non-negative royalties and quantities, the earnings of a book list are non-negative |
| `EarningsCalculator.EarningsNonNegative` | index.js:10-23 | with non-negative royalties and quantities, an author's earnings are non-negative |
| `BalanceCalculator.Amounts` | index.js:28 | definition: the `reduce` summing withdrawal amounts from 0; its properties are in `WithdrawnIsMatchingAmounts` and `WithdrawnAppend` |
| `BalanceCalculator.Withdrawn` | index.js:25-29 | definition: the amounts of the author's filtered withdrawals, summed from 0; its properties are in `WithdrawnNone`, `WithdrawnIsMatchingAmounts` and `WithdrawnAppend` |
| `BalanceCalculator.Balance` | index.js:103-105 | definition: earnings minus withdrawn, as computed inline at index.js:42, 86 and 105; how it moves is in `WithdrawnAppend` |
| `BalanceCalculator.WithdrawnNone` | index.js:25-29 | with no withdrawal of the author's, the withdrawn amount is 0 and the balance equals the earnings |
| `BalanceCalculator.WithdrawnIsMatchingAmounts` | index.js:25-29 | the filter-then-reduce sum equals a sum over the whole log that counts only the author's amounts |
| `BalanceCalculator.WithdrawnAppend` | index.js:25-29 | appending a withdrawal raises its author's withdrawn amount by exactly its amount and lowers that balance by the same; every other author's figures are unchanged |
| `AdmissionControl.Admit` | index.js:94-124 | definition of the handler's decision on the current store; its properties are in `AdmissionOrder`, `AdmitEffectOnBalances` and the two invariant lemmas |
| `AdmissionControl.Apply` | index.js:119 | definition: the log gains the accepted record at its end, or is unchanged on rejection; used by `Store.CreateWithdrawal` and the invariant lemmas |
| `AdmissionControl.AdmissionOrder` | index.js:94-117 | the outcome obeys the check order (details below the table) |
| `AdmissionControl.AdmitEffectOnBalances` | index.js:103-124 | after an accepted withdrawal, `new_balance` equals the balance recomputed from the appended log; the author's balance fell by exactly the amount; every other id's balance is unchanged |
| `AdmissionControl.AdmitKeepsBalancesNonNegative` | index.js:105-119 | if every author's balance is non-negative before a request, it still is after the request is decided and applied |
| `AdmissionControl.AdmitKeepsIdsSequential` | index.js:111-119 | if the log's ids are 1, 2, … in order, they still are after the request, and an accepted record's id is used by no earlier withdrawal |
| `AdmissionControl.Store.constructor` | index.js:3 | the store starts from arbitrary seed collections |
| `AdmissionControl.Store.CreateWithdrawal` | index.js:91-125 | the handler returns `Admit` of the old state; the log gains exactly the new record on acceptance and is unchanged on rejection; authors, books and sales are outside the frame; the returned `new_balance` is the balance of the new state |
| `AdmissionControl.MinimumBoundary` | index.js:99-109 | for an existing author: 499 is refused as below the minimum whatever the balance; 500 against a balance of exactly 500 is accepted and leaves 0; 500 against a balance of 499 is refused for the balance |
| `AdmissionControl.ScenarioBalance` | index.js:10-29 | one book with royalty 10 and sales of 3 and 2 units, with nothing withdrawn, gives a balance of 50 |
| `AdmissionControl.Scenario` | index.js:94-109 | on that store: 500 is refused for the balance; 50 is refused for the minimum although the balance covers it; an unknown id is refused first |
| `Views.AuthorsSummary` | index.js:33-47 | one entry per author, in store order, with the author's id and name, their earnings, and `current_balance` equal to the balance |
| `Views.Summarize` | index.js:34-43 | definition of the `map` callback: the author's id and name, earnings, and earnings minus withdrawn; its contents are stated in `AuthorsSummary` and `SummaryAfterWithdrawal` |
| `Views.BookRow` | index.js:64-74 | definition of one breakdown row: the book's id, title and royalty, its units sold and `total_sold × royalty`; its contents are stated in `GetAuthorDetailContents` |
| `Views.Breakdown` | index.js:62-75 | definition: the author's books mapped to rows in catalogue order; its sum is in `BreakdownSumsToEarnings` |
| `Views.RowsSumToEarnings` | index.js:62-75 | summing the breakdown rows of a book list gives those books' earnings |
| `Views.BreakdownSumsToEarnings` | index.js:62-77 | the `total_royalty` column of the author's breakdown sums to the author's earnings |
| `Views.GetAuthorDetail` | index.js:54-89 | the detail view (details below the table) |
| `Views.GetAuthorDetailContents` | index.js:57-88 | for an existing id: id, name and email are those of the first author with the id; row k is the author's k-th book with its id, title and royalty and the units its sales add up to; `total_earnings` is the author's earnings and `current_balance` the balance |
| `Views.SummaryAfterWithdrawal` | index.js:33-44 | an accepted withdrawal changes the summary only in the `current_balance` of that author's lines, and by exactly the amount |

`AdmissionControl.AdmissionOrder` states that:

- the result is "author not found" exactly when no author has the id;
- it is below-minimum exactly when the author exists and the amount is under 500 (the balance plays no part);
- it is insufficient-balance exactly when the author exists, the amount is at least 500 and the amount exceeds the balance;
- it is accepted exactly when none of these holds. The accepted record is `{id: length + 1, author_id, amount, pending, created_at}`, and `new_balance = balance − amount ≥ 0`.

`Views.GetAuthorDetail` states that:

- the result is "not found" exactly when no author has the id;
- otherwise the `id` matches and `name` and `email` are those of a store author with that id;
- `total_books` equals the number of rows, which equals the number of the author's books;
- each row has `total_royalty = total_sold × royalty_per_sale`;
- `total_earnings` is the sum of the `total_royalty` column;
- `current_balance` is the earnings minus the withdrawn amount.

## Left out

- Framework wiring is not modelled: Express, `cors`, `express.json()`, `app.listen` and the port (index.js:1-7, 49-52).
- HTTP status codes, JSON serialisation, destructuring of `req.body` and `parseInt` of the path id are not modelled. Ids and amounts arrive already typed as integers, and each response is a `Result` value whose `Error` names the rejection.
- JavaScript's loose typing and floating point are not modelled. Amounts, royalties and quantities are unbounded integers. So the model does not show what JavaScript does with a `NaN` amount (both comparisons are false, so the withdrawal would be accepted). It also does not show a string `amount`, which would be concatenated, not added, when summed. Nor does it show an `author_id` of the wrong type, which `===` never matches.
- The clock read `new Date().toISOString()` (index.js:116) becomes the `createdAt` parameter.
- The seed contents of `./data` are not modelled. The store starts from arbitrary sequences. References between records (a book's author, a sale's book) are not assumed valid. Only `UnknownAuthorEarnsNothing` takes "every book names an existing author" as a hypothesis; nothing else needs it.
- Concurrency is not modelled: requests are handled one at a time. `length + 1` (index.js:112) is guaranteed fresh when the existing ids are 1..n (`AdmitKeepsIdsSequential`). With other seed ids it can collide with an existing id, as in the source.
- AdmissionControl.Store.CreateWithdrawal: its own contract does not restate that balances stay non-negative and ids stay sequential. Those facts are proved about `Admit` and `Apply` (`AdmitKeepsBalancesNonNegative`, `AdmitKeepsIdsSequential`). The method's ensures equate its result and its new log with `Admit` and `Apply`, so the facts carry over.
- The redesign in which the arrays sit behind a data-store interface is not modelled. The model follows the code: four collections, one of which is appended to.
- The summary and the detail view recompute earnings through the specification function `Earnings`, not through the loop method. Functions cannot call methods, and `CalculateAuthorEarnings` is proved equal to `Earnings`.
