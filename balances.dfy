/** Withdrawn amount and balance. The balance is never stored: it is recomputed
    as earnings minus the amounts of the author's withdrawals. */
module BalanceCalculator {
  import opened Data
  import opened EarningsCalculator

  /** Sum of the withdrawal amounts (the `reduce` with initial value 0). */
  function Amounts(withdrawals: seq<Withdrawal>): int {
    if withdrawals == [] then 0
    else Amounts(AllButLast(withdrawals)) + Last(withdrawals).amount
  }

  /** `calculateWithdrawnAmount`: the author's withdrawals, filtered then summed. */
  function Withdrawn(withdrawals: seq<Withdrawal>, authorId: int): int {
    Amounts(AuthorWithdrawals(withdrawals, authorId))
  }

  /** `total - withdrawn`, as the three handlers compute it inline. */
  function Balance(books: seq<Book>, sales: seq<Sale>, withdrawals: seq<Withdrawal>, authorId: int): int {
    Earnings(books, sales, authorId) - Withdrawn(withdrawals, authorId)
  }

  /** No withdrawal of the author's: nothing withdrawn, so the balance is the earnings. */
  lemma WithdrawnNone(withdrawals: seq<Withdrawal>, books: seq<Book>, sales: seq<Sale>, authorId: int)
    requires forall i :: 0 <= i < |withdrawals| ==> withdrawals[i].authorId != authorId
    ensures Withdrawn(withdrawals, authorId) == 0
    ensures Balance(books, sales, withdrawals, authorId) == Earnings(books, sales, authorId)
  {
    AuthorWithdrawalsNone(withdrawals, authorId);
  }

  /** The filter-then-sum of the source equals a sum over the whole log that
      counts only the author's withdrawals. */
  function MatchingAmounts(withdrawals: seq<Withdrawal>, authorId: int): int {
    if withdrawals == [] then 0
    else
      var w := Last(withdrawals);
      MatchingAmounts(AllButLast(withdrawals), authorId) + (if w.authorId == authorId then w.amount else 0)
  }

  lemma {:induction false} WithdrawnIsMatchingAmounts(withdrawals: seq<Withdrawal>, authorId: int)
    ensures Withdrawn(withdrawals, authorId) == MatchingAmounts(withdrawals, authorId)
  {
    if withdrawals != [] {
      var w := Last(withdrawals);
      var rest := AllButLast(withdrawals);
      assert withdrawals == rest + [w];
      AuthorWithdrawalsAppend(rest, w, authorId);
      WithdrawnIsMatchingAmounts(rest, authorId);
      if w.authorId == authorId {
        assert AllButLast(AuthorWithdrawals(rest, authorId) + [w]) == AuthorWithdrawals(rest, authorId);
      } else {
        assert AuthorWithdrawals(withdrawals, authorId) == AuthorWithdrawals(rest, authorId);
      }
    }
  }

  /** Appending a withdrawal of `w.amount` by `w.authorId` lowers that author's
      balance by exactly the amount and leaves every other author's balance alone. */
  lemma WithdrawnAppend(books: seq<Book>, sales: seq<Sale>, withdrawals: seq<Withdrawal>, w: Withdrawal, authorId: int)
    ensures Withdrawn(withdrawals + [w], authorId)
         == Withdrawn(withdrawals, authorId) + (if w.authorId == authorId then w.amount else 0)
    ensures Balance(books, sales, withdrawals + [w], authorId)
         == Balance(books, sales, withdrawals, authorId) - (if w.authorId == authorId then w.amount else 0)
  {
    WithdrawnIsMatchingAmounts(withdrawals + [w], authorId);
    WithdrawnIsMatchingAmounts(withdrawals, authorId);
    assert AllButLast(withdrawals + [w]) == withdrawals;
  }
}
