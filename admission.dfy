/** Withdrawal admission control: the `POST /withdrawals` handler. Three checks
    in a fixed order (the author exists, the amount reaches the minimum, the
    balance covers it); the first that fails decides the rejection, and only a
    request that passes all three is appended to the withdrawals log. */
module AdmissionControl {
  import opened Data
  import opened EarningsCalculator
  import opened BalanceCalculator

  /** The smallest amount an author may withdraw (in rupees). */
  const MinimumWithdrawal: int := 500

  /** The response of an accepted withdrawal: the new record and the balance
      left after it. */
  datatype Receipt = Receipt(withdrawal: Withdrawal, newBalance: int)

  /** The decision the handler takes on the store as it is when the request
      arrives; `createdAt` stands for the clock reading the handler makes. */
  function Admit(authors: seq<Author>, books: seq<Book>, sales: seq<Sale>, withdrawals: seq<Withdrawal>,
                 authorId: int, amount: int, createdAt: string): Result<Receipt>
  {
    match FindAuthor(authors, authorId)
    case None => Failure(AuthorNotFound)
    case Some(_) =>
      if amount < MinimumWithdrawal then Failure(BelowMinimum)
      else
        var balance := Earnings(books, sales, authorId) - Withdrawn(withdrawals, authorId);
        if amount > balance then Failure(InsufficientBalance)
        else Success(Receipt(Withdrawal(|withdrawals| + 1, authorId, amount, Pending, createdAt), balance - amount))
  }

  /** The checks run in a fixed order and the first failure wins: an unknown
      author is refused whatever the amount; an amount under the minimum is
      refused even when the balance would cover it; and only then is the amount
      compared with the balance. An accepted request yields a pending record with
      the next id and leaves a balance of the old one minus the amount, never
      below 0. */
  lemma AdmissionOrder(authors: seq<Author>, books: seq<Book>, sales: seq<Sale>, withdrawals: seq<Withdrawal>,
                       authorId: int, amount: int, createdAt: string)
    ensures var r := Admit(authors, books, sales, withdrawals, authorId, amount, createdAt);
            && (r == Failure(AuthorNotFound) <==> !AuthorExists(authors, authorId))
            && (r == Failure(BelowMinimum) <==> AuthorExists(authors, authorId) && amount < MinimumWithdrawal)
            && (r == Failure(InsufficientBalance)
                <==> AuthorExists(authors, authorId) && MinimumWithdrawal <= amount
                     && amount > Balance(books, sales, withdrawals, authorId))
            && (r.Success?
                <==> AuthorExists(authors, authorId) && MinimumWithdrawal <= amount
                     && amount <= Balance(books, sales, withdrawals, authorId))
            && (r.Success? ==> r.value.withdrawal == Withdrawal(|withdrawals| + 1, authorId, amount, Pending, createdAt))
            && (r.Success? ==> r.value.newBalance == Balance(books, sales, withdrawals, authorId) - amount >= 0)
  {
  }

  /** The log as it is after the decision: one record more on success, the same log otherwise. */
  function Apply(withdrawals: seq<Withdrawal>, r: Result<Receipt>): seq<Withdrawal> {
    if r.Success? then withdrawals + [r.value.withdrawal] else withdrawals
  }

  /** Every author of the store has a non-negative balance. */
  predicate BalancesNonNegative(authors: seq<Author>, books: seq<Book>, sales: seq<Sale>, withdrawals: seq<Withdrawal>) {
    forall i :: 0 <= i < |authors| ==> Balance(books, sales, withdrawals, authors[i].id) >= 0
  }

  /** Withdrawal ids are 1, 2, 3, ... in log order, as `length + 1` assigns them. */
  predicate IdsSequential(withdrawals: seq<Withdrawal>) {
    forall i :: 0 <= i < |withdrawals| ==> withdrawals[i].id == i + 1
  }

  /** After an accepted withdrawal the returned `new_balance` is the balance the
      store now reports, the author's balance fell by exactly the amount, and no
      other author's balance moved. */
  lemma AdmitEffectOnBalances(authors: seq<Author>, books: seq<Book>, sales: seq<Sale>, withdrawals: seq<Withdrawal>,
                              authorId: int, amount: int, createdAt: string)
    requires Admit(authors, books, sales, withdrawals, authorId, amount, createdAt).Success?
    ensures var r := Admit(authors, books, sales, withdrawals, authorId, amount, createdAt);
            r.value.newBalance == Balance(books, sales, withdrawals + [r.value.withdrawal], authorId)
    ensures var r := Admit(authors, books, sales, withdrawals, authorId, amount, createdAt);
            forall other :: Balance(books, sales, withdrawals + [r.value.withdrawal], other)
                         == Balance(books, sales, withdrawals, other) - (if other == authorId then amount else 0)
  {
    var r := Admit(authors, books, sales, withdrawals, authorId, amount, createdAt);
    forall other ensures Balance(books, sales, withdrawals + [r.value.withdrawal], other)
                      == Balance(books, sales, withdrawals, other) - (if other == authorId then amount else 0)
    {
      WithdrawnAppend(books, sales, withdrawals, r.value.withdrawal, other);
    }
  }

  /** Admission control keeps every balance non-negative: it is the invariant
      the store keeps once its seed data satisfies it. */
  lemma AdmitKeepsBalancesNonNegative(authors: seq<Author>, books: seq<Book>, sales: seq<Sale>, withdrawals: seq<Withdrawal>,
                                      authorId: int, amount: int, createdAt: string)
    ensures BalancesNonNegative(authors, books, sales, withdrawals) ==>
              BalancesNonNegative(authors, books, sales,
                                  Apply(withdrawals, Admit(authors, books, sales, withdrawals, authorId, amount, createdAt)))
  {
    var r := Admit(authors, books, sales, withdrawals, authorId, amount, createdAt);
    if r.Success? && BalancesNonNegative(authors, books, sales, withdrawals) {
      AdmitEffectOnBalances(authors, books, sales, withdrawals, authorId, amount, createdAt);
      forall i | 0 <= i < |authors|
        ensures Balance(books, sales, withdrawals + [r.value.withdrawal], authors[i].id) >= 0
      {
        var other := authors[i].id;
        assert Balance(books, sales, withdrawals + [r.value.withdrawal], other)
            == Balance(books, sales, withdrawals, other) - (if other == authorId then amount else 0);
      }
    }
  }

  /** `length + 1` keeps ids sequential, so under that invariant the new id is
      one no earlier withdrawal has. */
  lemma AdmitKeepsIdsSequential(authors: seq<Author>, books: seq<Book>, sales: seq<Sale>, withdrawals: seq<Withdrawal>,
                                authorId: int, amount: int, createdAt: string)
    ensures var r := Admit(authors, books, sales, withdrawals, authorId, amount, createdAt);
            IdsSequential(withdrawals) ==>
              IdsSequential(Apply(withdrawals, r))
              && (r.Success? ==> forall i :: 0 <= i < |withdrawals| ==> withdrawals[i].id != r.value.withdrawal.id)
  {
  }

  /** The store: the four collections of the data module. Only the withdrawals
      log is ever changed, and only by appending. */
  class Store {
    var authors: seq<Author>
    var books: seq<Book>
    var sales: seq<Sale>
    var withdrawals: seq<Withdrawal>

    /** The seed data, taken as an arbitrary initial state. */
    constructor (authors: seq<Author>, books: seq<Book>, sales: seq<Sale>, withdrawals: seq<Withdrawal>)
      ensures this.authors == authors && this.books == books
      ensures this.sales == sales && this.withdrawals == withdrawals
    {
      this.authors := authors;
      this.books := books;
      this.sales := sales;
      this.withdrawals := withdrawals;
    }

    /** The `POST /withdrawals` handler. Each rejection returns before the
        append; an acceptance pushes exactly one record after the old ones.
        Authors, books and sales are outside the frame, so they are unchanged.
        With `Apply`, the lemmas on `Admit` carry over to the store: every
        balance stays non-negative and ids stay sequential. */
    method CreateWithdrawal(authorId: int, amount: int, createdAt: string) returns (r: Result<Receipt>)
      modifies this`withdrawals
      ensures r == Admit(authors, books, sales, old(withdrawals), authorId, amount, createdAt)
      ensures withdrawals == Apply(old(withdrawals), r)
      ensures r.Success? ==> r.value.newBalance == Balance(books, sales, withdrawals, authorId)
    {
      ghost var before := withdrawals;
      ghost var decision := Admit(authors, books, sales, before, authorId, amount, createdAt);
      var author := FindAuthor(authors, authorId);
      if author.None? {
        r := Failure(AuthorNotFound);
      } else if amount < MinimumWithdrawal {
        r := Failure(BelowMinimum);
      } else {
        var total := CalculateAuthorEarnings(books, sales, authorId);
        var withdrawn := Withdrawn(withdrawals, authorId);
        var balance := total - withdrawn;
        if amount > balance {
          r := Failure(InsufficientBalance);
        } else {
          var withdrawal := Withdrawal(|withdrawals| + 1, authorId, amount, Pending, createdAt);
          withdrawals := withdrawals + [withdrawal];
          r := Success(Receipt(withdrawal, balance - amount));
          WithdrawnAppend(books, sales, before, withdrawal, authorId);
        }
      }
      assert r == decision;
    }
  }

  /** The order of the checks, at the boundaries of the minimum: 499 is below
      the minimum whatever the balance, and exactly 500 against a balance of
      exactly 500 is accepted, leaving 0. */
  lemma MinimumBoundary(authors: seq<Author>, books: seq<Book>, sales: seq<Sale>, withdrawals: seq<Withdrawal>,
                        authorId: int, createdAt: string)
    requires AuthorExists(authors, authorId)
    ensures Admit(authors, books, sales, withdrawals, authorId, MinimumWithdrawal - 1, createdAt) == Failure(BelowMinimum)
    ensures Balance(books, sales, withdrawals, authorId) == MinimumWithdrawal ==>
              var r := Admit(authors, books, sales, withdrawals, authorId, MinimumWithdrawal, createdAt);
              r.Success? && r.value.newBalance == 0
    ensures Balance(books, sales, withdrawals, authorId) == MinimumWithdrawal - 1 ==>
              Admit(authors, books, sales, withdrawals, authorId, MinimumWithdrawal, createdAt) == Failure(InsufficientBalance)
  {
  }

  /** A worked store: author 1 owns one book with royalty 10 that sold 3 and 2
      units, and has withdrawn nothing, so the balance is 50. */
  lemma ScenarioBalance()
    ensures Balance(ScenarioBooks(), ScenarioSales(), [], 1) == 50
  {
    var books, sales := ScenarioBooks(), ScenarioSales();
    assert AllButLast(books) == [];
    assert AuthorBooks(books, 1) == books;
    assert AllButLast(sales) == [Sale(7, 3)];
    assert AllButLast([Sale(7, 3)]) == [];
    assert BookSales(sales, 7) == sales;
    assert SalesRoyalty(sales, 10) == 50;
  }

  /** On that store 500 is refused for the balance, 50 for the minimum although
      the balance would cover it, and an unknown id before anything else. */
  lemma Scenario(createdAt: string)
    ensures Admit(ScenarioAuthors(), ScenarioBooks(), ScenarioSales(), [], 1, 500, createdAt) == Failure(InsufficientBalance)
    ensures Admit(ScenarioAuthors(), ScenarioBooks(), ScenarioSales(), [], 1, 50, createdAt) == Failure(BelowMinimum)
    ensures Admit(ScenarioAuthors(), ScenarioBooks(), ScenarioSales(), [], 999, 10000, createdAt) == Failure(AuthorNotFound)
  {
    ScenarioBalance();
    assert FindAuthor(ScenarioAuthors(), 1) == Some(ScenarioAuthors()[0]);
    assert FindAuthor(ScenarioAuthors(), 999) == None by {
      assert ScenarioAuthors()[1..] == [];
    }
  }

  function ScenarioAuthors(): seq<Author> {
    [Author(1, "A", "a@example.com")]
  }

  function ScenarioBooks(): seq<Book> {
    [Book(7, 1, "T", 10)]
  }

  function ScenarioSales(): seq<Sale> {
    [Sale(7, 3), Sale(7, 2)]
  }
}
