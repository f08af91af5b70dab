/** The records of the royalty store and the lookups the handlers make on them:
    `authors.find`, and the `filter`s that select an author's books, a book's
    sales and an author's withdrawals. Every filter keeps the store's order. */
module Data {

  datatype Author = Author(id: int, name: string, email: string)

  /** `royalty` is what the author earns per unit sold. */
  datatype Book = Book(id: int, authorId: int, title: string, royalty: int)

  datatype Sale = Sale(bookId: int, quantity: int)

  /** The only status a withdrawal is ever given. */
  datatype Status = Pending

  datatype Withdrawal = Withdrawal(id: int, authorId: int, amount: int, status: Status, createdAt: string)

  /** The three user-visible rejections, each with its own message in the source. */
  datatype Error = AuthorNotFound | BelowMinimum | InsufficientBalance

  datatype Option<T> = None | Some(value: T)

  datatype Result<T> = Success(value: T) | Failure(error: Error)

  function Last<T>(s: seq<T>): T
    requires s != []
  {
    s[|s| - 1]
  }

  function AllButLast<T>(s: seq<T>): seq<T>
    requires s != []
  {
    s[..|s| - 1]
  }

  predicate AuthorExists(authors: seq<Author>, authorId: int) {
    exists i :: 0 <= i < |authors| && authors[i].id == authorId
  }

  /** `authors.find(a => a.id === authorId)`: the first author with that id. */
  function FindAuthor(authors: seq<Author>, authorId: int): (r: Option<Author>)
    ensures r.None? <==> !AuthorExists(authors, authorId)
    ensures r.Some? ==> exists i :: 0 <= i < |authors| && authors[i] == r.value && r.value.id == authorId
                                    && forall j :: 0 <= j < i ==> authors[j].id != authorId
  {
    if authors == [] then None
    else if authors[0].id == authorId then Some(authors[0])
    else
      FindAuthor(authors[1..], authorId)
  }

  /** `books.filter(b => b.author_id === authorId)`. */
  function AuthorBooks(books: seq<Book>, authorId: int): seq<Book>
  {
    if books == [] then []
    else
      var b := Last(books);
      AuthorBooks(AllButLast(books), authorId) + (if b.authorId == authorId then [b] else [])
  }

  /** `sales.filter(s => s.book_id === bookId)`. */
  function BookSales(sales: seq<Sale>, bookId: int): seq<Sale>
  {
    if sales == [] then []
    else
      var s := Last(sales);
      BookSales(AllButLast(sales), bookId) + (if s.bookId == bookId then [s] else [])
  }

  /** `withdrawals.filter(w => w.author_id === authorId)`. */
  function AuthorWithdrawals(withdrawals: seq<Withdrawal>, authorId: int): seq<Withdrawal>
  {
    if withdrawals == [] then []
    else
      var w := Last(withdrawals);
      AuthorWithdrawals(AllButLast(withdrawals), authorId) + (if w.authorId == authorId then [w] else [])
  }

  /** Filtering a concatenation filters each part. */
  lemma {:induction false} AuthorBooksConcat(xs: seq<Book>, ys: seq<Book>, authorId: int)
    ensures AuthorBooks(xs + ys, authorId) == AuthorBooks(xs, authorId) + AuthorBooks(ys, authorId)
  {
    if ys != [] {
      assert AllButLast(xs + ys) == xs + AllButLast(ys);
      AuthorBooksConcat(xs, AllButLast(ys), authorId);
    } else {
      assert xs + ys == xs;
    }
  }

  /** Appending one withdrawal extends the author's filtered list by it exactly when it is theirs. */
  lemma AuthorWithdrawalsAppend(withdrawals: seq<Withdrawal>, w: Withdrawal, authorId: int)
    ensures AuthorWithdrawals(withdrawals + [w], authorId)
         == AuthorWithdrawals(withdrawals, authorId) + (if w.authorId == authorId then [w] else [])
  {
    assert AllButLast(withdrawals + [w]) == withdrawals;
  }

  /** Nothing matches, so the filters are empty. */
  lemma {:induction false} AuthorBooksNone(books: seq<Book>, authorId: int)
    requires forall i :: 0 <= i < |books| ==> books[i].authorId != authorId
    ensures AuthorBooks(books, authorId) == []
  {
    if books != [] {
      AuthorBooksNone(AllButLast(books), authorId);
    }
  }

  lemma {:induction false} BookSalesNone(sales: seq<Sale>, bookId: int)
    requires forall j :: 0 <= j < |sales| ==> sales[j].bookId != bookId
    ensures BookSales(sales, bookId) == []
  {
    if sales != [] {
      BookSalesNone(AllButLast(sales), bookId);
    }
  }

  lemma {:induction false} AuthorWithdrawalsNone(withdrawals: seq<Withdrawal>, authorId: int)
    requires forall i :: 0 <= i < |withdrawals| ==> withdrawals[i].authorId != authorId
    ensures AuthorWithdrawals(withdrawals, authorId) == []
  {
    if withdrawals != [] {
      AuthorWithdrawalsNone(AllButLast(withdrawals), authorId);
    }
  }

  /** Each filter keeps exactly the records that match, each as many times as it
      occurs in the input, and no more of them than it was given. */
  lemma {:induction false} AuthorBooksMembers(books: seq<Book>, authorId: int)
    ensures |AuthorBooks(books, authorId)| <= |books|
    ensures forall b :: b in AuthorBooks(books, authorId) <==> b in books && b.authorId == authorId
    ensures forall b :: multiset(AuthorBooks(books, authorId))[b] == if b.authorId == authorId then multiset(books)[b] else 0
  {
    if books != [] {
      assert books == AllButLast(books) + [Last(books)];
      AuthorBooksMembers(AllButLast(books), authorId);
    }
  }

  lemma {:induction false} BookSalesMembers(sales: seq<Sale>, bookId: int)
    ensures |BookSales(sales, bookId)| <= |sales|
    ensures forall s :: s in BookSales(sales, bookId) <==> s in sales && s.bookId == bookId
    ensures forall s :: multiset(BookSales(sales, bookId))[s] == if s.bookId == bookId then multiset(sales)[s] else 0
  {
    if sales != [] {
      assert sales == AllButLast(sales) + [Last(sales)];
      BookSalesMembers(AllButLast(sales), bookId);
    }
  }

  lemma {:induction false} AuthorWithdrawalsMembers(withdrawals: seq<Withdrawal>, authorId: int)
    ensures |AuthorWithdrawals(withdrawals, authorId)| <= |withdrawals|
    ensures forall w :: w in AuthorWithdrawals(withdrawals, authorId) <==> w in withdrawals && w.authorId == authorId
    ensures forall w :: multiset(AuthorWithdrawals(withdrawals, authorId))[w] == if w.authorId == authorId then multiset(withdrawals)[w] else 0
  {
    if withdrawals != [] {
      assert withdrawals == AllButLast(withdrawals) + [Last(withdrawals)];
      AuthorWithdrawalsMembers(AllButLast(withdrawals), authorId);
    }
  }
}
