/** Earnings: for an author, the sum of `quantity * royalty` over every sale of
    every book the author owns. The sums are defined over sequences from the
    back, so that a loop that walks a sequence forwards keeps a prefix sum. */
module EarningsCalculator {
  import opened Data

  /** Sum of `quantity * royalty` over the given sales of one book. */
  function SalesRoyalty(bookSales: seq<Sale>, royalty: int): int {
    if bookSales == [] then 0
    else SalesRoyalty(AllButLast(bookSales), royalty) + Last(bookSales).quantity * royalty
  }

  /** Sum of the sale quantities. */
  function Quantities(bookSales: seq<Sale>): int {
    if bookSales == [] then 0
    else Quantities(AllButLast(bookSales)) + Last(bookSales).quantity
  }

  /** What the given books earned over the whole sales log. */
  function BooksEarnings(authorBooks: seq<Book>, sales: seq<Sale>): int {
    if authorBooks == [] then 0
    else
      var b := Last(authorBooks);
      BooksEarnings(AllButLast(authorBooks), sales) + SalesRoyalty(BookSales(sales, b.id), b.royalty)
  }

  /** The author's total earnings (no existence check: an id nobody owns earns 0). */
  function Earnings(books: seq<Book>, sales: seq<Sale>, authorId: int): int {
    BooksEarnings(AuthorBooks(books, authorId), sales)
  }

  /** Units sold of one book. */
  function TotalSold(sales: seq<Sale>, bookId: int): int {
    Quantities(BookSales(sales, bookId))
  }

  /** `calculateAuthorEarnings`: a running total updated in two nested loops,
      over the author's books and, for each, over that book's sales. */
  method CalculateAuthorEarnings(books: seq<Book>, sales: seq<Sale>, authorId: int) returns (total: int)
    ensures total == Earnings(books, sales, authorId)
  {
    var authorBooks := AuthorBooks(books, authorId);
    total := 0;
    var i := 0;
    while i < |authorBooks|
      invariant 0 <= i <= |authorBooks|
      invariant total == BooksEarnings(authorBooks[..i], sales)
    {
      var book := authorBooks[i];
      var bookSales := BookSales(sales, book.id);
      ghost var before := total;
      var j := 0;
      while j < |bookSales|
        invariant 0 <= j <= |bookSales|
        invariant total == before + SalesRoyalty(bookSales[..j], book.royalty)
      {
        total := total + bookSales[j].quantity * book.royalty;
        assert AllButLast(bookSales[..j + 1]) == bookSales[..j];
        j := j + 1;
      }
      assert bookSales[..j] == bookSales;
      assert AllButLast(authorBooks[..i + 1]) == authorBooks[..i];
      i := i + 1;
    }
    assert authorBooks[..i] == authorBooks;
  }

  /** A book's royalty over its sales is its units sold times its royalty. */
  lemma {:induction false} SalesRoyaltyIsSoldTimesRoyalty(bookSales: seq<Sale>, royalty: int)
    ensures SalesRoyalty(bookSales, royalty) == Quantities(bookSales) * royalty
  {
    if bookSales != [] {
      SalesRoyaltyIsSoldTimesRoyalty(AllButLast(bookSales), royalty);
      assert Quantities(AllButLast(bookSales)) * royalty + Last(bookSales).quantity * royalty
          == (Quantities(AllButLast(bookSales)) + Last(bookSales).quantity) * royalty;
    }
  }

  /** Earnings over a concatenation of book lists is the sum of the parts. */
  lemma {:induction false} BooksEarningsConcat(xs: seq<Book>, ys: seq<Book>, sales: seq<Sale>)
    ensures BooksEarnings(xs + ys, sales) == BooksEarnings(xs, sales) + BooksEarnings(ys, sales)
  {
    if ys == [] {
      assert xs + ys == xs;
    } else {
      assert AllButLast(xs + ys) == xs + AllButLast(ys);
      assert Last(xs + ys) == Last(ys);
      BooksEarningsConcat(xs, AllButLast(ys), sales);
    }
  }

  /** Splitting the book catalogue splits the author's earnings, and swapping the
      two parts does not change them. */
  lemma EarningsSplitBooks(xs: seq<Book>, ys: seq<Book>, sales: seq<Sale>, authorId: int)
    ensures Earnings(xs + ys, sales, authorId) == Earnings(xs, sales, authorId) + Earnings(ys, sales, authorId)
    ensures Earnings(xs + ys, sales, authorId) == Earnings(ys + xs, sales, authorId)
  {
    AuthorBooksConcat(xs, ys, authorId);
    AuthorBooksConcat(ys, xs, authorId);
    BooksEarningsConcat(AuthorBooks(xs, authorId), AuthorBooks(ys, authorId), sales);
    BooksEarningsConcat(AuthorBooks(ys, authorId), AuthorBooks(xs, authorId), sales);
  }

  lemma {:induction false} SalesRoyaltyConcat(xs: seq<Sale>, ys: seq<Sale>, royalty: int)
    ensures SalesRoyalty(xs + ys, royalty) == SalesRoyalty(xs, royalty) + SalesRoyalty(ys, royalty)
  {
    if ys == [] {
      assert xs + ys == xs;
    } else {
      assert AllButLast(xs + ys) == xs + AllButLast(ys);
      assert Last(xs + ys) == Last(ys);
      SalesRoyaltyConcat(xs, AllButLast(ys), royalty);
    }
  }

  /** The royalty sum over some sales does not depend on their order. */
  lemma {:induction false} SalesRoyaltyPermutation(xs: seq<Sale>, ys: seq<Sale>, royalty: int)
    requires multiset(xs) == multiset(ys)
    ensures SalesRoyalty(xs, royalty) == SalesRoyalty(ys, royalty)
    decreases |xs|
  {
    if xs == [] {
      assert |ys| == |multiset(ys)| == 0;
    } else {
      var x, front := Last(xs), AllButLast(xs);
      assert xs == front + [x];
      assert x in multiset(ys);
      var k :| 0 <= k < |ys| && ys[k] == x;
      var rest := ys[..k] + ys[k + 1..];
      assert ys == ys[..k] + [x] + ys[k + 1..];
      assert multiset(ys) == multiset(ys[..k]) + multiset{x} + multiset(ys[k + 1..]);
      assert multiset(xs) == multiset(front) + multiset{x};
      assert multiset(rest) == multiset(ys[..k]) + multiset(ys[k + 1..]);
      assert multiset(front) == multiset(xs) - multiset{x};
      assert multiset(rest) == multiset(ys) - multiset{x};
      SalesRoyaltyPermutation(front, rest, royalty);
      SalesRoyaltyConcat(ys[..k], ys[k + 1..], royalty);
      SalesRoyaltyConcat(ys[..k] + [x], ys[k + 1..], royalty);
      SalesRoyaltyConcat(ys[..k], [x], royalty);
      assert AllButLast([x]) == [];
    }
  }

  /** The earnings of some books do not depend on their order. */
  lemma {:induction false} BooksEarningsPermutation(xs: seq<Book>, ys: seq<Book>, sales: seq<Sale>)
    requires multiset(xs) == multiset(ys)
    ensures BooksEarnings(xs, sales) == BooksEarnings(ys, sales)
    decreases |xs|
  {
    if xs == [] {
      assert |ys| == |multiset(ys)| == 0;
    } else {
      var x, front := Last(xs), AllButLast(xs);
      assert xs == front + [x];
      assert x in multiset(ys);
      var k :| 0 <= k < |ys| && ys[k] == x;
      var rest := ys[..k] + ys[k + 1..];
      assert ys == ys[..k] + [x] + ys[k + 1..];
      assert multiset(ys) == multiset(ys[..k]) + multiset{x} + multiset(ys[k + 1..]);
      assert multiset(xs) == multiset(front) + multiset{x};
      assert multiset(rest) == multiset(ys[..k]) + multiset(ys[k + 1..]);
      assert multiset(front) == multiset(xs) - multiset{x};
      assert multiset(rest) == multiset(ys) - multiset{x};
      BooksEarningsPermutation(front, rest, sales);
      BooksEarningsConcat(ys[..k], ys[k + 1..], sales);
      BooksEarningsConcat(ys[..k] + [x], ys[k + 1..], sales);
      BooksEarningsConcat(ys[..k], [x], sales);
      assert AllButLast([x]) == [];
    }
  }

  /** Reordering the sales log changes no book's royalty sum. */
  lemma {:induction false} BooksEarningsSalesPermutation(authorBooks: seq<Book>, sales: seq<Sale>, sales': seq<Sale>)
    requires multiset(sales) == multiset(sales')
    ensures BooksEarnings(authorBooks, sales) == BooksEarnings(authorBooks, sales')
  {
    if authorBooks != [] {
      var b := Last(authorBooks);
      BookSalesMembers(sales, b.id);
      BookSalesMembers(sales', b.id);
      assert multiset(BookSales(sales, b.id)) == multiset(BookSales(sales', b.id));
      SalesRoyaltyPermutation(BookSales(sales, b.id), BookSales(sales', b.id), b.royalty);
      BooksEarningsSalesPermutation(AllButLast(authorBooks), sales, sales');
    }
  }

  /** No ordering dependency: an author's earnings depend on the catalogue and
      the sales log only as multisets, so reordering either changes nothing. */
  lemma EarningsPermutation(books: seq<Book>, books': seq<Book>, sales: seq<Sale>, sales': seq<Sale>, authorId: int)
    requires multiset(books) == multiset(books')
    requires multiset(sales) == multiset(sales')
    ensures Earnings(books, sales, authorId) == Earnings(books', sales', authorId)
  {
    AuthorBooksMembers(books, authorId);
    AuthorBooksMembers(books', authorId);
    assert multiset(AuthorBooks(books, authorId)) == multiset(AuthorBooks(books', authorId));
    BooksEarningsPermutation(AuthorBooks(books, authorId), AuthorBooks(books', authorId), sales);
    BooksEarningsSalesPermutation(AuthorBooks(books', authorId), sales, sales');
  }

  /** An id that no book names earns 0. */
  lemma EarningsWithoutBooks(books: seq<Book>, sales: seq<Sale>, authorId: int)
    requires forall i :: 0 <= i < |books| ==> books[i].authorId != authorId
    ensures Earnings(books, sales, authorId) == 0
  {
    AuthorBooksNone(books, authorId);
  }

  /** When every book names an existing author, an id that is no author's
      earns 0. Without that reference invariant an unknown id can still earn,
      since the filter never consults the authors. */
  lemma UnknownAuthorEarnsNothing(authors: seq<Author>, books: seq<Book>, sales: seq<Sale>, authorId: int)
    requires forall i :: 0 <= i < |books| ==> AuthorExists(authors, books[i].authorId)
    requires !AuthorExists(authors, authorId)
    ensures Earnings(books, sales, authorId) == 0
  {
    EarningsWithoutBooks(books, sales, authorId);
  }

  /** An author none of whose books has a sale earns 0. */
  lemma {:induction false} BooksEarningsWithoutSales(authorBooks: seq<Book>, sales: seq<Sale>)
    requires forall i, j :: 0 <= i < |authorBooks| && 0 <= j < |sales| ==> sales[j].bookId != authorBooks[i].id
    ensures BooksEarnings(authorBooks, sales) == 0
  {
    if authorBooks != [] {
      var b := Last(authorBooks);
      BookSalesNone(sales, b.id);
      BooksEarningsWithoutSales(AllButLast(authorBooks), sales);
    }
  }

  lemma EarningsWithoutSales(books: seq<Book>, sales: seq<Sale>, authorId: int)
    requires forall i, j :: 0 <= i < |books| && 0 <= j < |sales| && books[i].authorId == authorId
                            ==> sales[j].bookId != books[i].id
    ensures Earnings(books, sales, authorId) == 0
  {
    var ab := AuthorBooks(books, authorId);
    AuthorBooksMembers(books, authorId);
    forall i, j | 0 <= i < |ab| && 0 <= j < |sales| ensures sales[j].bookId != ab[i].id {
      assert ab[i] in ab;
    }
    BooksEarningsWithoutSales(ab, sales);
  }

  /** With the store's data invariants (royalties non-negative, quantities
      positive) earnings are never negative. */
  lemma {:induction false} SalesRoyaltyNonNegative(bookSales: seq<Sale>, royalty: int)
    requires royalty >= 0
    requires forall j :: 0 <= j < |bookSales| ==> bookSales[j].quantity >= 0
    ensures SalesRoyalty(bookSales, royalty) >= 0
  {
    if bookSales != [] {
      SalesRoyaltyNonNegative(AllButLast(bookSales), royalty);
    }
  }

  lemma {:induction false} BooksEarningsNonNegative(authorBooks: seq<Book>, sales: seq<Sale>)
    requires forall i :: 0 <= i < |authorBooks| ==> authorBooks[i].royalty >= 0
    requires forall j :: 0 <= j < |sales| ==> sales[j].quantity >= 0
    ensures BooksEarnings(authorBooks, sales) >= 0
  {
    if authorBooks != [] {
      var b := Last(authorBooks);
      var bs := BookSales(sales, b.id);
      BookSalesMembers(sales, b.id);
      forall j | 0 <= j < |bs| ensures bs[j].quantity >= 0 {
        assert bs[j] in sales;
      }
      SalesRoyaltyNonNegative(bs, b.royalty);
      BooksEarningsNonNegative(AllButLast(authorBooks), sales);
    }
  }

  lemma EarningsNonNegative(books: seq<Book>, sales: seq<Sale>, authorId: int)
    requires forall i :: 0 <= i < |books| ==> books[i].royalty >= 0
    requires forall j :: 0 <= j < |sales| ==> sales[j].quantity >= 0
    ensures Earnings(books, sales, authorId) >= 0
  {
    var ab := AuthorBooks(books, authorId);
    AuthorBooksMembers(books, authorId);
    forall i | 0 <= i < |ab| ensures ab[i].royalty >= 0 {
      assert ab[i] in books;
    }
    BooksEarningsNonNegative(ab, sales);
  }
}
