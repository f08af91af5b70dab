/** The two read views: `GET /authors` (one summary line per author) and
    `GET /authors/:id` (one author with a per-book breakdown). Both are pure
    functions of the store, so asking twice of an unchanged store gives the
    same answer. */
module Views {
  import opened Data
  import opened EarningsCalculator
  import opened BalanceCalculator
  import opened AdmissionControl

  datatype AuthorSummary = AuthorSummary(id: int, name: string, totalEarnings: int, currentBalance: int)

  datatype BookSummary = BookSummary(id: int, title: string, royaltyPerSale: int, totalSold: int, totalRoyalty: int)

  datatype AuthorDetail = AuthorDetail(id: int, name: string, email: string, totalBooks: int,
                                       totalEarnings: int, currentBalance: int, books: seq<BookSummary>)

  function Summarize(books: seq<Book>, sales: seq<Sale>, withdrawals: seq<Withdrawal>, author: Author): AuthorSummary {
    var total := Earnings(books, sales, author.id);
    AuthorSummary(author.id, author.name, total, total - Withdrawn(withdrawals, author.id))
  }

  /** `GET /authors`: `authors.map(...)`, one entry per author in store order. */
  function AuthorsSummary(authors: seq<Author>, books: seq<Book>, sales: seq<Sale>, withdrawals: seq<Withdrawal>)
    : (r: seq<AuthorSummary>)
    ensures |r| == |authors|
    ensures forall i :: 0 <= i < |r| ==>
              && r[i].id == authors[i].id && r[i].name == authors[i].name
              && r[i].totalEarnings == Earnings(books, sales, authors[i].id)
              && r[i].currentBalance == Balance(books, sales, withdrawals, authors[i].id)
  {
    seq(|authors|, i requires 0 <= i < |authors| => Summarize(books, sales, withdrawals, authors[i]))
  }

  /** One row of the breakdown: units sold and the royalty they earned. */
  function BookRow(sales: seq<Sale>, book: Book): BookSummary {
    var sold := TotalSold(sales, book.id);
    BookSummary(book.id, book.title, book.royalty, sold, sold * book.royalty)
  }

  /** The author's books, each mapped to its row, in store order. */
  function Breakdown(books: seq<Book>, sales: seq<Sale>, authorId: int): seq<BookSummary> {
    var authorBooks := AuthorBooks(books, authorId);
    seq(|authorBooks|, i requires 0 <= i < |authorBooks| => BookRow(sales, authorBooks[i]))
  }

  /** Sum of the `total_royalty` column. */
  function SumTotalRoyalty(rows: seq<BookSummary>): int {
    if rows == [] then 0 else SumTotalRoyalty(AllButLast(rows)) + Last(rows).totalRoyalty
  }

  /** The breakdown of a list of books adds up to what those books earned. */
  lemma {:induction false} RowsSumToEarnings(authorBooks: seq<Book>, sales: seq<Sale>)
    ensures SumTotalRoyalty(seq(|authorBooks|, i requires 0 <= i < |authorBooks| => BookRow(sales, authorBooks[i])))
         == BooksEarnings(authorBooks, sales)
  {
    var rows := seq(|authorBooks|, i requires 0 <= i < |authorBooks| => BookRow(sales, authorBooks[i]));
    if authorBooks != [] {
      var rest := AllButLast(authorBooks);
      var b := Last(authorBooks);
      assert AllButLast(rows) == seq(|rest|, i requires 0 <= i < |rest| => BookRow(sales, rest[i]));
      RowsSumToEarnings(rest, sales);
      SalesRoyaltyIsSoldTimesRoyalty(BookSales(sales, b.id), b.royalty);
    }
  }

  /** The sum of `total_royalty` over the breakdown equals `calculateAuthorEarnings`. */
  lemma BreakdownSumsToEarnings(books: seq<Book>, sales: seq<Sale>, authorId: int)
    ensures SumTotalRoyalty(Breakdown(books, sales, authorId)) == Earnings(books, sales, authorId)
  {
    RowsSumToEarnings(AuthorBooks(books, authorId), sales);
  }

  /** `GET /authors/:id`: not found for an unknown id; otherwise the author with
      the number of their books, earnings, balance and the per-book breakdown. */
  function GetAuthorDetail(authors: seq<Author>, books: seq<Book>, sales: seq<Sale>, withdrawals: seq<Withdrawal>,
                           authorId: int): (r: Result<AuthorDetail>)
    ensures r.Failure? <==> !AuthorExists(authors, authorId)
    ensures r.Failure? ==> r.error == AuthorNotFound
    ensures r.Success? ==>
              && r.value.id == authorId
              && (exists i :: 0 <= i < |authors| && authors[i].id == authorId
                              && authors[i].name == r.value.name && authors[i].email == r.value.email)
              && r.value.totalBooks == |r.value.books| == |AuthorBooks(books, authorId)|
              && (forall k :: 0 <= k < |r.value.books| ==>
                    r.value.books[k].totalRoyalty == r.value.books[k].totalSold * r.value.books[k].royaltyPerSale)
              && r.value.totalEarnings == SumTotalRoyalty(r.value.books)
              && r.value.currentBalance == r.value.totalEarnings - Withdrawn(withdrawals, authorId)
  {
    match FindAuthor(authors, authorId)
    case None => Failure(AuthorNotFound)
    case Some(author) =>
      var rows := Breakdown(books, sales, authorId);
      var total := Earnings(books, sales, authorId);
      BreakdownSumsToEarnings(books, sales, authorId);
      Success(AuthorDetail(author.id, author.name, author.email, |rows|, total,
                           total - Withdrawn(withdrawals, authorId), rows))
  }

  /** What the detail view holds: the first author with the id supplies id,
      name and email; row k is the author's k-th book in catalogue order, with
      that book's id, title and royalty and the units its sales add up to; and
      `total_earnings` is `calculateAuthorEarnings` of the id. */
  lemma GetAuthorDetailContents(authors: seq<Author>, books: seq<Book>, sales: seq<Sale>, withdrawals: seq<Withdrawal>,
                                authorId: int)
    requires AuthorExists(authors, authorId)
    ensures var r := GetAuthorDetail(authors, books, sales, withdrawals, authorId);
            var author := FindAuthor(authors, authorId).value;
            var authorBooks := AuthorBooks(books, authorId);
            && r.Success?
            && r.value.id == author.id && r.value.name == author.name && r.value.email == author.email
            && |r.value.books| == |authorBooks|
            && (forall k :: 0 <= k < |authorBooks| ==>
                  && r.value.books[k].id == authorBooks[k].id
                  && r.value.books[k].title == authorBooks[k].title
                  && r.value.books[k].royaltyPerSale == authorBooks[k].royalty
                  && r.value.books[k].totalSold == TotalSold(sales, authorBooks[k].id))
            && r.value.totalEarnings == Earnings(books, sales, authorId)
            && r.value.currentBalance == Balance(books, sales, withdrawals, authorId)
  {
  }

  /** An accepted withdrawal changes the authors summary only in the balance
      column, and only on the lines of that author, by exactly the amount. */
  lemma SummaryAfterWithdrawal(authors: seq<Author>, books: seq<Book>, sales: seq<Sale>, withdrawals: seq<Withdrawal>,
                               authorId: int, amount: int, createdAt: string)
    requires Admit(authors, books, sales, withdrawals, authorId, amount, createdAt).Success?
    ensures var w := Admit(authors, books, sales, withdrawals, authorId, amount, createdAt).value.withdrawal;
            var before := AuthorsSummary(authors, books, sales, withdrawals);
            var after := AuthorsSummary(authors, books, sales, withdrawals + [w]);
            && |after| == |before|
            && forall i :: 0 <= i < |after| ==>
                 && after[i].id == before[i].id && after[i].name == before[i].name
                 && after[i].totalEarnings == before[i].totalEarnings
                 && after[i].currentBalance
                    == before[i].currentBalance - (if before[i].id == authorId then amount else 0)
  {
    AdmitEffectOnBalances(authors, books, sales, withdrawals, authorId, amount, createdAt);
  }
}
