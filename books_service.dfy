/** The book table and `BookService` of `src/books/service.py`.

    The table is a sequence of rows whose uids are distinct (the primary
    key). Times are in seconds. */
module Books {
  import opened Common

  datatype Book = Book(
    uid: string,
    title: string,
    author: string,
    publisher: string,
    publishDate: string,
    pageCount: int,
    language: string,
    createdAt: int,
    updatedAt: int)

  /** The create body: every field a client supplies. */
  datatype BookCreateModel = BookCreateModel(title: string, author: string, publisher: string, publishDate: string, pageCount: int, language: string)

  /** The fields an update body can carry, and the values they take. */
  datatype BookField = Title | Author | Publisher | PublishDate | PageCount | Language
  datatype FieldValue = Text(text: string) | Number(number: int)

  /** One `(key, value)` item of the update body's `model_dump()`. */
  datatype FieldUpdate = FieldUpdate(field: BookField, value: FieldValue)

  /** The request schema gives each field a value of its own type. */
  predicate WellTyped(u: FieldUpdate) {
    if u.field == PageCount then u.value.Number? else u.value.Text?
  }

  predicate AllWellTyped(us: seq<FieldUpdate>) {
    forall k :: 0 <= k < |us| ==> WellTyped(us[k])
  }

  /** `getattr(book, field)`. */
  function FieldOf(b: Book, f: BookField): FieldValue {
    match f
    case Title => Text(b.title)
    case Author => Text(b.author)
    case Publisher => Text(b.publisher)
    case PublishDate => Text(b.publishDate)
    case PageCount => Number(b.pageCount)
    case Language => Text(b.language)
  }

  /** `setattr(book, key, value)`: the named field takes the value, the other
      fields, the uid and both times stay. */
  function SetAttr(b: Book, u: FieldUpdate): (r: Book)
    requires WellTyped(u)
    ensures FieldOf(r, u.field) == u.value
    ensures forall g :: g != u.field ==> FieldOf(r, g) == FieldOf(b, g)
    ensures r.uid == b.uid && r.createdAt == b.createdAt && r.updatedAt == b.updatedAt
  {
    match u.field
    case Title => b.(title := u.value.text)
    case Author => b.(author := u.value.text)
    case Publisher => b.(publisher := u.value.text)
    case PublishDate => b.(publishDate := u.value.text)
    case PageCount => b.(pageCount := u.value.number)
    case Language => b.(language := u.value.text)
  }

  /** The book after the items of `us` are set in order. */
  function ApplyUpdates(b: Book, us: seq<FieldUpdate>): (r: Book)
    requires AllWellTyped(us)
    ensures forall f :: FieldOf(r, f) == FieldOf(b, f) || exists k :: 0 <= k < |us| && us[k] == FieldUpdate(f, FieldOf(r, f))
  {
    if us == [] then b else SetAttr(ApplyUpdates(b, us[..|us| - 1]), us[|us| - 1])
  }

  /** An update keeps the uid and the creation time, and does not refresh the
      update time. */
  lemma {:induction false} UpdateKeepsIdentity(b: Book, us: seq<FieldUpdate>)
    requires AllWellTyped(us)
    ensures var r := ApplyUpdates(b, us);
            r.uid == b.uid && r.createdAt == b.createdAt && r.updatedAt == b.updatedAt
  {
    if us != [] {
      UpdateKeepsIdentity(b, us[..|us| - 1]);
    }
  }

  /** A field that no item of the update names keeps its value. */
  lemma {:induction false} UpdateLeavesOtherFields(b: Book, us: seq<FieldUpdate>, f: BookField)
    requires AllWellTyped(us)
    requires forall k :: 0 <= k < |us| ==> us[k].field != f
    ensures FieldOf(ApplyUpdates(b, us), f) == FieldOf(b, f)
  {
    if us != [] {
      UpdateLeavesOtherFields(b, us[..|us| - 1], f);
    }
  }

  /** A field named by the update takes the value of the last item naming it. */
  lemma {:induction false} UpdateLastWriteWins(b: Book, us: seq<FieldUpdate>, k: nat)
    requires AllWellTyped(us)
    requires k < |us|
    requires forall j :: k < j < |us| ==> us[j].field != us[k].field
    ensures FieldOf(ApplyUpdates(b, us), us[k].field) == us[k].value
  {
    if k < |us| - 1 {
      var prefix := us[..|us| - 1];
      assert prefix[k] == us[k];
      UpdateLastWriteWins(b, prefix, k);
    }
  }

  /** The table is ordered newest first. */
  predicate SortedByCreatedDesc(s: seq<Book>) {
    forall i, j :: 0 <= i < j < |s| ==> s[i].createdAt >= s[j].createdAt
  }

  /** Puts `b` into a newest-first sequence at its place. */
  function InsertByCreatedDesc(b: Book, s: seq<Book>): (r: seq<Book>)
    requires SortedByCreatedDesc(s)
    ensures SortedByCreatedDesc(r)
    ensures multiset(r) == multiset(s) + multiset{b}
    ensures |r| == |s| + 1
    ensures forall i :: 0 <= i < |r| ==> r[i] == b || r[i] in s
  {
    if s == [] || b.createdAt >= s[0].createdAt then
      [b] + s
    else
      var rest := InsertByCreatedDesc(b, s[1..]);
      assert s == [s[0]] + s[1..];
      [s[0]] + rest
  }

  /** `order_by(desc(Book.created_at))`: the same books, newest first. */
  function OrderByCreatedDesc(s: seq<Book>): (r: seq<Book>)
    ensures SortedByCreatedDesc(r)
    ensures multiset(r) == multiset(s)
  {
    if s == [] then []
    else
      assert s == [s[0]] + s[1..];
      InsertByCreatedDesc(s[0], OrderByCreatedDesc(s[1..]))
  }

  /** Every uid occurs in at most one row. */
  predicate UniqueUids(books: seq<Book>) {
    forall i, j :: 0 <= i < j < |books| ==> books[i].uid != books[j].uid
  }

  predicate HasUid(books: seq<Book>, uid: string) {
    exists i :: 0 <= i < |books| && books[i].uid == uid
  }

  /** The position of the first row with the given uid. */
  function BookIndex(books: seq<Book>, uid: string): (r: Option<nat>)
    ensures r.None? <==> forall i :: 0 <= i < |books| ==> books[i].uid != uid
    ensures r.Some? ==> r.value < |books| && books[r.value].uid == uid
    ensures r.Some? ==> forall j :: 0 <= j < r.value ==> books[j].uid != uid
  {
    if books == [] then None
    else if books[0].uid == uid then Some(0)
    else
      match BookIndex(books[1..], uid)
      case None => None
      case Some(i) => Some(i + 1)
  }

  /** `select(Book).where(Book.uid == book_id)` with `scalar_one_or_none`. */
  function FindBook(books: seq<Book>, uid: string): (r: Option<Book>)
    ensures r.None? <==> forall i :: 0 <= i < |books| ==> books[i].uid != uid
    ensures r.Some? ==> r.value in books && r.value.uid == uid
  {
    match BookIndex(books, uid)
    case None => None
    case Some(i) => Some(books[i])
  }

  /** The row `create_book` builds: the body's fields, both times `now`. */
  function NewBook(data: BookCreateModel, uid: string, now: int): (r: Book)
    ensures r.uid == uid && r.createdAt == now && r.updatedAt == now
    ensures r.title == data.title && r.author == data.author && r.publisher == data.publisher
    ensures r.publishDate == data.publishDate && r.pageCount == data.pageCount && r.language == data.language
  {
    Book(uid, data.title, data.author, data.publisher, data.publishDate, data.pageCount, data.language, now, now)
  }

  /** The table without the row at `i`. */
  function RemoveAt(books: seq<Book>, i: nat): (r: seq<Book>)
    requires i < |books|
    ensures |r| == |books| - 1
    ensures multiset(r) == multiset(books) - multiset{books[i]}
  {
    assert books == books[..i] + [books[i]] + books[i + 1..];
    books[..i] + books[i + 1..]
  }

  /** With distinct uids, removing the row that carries `uid` leaves no row
      with that uid, and the remaining uids stay distinct. */
  lemma RemoveAtUnique(books: seq<Book>, i: nat)
    requires UniqueUids(books) && i < |books|
    ensures UniqueUids(RemoveAt(books, i))
    ensures forall k :: 0 <= k < |books| - 1 ==> RemoveAt(books, i)[k].uid != books[i].uid
  {
    var r := RemoveAt(books, i);
    assert forall k :: 0 <= k < |r| ==> r[k] == (if k < i then books[k] else books[k + 1]);
  }

  /** The book table behind `BookService`. */
  class BookService {
    var books: seq<Book>

    ghost predicate Valid()
      reads this
    {
      UniqueUids(books)
    }

    constructor ()
      ensures Valid() && books == []
    {
      books := [];
    }

    /** `get_all_books`: every book, newest first. */
    method GetAllBooks() returns (r: seq<Book>)
      ensures SortedByCreatedDesc(r)
      ensures multiset(r) == multiset(books)
    {
      r := OrderByCreatedDesc(books);
    }

    /** `get_book`: the book with that uid, or None. */
    method GetBook(bookId: string) returns (r: Option<Book>)
      ensures r.Some? ==> r.value in books && r.value.uid == bookId
      ensures r.None? <==> forall i :: 0 <= i < |books| ==> books[i].uid != bookId
      ensures r == FindBook(books, bookId)
    {
      r := FindBook(books, bookId);
    }

    /** `create_book`: inserts one new row and returns it; a uid already in the
        table makes the insert fail and changes nothing. */
    method CreateBook(bookData: BookCreateModel, uid: string, now: int) returns (r: Result<Book>)
      requires Valid()
      modifies this
      ensures Valid()
      ensures HasUid(old(books), uid) ==> r == Err(Unhandled("IntegrityError")) && books == old(books)
      ensures !HasUid(old(books), uid) ==> r == Ok(NewBook(bookData, uid, now)) && books == old(books) + [r.value]
    {
      if exists i :: 0 <= i < |books| && books[i].uid == uid {
        return Err(Unhandled("IntegrityError"));
      }
      var newBook := NewBook(bookData, uid, now);
      books := books + [newBook];
      r := Ok(newBook);
    }

    /** `update_book`: None and no change when the uid is unknown; otherwise
        sets the update's items one by one on that row and returns it. */
    method UpdateBook(bookId: string, updatedBook: seq<FieldUpdate>) returns (r: Option<Book>)
      requires Valid()
      requires AllWellTyped(updatedBook)
      modifies this
      ensures Valid()
      ensures BookIndex(old(books), bookId).None? ==> r.None? && books == old(books)
      ensures BookIndex(old(books), bookId).Some? ==>
                var i := BookIndex(old(books), bookId).value;
                r == Some(ApplyUpdates(old(books)[i], updatedBook)) && books == old(books)[i := r.value]
    {
      var index := BookIndex(books, bookId);
      if index.None? {
        return None;
      }
      var bookToUpdate := books[index.value];
      var k := 0;
      while k < |updatedBook|
        invariant 0 <= k <= |updatedBook|
        invariant bookToUpdate == ApplyUpdates(books[index.value], updatedBook[..k])
      {
        assert updatedBook[..k + 1][..k] == updatedBook[..k];
        bookToUpdate := SetAttr(bookToUpdate, updatedBook[k]);
        k := k + 1;
      }
      assert updatedBook[..k] == updatedBook;
      UpdateKeepsIdentity(books[index.value], updatedBook);
      books := books[index.value := bookToUpdate];
      r := Some(bookToUpdate);
    }

    /** `delete_book`: removes the row when there is one, and returns None on
        both branches. */
    method DeleteBook(bookId: string) returns (r: Option<Book>)
      requires Valid()
      modifies this
      ensures Valid()
      ensures r.None?
      ensures BookIndex(old(books), bookId).None? ==> books == old(books)
      ensures BookIndex(old(books), bookId).Some? ==> books == RemoveAt(old(books), BookIndex(old(books), bookId).value)
      ensures FindBook(books, bookId).None?
    {
      var index := BookIndex(books, bookId);
      if index.Some? {
        RemoveAtUnique(books, index.value);
        books := RemoveAt(books, index.value);
        // the branch ends without a return statement, so the caller gets None
        r := None;
      } else {
        return None;
      }
    }
  }
}
