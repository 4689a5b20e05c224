/** The handlers of `src/books/routes.py`. Every one of them runs the access
    guard first, so a token the guard rejects never reaches the book table. */
module BookRoutes {
  import opened Common
  import opened AuthUtils
  import opened Redis
  import opened AuthDependencies
  import opened Books

  /** Detail of the bare `HTTPException(404)` of `get_book`: the status phrase. */
  const NOT_FOUND: string := "Not Found"
  const BOOK_NOT_FOUND: string := "Book not found !"
  const BOOK_CREATED: string := "Book created successfully"
  const BOOK_UPDATED: string := "Book updated successfully"

  datatype BookReply = BookReply(status: int, message: string, data: Book)
  /** A 204 reply carries no body, so the handler's "Book deleted
      successfully" message never reaches the client. */
  datatype DeleteReply = DeleteReply(status: int)

  /** The access guard rejects refresh tokens and revoked tokens, so neither
      reaches a book handler's body. */
  lemma AccessGuardStopsRefreshAndRevoked(creds: Option<Token>, now: int, entries: map<string, Entry>)
    requires creds.Some?
    requires creds.value.payload.refresh == Some(true) || (Decodes(creds, now) && Revoked(creds, now, entries))
    ensures Authorize(AccessToken, creds, now, entries).Err?
  {
  }

  /** `GET /books`: the guard, then every book newest first. */
  method GetAllBooks(svc: BookService, bl: Blocklist, creds: Option<Token>, now: int) returns (r: Result<seq<Book>>)
    ensures Authorize(AccessToken, creds, now, bl.entries).Err? ==> r == Err(Authorize(AccessToken, creds, now, bl.entries).failure)
    ensures Authorize(AccessToken, creds, now, bl.entries).Ok? ==>
              r.Ok? && SortedByCreatedDesc(r.value) && multiset(r.value) == multiset(svc.books)
  {
    var userDetails := TokenBearer(AccessToken, creds, now, bl);
    if userDetails.Err? {
      return Err(userDetails.failure);
    }
    var books := svc.GetAllBooks();
    r := Ok(books);
  }

  /** `GET /books/{book_id}`: the guard, then the book, or 404 when there is none. */
  method GetBook(svc: BookService, bl: Blocklist, creds: Option<Token>, now: int, bookId: string) returns (r: Result<Book>)
    ensures Authorize(AccessToken, creds, now, bl.entries).Err? ==> r == Err(Authorize(AccessToken, creds, now, bl.entries).failure)
    ensures Authorize(AccessToken, creds, now, bl.entries).Ok? ==>
              && (FindBook(svc.books, bookId).Some? ==> r == Ok(FindBook(svc.books, bookId).value))
              && (FindBook(svc.books, bookId).None? ==> r == Err(HttpError(HTTP_404_NOT_FOUND, NOT_FOUND)))
    ensures r.Ok? ==> r.value in svc.books && r.value.uid == bookId
  {
    var userDetails := TokenBearer(AccessToken, creds, now, bl);
    if userDetails.Err? {
      return Err(userDetails.failure);
    }
    var book := svc.GetBook(bookId);
    if book.Some? {
      return Ok(book.value);
    }
    r := Err(HttpError(HTTP_404_NOT_FOUND, NOT_FOUND));
  }

  /** `POST /books`: the guard, then the new book with the success message. */
  method CreateBook(svc: BookService, bl: Blocklist, creds: Option<Token>, now: int, bookData: BookCreateModel, uid: string)
    returns (r: Result<BookReply>)
    requires svc.Valid()
    modifies svc
    ensures svc.Valid()
    ensures Authorize(AccessToken, creds, now, bl.entries).Err? ==>
              r == Err(Authorize(AccessToken, creds, now, bl.entries).failure) && svc.books == old(svc.books)
    ensures Authorize(AccessToken, creds, now, bl.entries).Ok? && !HasUid(old(svc.books), uid) ==>
              r == Ok(BookReply(HTTP_201_CREATED, BOOK_CREATED, NewBook(bookData, uid, now)))
              && svc.books == old(svc.books) + [NewBook(bookData, uid, now)]
    ensures Authorize(AccessToken, creds, now, bl.entries).Ok? && HasUid(old(svc.books), uid) ==>
              r == Err(Unhandled("IntegrityError"))
    ensures r.Err? ==> svc.books == old(svc.books)
  {
    var userDetails := TokenBearer(AccessToken, creds, now, bl);
    if userDetails.Err? {
      return Err(userDetails.failure);
    }
    var newBook := svc.CreateBook(bookData, uid, now);
    if newBook.Err? {
      return Err(newBook.failure);
    }
    r := Ok(BookReply(HTTP_201_CREATED, BOOK_CREATED, newBook.value));
  }

  /** `PATCH /books/{book_id}`: the guard, then the updated book, or 404
      "Book not found !" with the table unchanged. */
  method UpdateBook(svc: BookService, bl: Blocklist, creds: Option<Token>, now: int, bookId: string, updatedBookData: seq<FieldUpdate>)
    returns (r: Result<BookReply>)
    requires svc.Valid() && AllWellTyped(updatedBookData)
    modifies svc
    ensures svc.Valid()
    ensures Authorize(AccessToken, creds, now, bl.entries).Err? ==>
              r == Err(Authorize(AccessToken, creds, now, bl.entries).failure) && svc.books == old(svc.books)
    ensures Authorize(AccessToken, creds, now, bl.entries).Ok? && BookIndex(old(svc.books), bookId).None? ==>
              r == Err(HttpError(HTTP_404_NOT_FOUND, BOOK_NOT_FOUND)) && svc.books == old(svc.books)
    ensures Authorize(AccessToken, creds, now, bl.entries).Ok? && BookIndex(old(svc.books), bookId).Some? ==>
              var i := BookIndex(old(svc.books), bookId).value;
              var updated := ApplyUpdates(old(svc.books)[i], updatedBookData);
              r == Ok(BookReply(HTTP_200_OK, BOOK_UPDATED, updated)) && svc.books == old(svc.books)[i := updated]
  {
    var userDetails := TokenBearer(AccessToken, creds, now, bl);
    if userDetails.Err? {
      return Err(userDetails.failure);
    }
    var updatedBook := svc.UpdateBook(bookId, updatedBookData);
    if updatedBook.Some? {
      return Ok(BookReply(HTTP_200_OK, BOOK_UPDATED, updatedBook.value));
    }
    r := Err(HttpError(HTTP_404_NOT_FOUND, BOOK_NOT_FOUND));
  }

  /** `DELETE /books/{book_id}`: the guard, then the deletion. The service
      answers None on both of its branches, so every accepted request reports
      success, an unknown uid included, and the 404 branch is never taken. */
  method DeleteBook(svc: BookService, bl: Blocklist, creds: Option<Token>, now: int, bookId: string) returns (r: Result<DeleteReply>)
    requires svc.Valid()
    modifies svc
    ensures svc.Valid()
    ensures Authorize(AccessToken, creds, now, bl.entries).Err? ==>
              r == Err(Authorize(AccessToken, creds, now, bl.entries).failure) && svc.books == old(svc.books)
    ensures Authorize(AccessToken, creds, now, bl.entries).Ok? ==>
              r == Ok(DeleteReply(HTTP_204_NO_CONTENT)) && FindBook(svc.books, bookId).None?
    ensures BookIndex(old(svc.books), bookId).None? ==> svc.books == old(svc.books)
    ensures Authorize(AccessToken, creds, now, bl.entries).Ok? && BookIndex(old(svc.books), bookId).Some? ==>
              svc.books == RemoveAt(old(svc.books), BookIndex(old(svc.books), bookId).value)
    ensures r != Err(HttpError(HTTP_404_NOT_FOUND, BOOK_NOT_FOUND))
  {
    var userDetails := TokenBearer(AccessToken, creds, now, bl);
    if userDetails.Err? {
      return Err(userDetails.failure);
    }
    var deletedBook := svc.DeleteBook(bookId);
    if deletedBook.None? {
      return Ok(DeleteReply(HTTP_204_NO_CONTENT));
    }
    r := Err(HttpError(HTTP_404_NOT_FOUND, BOOK_NOT_FOUND));
  }
}
