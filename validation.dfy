/**
 * The request validator that guards quote creation and update
 * (server/middleware/validation.js): each of `quote`, `bookTitle` and
 * `author` is sanitised by trimming, then checked for a length between 1
 * and its maximum, and the request is either rejected with status 400 and
 * the list of failures or passed on, sanitised, to the controller.
 */
module Validation {
  import opened Basics
  import opened Text
  import opened QuoteSchema

  /** One entry of the error list: the failing path, its sanitised value and the message. */
  datatype FieldError = FieldError(field: Field, value: string, msg: string)

  /** What the middleware chain does with a request. */
  datatype Outcome = Reject(status: nat, errors: seq<FieldError>) | Next(body: QuoteInput)

  const QuoteMessage: string := "Quote must be between 1 and 500 characters"
  const BookTitleMessage: string := "Book title must be between 1 and 200 characters"
  const AuthorMessage: string := "Author name must be between 1 and 100 characters"

  /** The sanitised value of a checked path: a missing path reads as the empty string, then is trimmed. */
  function Sanitised(v: Option<string>): (r: string)
    ensures Trimmed(r)
    ensures v.None? ==> r == []
  {
    Trim(v.GetOr(""))
  }

  /** `isLength({min: 1, max})` on the sanitised value. */
  predicate LengthOk(v: Option<string>, max: nat) {
    1 <= |Sanitised(v)| <= max
  }

  /** The error one validator chain contributes: none, or one entry for its path. */
  function Check(f: Field, v: Option<string>, max: nat, msg: string): seq<FieldError> {
    if LengthOk(v, max) then [] else [FieldError(f, Sanitised(v), msg)]
  }

  /** `validationResult(req)`: the failures of the three chains, in declaration order. */
  function Errors(body: QuoteInput): seq<FieldError> {
    Check(QuoteField, body.quote, QuoteMaxLength, QuoteMessage)
    + Check(BookTitleField, body.bookTitle, BookTitleMaxLength, BookTitleMessage)
    + Check(AuthorField, body.author, AuthorMaxLength, AuthorMessage)
  }

  /** The body the controller receives: the three checked paths replaced by their sanitised values. */
  function SanitisedBody(body: QuoteInput): QuoteInput {
    body.(quote := Some(Sanitised(body.quote)),
          bookTitle := Some(Sanitised(body.bookTitle)),
          author := Some(Sanitised(body.author)))
  }

  /** The final handler of the chain: reject with 400 and the errors, or call `next()`. */
  function ValidateQuote(body: QuoteInput): (r: Outcome)
    ensures r.Reject? ==> r.status == 400 && r.errors != []
    ensures r.Next? ==> r.body == SanitisedBody(body)
  {
    var errors := Errors(body);
    if errors != [] then Reject(400, errors) else Next(SanitisedBody(body))
  }

  /**
   * The request is passed on exactly when each checked path is present and
   * its trimmed length is within 1..max, which is the schema's own text
   * constraint on that path.
   */
  lemma ValidateAccepts(body: QuoteInput)
    ensures ValidateQuote(body).Next? <==>
      && body.quote.Some? && TextOk(body.quote.value, QuoteMaxLength)
      && body.bookTitle.Some? && TextOk(body.bookTitle.value, BookTitleMaxLength)
      && body.author.Some? && TextOk(body.author.value, AuthorMaxLength)
  {
  }

  /** A path is named in the error list exactly when its own check fails, with its own message. */
  lemma ErrorsNameFailingFields(body: QuoteInput)
    ensures var es := Errors(body);
      && (FieldError(QuoteField, Sanitised(body.quote), QuoteMessage) in es
          <==> !LengthOk(body.quote, QuoteMaxLength))
      && (FieldError(BookTitleField, Sanitised(body.bookTitle), BookTitleMessage) in es
          <==> !LengthOk(body.bookTitle, BookTitleMaxLength))
      && (FieldError(AuthorField, Sanitised(body.author), AuthorMessage) in es
          <==> !LengthOk(body.author, AuthorMaxLength))
      && |es| <= 3
      && forall i :: 0 <= i < |es| ==> es[i].field in {QuoteField, BookTitleField, AuthorField}
  {
  }

  /** Trimming comes before the minimum-length check, so a blank quote is rejected. */
  lemma WhitespaceRejected(body: QuoteInput)
    requires body.quote.Some? && AllSpace(body.quote.value)
    ensures ValidateQuote(body).Reject?
    ensures FieldError(QuoteField, "", QuoteMessage) in ValidateQuote(body).errors
  {
  }

  /** Leading and trailing whitespace neither counts toward the maximum nor reaches the controller. */
  lemma PaddingIgnored(body: QuoteInput, a: string, s: string, b: string)
    requires AllSpace(a) && AllSpace(b)
    ensures ValidateQuote(body.(quote := Some(a + s + b))) == ValidateQuote(body.(quote := Some(s)))
  {
    TrimIgnoresPadding(a, s, b);
    assert Sanitised(Some(a + s + b)) == Sanitised(Some(s));
  }

  /** Validation is idempotent: a body that was passed on passes again unchanged. */
  lemma ValidateIdempotent(body: QuoteInput)
    requires ValidateQuote(body).Next?
    ensures ValidateQuote(ValidateQuote(body).body) == ValidateQuote(body)
  {
    var s := SanitisedBody(body);
    TrimIdempotent(body.quote.value);
    TrimIdempotent(body.bookTitle.value);
    TrimIdempotent(body.author.value);
    assert SanitisedBody(s) == s;
  }

  /**
   * A body the validator passes on meets every text constraint of the
   * schema, so creating a quote from it fails only on the category enum.
   */
  lemma ValidatedCreate(body: QuoteInput, id: QuoteId, now: int)
    requires ValidateQuote(body).Next?
    ensures var created := NewQuote(id, ValidateQuote(body).body, now);
      created.Ok? <==> (body.category.None? || ParseCategory(body.category.value).Some?)
  {
    var s := SanitisedBody(body);
    TrimIdempotent(body.quote.value);
    TrimIdempotent(body.bookTitle.value);
    TrimIdempotent(body.author.value);
    NewQuoteAccepts(id, s, now);
  }
}
