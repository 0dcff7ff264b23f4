/**
 * The Quote document: its fields, the constraints and defaults the schema
 * attaches to them, and the derived popularity score (server/models/Quote.js).
 */
module QuoteSchema {
  import opened Basics
  import opened Text

  /** Store-assigned identity of a quote document. */
  type QuoteId = nat

  datatype Category = Fiction | NonFiction | Poetry | Biography | Other

  /** The enumeration the schema admits for `category`, in declaration order. */
  const Categories: seq<Category> := [Fiction, NonFiction, Poetry, Biography, Other]

  /** The stored string for each category. */
  function CategoryName(c: Category): string {
    match c
    case Fiction => "fiction"
    case NonFiction => "non-fiction"
    case Poetry => "poetry"
    case Biography => "biography"
    case Other => "other"
  }

  /** The enum validator: a string is admitted exactly when it names a category. */
  function ParseCategory(s: string): (r: Option<Category>)
    ensures r.Some? ==> CategoryName(r.value) == s
    ensures r.None? ==> forall c :: CategoryName(c) != s
  {
    if s == "fiction" then Some(Fiction)
    else if s == "non-fiction" then Some(NonFiction)
    else if s == "poetry" then Some(Poetry)
    else if s == "biography" then Some(Biography)
    else if s == "other" then Some(Other)
    else None
  }

  const QuoteMaxLength: nat := 500
  const BookTitleMaxLength: nat := 200
  const AuthorMaxLength: nat := 100
  const DefaultBgColor: string := "#4F46E5"
  const DefaultCategory: Category := Fiction

  /**
   * A stored quote. `createdAt` and `updatedAt` are the store-managed
   * timestamps, modelled as abstract ordered integers.
   */
  datatype Quote = Quote(
    id: QuoteId,
    quote: string,
    bookTitle: string,
    author: string,
    bgColor: string,
    category: Category,
    tags: seq<string>,
    likes: int,
    views: int,
    isActive: bool,
    createdAt: int,
    updatedAt: int)

  /**
   * A request body as the schema sees it: every declared path may be absent.
   * Paths outside the schema are discarded by Mongoose. The paths Mongoose
   * adds itself (`_id`, and `createdAt`/`updatedAt` from `timestamps`) are
   * not part of this record: the store assigns the id and the write time.
   */
  datatype QuoteInput = QuoteInput(
    quote: Option<string>,
    bookTitle: Option<string>,
    author: Option<string>,
    bgColor: Option<string>,
    category: Option<string>,
    tags: Option<seq<string>>,
    likes: Option<int>,
    views: Option<int>,
    isActive: Option<bool>)

  datatype Field = QuoteField | BookTitleField | AuthorField

  datatype Violation = Required(field: Field) | TooLong(field: Field, max: nat) | NotInEnum(value: string)

  /** The position of a violation's path in the schema: quote, bookTitle, author, category. */
  function PathOf(v: Violation): nat {
    match v
    case Required(f) => FieldIndex(f)
    case TooLong(f, _) => FieldIndex(f)
    case NotInEnum(_) => 3
  }

  function FieldIndex(f: Field): nat {
    match f
    case QuoteField => 0
    case BookTitleField => 1
    case AuthorField => 2
  }

  /** A string path with `trim: true`, `required` and `maxlength: max` is satisfied by `s`. */
  predicate TextOk(s: string, max: nat) {
    1 <= |Trim(s)| <= max
  }

  /** A stored text value: already trimmed, non-empty, within its bound. */
  predicate StoredText(s: string, max: nat) {
    Trimmed(s) && 1 <= |s| <= max
  }

  /** The schema's constraints on a stored document. */
  predicate WellFormed(q: Quote) {
    && StoredText(q.quote, QuoteMaxLength)
    && StoredText(q.bookTitle, BookTitleMaxLength)
    && StoredText(q.author, AuthorMaxLength)
    && forall i :: 0 <= i < |q.tags| ==> Trimmed(q.tags[i])
  }

  /**
   * The violations of one trimmed, required, length-bounded path. An absent
   * path is a violation only on create (`onCreate`): an update validates the
   * paths it sets and no others.
   */
  function TextViolations(f: Field, v: Option<string>, max: nat, onCreate: bool): (r: seq<Violation>)
    ensures OnPath(r, FieldIndex(f))
  {
    match v
    case None => if onCreate then [Required(f)] else []
    case Some(s) =>
      var t := Trim(s);
      if t == [] then [Required(f)] else if |t| > max then [TooLong(f, max)] else []
  }

  function CategoryViolations(v: Option<string>): (r: seq<Violation>)
    ensures OnPath(r, 3)
  {
    match v
    case None => []
    case Some(s) => if ParseCategory(s).Some? then [] else [NotInEnum(s)]
  }

  /** Every schema violation of a body, in schema path order. */
  function Violations(input: QuoteInput, onCreate: bool): (r: seq<Violation>)
    ensures |r| <= 4
    ensures PathOrdered(r)
    ensures onCreate && (input.quote.None? || input.bookTitle.None? || input.author.None?) ==> r != []
  {
    var a := TextViolations(QuoteField, input.quote, QuoteMaxLength, onCreate);
    var b := TextViolations(BookTitleField, input.bookTitle, BookTitleMaxLength, onCreate);
    var c := TextViolations(AuthorField, input.author, AuthorMaxLength, onCreate);
    var d := CategoryViolations(input.category);
    ExtendPaths([], a, 0);
    ExtendPaths(a, b, 1);
    ExtendPaths(a + b, c, 2);
    ExtendPaths(a + b + c, d, 3);
    a + b + c + d
  }

  /** At most one violation, and it is on path `k`. */
  predicate OnPath(r: seq<Violation>, k: nat) {
    |r| <= 1 && forall i :: 0 <= i < |r| ==> PathOf(r[i]) == k
  }

  /** The violations come in strictly increasing path order, so at most one per path. */
  predicate PathOrdered(r: seq<Violation>) {
    forall i, j :: 0 <= i < j < |r| ==> PathOf(r[i]) < PathOf(r[j])
  }

  predicate PathsBelow(r: seq<Violation>, k: nat) {
    forall i :: 0 <= i < |r| ==> PathOf(r[i]) < k
  }

  /** Appending the violations of the next path keeps the order. */
  lemma ExtendPaths(x: seq<Violation>, y: seq<Violation>, k: nat)
    requires PathOrdered(x) && PathsBelow(x, k) && OnPath(y, k)
    ensures PathOrdered(x + y) && PathsBelow(x + y, k + 1) && |x + y| <= |x| + 1
  {
  }

  function TrimAll(ts: seq<string>): seq<string> {
    seq(|ts|, i requires 0 <= i < |ts| => Trim(ts[i]))
  }

  function TrimmedOr(v: Option<string>, current: string): string {
    match v
    case Some(s) => Trim(s)
    case None => current
  }

  function CategoryOr(v: Option<string>, current: Category): Category {
    match v
    case Some(s) => ParseCategory(s).GetOr(current)
    case None => current
  }

  /** The body's paths written over `base`, each setter applied; `updatedAt` becomes `now`. */
  function Apply(base: Quote, input: QuoteInput, now: int): (r: Quote)
    ensures r.id == base.id && r.createdAt == base.createdAt && r.updatedAt == now
    ensures input.likes.None? && input.views.None? ==> r.likes == base.likes && r.views == base.views
  {
    base.(
      quote := TrimmedOr(input.quote, base.quote),
      bookTitle := TrimmedOr(input.bookTitle, base.bookTitle),
      author := TrimmedOr(input.author, base.author),
      bgColor := input.bgColor.GetOr(base.bgColor),
      category := CategoryOr(input.category, base.category),
      tags := if input.tags.Some? then TrimAll(input.tags.value) else base.tags,
      likes := input.likes.GetOr(base.likes),
      views := input.views.GetOr(base.views),
      isActive := input.isActive.GetOr(base.isActive),
      updatedAt := now)
  }

  /** A record holding only the schema defaults. */
  function Defaults(id: QuoteId, now: int): Quote {
    Quote(id, "", "", "", DefaultBgColor, DefaultCategory, [], 0, 0, true, now, now)
  }

  lemma TextViolationsEmpty(f: Field, v: Option<string>, max: nat, onCreate: bool)
    ensures TextViolations(f, v, max, onCreate) == [] <==>
      (if v.Some? then TextOk(v.value, max) else !onCreate)
  {
  }

  lemma ViolationsEmpty(input: QuoteInput, onCreate: bool)
    ensures Violations(input, onCreate) == [] <==>
      && (if input.quote.Some? then TextOk(input.quote.value, QuoteMaxLength) else !onCreate)
      && (if input.bookTitle.Some? then TextOk(input.bookTitle.value, BookTitleMaxLength) else !onCreate)
      && (if input.author.Some? then TextOk(input.author.value, AuthorMaxLength) else !onCreate)
      && (input.category.Some? ==> ParseCategory(input.category.value).Some?)
  {
    TextViolationsEmpty(QuoteField, input.quote, QuoteMaxLength, onCreate);
    TextViolationsEmpty(BookTitleField, input.bookTitle, BookTitleMaxLength, onCreate);
    TextViolationsEmpty(AuthorField, input.author, AuthorMaxLength, onCreate);
  }

  lemma TrimmedIsStored(s: string, max: nat)
    requires TextOk(s, max)
    ensures StoredText(Trim(s), max)
  {
  }

  lemma TrimAllTrimmed(ts: seq<string>)
    ensures forall i :: 0 <= i < |TrimAll(ts)| ==> Trimmed(TrimAll(ts)[i])
  {
  }

  lemma AppliedWellFormed(q: Quote, input: QuoteInput, now: int)
    requires Violations(input, false) == []
    ensures WellFormed(q) ==> WellFormed(Apply(q, input, now))
  {
    ViolationsEmpty(input, false);
    if input.quote.Some? { TrimmedIsStored(input.quote.value, QuoteMaxLength); }
    if input.bookTitle.Some? { TrimmedIsStored(input.bookTitle.value, BookTitleMaxLength); }
    if input.author.Some? { TrimmedIsStored(input.author.value, AuthorMaxLength); }
    if input.tags.Some? { TrimAllTrimmed(input.tags.value); }
  }

  /**
   * `Quote.create(body)`: the document is built from the defaults and the
   * body, or the create fails listing every violation.
   */
  function NewQuote(id: QuoteId, input: QuoteInput, now: int): (r: Result<Quote, seq<Violation>>)
    ensures r.Ok? <==> Violations(input, true) == []
    ensures r.Err? ==> r.error == Violations(input, true)
    ensures r.Ok? ==> WellFormed(r.value) && r.value.id == id
  {
    ViolationsEmpty(input, true);
    var vs := Violations(input, true);
    if vs != [] then Err(vs)
    else
      var q := Apply(Defaults(id, now), input, now);
      TrimmedIsStored(input.quote.value, QuoteMaxLength);
      TrimmedIsStored(input.bookTitle.value, BookTitleMaxLength);
      TrimmedIsStored(input.author.value, AuthorMaxLength);
      TrimAllTrimmed(input.tags.GetOr([]));
      Ok(q)
  }

  /**
   * A create succeeds exactly when the three text paths are present and
   * within their bounds once trimmed, and the category, if given, is one of
   * the enumeration; a failing create reports at least one violation.
   */
  lemma NewQuoteAccepts(id: QuoteId, input: QuoteInput, now: int)
    ensures var r := NewQuote(id, input, now);
      && (r.Ok? <==>
           && input.quote.Some? && TextOk(input.quote.value, QuoteMaxLength)
           && input.bookTitle.Some? && TextOk(input.bookTitle.value, BookTitleMaxLength)
           && input.author.Some? && TextOk(input.author.value, AuthorMaxLength)
           && (input.category.Some? ==> ParseCategory(input.category.value).Some?))
      && (r.Err? ==> r.error != [])
  {
    ViolationsEmpty(input, true);
  }

  /**
   * What a successful create stores: both timestamps are the creation time,
   * text paths are the trimmed body values, and every path the body leaves
   * out takes its schema default.
   */
  lemma NewQuoteFields(id: QuoteId, input: QuoteInput, now: int)
    requires NewQuote(id, input, now).Ok?
    ensures var q := NewQuote(id, input, now).value;
      && q.createdAt == now && q.updatedAt == now
      && q.quote == Trim(input.quote.value)
      && q.bookTitle == Trim(input.bookTitle.value)
      && q.author == Trim(input.author.value)
      && q.bgColor == input.bgColor.GetOr(DefaultBgColor)
      && (if input.category.Some? then CategoryName(q.category) == input.category.value else q.category == DefaultCategory)
      && q.tags == (if input.tags.Some? then TrimAll(input.tags.value) else [])
      && q.likes == input.likes.GetOr(0)
      && q.views == input.views.GetOr(0)
      && q.isActive == input.isActive.GetOr(true)
  {
    ViolationsEmpty(input, true);
    assert input.quote.Some? && input.bookTitle.Some? && input.author.Some?;
    var q := Apply(Defaults(id, now), input, now);
    assert NewQuote(id, input, now) == Ok(q);
    if input.category.Some? {
      assert ParseCategory(input.category.value).Some?;
    }
  }

  /**
   * `findByIdAndUpdate(id, body, {runValidators: true})` on an existing
   * document: a partial write of exactly the paths the body carries,
   * counters included, validated path by path.
   */
  function UpdatedQuote(q: Quote, input: QuoteInput, now: int): (r: Result<Quote, seq<Violation>>)
    ensures r.Ok? <==> Violations(input, false) == []
    ensures r.Err? ==> r.error == Violations(input, false)
    ensures WellFormed(q) && r.Ok? ==> WellFormed(r.value)
    ensures r.Ok? ==> r.value.id == q.id
  {
    ViolationsEmpty(input, false);
    var vs := Violations(input, false);
    if vs != [] then Err(vs)
    else
      AppliedWellFormed(q, input, now);
      Ok(Apply(q, input, now))
  }

  /**
   * An update succeeds exactly when every text path the body carries is
   * within its bounds once trimmed and the category, if given, is one of the
   * enumeration; absent paths are not required.
   */
  lemma UpdatedQuoteAccepts(q: Quote, input: QuoteInput, now: int)
    ensures var r := UpdatedQuote(q, input, now);
      && (r.Ok? <==>
           && (input.quote.Some? ==> TextOk(input.quote.value, QuoteMaxLength))
           && (input.bookTitle.Some? ==> TextOk(input.bookTitle.value, BookTitleMaxLength))
           && (input.author.Some? ==> TextOk(input.author.value, AuthorMaxLength))
           && (input.category.Some? ==> ParseCategory(input.category.value).Some?))
      && (r.Err? ==> r.error != [])
  {
    ViolationsEmpty(input, false);
  }

  /**
   * What a successful update stores: the paths the body carries (trimmed,
   * for text), the old values elsewhere, the creation time kept and the
   * update time stamped.
   */
  lemma UpdatedQuoteFields(q: Quote, input: QuoteInput, now: int)
    requires UpdatedQuote(q, input, now).Ok?
    ensures var u := UpdatedQuote(q, input, now).value;
      && u.createdAt == q.createdAt && u.updatedAt == now
      && u.quote == (if input.quote.Some? then Trim(input.quote.value) else q.quote)
      && u.bookTitle == (if input.bookTitle.Some? then Trim(input.bookTitle.value) else q.bookTitle)
      && u.author == (if input.author.Some? then Trim(input.author.value) else q.author)
      && u.bgColor == input.bgColor.GetOr(q.bgColor)
      && (if input.category.Some? then CategoryName(u.category) == input.category.value else u.category == q.category)
      && u.tags == (if input.tags.Some? then TrimAll(input.tags.value) else q.tags)
      && u.likes == input.likes.GetOr(q.likes)
      && u.views == input.views.GetOr(q.views)
      && u.isActive == input.isActive.GetOr(q.isActive)
  {
    ViolationsEmpty(input, false);
    assert UpdatedQuote(q, input, now).value == Apply(q, input, now);
  }

  /** An empty body changes nothing but the update time. */
  lemma EmptyUpdateTouchesOnlyTimestamp(q: Quote, now: int)
    ensures UpdatedQuote(q, QuoteInput(None, None, None, None, None, None, None, None, None), now) == Ok(q.(updatedAt := now))
  {
  }

  /** The `popularityScore` virtual: computed on read, never a stored path. */
  function PopularityScore(q: Quote): (r: int)
    ensures q.likes >= 0 && q.views >= 0 ==> r >= q.views && r >= 2 * q.likes
  {
    q.likes * 2 + q.views
  }

  /** A like is worth two views: changing the counters moves the score by 2·Δlikes + Δviews. */
  lemma PopularityTracksCounters(q: Quote, dLikes: int, dViews: int)
    ensures PopularityScore(q.(likes := q.likes + dLikes, views := q.views + dViews))
      == PopularityScore(q) + 2 * dLikes + dViews
  {
  }

  /** A freshly created quote whose body sets no counters scores 0. */
  lemma NewQuoteScoresZero(id: QuoteId, input: QuoteInput, now: int)
    requires NewQuote(id, input, now).Ok?
    requires input.likes.None? && input.views.None?
    ensures PopularityScore(NewQuote(id, input, now).value) == 0
  {
    NewQuoteFields(id, input, now);
  }

  lemma CategoryRoundTrip(c: Category)
    ensures ParseCategory(CategoryName(c)) == Some(c)
  {
  }
}
