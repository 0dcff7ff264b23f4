/**
 * The shapes the client receives for the quote list, and the normalisation
 * the `useQuotes` hook applies to the response body before any component
 * sees it (client/src/hooks/useQuotes.js).
 */
module ClientData {
  import opened Basics

  /**
   * A quote as the client reads it. The components read only `likes` and
   * `category`, and cope with either being missing.
   */
  datatype ClientQuote = ClientQuote(id: nat, likes: Option<int>, category: Option<string>)

  /**
   * A response body, or the value the hook hands on:
   * - an object whose `data` field is an array (`Some`) or is anything else or missing (`None`), with an optional numeric `total`;
   * - a bare array;
   * - any other value (`null`, `undefined`, a string or a number).
   */
  datatype Payload =
    | Listing(data: Option<seq<ClientQuote>>, total: Option<int>)
    | Array(items: seq<ClientQuote>)
    | Other

  /** `Array.isArray(p.data)`: the value has a `data` field that holds an array. */
  predicate HasDataArray(p: Payload) {
    p.Listing? && p.data.Some?
  }

  /** The hook's `queryFn`: keep a well-shaped body, wrap a bare array, and replace anything else by an empty listing. */
  function Normalise(p: Payload): (r: Payload)
    ensures HasDataArray(r)
  {
    if HasDataArray(p) then p
    else if p.Array? then Listing(Some(p.items), Some(|p.items|))
    else Listing(Some([]), Some(0))
  }

  /**
   * The three cases of the normalisation, by what the response holds:
   * the body unchanged, the array with its length as total, or nothing.
   */
  lemma NormaliseCases(p: Payload)
    ensures HasDataArray(p) ==> Normalise(p) == p
    ensures p.Array? ==> Normalise(p).data == Some(p.items) && Normalise(p).total == Some(|p.items|)
    ensures !HasDataArray(p) && !p.Array? ==> Normalise(p) == Listing(Some([]), Some(0))
  {
  }

  /** The normalisation is idempotent: a normalised body is left as it is. */
  lemma NormaliseIdempotent(p: Payload)
    ensures Normalise(Normalise(p)) == Normalise(p)
  {
  }

  /** The carousel's own fallbacks: `data` when it is an array, else the value itself when it is an array, else none. */
  function CarouselQuotes(p: Payload): seq<ClientQuote> {
    if HasDataArray(p) then p.data.value
    else if p.Array? then p.items
    else []
  }

  /** The dashboard's fallback: `data` when it is an array, else none. */
  function AdminQuotes(p: Payload): seq<ClientQuote> {
    if HasDataArray(p) then p.data.value else []
  }

  /**
   * Behind the hook the two components read the same list, and it is the
   * list the carousel would have found in the raw body: the hook's
   * normalisation makes the carousel's second fallback redundant.
   */
  lemma NormalisedListsAgree(p: Payload)
    ensures CarouselQuotes(Normalise(p)) == AdminQuotes(Normalise(p)) == CarouselQuotes(p)
  {
  }

  /** On a raw bare array the dashboard's single fallback alone would lose the quotes; the hook is what keeps them. */
  lemma RawArrayNeedsHook(items: seq<ClientQuote>)
    requires items != []
    ensures AdminQuotes(Array(items)) == []
    ensures AdminQuotes(Normalise(Array(items))) == items
  {
  }
}
