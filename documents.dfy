/**
 * The records of the document store and the predicate that decides whether a
 * document matches a search request.
 */
module Documents {
  import opened Wrappers
  import opened Text

  /** `java.time.Instant`, as a point on an integer time line (seconds). */
  type Instant = int

  datatype Author = Author(id: string, name: string)

  /** Every field is nullable in the source; `id` is filled in by the store. */
  datatype Document = Document(
    id: Option<string>,
    title: Option<string>,
    content: Option<string>,
    author: Option<Author>,
    created: Option<Instant>)

  /** Each criterion may be null; a null or empty list imposes no constraint. */
  datatype SearchRequest = SearchRequest(
    titlePrefixes: Option<seq<string>>,
    containsContents: Option<seq<string>>,
    authorIds: Option<seq<string>>,
    createdFrom: Option<Instant>,
    createdTo: Option<Instant>)

  /** `SearchRequest.builder().build()`: every criterion null. */
  function NoCriteria(): SearchRequest {
    SearchRequest(None, None, None, None, None)
  }

  /** A list criterion constrains the search only when it is non-null and non-empty. */
  predicate Active<T>(criterion: Option<seq<T>>) {
    criterion.Some? && |criterion.value| > 0
  }

  // ---------------------------------------------------------------------------
  // What each criterion means, stated declaratively.

  ghost predicate TitleCriterion(doc: Document, request: SearchRequest) {
    Active(request.titlePrefixes) ==>
      doc.title.Some? && exists p :: p in request.titlePrefixes.value && p <= doc.title.value
  }

  ghost predicate ContentCriterion(doc: Document, request: SearchRequest) {
    Active(request.containsContents) ==>
      doc.content.Some? &&
      exists sub :: sub in request.containsContents.value && Contains(doc.content.value, sub)
  }

  ghost predicate AuthorCriterion(doc: Document, request: SearchRequest) {
    Active(request.authorIds) ==>
      doc.author.Some? && exists i :: 0 <= i < |request.authorIds.value| && request.authorIds.value[i] == doc.author.value.id
  }

  /** Inclusive lower bound: `created` is present and not before `createdFrom`. */
  ghost predicate CreatedFromCriterion(doc: Document, request: SearchRequest) {
    request.createdFrom.Some? ==>
      doc.created.Some? && request.createdFrom.value <= doc.created.value
  }

  /** Inclusive upper bound: `created` is present and not after `createdTo`. */
  ghost predicate CreatedToCriterion(doc: Document, request: SearchRequest) {
    request.createdTo.Some? ==>
      doc.created.Some? && doc.created.value <= request.createdTo.value
  }

  /** The conjunction of every criterion of the request. */
  ghost predicate Satisfies(doc: Document, request: SearchRequest) {
    && TitleCriterion(doc, request)
    && ContentCriterion(doc, request)
    && AuthorCriterion(doc, request)
    && CreatedFromCriterion(doc, request)
    && CreatedToCriterion(doc, request)
  }

  // ---------------------------------------------------------------------------
  // The predicate as the store evaluates it.

  /** `prefixes.stream().anyMatch(prefix -> title.startsWith(prefix))` */
  function TitleMatches(title: string, prefixes: seq<string>): (r: bool)
    ensures r <==> exists p :: p in prefixes && p <= title
  {
    AnyMatch(prefixes, (prefix: string) => prefix <= title)
  }

  /** `contents.stream().anyMatch(c -> content != null && content.contains(c))` */
  function ContentMatches(content: Option<string>, contents: seq<string>): (r: bool)
    ensures r <==> content.Some? && exists c :: c in contents && Contains(content.value, c)
  {
    AnyMatch(contents, (c: string) => content.Some? && Contains(content.value, c))
  }

  /** `author != null && authorIds.contains(author.getId())` */
  function AuthorMatches(author: Option<Author>, authorIds: seq<string>): bool {
    author.Some? && author.value.id in authorIds
  }

  /**
   * `matchesSearchRequest`: the criteria are tried in order and the first one
   * that fails rejects the document. A missing title fails an active prefix
   * criterion, and the two `created` bounds are an inclusive range; the source
   * dereferences null in the first case and inverts the second (see
   * `MatchesSearchRequestAsWritten`).
   */
  function MatchesSearchRequest(doc: Document, request: SearchRequest): (r: bool)
    ensures r <==> Satisfies(doc, request)
  {
    if Active(request.titlePrefixes)
      && !(doc.title.Some? && TitleMatches(doc.title.value, request.titlePrefixes.value)) then
      false
    else if Active(request.containsContents)
      && !ContentMatches(doc.content, request.containsContents.value) then
      false
    else if Active(request.authorIds)
      && !AuthorMatches(doc.author, request.authorIds.value) then
      false
    else if request.createdFrom.Some?
      && (doc.created.None? || doc.created.value < request.createdFrom.value) then
      false
    else if request.createdTo.Some?
      && (doc.created.None? || doc.created.value > request.createdTo.value) then
      false
    else
      true
  }

  /**
   * `matchesSearchRequest` exactly as the source has it: a null title with an
   * active prefix criterion throws, and each `created` bound reads
   * `created != null || created.isBefore(bound)` (resp. `isAfter`), which
   * rejects every document with a `created` value and throws for the others.
   */
  function MatchesSearchRequestAsWritten(doc: Document, request: SearchRequest): (r: Outcome<bool>)
    ensures r == Normal(true) ==> MatchesSearchRequest(doc, request)
    ensures request.createdFrom.Some? || request.createdTo.Some? ==> r != Normal(true)
  {
    if Active(request.titlePrefixes) && doc.title.None? then
      NullPointer
    else if Active(request.titlePrefixes)
      && !TitleMatches(doc.title.value, request.titlePrefixes.value) then
      Normal(false)
    else if Active(request.containsContents)
      && !ContentMatches(doc.content, request.containsContents.value) then
      Normal(false)
    else if Active(request.authorIds)
      && !AuthorMatches(doc.author, request.authorIds.value) then
      Normal(false)
    else if request.createdFrom.Some? then
      if doc.created.Some? then Normal(false) else NullPointer
    else if request.createdTo.Some? then
      if doc.created.Some? then Normal(false) else NullPointer
    else
      Normal(true)
  }

  // ---------------------------------------------------------------------------
  // Properties of the predicate.

  /** Null criteria and empty lists impose nothing: such a request matches every document. */
  lemma AbsentCriteriaMatchEverything(doc: Document, request: SearchRequest)
    requires !Active(request.titlePrefixes) && !Active(request.containsContents)
    requires !Active(request.authorIds)
    requires request.createdFrom.None? && request.createdTo.None?
    ensures MatchesSearchRequest(doc, request)
  {
  }

  function OnlyTitle(r: SearchRequest): SearchRequest { NoCriteria().(titlePrefixes := r.titlePrefixes) }
  function OnlyContent(r: SearchRequest): SearchRequest { NoCriteria().(containsContents := r.containsContents) }
  function OnlyAuthor(r: SearchRequest): SearchRequest { NoCriteria().(authorIds := r.authorIds) }
  function OnlyFrom(r: SearchRequest): SearchRequest { NoCriteria().(createdFrom := r.createdFrom) }
  function OnlyTo(r: SearchRequest): SearchRequest { NoCriteria().(createdTo := r.createdTo) }

  /**
   * Conjunction: a document matches a request exactly when it matches each of
   * the single-criterion requests the request is made of.
   */
  lemma MatchesIsConjunction(doc: Document, request: SearchRequest)
    ensures MatchesSearchRequest(doc, request) <==>
      && MatchesSearchRequest(doc, OnlyTitle(request))
      && MatchesSearchRequest(doc, OnlyContent(request))
      && MatchesSearchRequest(doc, OnlyAuthor(request))
      && MatchesSearchRequest(doc, OnlyFrom(request))
      && MatchesSearchRequest(doc, OnlyTo(request))
  {
  }

  /**
   * Away from the two defects (a missing title under a prefix criterion, and
   * the `created` bounds) the source and the corrected predicate agree.
   */
  lemma AsWrittenAgreesAwayFromDefects(doc: Document, request: SearchRequest)
    requires Active(request.titlePrefixes) ==> doc.title.Some?
    requires request.createdFrom.None? && request.createdTo.None?
    ensures MatchesSearchRequestAsWritten(doc, request) == Normal(MatchesSearchRequest(doc, request))
  {
  }

  /**
   * The range check as written: a document created inside [from, to] is
   * rejected by the source and accepted by the corrected predicate.
   */
  lemma RangeCheckCounterexample(now: Instant)
    ensures var doc := Document(Some("d"), Some("Pine Tree Guide"), None, None, Some(now - 3600));
            var request := NoCriteria().(createdFrom := Some(now - 5000), createdTo := Some(now + 1000));
            && MatchesSearchRequestAsWritten(doc, request) == Normal(false)
            && MatchesSearchRequest(doc, request)
  {
  }

  /** A document without a title under a prefix criterion: the source throws, the model rejects it. */
  lemma MissingTitleCounterexample()
    ensures var doc := Document(Some("d"), None, None, None, None);
            var request := NoCriteria().(titlePrefixes := Some(["Oak"]));
            && MatchesSearchRequestAsWritten(doc, request) == NullPointer
            && !MatchesSearchRequest(doc, request)
  {
  }
}
