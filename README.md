# DocumentManager in Dafny

A model of `DocumentManager`, an in-memory document store. The store keeps one
map from document id to document, and offers three operations:

- `save` upserts a document under its id. A document without an id first gets a
  freshly generated one; every other field, `created` included, is copied unchanged.
- `findById` looks up the document stored under an id.
- `search` returns the stored documents that pass every present criterion of a
  `SearchRequest`:
  - any-of title prefixes;
  - any-of content substrings;
  - author-id membership;
  - an inclusive lower and upper bound on `created`.

Modules:

- `Wrappers` (`wrappers.dfy`): `Option`, which stands for a nullable reference.
  `Outcome`, which is either a normal value or a thrown `NullPointerException`.
- `Text` (`text.dfy`): `AnyMatch` (Java's `stream().anyMatch`), `Contains`
  (Java's `String.contains`), and facts about occurrences.
- `Documents` (`documents.dfy`): the `Author`, `Document` and `SearchRequest`
  records, the meaning of each search criterion, and `MatchesSearchRequest`. It
  also holds `MatchesSearchRequestAsWritten`, the predicate with the source's two
  defects kept.
- `Manager` (`manager.dfy`): the class `DocumentManager`, whose `storage: map`
  field is updated in place by `Save`. The class invariant `Valid()` says every
  document is filed under its own id. `Search` and `FindById` are functions that
  read the map.
- `Scenarios` (`scenarios.dfy`): the unit-test fixture (three documents) and each
  test case, as methods whose postconditions are the tests' assertions.

Modelling choices:

- Every Java field that may be null is an `Option`. `Author.id` and `Author.name` are plain strings.
- An `Instant` is an integer, in seconds.
- "starts with" is Dafny's sequence-prefix test `p <= s`.
- "contains" is the existence of an `i` with `sub <= s[i..]`.
- `search` returns a `set<Document>`, because `HashMap` iteration order is not part
  of the contract. `OneDocumentPerKey` shows that under the invariant distinct keys
  hold distinct documents. So the set has exactly as many elements as the Java list;
  it lacks only the order.
- `UUID.randomUUID()` is replaced by `FreshId`. It produces a non-empty string that is
  not yet a key: one character longer than the longest key.

The code departs from its doc-comments and tests in two places: the `created`
range check and `findById` on a missing id. It also throws at line 70 on a document
without a title, a case nothing documents; the model makes such a document fail an
active prefix criterion. All three are listed under "## Findings". In each place the
model has both versions, the code as written and the corrected behaviour, and the
rest of the model uses the corrected one.

## Model

| member | source | states |
|---|---|---|
| Text.AnyMatch | src/main/java/to/innovateiu/test_task/DocumentManager.java:69-70 | `anyMatch` is true exactly when some element of the list satisfies the predicate |
| Documents.TitleMatches | src/main/java/to/innovateiu/test_task/DocumentManager.java:69-70 | a title passes the prefix list exactly when some listed prefix is a prefix of it |
| Documents.ContentMatches | src/main/java/to/innovateiu/test_task/DocumentManager.java:75-76 | content passes exactly when it is present and some listed string occurs in it |
| Text.Contains | src/main/java/to/innovateiu/test_task/DocumentManager.java:76 | `String.contains`: an occurrence needs the searched string to be no longer than the text, and a prefix of the text always occurs in it |
| Documents.MatchesSearchRequest | src/main/java/to/innovateiu/test_task/DocumentManager.java:67-99 | a document is accepted exactly when it satisfies every criterion: a null or empty list imposes nothing; prefix and content lists are any-of; the author must be present with a listed id; each present `created` bound needs `created` present and inside the inclusive bound |
| Documents.MatchesSearchRequestAsWritten | src/main/java/to/innovateiu/test_task/DocumentManager.java:67-99 | the code as written never accepts what the intended predicate rejects; once either `created` bound is set no document is accepted |
| Documents.AbsentCriteriaMatchEverything | src/main/java/to/innovateiu/test_task/DocumentManager.java:68-98 | with every list null or empty and both bounds null, every document matches |
| Documents.MatchesIsConjunction | src/main/java/to/innovateiu/test_task/DocumentManager.java:67-98 | a document matches a request exactly when it matches each single-criterion request the request is made of |
| Documents.AsWrittenAgreesAwayFromDefects | src/main/java/to/innovateiu/test_task/DocumentManager.java:67-85 | with no `created` bound, and a title wherever a prefix list is active, the code as written returns the intended answer |
| Documents.RangeCheckCounterexample | src/main/java/to/innovateiu/test_task/DocumentManager.java:86-96 | for every `now`, a document created at now - 3600 is rejected by the code as written under the range [now - 5000, now + 1000] and accepted by the intended predicate |
| Documents.MissingTitleCounterexample | src/main/java/to/innovateiu/test_task/DocumentManager.java:68-71 | with an active prefix list, a document without a title makes the code as written throw; the intended predicate rejects it |
| Manager.FreshId | src/main/java/to/innovateiu/test_task/DocumentManager.java:31 | the generated id is non-empty and not already a key |
| Manager.OneDocumentPerKey | src/main/java/to/innovateiu/test_task/DocumentManager.java:20 | when every document is filed under its own id, the store holds as many distinct documents as keys |
| Manager.DocumentsOfKeys | src/main/java/to/innovateiu/test_task/DocumentManager.java:41 | when every document is filed under its own id, any set of keys holds as many distinct documents as it has keys |
| Manager.DocumentManager.constructor | src/main/java/to/innovateiu/test_task/DocumentManager.java:20 | a new store is empty and satisfies the invariant |
| Manager.DocumentManager.Save | src/main/java/to/innovateiu/test_task/DocumentManager.java:29-43 | the returned document has an id; a present id is kept and the document stored as given; a missing id is replaced by one that was not a key, with title, content, author and `created` copied unchanged; the new map is the old one with the returned document under its id and nothing else changed; the key count grows by one exactly when the id was new; the invariant is kept |
| Manager.DocumentManager.Search | src/main/java/to/innovateiu/test_task/DocumentManager.java:51-55 | a stored document is in the result exactly when it satisfies the request; every result is the document stored under its own id; the result has exactly as many elements as there are keys whose document satisfies the request, so no more than the store has keys |
| Manager.DocumentManager.FindById | src/main/java/to/innovateiu/test_task/DocumentManager.java:57-65 | the result is present exactly when the id is a key, and then it is the stored document, whose id is the key |
| Manager.DocumentManager.FindByIdAsWritten | src/main/java/to/innovateiu/test_task/DocumentManager.java:63-65 | the code as written agrees with `FindById` on a stored id, and throws on a missing one |
| Manager.SearchWithoutCriteriaReturnsAll | src/main/java/to/innovateiu/test_task/DocumentManager.java:45-55 | a request with every field null returns every stored document, as many as there are keys |
| Manager.SaveThenFind | src/main/java/to/innovateiu/test_task/DocumentManager.java:29-65 | looking up the id that `save` returned yields the saved document, whose `created` is the input's |
| Manager.SaveTwice | src/main/java/to/innovateiu/test_task/DocumentManager.java:22-43 | saving two documents with one id leaves a single entry, holding the second document |
| Scenarios.SetUp | src/test/java/to/innovateiu/test_task/DocumentManagerTest.java:23-50 | the fixture store holds exactly the three saved documents, each with its generated id and its fields as given |
| Scenarios.SaveDocumentGeneratesId | src/test/java/to/innovateiu/test_task/DocumentManagerTest.java:52-62 | saving a document without an id returns one with an id, under which it can then be found |
| Scenarios.FindByExistingId | src/test/java/to/innovateiu/test_task/DocumentManagerTest.java:64-69 | looking up the first document's id finds the document titled "Oak Tree Facts" |
| Scenarios.FindByNonExistingId | src/test/java/to/innovateiu/test_task/DocumentManagerTest.java:71-75 | looking up an id that was never stored returns `None` |
| Scenarios.SearchByTitlePrefix | src/test/java/to/innovateiu/test_task/DocumentManagerTest.java:77-86 | prefix "Oak" returns two documents, each with a title starting with "Oak" |
| Scenarios.SearchByContent | src/test/java/to/innovateiu/test_task/DocumentManagerTest.java:88-97 | content "leaves" returns two documents, each with content containing "leaves" |
| Scenarios.SearchByAuthorId | src/test/java/to/innovateiu/test_task/DocumentManagerTest.java:99-108 | author "auth1" returns two documents, each by "auth1" |
| Scenarios.SearchByTimeRange | src/test/java/to/innovateiu/test_task/DocumentManagerTest.java:110-118 | the range [now - 5000, now + 1000] returns two documents, each created inside it |
| Scenarios.SearchWithMultipleCriteria | src/test/java/to/innovateiu/test_task/DocumentManagerTest.java:120-133 | prefix "Oak", content "tree" and author "auth1" together return two documents, each meeting all three |
| Scenarios.SearchWithoutCriteria | src/main/java/to/innovateiu/test_task/DocumentManager.java:45-55 | on the fixture, a request with every field null returns all three documents |

## Left out

- Manager.FreshId: the id is not a random UUID in the 8-4-4-4-12 hex format. The model keeps only what `save` relies on: the id is new and non-empty. Randomness cannot be expressed, and the "negligible collision" argument cannot be verified.
- Manager.DocumentManager.Save: the model promises the fresh id is not already a key. A real `UUID.randomUUID()` could, with negligible probability, collide and overwrite an entry.
- Scenarios.FindByNonExistingId: looks up an id from `FreshId` instead of the literal "non-existing-id". The model's generated ids are arbitrary, so only an id known to be unused is sure to be missing.
- Scenarios: the test calls `Instant.now()` several times; the model uses one `now` for all of them.
- `HashMap` iteration order, and so the order of `search`'s list: no order is promised. `search` returns a set.
- Aliasing: a Java `Document` is mutable (Lombok `@Data` setters). A caller could change a stored document after `save`. The model's documents are values.
- Lombok builders and Java streams: replaced by datatype constructors, `AnyMatch` and a set comprehension.
- `Instant` arithmetic and precision below a second: timestamps are integers.
- Null arguments: `save(null)` throws at line 30, `search(null)` throws at line 68 once the store holds a document, and `findById(null)` throws at line 64. The model's `Document`, `SearchRequest` and `string` parameters cannot be null. Strings are sequences of Unicode characters, not Java's UTF-16 code units, so `startsWith` and `contains` are compared element by element on that representation.
- Null elements inside a criterion list: `contains(null)` on a content string throws, and an immutable list's `contains(null)` throws too. Criterion lists hold plain strings in the model. A null `Author.id` is not modelled either.
- Concurrency: the source disclaims it and has none.

## Findings

| source | as written | input that shows it | evidently intended | confidence | as-written member | corrected member |
|---|---|---|---|---|---|---|
| src/main/java/to/innovateiu/test_task/DocumentManager.java:87 | the test `created != null` OR `created.isBefore(from)` rejects every document with a `created` value and dereferences null for the rest; line 93 does the same for `createdTo` | the test's range search: for any `now`, a document created at now - 3600 with from = now - 5000, to = now + 1000 is rejected (`RangeCheckCounterexample`) | with a bound set, accept exactly when `created` is present and inside the inclusive bound | high (not executed) | Documents.MatchesSearchRequestAsWritten | Documents.MatchesSearchRequest |
| src/main/java/to/innovateiu/test_task/DocumentManager.java:64 | `Optional.of(storage.get(id))` throws NullPointerException when the id is not a key | `findById("non-existing-id")` on the fixture store | return an empty `Optional` for a missing id | high (not executed) | Manager.DocumentManager.FindByIdAsWritten | Manager.DocumentManager.FindById |
| src/main/java/to/innovateiu/test_task/DocumentManager.java:70 | `doc.getTitle().startsWith(prefix)` throws when a stored document has no title | a document with a null title and `titlePrefixes = ["Oak"]` (`MissingTitleCounterexample`) | nothing documents this case; the model chooses that a missing title fails a non-empty prefix criterion | medium (not executed) | Documents.MatchesSearchRequestAsWritten | Documents.MatchesSearchRequest |
