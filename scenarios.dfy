/**
 * The repository's unit-test fixture and its test cases, as methods whose
 * postconditions are the tests' assertions. `now` stands for `Instant.now()`.
 */
module Scenarios {
  import opened Wrappers
  import opened Text
  import opened Documents
  import opened Manager

  const Author1 := Author("auth1", "John Doe")
  const Author2 := Author("auth2", "Jane Smith")

  const OakTreeFactsContent := "A sturdy tree with broad leaves and strong wood"
  const PineTreeGuideContent := "Evergreen tree with needle-like leaves"
  const OakWoodlandContent := "Forests dominated by oak trees"

  function OakTreeFacts(now: Instant): Document {
    Document(None, Some("Oak Tree Facts"), Some(OakTreeFactsContent), Some(Author1), Some(now - 7200))
  }

  function PineTreeGuide(now: Instant): Document {
    Document(None, Some("Pine Tree Guide"), Some(PineTreeGuideContent), Some(Author2), Some(now - 3600))
  }

  function OakWoodland(now: Instant): Document {
    Document(None, Some("Oak Woodland"), Some(OakWoodlandContent), Some(Author1), Some(now))
  }

  /** A fresh store holding the three fixture documents, each under its generated id. */
  method SetUp(now: Instant) returns (manager: DocumentManager, doc1: Document, doc2: Document, doc3: Document)
    ensures fresh(manager) && manager.Valid()
    ensures doc1.id.Some? && doc1 == OakTreeFacts(now).(id := doc1.id)
    ensures doc2.id.Some? && doc2 == PineTreeGuide(now).(id := doc2.id)
    ensures doc3.id.Some? && doc3 == OakWoodland(now).(id := doc3.id)
    ensures manager.storage.Values == {doc1, doc2, doc3}
    ensures doc1 != doc2 && doc2 != doc3 && doc1 != doc3
  {
    manager := new DocumentManager();
    doc1 := manager.Save(OakTreeFacts(now));
    doc2 := manager.Save(PineTreeGuide(now));
    doc3 := manager.Save(OakWoodland(now));
    assert doc1.id.value in manager.storage && manager.storage[doc1.id.value] == doc1;
    assert doc2.id.value in manager.storage && manager.storage[doc2.id.value] == doc2;
  }

  /** A search over the three-document fixture keeps exactly the documents that satisfy the request. */
  lemma SearchOfThree(manager: DocumentManager, doc1: Document, doc2: Document, doc3: Document,
                      request: SearchRequest)
    requires manager.Valid() && manager.storage.Values == {doc1, doc2, doc3}
    ensures manager.Search(request) ==
      (if Satisfies(doc1, request) then {doc1} else {}) +
      (if Satisfies(doc2, request) then {doc2} else {}) +
      (if Satisfies(doc3, request) then {doc3} else {})
  {
  }

  method SaveDocumentGeneratesId(now: Instant) returns (saved: Document, found: Option<Document>)
    ensures saved.id.Some?
    ensures found == Some(saved)
  {
    var manager, doc1, doc2, doc3 := SetUp(now);
    saved := manager.Save(Document(None, Some("Maple Tree Notes"), Some("Known for vibrant autumn colors"),
      Some(Author1), Some(now)));
    found := manager.FindById(saved.id.value);
  }

  method FindByExistingId(now: Instant) returns (found: Option<Document>)
    ensures found.Some? && found.value.title == Some("Oak Tree Facts")
  {
    var manager, doc1, doc2, doc3 := SetUp(now);
    found := manager.FindById(doc1.id.value);
  }

  /** The looked-up id is one the store has never handed out. */
  method FindByNonExistingId(now: Instant) returns (found: Option<Document>)
    ensures found == None
  {
    var manager, doc1, doc2, doc3 := SetUp(now);
    var missing := FreshId(manager.storage.Keys);
    found := manager.FindById(missing);
  }

  method SearchByTitlePrefix(now: Instant) returns (results: set<Document>)
    ensures |results| == 2
    ensures forall d :: d in results ==> d.title.Some? && "Oak" <= d.title.value
  {
    var manager, doc1, doc2, doc3 := SetUp(now);
    var request := NoCriteria().(titlePrefixes := Some(["Oak"]));
    results := manager.Search(request);
    SearchOfThree(manager, doc1, doc2, doc3, request);
    OakPrefixes(doc1, doc2, doc3, results);
  }

  /** The prefix search keeps the two documents whose titles start with "Oak". */
  lemma OakPrefixes(doc1: Document, doc2: Document, doc3: Document, results: set<Document>)
    requires doc1.title == Some("Oak Tree Facts")
    requires doc2.title == Some("Pine Tree Guide")
    requires doc3.title == Some("Oak Woodland")
    requires doc1 != doc3
    requires var request := NoCriteria().(titlePrefixes := Some(["Oak"]));
      results ==
        (if Satisfies(doc1, request) then {doc1} else {}) +
        (if Satisfies(doc2, request) then {doc2} else {}) +
        (if Satisfies(doc3, request) then {doc3} else {})
    ensures |results| == 2
    ensures forall d :: d in results ==> d.title.Some? && "Oak" <= d.title.value
  {
    assert "Oak" in ["Oak"];
    assert "Oak" <= "Oak Tree Facts" && "Oak" <= "Oak Woodland";
    assert "Pine Tree Guide"[0] != "Oak"[0];
    assert results == {doc1, doc3};
  }

  /** The author search keeps the two documents written by auth1. */
  lemma ByFirstAuthor(doc1: Document, doc2: Document, doc3: Document, results: set<Document>)
    requires doc1.author == Some(Author1) && doc2.author == Some(Author2) && doc3.author == Some(Author1)
    requires doc1 != doc3
    requires var request := NoCriteria().(authorIds := Some(["auth1"]));
      results ==
        (if Satisfies(doc1, request) then {doc1} else {}) +
        (if Satisfies(doc2, request) then {doc2} else {}) +
        (if Satisfies(doc3, request) then {doc3} else {})
    ensures |results| == 2
    ensures forall d :: d in results ==> d.author.Some? && d.author.value.id == "auth1"
  {
    assert ["auth1"][0] == Author1.id;
    assert Author2.id != "auth1";
    assert results == {doc1, doc3};
  }

  /** The range [now - 5000, now + 1000] keeps the documents created an hour ago and now. */
  lemma WithinRange(now: Instant, doc1: Document, doc2: Document, doc3: Document, results: set<Document>)
    requires doc1.created == Some(now - 7200) && doc2.created == Some(now - 3600) && doc3.created == Some(now)
    requires doc2 != doc3
    requires var request := NoCriteria().(createdFrom := Some(now - 5000), createdTo := Some(now + 1000));
      results ==
        (if Satisfies(doc1, request) then {doc1} else {}) +
        (if Satisfies(doc2, request) then {doc2} else {}) +
        (if Satisfies(doc3, request) then {doc3} else {})
    ensures |results| == 2
    ensures forall d :: d in results ==> d.created.Some? && now - 5000 <= d.created.value <= now + 1000
  {
  }

  // The fixture contents split around the words the tests search for, each
  // split a small step of its own.

  lemma OakTreeFactsHalves()
    ensures OakTreeFactsContent == "A sturdy tree with broad " + "leaves and strong wood"
  {
  }

  lemma OakTreeFactsFront()
    ensures "A sturdy tree with broad " == "A sturdy " + "tree" + " with broad "
  {
  }

  lemma OakTreeFactsBack()
    ensures "leaves and strong wood" == "leaves" + " and strong wood"
  {
  }

  lemma PineTreeGuidePieces()
    ensures PineTreeGuideContent == "Evergreen tree with needle-like " + "leaves" + ""
  {
  }

  lemma OakWoodlandPieces()
    ensures OakWoodlandContent == "Forests dominated by oak " + "tree" + "s"
  {
  }

  /** The third fixture content has no 'l', so it cannot contain "leaves". */
  lemma NoLeavesInWoodland()
    ensures !Contains(OakWoodlandContent, "leaves")
  {
    var s := OakWoodlandContent;
    assert forall i :: 0 <= i < |s| ==> s[i] != 'l';
    MissingCharNotSubstring("leaves", s, 'l');
  }

  /** The first two fixture contents contain "leaves". */
  lemma LeavesInFirstTwoContents()
    ensures Contains(OakTreeFactsContent, "leaves") && Contains(PineTreeGuideContent, "leaves")
  {
    OakTreeFactsHalves();
    OakTreeFactsBack();
    OccursBetween("A sturdy tree with broad ", "leaves", " and strong wood");
    assert "A sturdy tree with broad " + ("leaves" + " and strong wood")
        == "A sturdy tree with broad " + "leaves" + " and strong wood";
    PineTreeGuidePieces();
    OccursBetween("Evergreen tree with needle-like ", "leaves", "");
  }

  /** The content search keeps the first two fixture documents, whose contents contain "leaves". */
  lemma LeavesOccurrences(doc1: Document, doc2: Document, doc3: Document, results: set<Document>)
    requires doc1.content.Some? && Contains(doc1.content.value, "leaves")
    requires doc2.content.Some? && Contains(doc2.content.value, "leaves")
    requires doc3.content.Some? && !Contains(doc3.content.value, "leaves")
    requires doc1 != doc2
    requires var request := NoCriteria().(containsContents := Some(["leaves"]));
      results ==
        (if Satisfies(doc1, request) then {doc1} else {}) +
        (if Satisfies(doc2, request) then {doc2} else {}) +
        (if Satisfies(doc3, request) then {doc3} else {})
    ensures |results| == 2
    ensures forall d :: d in results ==> d.content.Some? && Contains(d.content.value, "leaves")
  {
    assert "leaves" in ["leaves"];
    assert results == {doc1, doc2};
  }

  /** Both Oak contents contain "tree". */
  lemma TreeInOakContents()
    ensures Contains(OakTreeFactsContent, "tree") && Contains(OakWoodlandContent, "tree")
  {
    OakTreeFactsHalves();
    OakTreeFactsFront();
    OccursBetween("A sturdy ", "tree", " with broad ");
    SubstringOfExtension("tree", "A sturdy tree with broad ", "leaves and strong wood");
    OakWoodlandPieces();
    OccursBetween("Forests dominated by oak ", "tree", "s");
  }

  /** The combined search keeps the two Oak documents: both by auth1 and both containing "tree". */
  lemma TreeOccurrences(doc1: Document, doc2: Document, doc3: Document, results: set<Document>)
    requires doc1.title == Some("Oak Tree Facts") && doc1.content.Some? && Contains(doc1.content.value, "tree")
    requires doc2.title == Some("Pine Tree Guide")
    requires doc3.title == Some("Oak Woodland") && doc3.content.Some? && Contains(doc3.content.value, "tree")
    requires doc1.author == Some(Author1) && doc3.author == Some(Author1)
    requires doc1 != doc3
    requires var request := SearchRequest(Some(["Oak"]), Some(["tree"]), Some(["auth1"]), None, None);
      results ==
        (if Satisfies(doc1, request) then {doc1} else {}) +
        (if Satisfies(doc2, request) then {doc2} else {}) +
        (if Satisfies(doc3, request) then {doc3} else {})
    ensures |results| == 2
    ensures forall d :: d in results ==>
      && d.title.Some? && "Oak" <= d.title.value
      && d.content.Some? && Contains(d.content.value, "tree")
      && d.author.Some? && d.author.value.id == "auth1"
  {
    assert "Oak" in ["Oak"] && "tree" in ["tree"];
    assert "Oak" <= "Oak Tree Facts" && "Oak" <= "Oak Woodland";
    assert "Pine Tree Guide"[0] != "Oak"[0];
    assert ["auth1"][0] == Author1.id;
    assert results == {doc1, doc3};
  }

  method SearchByContent(now: Instant) returns (results: set<Document>)
    ensures |results| == 2
    ensures forall d :: d in results ==> d.content.Some? && Contains(d.content.value, "leaves")
  {
    var manager, doc1, doc2, doc3 := SetUp(now);
    var request := NoCriteria().(containsContents := Some(["leaves"]));
    results := manager.Search(request);
    SearchOfThree(manager, doc1, doc2, doc3, request);
    LeavesInFirstTwoContents();
    NoLeavesInWoodland();
    LeavesOccurrences(doc1, doc2, doc3, results);
  }

  method SearchByAuthorId(now: Instant) returns (results: set<Document>)
    ensures |results| == 2
    ensures forall d :: d in results ==> d.author.Some? && d.author.value.id == "auth1"
  {
    var manager, doc1, doc2, doc3 := SetUp(now);
    var request := NoCriteria().(authorIds := Some(["auth1"]));
    results := manager.Search(request);
    SearchOfThree(manager, doc1, doc2, doc3, request);
    ByFirstAuthor(doc1, doc2, doc3, results);
  }

  /** `createdFrom = now - 5000`, `createdTo = now + 1000`: the range holds the second and third documents. */
  method SearchByTimeRange(now: Instant) returns (results: set<Document>)
    ensures |results| == 2
    ensures forall d :: d in results ==> d.created.Some? && now - 5000 <= d.created.value <= now + 1000
  {
    var manager, doc1, doc2, doc3 := SetUp(now);
    var request := NoCriteria().(createdFrom := Some(now - 5000), createdTo := Some(now + 1000));
    results := manager.Search(request);
    SearchOfThree(manager, doc1, doc2, doc3, request);
    WithinRange(now, doc1, doc2, doc3, results);
  }

  method SearchWithMultipleCriteria(now: Instant) returns (results: set<Document>)
    ensures |results| == 2
    ensures forall d :: d in results ==>
      && d.title.Some? && "Oak" <= d.title.value
      && d.content.Some? && Contains(d.content.value, "tree")
      && d.author.Some? && d.author.value.id == "auth1"
  {
    var manager, doc1, doc2, doc3 := SetUp(now);
    var request := SearchRequest(Some(["Oak"]), Some(["tree"]), Some(["auth1"]), None, None);
    results := manager.Search(request);
    SearchOfThree(manager, doc1, doc2, doc3, request);
    TreeInOakContents();
    TreeOccurrences(doc1, doc2, doc3, results);
  }

  /** A request with every criterion null returns every stored document. */
  method SearchWithoutCriteria(now: Instant) returns (results: set<Document>)
    ensures |results| == 3
  {
    var manager, doc1, doc2, doc3 := SetUp(now);
    results := manager.Search(NoCriteria());
    SearchWithoutCriteriaReturnsAll(manager);
  }
}
