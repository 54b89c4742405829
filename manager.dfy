/** The document store: one map from id to document, updated in place by `Save`. */
module Manager {
  import opened Wrappers
  import opened Documents

  /** The store's invariant: every document is filed under its own id. */
  ghost predicate KeysMatchIds(storage: map<string, Document>) {
    forall k :: k in storage ==> storage[k].id == Some(k)
  }

  /**
   * Stands for `UUID.randomUUID().toString()`: produces an id that is not yet
   * taken, here a string longer than every taken one.
   */
  method FreshId(taken: set<string>) returns (id: string)
    ensures id !in taken && |id| > 0
  {
    var longest: nat := 0;
    var rest := taken;
    while rest != {}
      invariant rest <= taken
      invariant forall k :: k in taken && k !in rest ==> |k| <= longest
      decreases rest
    {
      var k :| k in rest;
      if |k| > longest {
        longest := |k|;
      }
      rest := rest - {k};
    }
    id := seq(longest + 1, _ => 'u');
  }

  /** Under the invariant distinct keys hold distinct documents, so the store has one value per key. */
  lemma {:induction false} OneDocumentPerKey(storage: map<string, Document>)
    requires KeysMatchIds(storage)
    ensures |storage.Values| == |storage|
    decreases |storage|
  {
    if storage != map[] {
      var k :| k in storage;
      var rest := storage - {k};
      assert |rest| == |storage| - 1;
      OneDocumentPerKey(rest);
      assert storage.Values == rest.Values + {storage[k]};
      assert storage[k] !in rest.Values;
    }
  }

  /** Filing each document under its own id makes the key-to-document mapping one-to-one. */
  lemma {:induction false} DocumentsOfKeys(storage: map<string, Document>, keys: set<string>)
    requires KeysMatchIds(storage) && keys <= storage.Keys
    ensures |set k | k in keys :: storage[k]| == |keys|
    decreases |keys|
  {
    if keys != {} {
      var k :| k in keys;
      var rest := keys - {k};
      DocumentsOfKeys(storage, rest);
      assert (set j | j in keys :: storage[j]) == (set j | j in rest :: storage[j]) + {storage[k]};
      assert storage[k] !in (set j | j in rest :: storage[j]);
    }
  }

  class DocumentManager {
    var storage: map<string, Document>

    ghost predicate Valid()
      reads this
    {
      KeysMatchIds(storage)
    }

    constructor ()
      ensures Valid() && storage == map[]
    {
      storage := map[];
    }

    /**
     * Upsert. A document without an id is first given a fresh one, every other
     * field (`created` included) copied unchanged; it is then filed under its
     * id, replacing whatever was there.
     */
    method Save(document: Document) returns (saved: Document)
      requires Valid()
      modifies this
      ensures Valid()
      ensures saved.id.Some?
      ensures document.id.Some? ==> saved == document
      ensures document.id.None? ==> saved.id.value !in old(storage) && |saved.id.value| > 0
      ensures saved.title == document.title && saved.content == document.content
      ensures saved.author == document.author && saved.created == document.created
      ensures storage == old(storage)[saved.id.value := saved]
      ensures |storage| == if saved.id.value in old(storage) then |old(storage)| else |old(storage)| + 1
    {
      saved := document;
      if document.id.None? {
        var newId := FreshId(storage.Keys);
        saved := Document(Some(newId), document.title, document.content, document.author, document.created);
      }
      storage := storage[saved.id.value := saved];
    }

    /** The stored documents that satisfy every active criterion of the request, each once. */
    function Search(request: SearchRequest): (result: set<Document>)
      reads this
      requires Valid()
      ensures forall id :: id in storage ==> (storage[id] in result <==> Satisfies(storage[id], request))
      ensures forall d :: d in result ==> d.id.Some? && d.id.value in storage && storage[d.id.value] == d
      ensures |result| == |set id | id in storage && Satisfies(storage[id], request)|
      ensures |result| <= |storage|
    {
      var result := set d | d in storage.Values && MatchesSearchRequest(d, request);
      var keys := set id | id in storage && MatchesSearchRequest(storage[id], request);
      assert result == set k | k in keys :: storage[k];
      DocumentsOfKeys(storage, keys);
      assert keys == set id | id in storage && Satisfies(storage[id], request);
      assert storage.Keys == keys + (storage.Keys - keys);
      result
    }

    /** The document filed under `id`, or `None` when there is none. */
    function FindById(id: string): (r: Option<Document>)
      reads this
      requires Valid()
      ensures r.Some? <==> id in storage
      ensures r.Some? ==> r.value == storage[id] && r.value.id == Some(id)
    {
      if id in storage then Some(storage[id]) else None
    }

    /** `Optional.of(storage.get(id))` as written: throws on a missing id. */
    function FindByIdAsWritten(id: string): (r: Outcome<Option<Document>>)
      reads this
      requires Valid()
      ensures id in storage ==> r == Normal(FindById(id))
      ensures id !in storage ==> r == NullPointer
    {
      if id in storage then Normal(Some(storage[id])) else NullPointer
    }
  }

  /** With no criteria, search returns the whole store: one document per stored id. */
  lemma SearchWithoutCriteriaReturnsAll(manager: DocumentManager)
    requires manager.Valid()
    ensures manager.Search(NoCriteria()) == manager.storage.Values
    ensures |manager.Search(NoCriteria())| == |manager.storage|
  {
    OneDocumentPerKey(manager.storage);
  }

  /** `findById` with the id `save` returned gives back exactly the saved document. */
  method SaveThenFind(manager: DocumentManager, document: Document) returns (saved: Document, found: Option<Document>)
    requires manager.Valid()
    modifies manager
    ensures manager.Valid()
    ensures saved.id.Some? && found == Some(saved)
    ensures saved.created == document.created
  {
    saved := manager.Save(document);
    found := manager.FindById(saved.id.value);
  }

  /** Saving twice under one id leaves one entry, holding the second save's document. */
  method SaveTwice(manager: DocumentManager, first: Document, second: Document) returns (found: Option<Document>)
    requires manager.Valid()
    requires first.id.Some? && second.id == first.id
    modifies manager
    ensures manager.Valid()
    ensures found == Some(second)
    ensures manager.storage == old(manager.storage)[first.id.value := second]
    ensures |manager.storage| == if first.id.value in old(manager.storage) then |old(manager.storage)| else |old(manager.storage)| + 1
  {
    var _ := manager.Save(first);
    var _ := manager.Save(second);
    found := manager.FindById(first.id.value);
  }
}
