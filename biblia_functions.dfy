/**
 * `BibliaFunctions` of src/utils/biblia_functions.py, whose earlier copy
 * utils/biblia_functions.py has the same `carregar_biblia` and
 * `busca_versiculo` (it differs only in a printed line and lacks the other
 * two methods): a loader that fills a named collection only when the name is
 * absent, a delete that forgets the bound collection, a verse search, and a
 * lookup of a chapter by book name and chapter number.
 */
module BibliaFunctions {
  import opened Wrappers
  import opened Text
  import opened Normalizer
  import opened Corpus
  import opened VectorStore
  import opened VerseIndex
  import opened Tools

  const BATCH_SIZE: nat := 5000

  /** Every verse with a testament-tagged id: antigoTestamento's, then novoTestamento's; a missing testament adds none. */
  function TaggedRecords(bible: Bible): seq<Record> {
    BooksRecords(Tagged(OLD_TESTAMENT_TAG), BooksOf(bible.antigoTestamento))
    + BooksRecords(Tagged(NEW_TESTAMENT_TAG), BooksOf(bible.novoTestamento))
  }

  /** An Old Testament id never equals a New Testament id: they start with different tags. */
  lemma TestamentIdsDiffer(b1: Book, c1: Chapter, v1: Verse, b2: Book, c2: Chapter, v2: Verse)
    ensures VerseRecord(Tagged(OLD_TESTAMENT_TAG), b1, c1, v1).id != VerseRecord(Tagged(NEW_TESTAMENT_TAG), b2, c2, v2).id
  {
    assert VerseRecord(Tagged(OLD_TESTAMENT_TAG), b1, c1, v1).id[0] == 'A';
    assert VerseRecord(Tagged(NEW_TESTAMENT_TAG), b2, c2, v2).id[0] == 'N';
  }

  /**
   * When no two verses of one testament share book name, chapter and verse,
   * the tagged records have distinct ids: within a testament the id encodes
   * the reference, and the two tags keep the testaments apart.
   */
  lemma TaggedIdsDistinct(bible: Bible)
    requires DistinctReferences(BooksOf(bible.antigoTestamento))
    requires DistinctReferences(BooksOf(bible.novoTestamento))
    ensures DistinctIds(TaggedRecords(bible))
  {
    var ot, nt := BooksOf(bible.antigoTestamento), BooksOf(bible.novoTestamento);
    var a, b := BooksRecords(Tagged(OLD_TESTAMENT_TAG), ot), BooksRecords(Tagged(NEW_TESTAMENT_TAG), nt);
    DistinctReferenceIds(Tagged(OLD_TESTAMENT_TAG), ot);
    DistinctReferenceIds(Tagged(NEW_TESTAMENT_TAG), nt);
    BooksKeysAligned(Tagged(OLD_TESTAMENT_TAG), ot);
    BooksKeysAligned(Tagged(NEW_TESTAMENT_TAG), nt);
    forall m, k | 0 <= m < |a| && 0 <= k < |b| ensures a[m].id != b[k].id {
      assert a[m].id[0] == 'A';
      assert b[k].id[0] == 'N';
    }
    DistinctJoin(a, b);
  }

  /**
   * `carregar_biblia` on the store: nothing happens when the name exists;
   * otherwise the collection is created with the default (L2) distance and
   * the tagged verse records are added in consecutive slices of 5000,
   * stopping at the first failed insert.
   */
  function LoadOnce(s: Store, name: string, bible: Bible): Run {
    if name in s then Run(s, None)
    else AddBatches(s[name := Collection(L2, [])], name, Chunks(TaggedRecords(bible), BATCH_SIZE), false)
  }

  /** With distinct ids, a first load leaves the new collection holding exactly the tagged verses, in order. */
  lemma LoadOnceLoads(s: Store, name: string, bible: Bible)
    requires name !in s
    requires DistinctIds(TaggedRecords(bible))
    ensures LoadOnce(s, name, bible) == Run(s[name := Collection(L2, TaggedRecords(bible))], None)
  {
    AddChunksToEmpty(s, name, L2, TaggedRecords(bible), BATCH_SIZE, false);
  }

  /**
   * The name is committed before any insert: after any load, even one that
   * failed half-way, the name exists, so every later load does nothing and
   * other collections are untouched.
   */
  lemma LoadOnceCommitsName(s: Store, name: string, bible: Bible)
    ensures var run := LoadOnce(s, name, bible);
            name in run.store && run.store.Keys == s.Keys + {name}
            && (forall other :: other in s && other != name ==> run.store[other] == s[other])
            && LoadOnce(run.store, name, bible) == Run(run.store, None)
  {
    if name !in s {
      AddBatchesFrame(s[name := Collection(L2, [])], name, Chunks(TaggedRecords(bible), BATCH_SIZE), false);
    }
  }

  // ---------------------------------------------------------------- buscar_por_referencia

  /** The lowered name or the lowered abbreviation (or "" without one) equals the lowered query. */
  predicate LowerMatches(livro: string, book: Book) {
    Lower(livro) == Lower(book.nome) || Lower(livro) == Lower(AbbreviationOrEmpty(book))
  }

  /** Chapter `j` of book `i` answers the query (livro, capitulo). */
  ghost predicate ReferenceHit(books: seq<Book>, livro: string, capitulo: int, i: int, j: int) {
    0 <= i < |books| && 0 <= j < |books[i].capitulos|
    && LowerMatches(livro, books[i]) && books[i].capitulos[j].capitulo == capitulo
  }

  /**
   * `buscar_por_referencia(livro, capitulo)`: the first chapter in scan
   * order whose book matches by `lower()` alone (no accent or space folding)
   * and whose number equals `capitulo` as an integer.
   */
  function BuscarPorReferencia(bible: Bible, livro: string, capitulo: int): (r: ChapterLookup)
    ensures !r.Malformed?
    ensures var books := ScanOrder(bible);
            r.NotFound? <==> forall i, j :: !ReferenceHit(books, livro, capitulo, i, j)
    ensures var books := ScanOrder(bible);
            r.Found? ==>
              exists i, j :: ReferenceHit(books, livro, capitulo, i, j)
                && (forall i', j' :: ReferenceHit(books, livro, capitulo, i', j') ==> NoLater(i, j, i', j'))
                && r == Found(books[i].nome + " " + IntToString(capitulo), books[i].capitulos[j].versiculos)
  {
    var books := ScanOrder(bible);
    var bookOk := (b: Book) => LowerMatches(livro, b);
    var chapterOk := (c: Chapter) => c.capitulo == capitulo;
    assert forall i, j :: IsHit(books, bookOk, chapterOk, i, j) <==> ReferenceHit(books, livro, capitulo, i, j);
    match FirstHit(books, bookOk, chapterOk)
    case None => NotFound
    case Some((i, j)) =>
      assert ReferenceHit(books, livro, capitulo, i, j);
      Found(books[i].nome + " " + IntToString(capitulo), books[i].capitulos[j].versiculos)
  }

  /** The book name is compared without regard to letter case. */
  lemma BuscarPorReferenciaIgnoresCase(bible: Bible, livro: string, capitulo: int)
    ensures BuscarPorReferencia(bible, Lower(livro), capitulo) == BuscarPorReferencia(bible, livro, capitulo)
  {
    LowerProperties(livro);
    var books := ScanOrder(bible);
    assert forall i, j :: ReferenceHit(books, Lower(livro), capitulo, i, j) <==> ReferenceHit(books, livro, capitulo, i, j);
    SameHitsSameAnswer(bible, Lower(livro), livro, capitulo);
  }

  /** Two book queries that accept the same chapters get the same answer. */
  lemma SameHitsSameAnswer(bible: Bible, l1: string, l2: string, capitulo: int)
    requires forall i, j :: ReferenceHit(ScanOrder(bible), l1, capitulo, i, j) <==> ReferenceHit(ScanOrder(bible), l2, capitulo, i, j)
    ensures BuscarPorReferencia(bible, l1, capitulo) == BuscarPorReferencia(bible, l2, capitulo)
  {
    var books := ScanOrder(bible);
    var a, b := BuscarPorReferencia(bible, l1, capitulo), BuscarPorReferencia(bible, l2, capitulo);
    if a.Found? && b.Found? {
      var i1, j1 :| ReferenceHit(books, l1, capitulo, i1, j1)
                    && (forall i', j' :: ReferenceHit(books, l1, capitulo, i', j') ==> NoLater(i1, j1, i', j'))
                    && a == Found(books[i1].nome + " " + IntToString(capitulo), books[i1].capitulos[j1].versiculos);
      var i2, j2 :| ReferenceHit(books, l2, capitulo, i2, j2)
                    && (forall i', j' :: ReferenceHit(books, l2, capitulo, i', j') ==> NoLater(i2, j2, i', j'))
                    && b == Found(books[i2].nome + " " + IntToString(capitulo), books[i2].capitulos[j2].versiculos);
      assert NoLater(i1, j1, i2, j2) && NoLater(i2, j2, i1, j1);
    }
  }

  /**
   * The two structural lookups agree on plain input: when the query's book
   * part and every book name and abbreviation are ASCII without whitespace,
   * asking the JSON tool for "livro:C" gives what `buscar_por_referencia`
   * gives for (livro, C).
   */
  lemma LookupsAgreeOnPlainNames(unidecode: Transliteration, bible: Bible, livro: string, capitulo: int)
    requires IsAscii(livro) && NoSpace(livro) && Lacks(livro, ':')
    requires forall b :: b in ScanOrder(bible) ==>
               IsAscii(b.nome) && NoSpace(b.nome) && IsAscii(AbbreviationOrEmpty(b)) && NoSpace(AbbreviationOrEmpty(b))
    ensures BuscarNaBibliaJson(unidecode, bible, livro + ":" + IntToString(capitulo)) == BuscarPorReferencia(bible, livro, capitulo)
  {
    var number := IntToString(capitulo);
    IntToStringSeparators(capitulo);
    SplitTwo(livro, number, ':');
    assert livro + [':'] + number == livro + ":" + number;
    var books := ScanOrder(bible);
    NormalizePlain(unidecode, livro);
    StripPlain(number);
    forall i, j ensures JsonHit(unidecode, books, livro, number, i, j) <==> ReferenceHit(books, livro, capitulo, i, j) {
      if 0 <= i < |books| && 0 <= j < |books[i].capitulos| {
        assert books[i] in books;
        NormalizePlain(unidecode, books[i].nome);
        NormalizePlain(unidecode, AbbreviationOrEmpty(books[i]));
        if IntToString(books[i].capitulos[j].capitulo) == number {
          IntToStringInjective(books[i].capitulos[j].capitulo, capitulo);
        }
      }
    }
    SameHitsAgree(unidecode, bible, livro, capitulo);
  }

  /** When the JSON tool and `buscar_por_referencia` accept the same chapters, they give the same answer. */
  lemma SameHitsAgree(unidecode: Transliteration, bible: Bible, livro: string, capitulo: int)
    requires forall i, j :: JsonHit(unidecode, ScanOrder(bible), livro, IntToString(capitulo), i, j)
                            <==> ReferenceHit(ScanOrder(bible), livro, capitulo, i, j)
    ensures LookupChapter(unidecode, ScanOrder(bible), livro, IntToString(capitulo)) == BuscarPorReferencia(bible, livro, capitulo)
  {
    var books, number := ScanOrder(bible), IntToString(capitulo);
    var a := LookupChapter(unidecode, books, livro, number);
    var b := BuscarPorReferencia(bible, livro, capitulo);
    if a.Found? && b.Found? {
      var i1, j1 :| JsonHit(unidecode, books, livro, number, i1, j1)
                    && (forall i', j' :: JsonHit(unidecode, books, livro, number, i', j') ==> NoLater(i1, j1, i', j'))
                    && a == Found(books[i1].nome + " " + number, books[i1].capitulos[j1].versiculos);
      var i2, j2 :| ReferenceHit(books, livro, capitulo, i2, j2)
                    && (forall i', j' :: ReferenceHit(books, livro, capitulo, i', j') ==> NoLater(i2, j2, i', j'))
                    && b == Found(books[i2].nome + " " + IntToString(capitulo), books[i2].capitulos[j2].versiculos);
      assert NoLater(i1, j1, i2, j2) && NoLater(i2, j2, i1, j1);
    }
  }

  // ---------------------------------------------------------------- the class

  class BibliaFunctions {
    const client: Client
    const collectionName: string
    var collection: Option<Handle>

    constructor (client: Client, collectionName: string)
      ensures this.client == client && this.collectionName == collectionName && collection == None
    {
      this.client := client;
      this.collectionName := collectionName;
      collection := None;
    }

    /** `carregar_biblia()` over the parsed corpus. */
    method CarregarBiblia(bible: Bible) returns (error: Option<Error>)
      modifies this, client
      ensures collection == Some(Handle(collectionName))
      ensures var run := LoadOnce(old(client.collections), collectionName, bible);
              client.collections == run.store && error == run.error
    {
      var names := client.ListCollectionNames();
      if collectionName in names {
        var got := client.GetCollection(collectionName);
        collection := Some(got.value);
        return None;
      }
      var created := client.CreateCollection(collectionName, L2);
      collection := Some(created.value);
      var docs, ids, metas := CollectVerses(Tagged(OLD_TESTAMENT_TAG), BooksOf(bible.antigoTestamento), [], [], []);
      docs, ids, metas := CollectVerses(Tagged(NEW_TESTAMENT_TAG), BooksOf(bible.novoTestamento), docs, ids, metas);
      assert Zip3([], [], []) == [];
      assert Zip3(docs, ids, metas) == TaggedRecords(bible);
      error := AddSlices(created.value, docs, ids, metas);
    }

    /** The slicing loop of `carregar_biblia`: `add` on `[i, i + 5000)` for i = 0, 5000, ... */
    method AddSlices(h: Handle, docs: seq<string>, ids: seq<string>, metas: seq<Metadata>) returns (error: Option<Error>)
      requires |docs| == |ids| == |metas|
      modifies client
      ensures var run := AddBatches(old(client.collections), h.name, Chunks(Zip3(docs, ids, metas), BATCH_SIZE), false);
              client.collections == run.store && error == run.error
    {
      ghost var rs := Zip3(docs, ids, metas);
      ghost var target := AddBatches(client.collections, h.name, Chunks(rs, BATCH_SIZE), false);
      error := None;
      var i := 0;
      while i < |docs|
        invariant 0 <= i <= |docs|
        invariant AddBatches(client.collections, h.name, Chunks(rs[i..], BATCH_SIZE), false) == target
        invariant error == None
        decreases |docs| - i
      {
        var end := if i + BATCH_SIZE < |docs| then i + BATCH_SIZE else |docs|;
        ChunksStep(rs, BATCH_SIZE, i);
        Zip3Slice(docs, ids, metas, i, end);
        var batch := Zip3(docs[i..end], ids[i..end], metas[i..end]);
        ghost var chunks := Chunks(rs[i..], BATCH_SIZE);
        assert chunks[0] == batch && chunks[1..] == Chunks(rs[end..], BATCH_SIZE);
        var out := client.AddRecords(h, batch);
        if out.Fail? {
          error := Some(out.error);
          return;
        }
        i := end;
      }
      assert rs[i..] == [];
      assert Chunks<Record>([], BATCH_SIZE) == [];
    }

    /** `delete_collection()`: forgets the bound collection on success; failure is only reported. */
    method DeleteCollection() returns (message: string)
      modifies this, client
      ensures client.collections == After(Delete(old(client.collections), collectionName), old(client.collections))
      ensures collection == if collectionName in old(client.collections) then None else old(collection)
      ensures message == if collectionName in old(client.collections) then DeletedMessage(collectionName)
                         else DeleteFailedMessage(collectionName, Describe(CollectionNotFound(collectionName)))
    {
      var r := client.DeleteCollection(collectionName);
      match r
      case Pass =>
        collection := None;
        message := DeletedMessage(collectionName);
      case Fail(e) =>
        message := DeleteFailedMessage(collectionName, Describe(e));
    }

    /** `busca_versiculo(query, n_results)`: the verse search tool's serialisation over this collection. */
    method BuscaVersiculo(query: string, nResults: nat, search: Search) returns (r: Result<string, Error>)
      ensures r == SearchTool(client.collections, collectionName, nResults, search, query, VerseBlock)
    {
      var got := client.GetCollection(collectionName);
      if got.Failure? {
        return Failure(got.error);
      }
      var hits := client.Query(got.value, query, nResults, search);
      var text := SerializeWith(hits.value.documents, hits.value.metadatas, VerseBlock);
      r := if text.Success? then Success(text.value) else Failure(MissingKey(text.error));
    }
  }

  function DeletedMessage(name: string): string {
    "Collection '" + name + "' foi apagada com sucesso."
  }

  function DeleteFailedMessage(name: string, reason: string): string {
    "Erro ao apagar a collection '" + name + "': " + reason
  }
}
