/**
 * The retrieval tools of src/tools.py: the structural "book:chapter" lookup,
 * the exact dictionary lookup, and the two serialisers of semantic-search
 * results. Each tool reads its data file or opens the persistent store
 * itself; here the parsed corpus, the store's contents and the search are
 * parameters.
 */
module Tools {
  import opened Wrappers
  import opened Text
  import opened Normalizer
  import opened Corpus
  import opened VectorStore

  // ---------------------------------------------------------------- first-match scans

  /** The first position of `s` whose element satisfies `ok`. */
  function FirstIndex<T>(s: seq<T>, ok: T -> bool): (r: Option<nat>)
    ensures r.Some? ==> r.value < |s| && ok(s[r.value]) && forall k :: 0 <= k < r.value ==> !ok(s[k])
    ensures r.None? ==> forall k :: 0 <= k < |s| ==> !ok(s[k])
  {
    if s == [] then None
    else if ok(s[0]) then Some(0)
    else match FirstIndex(s[1..], ok)
      case None => None
      case Some(k) => Some(k + 1)
  }

  /** Chapter `j` of book `i` is one the scan accepts. */
  ghost predicate IsHit(books: seq<Book>, bookOk: Book -> bool, chapterOk: Chapter -> bool, i: int, j: int) {
    0 <= i < |books| && 0 <= j < |books[i].capitulos| && bookOk(books[i]) && chapterOk(books[i].capitulos[j])
  }

  /** (i, j) comes no later than (i', j') in a scan of books, then chapters. */
  predicate NoLater(i: int, j: int, i': int, j': int) {
    i < i' || (i == i' && j <= j')
  }

  /**
   * The nested scan with early return shared by both structural lookups: the
   * first (book, chapter) in scan order whose book is accepted and whose
   * chapter is accepted. A book that is accepted but has no accepted chapter
   * does not stop the scan.
   */
  function FirstHit(books: seq<Book>, bookOk: Book -> bool, chapterOk: Chapter -> bool): (r: Option<(nat, nat)>)
    ensures r.Some? ==> IsHit(books, bookOk, chapterOk, r.value.0, r.value.1)
    ensures r.Some? ==> forall i, j :: IsHit(books, bookOk, chapterOk, i, j) ==> NoLater(r.value.0, r.value.1, i, j)
    ensures r.None? ==> forall i, j :: !IsHit(books, bookOk, chapterOk, i, j)
  {
    if books == [] then None
    else
      var inFirst := if bookOk(books[0]) then FirstIndex(books[0].capitulos, chapterOk) else None;
      if inFirst.Some? then Some((0, inFirst.value))
      else
        var rest := FirstHit(books[1..], bookOk, chapterOk);
        assert forall i, j :: IsHit(books, bookOk, chapterOk, i, j) && i > 0 ==> IsHit(books[1..], bookOk, chapterOk, i - 1, j);
        match rest
        case None => None
        case Some((i, j)) => Some((i + 1, j))
  }

  // ---------------------------------------------------------------- buscar_na_biblia_json

  datatype ChapterLookup =
    | Malformed(message: string)
    | Found(referencia: string, versiculos: seq<Verse>)
    | NotFound

  /** The text of the ValueError raised by `livro, capitulo = arg.split(":")`. */
  function UnpackError(got: nat): string {
    if got < 2 then "not enough values to unpack (expected 2, got " + NatToString(got) + ")"
    else "too many values to unpack (expected 2)"
  }

  /** The normalised name or the normalised abbreviation (or "" without one) equals the key. */
  predicate BookMatches(unidecode: Transliteration, key: string, book: Book) {
    key == Normalize(unidecode, book.nome) || key == Normalize(unidecode, AbbreviationOrEmpty(book))
  }

  /** `str(cap["capitulo"]) == wanted`. */
  predicate ChapterLabelMatches(wanted: string, chapter: Chapter) {
    IntToString(chapter.capitulo) == wanted
  }

  /** Chapter `j` of book `i` answers the query parts `livro` and `capitulo`. */
  ghost predicate JsonHit(unidecode: Transliteration, books: seq<Book>, livro: string, capitulo: string, i: int, j: int) {
    0 <= i < |books| && 0 <= j < |books[i].capitulos|
    && BookMatches(unidecode, Normalize(unidecode, livro), books[i])
    && ChapterLabelMatches(Strip(capitulo), books[i].capitulos[j])
  }

  /**
   * The scan behind `buscar_na_biblia_json` once the query is split: the
   * first chapter in scan order whose book matches the normalised book part
   * and whose number, as text, equals the stripped chapter part; the
   * reference quotes the chapter part as given.
   */
  function LookupChapter(unidecode: Transliteration, books: seq<Book>, livro: string, capitulo: string): (r: ChapterLookup)
    ensures !r.Malformed?
    ensures r.NotFound? <==> forall i, j :: !JsonHit(unidecode, books, livro, capitulo, i, j)
    ensures r.Found? ==>
              exists i, j :: JsonHit(unidecode, books, livro, capitulo, i, j)
                && (forall i', j' :: JsonHit(unidecode, books, livro, capitulo, i', j') ==> NoLater(i, j, i', j'))
                && r == Found(books[i].nome + " " + capitulo, books[i].capitulos[j].versiculos)
  {
    var key, wanted := Normalize(unidecode, livro), Strip(capitulo);
    var bookOk := (b: Book) => BookMatches(unidecode, key, b);
    var chapterOk := (c: Chapter) => ChapterLabelMatches(wanted, c);
    assert forall i, j :: IsHit(books, bookOk, chapterOk, i, j) <==> JsonHit(unidecode, books, livro, capitulo, i, j);
    match FirstHit(books, bookOk, chapterOk)
    case None => NotFound
    case Some((i, j)) =>
      assert JsonHit(unidecode, books, livro, capitulo, i, j);
      Found(books[i].nome + " " + capitulo, books[i].capitulos[j].versiculos)
  }

  /**
   * `buscar_na_biblia_json(arg)`: a query that does not split on ':' into
   * exactly two parts is answered with the unpacking error; otherwise the
   * chapter scan over both testaments answers it.
   */
  function BuscarNaBibliaJson(unidecode: Transliteration, bible: Bible, arg: string): (r: ChapterLookup)
    ensures r.Malformed? <==> Count(arg, ':') != 1
    ensures r.Malformed? ==> StartsWith(r.message, "Erro ao interpretar entrada: ")
    ensures Count(arg, ':') == 1 ==>
              r == LookupChapter(unidecode, ScanOrder(bible), Split(arg, ':')[0], Split(arg, ':')[1])
  {
    var parts := Split(arg, ':');
    if |parts| != 2 then
      var prefix := "Erro ao interpretar entrada: ";
      assert (prefix + UnpackError(|parts|))[..|prefix|] == prefix;
      Malformed(prefix + UnpackError(|parts|))
    else
      LookupChapter(unidecode, ScanOrder(bible), parts[0], parts[1])
  }

  /** Two queries whose book parts have the same key and whose chapter parts agree get the same answer. */
  lemma LookupDependsOnKey(unidecode: Transliteration, bible: Bible, a1: string, a2: string)
    requires Count(a1, ':') == 1 && Count(a2, ':') == 1
    requires Normalize(unidecode, Split(a1, ':')[0]) == Normalize(unidecode, Split(a2, ':')[0])
    requires Split(a1, ':')[1] == Split(a2, ':')[1]
    ensures BuscarNaBibliaJson(unidecode, bible, a1) == BuscarNaBibliaJson(unidecode, bible, a2)
  {
  }

  /**
   * Spelling the book in another letter case, or with whitespace anywhere in
   * it, does not change the answer: `"GÊNESIS:1"`-style variants of ASCII
   * book names, `"1 Rs:2"` and `"1rs:2"`.
   */
  lemma {:induction false} LookupIgnoresCaseAndSpaces(unidecode: Transliteration, bible: Bible,
                                  a: string, spaces: string, b: string, capitulo: string)
    requires IsAscii(a) && IsAscii(b) && Lacks(a, ':') && Lacks(b, ':') && Lacks(capitulo, ':')
    requires forall i :: 0 <= i < |spaces| ==> IsSpace(spaces[i]) && IsAsciiChar(spaces[i])
    ensures BuscarNaBibliaJson(unidecode, bible, Lower(a + b) + ":" + capitulo)
         == BuscarNaBibliaJson(unidecode, bible, a + spaces + b + ":" + capitulo)
  {
    var plain, spaced := a + b, a + spaces + b;
    assert IsAscii(plain) by {
      assert forall i :: 0 <= i < |plain| ==> plain[i] == if i < |a| then a[i] else b[i - |a|];
    }
    assert Lacks(plain, ':') by {
      assert forall i :: 0 <= i < |plain| ==> plain[i] == if i < |a| then a[i] else b[i - |a|];
    }
    assert Lacks(spaced, ':') by {
      assert forall i :: 0 <= i < |spaced| ==> spaced[i] == if i < |a| then a[i] else if i < |a| + |spaces| then spaces[i - |a|] else b[i - |a| - |spaces|];
    }
    var lowered := Lower(plain);
    assert Lacks(lowered, ':') by {
      assert forall i :: 0 <= i < |plain| ==> lowered[i] == LowerChar(plain[i]);
    }
    SplitTwo(lowered, capitulo, ':');
    SplitTwo(spaced, capitulo, ':');
    assert lowered + [':'] + capitulo == lowered + ":" + capitulo;
    assert spaced + [':'] + capitulo == a + spaces + b + ":" + capitulo;
    NormalizeIgnoresCase(unidecode, plain);
    NormalizeIgnoresSpaces(unidecode, a, spaces, b);
    LookupDependsOnKey(unidecode, bible, lowered + ":" + capitulo, a + spaces + b + ":" + capitulo);
  }

  /** A book part made only of whitespace has the key "", which every book without an abbreviation matches. */
  lemma BlankBookPartMatchesUnabbreviated(unidecode: Transliteration, livro: string, book: Book)
    requires IsAscii(livro) && forall i :: 0 <= i < |livro| ==> IsSpace(livro[i])
    requires book.abreviacao.None?
    ensures BookMatches(unidecode, Normalize(unidecode, livro), book)
  {
    NormalizeBlank(unidecode, livro);
    NormalizeBlank(unidecode, "");
  }

  // ---------------------------------------------------------------- buscar_dicionario_easton

  function EastonNotFound(query: string): string {
    "O termo '" + query + "' não foi encontrado no Dicionário de Easton."
  }

  /** Entry `k` has the query's normalised term. */
  predicate TermMatches(unidecode: Transliteration, key: string, entry: DictionaryEntry) {
    Normalize(unidecode, entry.termo) == key
  }

  /** Entry `k` is the first entry whose term normalises to `key`. */
  predicate FirstMatch(unidecode: Transliteration, key: string, dicionario: seq<DictionaryEntry>, k: int) {
    0 <= k < |dicionario| && TermMatches(unidecode, key, dicionario[k])
    && forall m :: 0 <= m < k ==> !TermMatches(unidecode, key, dicionario[m])
  }

  /** At most one entry is the first match. */
  lemma FirstMatchUnique(unidecode: Transliteration, key: string, dicionario: seq<DictionaryEntry>, k: int)
    requires FirstMatch(unidecode, key, dicionario, k)
    ensures forall m :: FirstMatch(unidecode, key, dicionario, m) ==> m == k
  {
  }

  /**
   * `buscar_dicionario_easton(query)`: the first entry whose normalised
   * term equals the normalised query, as "termo\n\ndescricao"; the fixed
   * not-found sentence, quoting the raw query, when there is none.
   */
  function BuscarDicionarioEaston(unidecode: Transliteration, dicionario: seq<DictionaryEntry>, query: string): (r: string)
    ensures var key := Normalize(unidecode, query);
            (forall k :: 0 <= k < |dicionario| ==> !TermMatches(unidecode, key, dicionario[k]))
            ==> r == EastonNotFound(query)
    ensures forall k :: FirstMatch(unidecode, Normalize(unidecode, query), dicionario, k)
                        ==> r == dicionario[k].termo + "\n\n" + dicionario[k].descricao
  {
    var key := Normalize(unidecode, query);
    var ok := (e: DictionaryEntry) => TermMatches(unidecode, key, e);
    match FirstIndex(dicionario, ok)
    case None => EastonNotFound(query)
    case Some(k) =>
      assert FirstMatch(unidecode, key, dicionario, k);
      FirstMatchUnique(unidecode, key, dicionario, k);
      dicionario[k].termo + "\n\n" + dicionario[k].descricao
  }

  /** A query that differs from a stored term only in case gets that entry (when no earlier entry matches). */
  lemma EastonIgnoresCase(unidecode: Transliteration, dicionario: seq<DictionaryEntry>, k: nat)
    requires k < |dicionario| && IsAscii(dicionario[k].termo)
    requires forall m :: 0 <= m < k ==> !TermMatches(unidecode, Normalize(unidecode, dicionario[k].termo), dicionario[m])
    ensures BuscarDicionarioEaston(unidecode, dicionario, Lower(dicionario[k].termo))
         == dicionario[k].termo + "\n\n" + dicionario[k].descricao
  {
    NormalizeIgnoresCase(unidecode, dicionario[k].termo);
  }

  // ---------------------------------------------------------------- result serialisers

  /**
   * A formatted block, or the metadata key whose absence raised a KeyError
   * while formatting it.
   */
  type Formatter = (string, Metadata) -> Result<string, string>

  /**
   * One formatted block per zipped (document, metadata) pair; the first pair
   * that cannot be formatted stops the generator with its KeyError.
   */
  function CollectBlocks(docs: seq<string>, metas: seq<Metadata>, block: Formatter): (r: Result<seq<string>, string>)
    ensures var n := if |docs| < |metas| then |docs| else |metas|;
            (r.Success? <==> forall k :: 0 <= k < n ==> block(docs[k], metas[k]).Success?)
            && (r.Success? ==> |r.value| == n && forall k :: 0 <= k < n ==> r.value[k] == block(docs[k], metas[k]).value)
            && (r.Failure? ==> exists k :: FirstFailure(docs, metas, block, k, r.error))
  {
    if docs == [] || metas == [] then Success([])
    else
      match block(docs[0], metas[0])
      case Failure(key) =>
        assert FirstFailure(docs, metas, block, 0, key);
        Failure(key)
      case Success(first) =>
        var rest := CollectBlocks(docs[1..], metas[1..], block);
        if rest.Failure? then
          var k :| FirstFailure(docs[1..], metas[1..], block, k, rest.error);
          FirstFailureShift(docs, metas, block, k, rest.error);
          Failure(rest.error)
        else
          Success([first] + rest.value)
  }

  /** Pair `k` is the first zipped pair whose formatting fails, with `key`. */
  predicate FirstFailure(docs: seq<string>, metas: seq<Metadata>, block: Formatter, k: int, key: string) {
    0 <= k < |docs| && k < |metas| && block(docs[k], metas[k]) == Failure(key)
    && forall m :: 0 <= m < k ==> block(docs[m], metas[m]).Success?
  }

  /** Behind a pair that formats, the first failure of the rest is the first failure of the whole. */
  lemma FirstFailureShift(docs: seq<string>, metas: seq<Metadata>, block: Formatter, k: int, key: string)
    requires docs != [] && metas != [] && block(docs[0], metas[0]).Success?
    requires FirstFailure(docs[1..], metas[1..], block, k, key)
    ensures FirstFailure(docs, metas, block, k + 1, key)
  {
    assert block(docs[k + 1], metas[k + 1]) == Failure(key) by {
      assert docs[1..][k] == docs[k + 1] && metas[1..][k] == metas[k + 1];
    }
    forall m | 0 <= m < k + 1 ensures block(docs[m], metas[m]).Success? {
      if m > 0 {
        assert docs[1..][m - 1] == docs[m] && metas[1..][m - 1] == metas[m];
      }
    }
  }

  /** The blocks joined by a blank line, as `"\n\n".join(...)` over the generator. */
  function SerializeWith(docs: seq<string>, metas: seq<Metadata>, block: Formatter): Result<string, string> {
    match CollectBlocks(docs, metas, block)
    case Failure(key) => Failure(key)
    case Success(blocks) => Success(Join(blocks, "\n\n"))
  }

  /** `f"Tópico: {meta['topic']}\nTexto: {doc}"`. */
  function TopicBlock(doc: string, meta: Metadata): Result<string, string> {
    if "topic" in meta then Success("Tópico: " + Render(meta["topic"]) + "\nTexto: " + doc) else Failure("topic")
  }

  /**
   * `f"livro: {meta['livro']}, capítulo: {meta['capitulo']}, versículo: {meta['versiculo']}\nTexto: {doc}"`;
   * the fields are read left to right, so the first missing one is reported.
   */
  function VerseBlock(doc: string, meta: Metadata): Result<string, string> {
    if "livro" !in meta then Failure("livro")
    else if "capitulo" !in meta then Failure("capitulo")
    else if "versiculo" !in meta then Failure("versiculo")
    else
      Success("livro: " + Render(meta["livro"]) + ", capítulo: " + Render(meta["capitulo"])
              + ", versículo: " + Render(meta["versiculo"]) + "\nTexto: " + doc)
  }

  /**
   * The serialised text has one block per zipped pair, joined by a blank
   * line: it is "" exactly when there is no pair, and its length is the
   * blocks' lengths plus two characters between each pair of neighbours.
   */
  lemma SerializedShape(docs: seq<string>, metas: seq<Metadata>, block: Formatter)
    requires forall d, m :: block(d, m).Success? ==> block(d, m).value != ""
    requires SerializeWith(docs, metas, block).Success?
    ensures var blocks := CollectBlocks(docs, metas, block).value;
            var text := SerializeWith(docs, metas, block).value;
            (text == "" <==> docs == [] || metas == [])
            && |text| == SumLengths(blocks) + (if blocks == [] then 0 else 2 * (|blocks| - 1))
  {
    var blocks := CollectBlocks(docs, metas, block).value;
    JoinEmpty(blocks, "\n\n");
    JoinLength(blocks, "\n\n");
  }

  /** Topic blocks and verse blocks are never empty and end with the document, so `SerializedShape` applies to both. */
  lemma BlocksEndWithDocument(doc: string, meta: Metadata)
    ensures TopicBlock(doc, meta).Success? ==> TopicBlock(doc, meta).value != "" && EndsWith(TopicBlock(doc, meta).value, "\nTexto: " + doc)
    ensures VerseBlock(doc, meta).Success? ==> VerseBlock(doc, meta).value != "" && EndsWith(VerseBlock(doc, meta).value, "\nTexto: " + doc)
  {
  }

  const NAVES_COLLECTION := "naves_topical"
  const NAVES_RESULTS := 3
  const VERSES_COLLECTION := "biblia_ave_maria"
  const VERSES_RESULTS := 5

  /**
   * The answer of a search tool: a missing collection fails, otherwise the
   * `n` nearest matches to the query are serialised with `block`.
   */
  function SearchTool(store: Store, name: string, n: nat, search: Search, query: string,
                      block: Formatter): (r: Result<string, Error>)
    ensures name !in store ==> r == Failure(CollectionNotFound(name))
    ensures name in store ==>
              var hits := search(store[name].records, query, n);
              var blocks := CollectBlocks(hits.documents, hits.metadatas, block);
              (r.Success? <==> blocks.Success?) && (r.Success? ==> r.value == Join(blocks.value, "\n\n"))
              && (r.Failure? ==> r.error == MissingKey(blocks.error))
  {
    if name !in store then Failure(CollectionNotFound(name))
    else
      var hits := search(store[name].records, query, n);
      match SerializeWith(hits.documents, hits.metadatas, block)
      case Failure(key) => Failure(MissingKey(key))
      case Success(text) => Success(text)
  }

  /** `buscar_naves_topical(arg1)`: the 3 nearest topics in "naves_topical", as topic blocks. */
  function BuscarNavesTopical(store: Store, search: Search, arg1: string): (r: Result<string, Error>)
    ensures NAVES_COLLECTION !in store ==> r == Failure(CollectionNotFound(NAVES_COLLECTION))
    ensures NAVES_COLLECTION in store ==>
              var hits := search(store[NAVES_COLLECTION].records, arg1, 3);
              var blocks := CollectBlocks(hits.documents, hits.metadatas, TopicBlock);
              (r.Success? <==> blocks.Success?) && (r.Success? ==> r.value == Join(blocks.value, "\n\n"))
  {
    SearchTool(store, NAVES_COLLECTION, NAVES_RESULTS, search, arg1, TopicBlock)
  }

  /** `buscar_versiculos_semantica(query)`: the 5 nearest verses in "biblia_ave_maria", as verse blocks. */
  function BuscarVersiculosSemantica(store: Store, search: Search, query: string): (r: Result<string, Error>)
    ensures VERSES_COLLECTION !in store ==> r == Failure(CollectionNotFound(VERSES_COLLECTION))
    ensures VERSES_COLLECTION in store ==>
              var hits := search(store[VERSES_COLLECTION].records, query, 5);
              var blocks := CollectBlocks(hits.documents, hits.metadatas, VerseBlock);
              (r.Success? <==> blocks.Success?) && (r.Success? ==> r.value == Join(blocks.value, "\n\n"))
  {
    SearchTool(store, VERSES_COLLECTION, VERSES_RESULTS, search, query, VerseBlock)
  }
}
