/**
 * Flattening the verse corpus into store records, shared by the loaders:
 * every verse of every chapter of every book, in order, becomes one
 * (text, id, metadata) record. Two id schemes exist in the repository:
 * - src/chromadb_utils.py: the reference "Nome C:V", with metadata
 *   livro/capitulo/versiculo;
 * - src/utils/biblia_functions.py, utils/biblia_functions.py and
 *   utils.py/carregar_biblia.py: "Testamento_Nome_C_V", with metadata
 *   testamento/livro/capitulo/versiculo.
 */
module VerseIndex {
  import opened Wrappers
  import opened Text
  import opened Corpus
  import opened VectorStore
  import Tools

  datatype Scheme =
    | Reference
    | Tagged(testament: string)

  const OLD_TESTAMENT_TAG := "Antigo_Testamento"
  const NEW_TESTAMENT_TAG := "Novo_Testamento"

  /** The record one verse becomes. */
  function VerseRecord(scheme: Scheme, book: Book, chapter: Chapter, verse: Verse): Record {
    var c, v := IntToString(chapter.capitulo), IntToString(verse.versiculo);
    var common := map["livro" := Str(book.nome), "capitulo" := Int(chapter.capitulo), "versiculo" := Int(verse.versiculo)];
    match scheme
    case Reference => Record(verse.texto, book.nome + " " + c + ":" + v, common)
    case Tagged(t) => Record(verse.texto, t + "_" + book.nome + "_" + c + "_" + v, common["testamento" := Str(t)])
  }

  /**
   * The id is an injective encoding of the reference: within one scheme, two
   * verses get the same id only when they have the same book name, chapter
   * number and verse number, whatever characters the book name holds.
   */
  lemma VerseIdInjective(scheme: Scheme, b1: Book, c1: Chapter, v1: Verse, b2: Book, c2: Chapter, v2: Verse)
    requires VerseRecord(scheme, b1, c1, v1).id == VerseRecord(scheme, b2, c2, v2).id
    ensures b1.nome == b2.nome && c1.capitulo == c2.capitulo && v1.versiculo == v2.versiculo
  {
    match scheme
    case Reference =>
      ReferenceIdInjective(b1.nome, c1.capitulo, v1.versiculo, b2.nome, c2.capitulo, v2.versiculo);
    case Tagged(t) =>
      TaggedIdInjective(t, b1.nome, c1.capitulo, v1.versiculo, b2.nome, c2.capitulo, v2.versiculo);
  }

  /** "Nome C:V" determines its name and numbers: the name ends at the last blank, the numbers hold no ':'. */
  lemma ReferenceIdInjective(n1: string, c1: int, v1: int, n2: string, c2: int, v2: int)
    requires n1 + " " + IntToString(c1) + ":" + IntToString(v1) == n2 + " " + IntToString(c2) + ":" + IntToString(v2)
    ensures n1 == n2 && c1 == c2 && v1 == v2
  {
    var ch1, vs1 := IntToString(c1), IntToString(v1);
    var ch2, vs2 := IntToString(c2), IntToString(v2);
    IntToStringSeparators(c1);
    IntToStringSeparators(v1);
    IntToStringSeparators(c2);
    IntToStringSeparators(v2);
    var tail1, tail2 := ch1 + [':'] + vs1, ch2 + [':'] + vs2;
    LacksJoin(ch1, ':', vs1, ' ');
    LacksJoin(ch2, ':', vs2, ' ');
    assert n1 + [' '] + tail1 == n2 + [' '] + tail2 by {
      assert n1 + [' '] + tail1 == n1 + " " + ch1 + ":" + vs1;
      assert n2 + [' '] + tail2 == n2 + " " + ch2 + ":" + vs2;
    }
    CutAtLast(n1, tail1, n2, tail2, ' ');
    CutAtLast(ch1, vs1, ch2, vs2, ':');
    IntToStringInjective(c1, c2);
    IntToStringInjective(v1, v2);
  }

  /** "T_Nome_C_V" under one tag determines its name and numbers: the numbers hold no '_'. */
  lemma TaggedIdInjective(t: string, n1: string, c1: int, v1: int, n2: string, c2: int, v2: int)
    requires t + "_" + n1 + "_" + IntToString(c1) + "_" + IntToString(v1) == t + "_" + n2 + "_" + IntToString(c2) + "_" + IntToString(v2)
    ensures n1 == n2 && c1 == c2 && v1 == v2
  {
    var ch1, vs1 := IntToString(c1), IntToString(v1);
    var ch2, vs2 := IntToString(c2), IntToString(v2);
    IntToStringSeparators(c1);
    IntToStringSeparators(v1);
    IntToStringSeparators(c2);
    IntToStringSeparators(v2);
    var head1, head2 := t + "_" + n1, t + "_" + n2;
    assert (head1 + ['_'] + ch1) + ['_'] + vs1 == (head2 + ['_'] + ch2) + ['_'] + vs2 by {
      assert (head1 + ['_'] + ch1) + ['_'] + vs1 == t + "_" + n1 + "_" + ch1 + "_" + vs1;
      assert (head2 + ['_'] + ch2) + ['_'] + vs2 == t + "_" + n2 + "_" + ch2 + "_" + vs2;
    }
    CutAtLast(head1 + ['_'] + ch1, vs1, head2 + ['_'] + ch2, vs2, '_');
    CutAtLast(head1, ch1, head2, ch2, '_');
    assert n1 == head1[|t| + 1..] && n2 == head2[|t| + 1..];
    IntToStringInjective(c1, c2);
    IntToStringInjective(v1, v2);
  }

  /**
   * Every flattened verse can be formatted by the verse-search serialiser
   * (no KeyError), giving its book, chapter, verse and text.
   */
  lemma VerseRecordSerialises(scheme: Scheme, book: Book, chapter: Chapter, verse: Verse)
    ensures var r := VerseRecord(scheme, book, chapter, verse);
            Tools.VerseBlock(r.doc, r.meta)
            == Success("livro: " + book.nome + ", capítulo: " + IntToString(chapter.capitulo)
                       + ", versículo: " + IntToString(verse.versiculo) + "\nTexto: " + verse.texto)
  {
  }

  // ---------------------------------------------------------------- whole-corpus flattening

  function ChapterRecords(scheme: Scheme, book: Book, chapter: Chapter): seq<Record> {
    seq(|chapter.versiculos|, k requires 0 <= k < |chapter.versiculos| => VerseRecord(scheme, book, chapter, chapter.versiculos[k]))
  }

  /** The records of the given chapters of one book, in order. */
  function BookRecords(scheme: Scheme, book: Book, chapters: seq<Chapter>): seq<Record> {
    if chapters == [] then []
    else BookRecords(scheme, book, chapters[..|chapters| - 1]) + ChapterRecords(scheme, book, chapters[|chapters| - 1])
  }

  /** The records of the given books, in order. */
  function BooksRecords(scheme: Scheme, books: seq<Book>): seq<Record> {
    if books == [] then []
    else BooksRecords(scheme, books[..|books| - 1]) + BookRecords(scheme, books[|books| - 1], books[|books| - 1].capitulos)
  }

  function ChaptersVerseCount(chapters: seq<Chapter>): nat {
    if chapters == [] then 0 else ChaptersVerseCount(chapters[..|chapters| - 1]) + |chapters[|chapters| - 1].versiculos|
  }

  function VerseCount(books: seq<Book>): nat {
    if books == [] then 0 else VerseCount(books[..|books| - 1]) + ChaptersVerseCount(books[|books| - 1].capitulos)
  }

  /** `r` is the record of some verse of the given chapters. */
  ghost predicate FromChapters(scheme: Scheme, book: Book, chapters: seq<Chapter>, r: Record) {
    exists j :: 0 <= j < |chapters| && r in ChapterRecords(scheme, book, chapters[j])
  }

  /** `r` is the record of some verse of some book. */
  ghost predicate FromBooks(scheme: Scheme, books: seq<Book>, r: Record) {
    exists i :: 0 <= i < |books| && FromChapters(scheme, books[i], books[i].capitulos, r)
  }

  /** A chapter's records are exactly the records of its verses. */
  lemma ChapterRecordsExact(scheme: Scheme, book: Book, chapter: Chapter, r: Record)
    ensures r in ChapterRecords(scheme, book, chapter)
            <==> exists k :: 0 <= k < |chapter.versiculos| && r == VerseRecord(scheme, book, chapter, chapter.versiculos[k])
  {
    var rs := ChapterRecords(scheme, book, chapter);
    if r in rs {
      var k :| 0 <= k < |rs| && rs[k] == r;
      assert r == VerseRecord(scheme, book, chapter, chapter.versiculos[k]);
    }
    forall k | 0 <= k < |chapter.versiculos| && r == VerseRecord(scheme, book, chapter, chapter.versiculos[k])
      ensures r in rs
    {
      assert rs[k] == r;
    }
  }

  lemma {:induction false} BookRecordsExact(scheme: Scheme, book: Book, chapters: seq<Chapter>)
    ensures |BookRecords(scheme, book, chapters)| == ChaptersVerseCount(chapters)
    ensures forall r :: r in BookRecords(scheme, book, chapters) <==> FromChapters(scheme, book, chapters, r)
    decreases |chapters|
  {
    if chapters != [] {
      var front, last := chapters[..|chapters| - 1], chapters[|chapters| - 1];
      BookRecordsExact(scheme, book, front);
      var head, tail := BookRecords(scheme, book, front), ChapterRecords(scheme, book, last);
      assert BookRecords(scheme, book, chapters) == head + tail;
      forall r ensures r in BookRecords(scheme, book, chapters) <==> FromChapters(scheme, book, chapters, r) {
        FromChaptersSnoc(scheme, book, chapters, r);
      }
    }
  }

  /** Some element satisfies `p` exactly when some element of the front does, or the last one does. */
  lemma SomeSnoc<T>(xs: seq<T>, front: seq<T>, p: T -> bool)
    requires xs != [] && front == xs[..|xs| - 1]
    ensures (exists j :: 0 <= j < |xs| && p(xs[j]))
            <==> (exists j :: 0 <= j < |front| && p(front[j])) || p(xs[|xs| - 1])
  {
    if exists j :: 0 <= j < |xs| && p(xs[j]) {
      var j :| 0 <= j < |xs| && p(xs[j]);
      if j < |front| {
        assert p(front[j]);
      }
    }
    if exists j :: 0 <= j < |front| && p(front[j]) {
      var j :| 0 <= j < |front| && p(front[j]);
      assert p(xs[j]);
    }
  }

  /** A record comes from some chapter exactly when it comes from an earlier one or from the last. */
  lemma FromChaptersSnoc(scheme: Scheme, book: Book, chapters: seq<Chapter>, r: Record)
    requires chapters != []
    ensures FromChapters(scheme, book, chapters, r)
            <==> FromChapters(scheme, book, chapters[..|chapters| - 1], r)
                 || r in ChapterRecords(scheme, book, chapters[|chapters| - 1])
  {
    SomeSnoc(chapters, chapters[..|chapters| - 1], (c: Chapter) => r in ChapterRecords(scheme, book, c));
  }

  /**
   * The flattened corpus holds one record per verse: as many records as
   * verses, and exactly the records of the corpus's verses.
   */
  lemma {:induction false} BooksRecordsExact(scheme: Scheme, books: seq<Book>)
    ensures |BooksRecords(scheme, books)| == VerseCount(books)
    ensures forall r :: r in BooksRecords(scheme, books) <==> FromBooks(scheme, books, r)
    decreases |books|
  {
    if books != [] {
      var front, last := books[..|books| - 1], books[|books| - 1];
      BooksRecordsExact(scheme, front);
      BookRecordsExact(scheme, last, last.capitulos);
      var head, tail := BooksRecords(scheme, front), BookRecords(scheme, last, last.capitulos);
      assert BooksRecords(scheme, books) == head + tail;
      forall r ensures r in BooksRecords(scheme, books) <==> FromBooks(scheme, books, r) {
        FromBooksSnoc(scheme, books, r);
      }
    }
  }

  /** A record comes from some book exactly when it comes from an earlier one or from the last. */
  lemma FromBooksSnoc(scheme: Scheme, books: seq<Book>, r: Record)
    requires books != []
    ensures FromBooks(scheme, books, r)
            <==> FromBooks(scheme, books[..|books| - 1], r)
                 || FromChapters(scheme, books[|books| - 1], books[|books| - 1].capitulos, r)
  {
    SomeSnoc(books, books[..|books| - 1], (b: Book) => FromChapters(scheme, b, b.capitulos, r));
  }

  /** Flattening a concatenation of book lists concatenates their records. */
  lemma {:induction false} BooksRecordsAppend(scheme: Scheme, a: seq<Book>, b: seq<Book>)
    ensures BooksRecords(scheme, a + b) == BooksRecords(scheme, a) + BooksRecords(scheme, b)
    decreases |b|
  {
    if b == [] {
      assert a + b == a;
    } else {
      var front, last := b[..|b| - 1], b[|b| - 1];
      var tail := BookRecords(scheme, last, last.capitulos);
      assert (a + b)[..|a + b| - 1] == a + front;
      assert (a + b)[|a + b| - 1] == last;
      assert BooksRecords(scheme, a + b) == BooksRecords(scheme, a + front) + tail;
      assert BooksRecords(scheme, b) == BooksRecords(scheme, front) + tail;
      BooksRecordsAppend(scheme, a, front);
    }
  }

  // ---------------------------------------------------------------- distinct references, distinct ids

  /** The id a verse with reference (book name, chapter, verse) gets under a scheme. */
  function VerseId(scheme: Scheme, key: (string, int, int)): string {
    match scheme
    case Reference => key.0 + " " + IntToString(key.1) + ":" + IntToString(key.2)
    case Tagged(t) => t + "_" + key.0 + "_" + IntToString(key.1) + "_" + IntToString(key.2)
  }

  /** Within one scheme the id determines the reference. */
  lemma VerseIdKeyInjective(scheme: Scheme, k1: (string, int, int), k2: (string, int, int))
    requires VerseId(scheme, k1) == VerseId(scheme, k2)
    ensures k1 == k2
  {
    match scheme
    case Reference => ReferenceIdInjective(k1.0, k1.1, k1.2, k2.0, k2.1, k2.2);
    case Tagged(t) => TaggedIdInjective(t, k1.0, k1.1, k1.2, k2.0, k2.1, k2.2);
  }

  /** The references of a chapter's verses, in order. */
  function ChapterKeys(book: Book, chapter: Chapter): seq<(string, int, int)> {
    seq(|chapter.versiculos|, k requires 0 <= k < |chapter.versiculos| => (book.nome, chapter.capitulo, chapter.versiculos[k].versiculo))
  }

  function BookKeys(book: Book, chapters: seq<Chapter>): seq<(string, int, int)> {
    if chapters == [] then []
    else BookKeys(book, chapters[..|chapters| - 1]) + ChapterKeys(book, chapters[|chapters| - 1])
  }

  /** The references of every verse of the given books, in flattening order. */
  function BooksKeys(books: seq<Book>): seq<(string, int, int)> {
    if books == [] then []
    else BooksKeys(books[..|books| - 1]) + BookKeys(books[|books| - 1], books[|books| - 1].capitulos)
  }

  /** No two verses of the books share book name, chapter number and verse number. */
  predicate DistinctReferences(books: seq<Book>) {
    var ks := BooksKeys(books);
    forall i, j :: 0 <= i < j < |ks| ==> ks[i] != ks[j]
  }

  /** The records carry, position by position, the ids of the references. */
  predicate Aligned(scheme: Scheme, rs: seq<Record>, ks: seq<(string, int, int)>) {
    |rs| == |ks| && forall k :: 0 <= k < |rs| ==> rs[k].id == VerseId(scheme, ks[k])
  }

  lemma AlignedAppend(scheme: Scheme, ra: seq<Record>, ka: seq<(string, int, int)>, rb: seq<Record>, kb: seq<(string, int, int)>)
    requires Aligned(scheme, ra, ka) && Aligned(scheme, rb, kb)
    ensures Aligned(scheme, ra + rb, ka + kb)
  {
    forall k | 0 <= k < |ra + rb| ensures (ra + rb)[k].id == VerseId(scheme, (ka + kb)[k]) {
      if k < |ra| {
        assert (ra + rb)[k] == ra[k] && (ka + kb)[k] == ka[k];
      } else {
        assert (ra + rb)[k] == rb[k - |ra|] && (ka + kb)[k] == kb[k - |ra|];
      }
    }
  }

  lemma {:induction false} BookKeysAligned(scheme: Scheme, book: Book, chapters: seq<Chapter>)
    ensures Aligned(scheme, BookRecords(scheme, book, chapters), BookKeys(book, chapters))
    decreases |chapters|
  {
    if chapters != [] {
      var front, last := chapters[..|chapters| - 1], chapters[|chapters| - 1];
      BookKeysAligned(scheme, book, front);
      assert Aligned(scheme, ChapterRecords(scheme, book, last), ChapterKeys(book, last));
      AlignedAppend(scheme, BookRecords(scheme, book, front), BookKeys(book, front),
                    ChapterRecords(scheme, book, last), ChapterKeys(book, last));
    }
  }

  /** The flattened records carry the ids of the flattened references. */
  lemma {:induction false} BooksKeysAligned(scheme: Scheme, books: seq<Book>)
    ensures Aligned(scheme, BooksRecords(scheme, books), BooksKeys(books))
    decreases |books|
  {
    if books != [] {
      var front, last := books[..|books| - 1], books[|books| - 1];
      BooksKeysAligned(scheme, front);
      BookKeysAligned(scheme, last, last.capitulos);
      AlignedAppend(scheme, BooksRecords(scheme, front), BooksKeys(front),
                    BookRecords(scheme, last, last.capitulos), BookKeys(last, last.capitulos));
    }
  }

  /** Books whose verse references are distinct flatten to records with distinct ids, under either scheme. */
  lemma DistinctReferenceIds(scheme: Scheme, books: seq<Book>)
    requires DistinctReferences(books)
    ensures DistinctIds(BooksRecords(scheme, books))
  {
    var rs, ks := BooksRecords(scheme, books), BooksKeys(books);
    BooksKeysAligned(scheme, books);
    forall i, j | 0 <= i < j < |rs| ensures rs[i].id != rs[j].id {
      if rs[i].id == rs[j].id {
        VerseIdKeyInjective(scheme, ks[i], ks[j]);
        assert false;
      }
    }
  }

  /** One more chapter of the prefix adds that chapter's records. */
  lemma BookRecordsSnoc(scheme: Scheme, book: Book, chapters: seq<Chapter>, j: nat)
    requires j < |chapters|
    ensures BookRecords(scheme, book, chapters[..j + 1])
            == BookRecords(scheme, book, chapters[..j]) + ChapterRecords(scheme, book, chapters[j])
  {
    assert chapters[..j + 1][..j] == chapters[..j];
  }

  // ---------------------------------------------------------------- the loop

  /** Appending a step's records to lists that hold `start + done` gives lists holding `start + (done + step)`. */
  lemma AppendStep(start: seq<Record>, done: seq<Record>, before: seq<Record>, step: seq<Record>, after: seq<Record>)
    returns (next: seq<Record>)
    requires before == start + done && after == before + step
    ensures next == done + step && after == start + next
  {
    next := done + step;
  }

  /** The innermost loop: each verse of one chapter appended to the three lists. */
  method AppendChapter(scheme: Scheme, book: Book, chapter: Chapter, docs0: seq<string>, ids0: seq<string>, metas0: seq<Metadata>)
    returns (docs: seq<string>, ids: seq<string>, metas: seq<Metadata>)
    requires |docs0| == |ids0| == |metas0|
    ensures |docs| == |ids| == |metas|
    ensures Zip3(docs, ids, metas) == Zip3(docs0, ids0, metas0) + ChapterRecords(scheme, book, chapter)
  {
    docs, ids, metas := docs0, ids0, metas0;
    ghost var start := Zip3(docs0, ids0, metas0);
    ghost var all := ChapterRecords(scheme, book, chapter);
    var k := 0;
    while k < |chapter.versiculos|
      invariant 0 <= k <= |chapter.versiculos|
      invariant |docs| == |ids| == |metas|
      invariant Zip3(docs, ids, metas) == start + all[..k]
    {
      var r := VerseRecord(scheme, book, chapter, chapter.versiculos[k]);
      Zip3Snoc(docs, ids, metas, r);
      docs, ids, metas := docs + [r.doc], ids + [r.id], metas + [r.meta];
      assert all[..k + 1] == all[..k] + [r];
      k := k + 1;
    }
    assert all[..k] == all;
  }

  /** The middle loop: each chapter of one book. */
  method AppendBook(scheme: Scheme, book: Book, docs0: seq<string>, ids0: seq<string>, metas0: seq<Metadata>)
    returns (docs: seq<string>, ids: seq<string>, metas: seq<Metadata>)
    requires |docs0| == |ids0| == |metas0|
    ensures |docs| == |ids| == |metas|
    ensures Zip3(docs, ids, metas) == Zip3(docs0, ids0, metas0) + BookRecords(scheme, book, book.capitulos)
  {
    docs, ids, metas := docs0, ids0, metas0;
    ghost var start := Zip3(docs0, ids0, metas0);
    ghost var done: seq<Record> := [];
    var j := 0;
    while j < |book.capitulos|
      invariant 0 <= j <= |book.capitulos|
      invariant |docs| == |ids| == |metas|
      invariant done == BookRecords(scheme, book, book.capitulos[..j])
      invariant Zip3(docs, ids, metas) == start + done
    {
      var chapter := book.capitulos[j];
      ghost var before := Zip3(docs, ids, metas);
      docs, ids, metas := AppendChapter(scheme, book, chapter, docs, ids, metas);
      BookRecordsSnoc(scheme, book, book.capitulos, j);
      done := AppendStep(start, done, before, ChapterRecords(scheme, book, chapter), Zip3(docs, ids, metas));
      j := j + 1;
    }
    assert book.capitulos[..j] == book.capitulos;
  }

  /**
   * The nested loop over books, chapters and verses that appends each
   * verse's text, id and metadata to three aligned lists.
   */
  method CollectVerses(scheme: Scheme, books: seq<Book>, docs0: seq<string>, ids0: seq<string>, metas0: seq<Metadata>)
    returns (docs: seq<string>, ids: seq<string>, metas: seq<Metadata>)
    requires |docs0| == |ids0| == |metas0|
    ensures |docs| == |ids| == |metas|
    ensures Zip3(docs, ids, metas) == Zip3(docs0, ids0, metas0) + BooksRecords(scheme, books)
  {
    docs, ids, metas := docs0, ids0, metas0;
    ghost var start := Zip3(docs0, ids0, metas0);
    ghost var done: seq<Record> := [];
    var i := 0;
    while i < |books|
      invariant 0 <= i <= |books|
      invariant |docs| == |ids| == |metas|
      invariant done == BooksRecords(scheme, books[..i])
      invariant Zip3(docs, ids, metas) == start + done
    {
      var book := books[i];
      ghost var before := Zip3(docs, ids, metas);
      docs, ids, metas := AppendBook(scheme, book, docs, ids, metas);
      assert books[..i + 1][..i] == books[..i];
      assert BooksRecords(scheme, books[..i + 1]) == BooksRecords(scheme, books[..i]) + BookRecords(scheme, book, book.capitulos);
      done := AppendStep(start, done, before, BookRecords(scheme, book, book.capitulos), Zip3(docs, ids, metas));
      i := i + 1;
    }
    assert books[..i] == books;
  }
}
