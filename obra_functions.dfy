/**
 * `ObrasFunctions` of src/utils/obra_functions.py: a loader for a
 * reference work (Easton's dictionary or Nave's topical index) that keeps
 * only the records of a known shape, buffers them and flushes the buffer
 * whenever it reaches 5000 records, plus a delete and a semantic search whose
 * serialiser picks the block format from the metadata keys present.
 */
module ObraFunctions {
  import opened Wrappers
  import opened Text
  import opened Corpus
  import opened VectorStore
  import VerseIndex
  import BibliaFunctions

  const BATCH_SIZE: nat := 5000

  /** One JSON object of the work: the keys either shape may use, each possibly absent. */
  datatype ObraItem = ObraItem(termo: Option<string>, descricao: Option<string>,
                               topic: Option<string>, versiculos: Option<seq<string>>)

  predicate IsTermShaped(item: ObraItem) {
    item.termo.Some? && item.descricao.Some?
  }

  predicate IsTopicShaped(item: ObraItem) {
    item.topic.Some? && item.versiculos.Some?
  }

  /**
   * The record item `i` becomes, or None for an item of neither shape. A
   * term-shaped item wins over a topic-shaped one; the id carries the
   * source index `i`.
   */
  function ItemRecord(name: string, item: ObraItem, i: nat): (r: Option<Record>)
    ensures r.Some? <==> IsTermShaped(item) || IsTopicShaped(item)
    ensures r.Some? ==> r.value.id == name + "_" + NatToString(i)
    ensures r.Some? && IsTermShaped(item) ==> r.value.meta == map["termo" := Str(item.termo.value)]
    ensures r.Some? && !IsTermShaped(item) ==> r.value.meta == map["topic" := Str(item.topic.value)]
  {
    var id := name + "_" + NatToString(i);
    if IsTermShaped(item) then
      Some(Record(item.termo.value + ": " + item.descricao.value, id, map["termo" := Str(item.termo.value)]))
    else if IsTopicShaped(item) then
      Some(Record("Tópico: " + item.topic.value + " | Versículos: " + Join(item.versiculos.value, ", "), id,
                  map["topic" := Str(item.topic.value)]))
    else None
  }

  /** The records of items `i..` in source order, skipped items leaving no record. */
  function RecordsFrom(name: string, data: seq<ObraItem>, i: nat): seq<Record>
    requires i <= |data|
    decreases |data| - i
  {
    if i == |data| then []
    else
      (match ItemRecord(name, data[i], i) case None => [] case Some(r) => [r]) + RecordsFrom(name, data, i + 1)
  }

  function ObraRecords(name: string, data: seq<ObraItem>): seq<Record> {
    RecordsFrom(name, data, 0)
  }

  /** Every record comes from a well-formed item at or after `i`. */
  lemma {:induction false} RecordsFromSource(name: string, data: seq<ObraItem>, i: nat)
    requires i <= |data|
    ensures forall r :: r in RecordsFrom(name, data, i) ==>
              exists j :: i <= j < |data| && ItemRecord(name, data[j], j) == Some(r)
    decreases |data| - i
  {
    if i < |data| {
      RecordsFromSource(name, data, i + 1);
    }
  }

  /** Every well-formed item at or after `i` has its record there. */
  lemma {:induction false} RecordsFromComplete(name: string, data: seq<ObraItem>, i: nat)
    requires i <= |data|
    ensures forall j :: i <= j < |data| && ItemRecord(name, data[j], j).Some? ==>
              ItemRecord(name, data[j], j).value in RecordsFrom(name, data, i)
    ensures |RecordsFrom(name, data, i)| <= |data| - i
    decreases |data| - i
  {
    if i < |data| {
      RecordsFromComplete(name, data, i + 1);
    }
  }

  /** The records from `i` on never carry the id of an earlier index `m`. */
  lemma {:induction false} RecordsFromAvoids(name: string, data: seq<ObraItem>, i: nat, m: nat)
    requires i <= |data| && m < i
    ensures !HasId(RecordsFrom(name, data, i), name + "_" + NatToString(m))
    decreases |data| - i
  {
    if i < |data| {
      RecordsFromAvoids(name, data, i + 1, m);
      var id := name + "_" + NatToString(m);
      var rest := RecordsFrom(name, data, i + 1);
      var head := match ItemRecord(name, data[i], i) case None => [] case Some(r) => [r];
      var all := RecordsFrom(name, data, i);
      assert all == head + rest;
      EnumeratedIdPosition(name, i, name, m);
      forall k | 0 <= k < |all| ensures all[k].id != id {
        if k >= |head| {
          assert all[k] == rest[k - |head|];
        }
      }
    }
  }

  /** The ids carry distinct source indices, so they never repeat. */
  lemma {:induction false} RecordsFromDistinct(name: string, data: seq<ObraItem>, i: nat)
    requires i <= |data|
    ensures DistinctIds(RecordsFrom(name, data, i))
    decreases |data| - i
  {
    if i < |data| {
      RecordsFromDistinct(name, data, i + 1);
      var rest := RecordsFrom(name, data, i + 1);
      var item := ItemRecord(name, data[i], i);
      if item.Some? {
        var r := item.value;
        assert RecordsFrom(name, data, i) == [r] + rest;
        assert r.id == name + "_" + NatToString(i);
        RecordsFromAvoids(name, data, i + 1, i);
        DistinctCons(r, rest);
      }
    }
  }

  /**
   * The records are exactly those of the well-formed items from `i` on, one
   * each: every record is some item's record, every well-formed item's record
   * is there, and their ids are pairwise distinct.
   */
  lemma RecordsFromExact(name: string, data: seq<ObraItem>, i: nat)
    requires i <= |data|
    ensures forall r :: r in RecordsFrom(name, data, i) ==>
              exists j :: i <= j < |data| && ItemRecord(name, data[j], j) == Some(r)
    ensures forall j :: i <= j < |data| && ItemRecord(name, data[j], j).Some? ==>
              ItemRecord(name, data[j], j).value in RecordsFrom(name, data, i)
    ensures DistinctIds(RecordsFrom(name, data, i))
    ensures |RecordsFrom(name, data, i)| <= |data| - i
  {
    RecordsFromSource(name, data, i);
    RecordsFromComplete(name, data, i);
    RecordsFromDistinct(name, data, i);
  }

  /** One step of the scan: item `i` contributes its record, if any, ahead of the rest. */
  lemma RecordsFromUnfold(name: string, data: seq<ObraItem>, i: nat)
    requires i < |data|
    ensures RecordsFrom(name, data, i)
            == (if ItemRecord(name, data[i], i).Some? then [ItemRecord(name, data[i], i).value] else [])
               + RecordsFrom(name, data, i + 1)
  {
  }

  /** Moving the next kept record from the pending records into the buffer keeps their concatenation. */
  lemma Shift(buffer: seq<Record>, r: Record, rest: seq<Record>) returns (next: seq<Record>)
    ensures next == buffer + [r] && next + rest == buffer + ([r] + rest)
  {
    next := buffer + [r];
  }

  /**
   * `load_collection` on the store: nothing happens when the name exists;
   * otherwise the collection is created with the default (L2) distance and
   * the kept records are added 5000 at a time, then the remainder.
   */
  function LoadObra(s: Store, name: string, data: seq<ObraItem>): Run {
    if name in s then Run(s, None)
    else AddBatches(s[name := Collection(L2, [])], name, Chunks(ObraRecords(name, data), BATCH_SIZE), false)
  }

  /** A first load always succeeds and stores exactly the kept records, in source order. */
  lemma LoadObraLoads(s: Store, name: string, data: seq<ObraItem>)
    requires name !in s
    ensures LoadObra(s, name, data) == Run(s[name := Collection(L2, ObraRecords(name, data))], None)
  {
    RecordsFromDistinct(name, data, 0);
    AddChunksToEmpty(s, name, L2, ObraRecords(name, data), BATCH_SIZE, false);
  }

  // ---------------------------------------------------------------- the search serialiser

  function TermHeader(meta: Metadata): string
    requires "termo" in meta
  {
    "Termo: " + Render(meta["termo"])
  }

  /**
   * One result block, chosen by the metadata keys present: a term, then a
   * topic, then a full verse reference, then the bare text.
   */
  function ObraBlock(doc: string, meta: Metadata): string {
    var tail := "\nTexto: " + doc;
    if "termo" in meta then "Termo: " + Render(meta["termo"]) + tail
    else if "topic" in meta then "Tópico: " + Render(meta["topic"]) + tail
    else if "livro" in meta && "capitulo" in meta && "versiculo" in meta then
      "Livro: " + ReferenceText(meta) + tail
    else "📖 Texto: " + doc
  }

  /** What follows "Livro: " in a verse block. */
  function ReferenceText(meta: Metadata): string
    requires "livro" in meta && "capitulo" in meta && "versiculo" in meta
  {
    Render(meta["livro"]) + ", Capítulo: " + Render(meta["capitulo"]) + ", Versículo: " + Render(meta["versiculo"])
  }

  lemma PrefixOf(p: string, x: string)
    ensures StartsWith(p + x, p)
  {
    assert (p + x)[..|p|] == p;
  }

  lemma SuffixOf(x: string, p: string)
    ensures EndsWith(x + p, p)
  {
    assert (x + p)[|x + p| - |p|..] == p;
  }

  /** A header line followed by the text line ends with that text line. */
  lemma TextLast(head: string, x: string, doc: string)
    ensures EndsWith(head + (x + "\nTexto: " + doc), "Texto: " + doc)
  {
    var t := "Texto: " + doc;
    assert "\nTexto: " == "\n" + "Texto: ";
    assert "\nTexto: " + doc == "\n" + t;
    assert x + "\nTexto: " + doc == (x + "\n") + t;
    assert head + (x + "\nTexto: " + doc) == (head + (x + "\n")) + t;
    SuffixOf(head + (x + "\n"), t);
  }

  lemma DiffersAt(s: string, p: string, k: nat)
    requires k < |p| && k < |s| && s[k] != p[k]
    ensures !StartsWith(s, p)
  {
  }

  /** The four header predicates the dispatch is stated with. */
  predicate Headed(r: string, t: bool, o: bool, l: bool, b: bool) {
    && (StartsWith(r, "Termo: ") <==> t)
    && (StartsWith(r, "Tópico: ") <==> o)
    && (StartsWith(r, "Livro: ") <==> l)
    && (StartsWith(r, "📖 Texto: ") <==> b)
  }

  lemma TermBlock(doc: string, meta: Metadata)
    requires "termo" in meta
    ensures var r := ObraBlock(doc, meta);
            Headed(r, true, false, false, false) && EndsWith(r, "Texto: " + doc)
  {
    TermBlockShape(doc, meta);
    TermHeaded(Render(meta["termo"]), doc);
  }

  lemma TermBlockShape(doc: string, meta: Metadata)
    requires "termo" in meta
    ensures ObraBlock(doc, meta) == "Termo: " + (Render(meta["termo"]) + "\nTexto: " + doc)
  {
  }

  lemma TermHeaded(x: string, doc: string)
    ensures var r := "Termo: " + (x + "\nTexto: " + doc);
            Headed(r, true, false, false, false) && EndsWith(r, "Texto: " + doc)
  {
    var r := "Termo: " + (x + "\nTexto: " + doc);
    PrefixOf("Termo: ", x + "\nTexto: " + doc);
    DiffersAt(r, "Tópico: ", 1);
    DiffersAt(r, "Livro: ", 0);
    DiffersAt(r, "📖 Texto: ", 0);
    TextLast("Termo: ", x, doc);
  }

  lemma TopicBlock(doc: string, meta: Metadata)
    requires "termo" !in meta && "topic" in meta
    ensures var r := ObraBlock(doc, meta);
            Headed(r, false, true, false, false) && EndsWith(r, "Texto: " + doc)
  {
    TopicBlockShape(doc, meta);
    TopicHeaded(Render(meta["topic"]), doc);
  }

  lemma TopicBlockShape(doc: string, meta: Metadata)
    requires "termo" !in meta && "topic" in meta
    ensures ObraBlock(doc, meta) == "Tópico: " + (Render(meta["topic"]) + "\nTexto: " + doc)
  {
  }

  lemma TopicHeaded(x: string, doc: string)
    ensures var r := "Tópico: " + (x + "\nTexto: " + doc);
            Headed(r, false, true, false, false) && EndsWith(r, "Texto: " + doc)
  {
    var r := "Tópico: " + (x + "\nTexto: " + doc);
    PrefixOf("Tópico: ", x + "\nTexto: " + doc);
    DiffersAt(r, "Termo: ", 1);
    DiffersAt(r, "Livro: ", 0);
    DiffersAt(r, "📖 Texto: ", 0);
    TextLast("Tópico: ", x, doc);
  }

  lemma ReferenceBlock(doc: string, meta: Metadata)
    requires "termo" !in meta && "topic" !in meta && "livro" in meta && "capitulo" in meta && "versiculo" in meta
    ensures var r := ObraBlock(doc, meta);
            Headed(r, false, false, true, false) && EndsWith(r, "Texto: " + doc)
  {
    ReferenceBlockShape(doc, meta);
    ReferenceHeaded(ReferenceText(meta), doc);
  }

  lemma ReferenceBlockShape(doc: string, meta: Metadata)
    requires "termo" !in meta && "topic" !in meta && "livro" in meta && "capitulo" in meta && "versiculo" in meta
    ensures ObraBlock(doc, meta) == "Livro: " + (ReferenceText(meta) + "\nTexto: " + doc)
  {
  }

  lemma ReferenceHeaded(x: string, doc: string)
    ensures var r := "Livro: " + (x + "\nTexto: " + doc);
            Headed(r, false, false, true, false) && EndsWith(r, "Texto: " + doc)
  {
    var r := "Livro: " + (x + "\nTexto: " + doc);
    PrefixOf("Livro: ", x + "\nTexto: " + doc);
    DiffersAt(r, "Termo: ", 0);
    DiffersAt(r, "Tópico: ", 0);
    DiffersAt(r, "📖 Texto: ", 0);
    TextLast("Livro: ", x, doc);
  }

  lemma BareBlock(doc: string, meta: Metadata)
    requires "termo" !in meta && "topic" !in meta && !("livro" in meta && "capitulo" in meta && "versiculo" in meta)
    ensures var r := ObraBlock(doc, meta);
            Headed(r, false, false, false, true) && EndsWith(r, "Texto: " + doc)
  {
    assert ObraBlock(doc, meta) == "📖 Texto: " + doc;
    BareHeaded(doc);
  }

  lemma BareHeaded(doc: string)
    ensures var r := "📖 Texto: " + doc;
            Headed(r, false, false, false, true) && EndsWith(r, "Texto: " + doc)
  {
    var r := "📖 Texto: " + doc;
    PrefixOf("📖 Texto: ", doc);
    DiffersAt(r, "Termo: ", 0);
    DiffersAt(r, "Tópico: ", 0);
    DiffersAt(r, "Livro: ", 0);
    assert r == "📖 " + ("Texto: " + doc);
    SuffixOf("📖 ", "Texto: " + doc);
  }

  /** The block's header says which case applies, and every block ends with the document. */
  lemma ObraBlockDispatch(doc: string, meta: Metadata)
    ensures var r := ObraBlock(doc, meta);
            && (StartsWith(r, "Termo: ") <==> "termo" in meta)
            && (StartsWith(r, "Tópico: ") <==> "termo" !in meta && "topic" in meta)
            && (StartsWith(r, "Livro: ") <==>
                  "termo" !in meta && "topic" !in meta && "livro" in meta && "capitulo" in meta && "versiculo" in meta)
            && (StartsWith(r, "📖 Texto: ") <==>
                  "termo" !in meta && "topic" !in meta && !("livro" in meta && "capitulo" in meta && "versiculo" in meta))
            && EndsWith(r, "Texto: " + doc)
  {
    if "termo" in meta {
      TermBlock(doc, meta);
    } else if "topic" in meta {
      TopicBlock(doc, meta);
    } else if "livro" in meta && "capitulo" in meta && "versiculo" in meta {
      ReferenceBlock(doc, meta);
    } else {
      BareBlock(doc, meta);
    }
  }

  /** One block per zipped (document, metadata) pair. */
  function ObraParts(docs: seq<string>, metas: seq<Metadata>): (parts: seq<string>)
    ensures |parts| == if |docs| < |metas| then |docs| else |metas|
  {
    var n := if |docs| < |metas| then |docs| else |metas|;
    seq(n, k requires 0 <= k < n => ObraBlock(docs[k], metas[k]))
  }

  /** A loaded term or topic renders with its own header and the stored document. */
  lemma LoadedRecordRenders(name: string, item: ObraItem, i: nat)
    requires ItemRecord(name, item, i).Some?
    ensures var r := ItemRecord(name, item, i).value;
            ObraBlock(r.doc, r.meta)
            == if IsTermShaped(item) then "Termo: " + item.termo.value + "\nTexto: " + r.doc
               else "Tópico: " + item.topic.value + "\nTexto: " + r.doc
  {
  }

  /** A verse with a testament-tagged id, searched through this class, renders as a "Livro:" block. */
  lemma VerseRecordRenders(book: Book, chapter: Chapter, verse: Verse)
    ensures var r := VerseIndex.VerseRecord(VerseIndex.Tagged(VerseIndex.OLD_TESTAMENT_TAG), book, chapter, verse);
            ObraBlock(r.doc, r.meta)
            == "Livro: " + book.nome + ", Capítulo: " + IntToString(chapter.capitulo)
               + ", Versículo: " + IntToString(verse.versiculo) + "\nTexto: " + verse.texto
  {
    var r := VerseIndex.VerseRecord(VerseIndex.Tagged(VerseIndex.OLD_TESTAMENT_TAG), book, chapter, verse);
    ReferenceBlockShape(r.doc, r.meta);
    ReferenceTextOf(r.meta, book.nome, chapter.capitulo, verse.versiculo);
  }

  /** The reference text of metadata holding a book name and two numbers spells them out. */
  lemma ReferenceTextOf(meta: Metadata, livro: string, capitulo: int, versiculo: int)
    requires "livro" in meta && "capitulo" in meta && "versiculo" in meta
    requires meta["livro"] == Str(livro) && meta["capitulo"] == Int(capitulo) && meta["versiculo"] == Int(versiculo)
    ensures ReferenceText(meta) == livro + ", Capítulo: " + IntToString(capitulo) + ", Versículo: " + IntToString(versiculo)
  {
  }

  // ---------------------------------------------------------------- the class

  class ObrasFunctions {
    const client: Client
    const collectionName: string
    var collection: Option<Handle>

    constructor (client: Client, collectionName: string)
      ensures this.client == client && this.collectionName == collectionName && collection == None
    {
      this.client := client;
      this.collectionName := collectionName;
      collection := None;
    }

    /** `load_collection()` over the parsed work. */
    method LoadCollection(data: seq<ObraItem>) returns (error: Option<Error>)
      modifies this, client
      ensures collection == Some(Handle(collectionName))
      ensures var run := LoadObra(old(client.collections), collectionName, data);
              client.collections == run.store && error == run.error
    {
      var names := client.ListCollectionNames();
      if collectionName in names {
        var got := client.GetCollection(collectionName);
        collection := Some(got.value);
        return None;
      }
      var h := client.CreateCollection(collectionName, L2);
      collection := Some(h.value);
      error := LoadBuffered(h.value, data);
    }

    /** The buffered loop of `load_collection`: keep, append, flush at 5000, then flush the rest. */
    method LoadBuffered(h: Handle, data: seq<ObraItem>) returns (error: Option<Error>)
      modifies client
      ensures var run := AddBatches(old(client.collections), h.name, Chunks(ObraRecords(h.name, data), BATCH_SIZE), false);
              client.collections == run.store && error == run.error
    {
      ghost var target := AddBatches(client.collections, h.name, Chunks(ObraRecords(h.name, data), BATCH_SIZE), false);
      var documents, metadatas, ids := [], [], [];
      error := None;
      var i := 0;
      assert Zip3(documents, ids, metadatas) + RecordsFrom(h.name, data, 0) == ObraRecords(h.name, data);
      while i < |data|
        invariant 0 <= i <= |data|
        invariant |documents| == |ids| == |metadatas| < BATCH_SIZE
        invariant AddBatches(client.collections, h.name,
                             Chunks(Zip3(documents, ids, metadatas) + RecordsFrom(h.name, data, i), BATCH_SIZE), false) == target
        invariant error == None
      {
        var item := data[i];
        var kept := ItemRecord(h.name, item, i);
        RecordsFromUnfold(h.name, data, i);
        if kept.Some? {
          assert RecordsFrom(h.name, data, i) == [kept.value] + RecordsFrom(h.name, data, i + 1);
          documents, ids, metadatas, error := Append(h, documents, ids, metadatas, kept.value, RecordsFrom(h.name, data, i + 1));
          if error.Some? {
            return;
          }
        } else {
          assert RecordsFrom(h.name, data, i) == RecordsFrom(h.name, data, i + 1);
        }
        i := i + 1;
      }
      assert Zip3(documents, ids, metadatas) + RecordsFrom(h.name, data, i) == Zip3(documents, ids, metadatas);
      error := FlushRest(h, documents, ids, metadatas);
    }

    /**
     * One kept item: its text, metadata and id are appended to the buffer,
     * which is flushed when it reaches 5000 entries. `rest` stands for the
     * records still to come, so that both sides describe the same remaining work.
     */
    method Append(h: Handle, documents0: seq<string>, ids0: seq<string>, metadatas0: seq<Metadata>, r: Record, ghost rest: seq<Record>)
      returns (documents: seq<string>, ids: seq<string>, metadatas: seq<Metadata>, error: Option<Error>)
      requires |documents0| == |ids0| == |metadatas0| < BATCH_SIZE
      modifies client
      ensures |documents| == |ids| == |metadatas| && (error.None? ==> |documents| < BATCH_SIZE)
      ensures |documents0| + 1 < BATCH_SIZE ==>
                error == None && client.collections == old(client.collections)
                && documents == documents0 + [r.doc] && ids == ids0 + [r.id] && metadatas == metadatas0 + [r.meta]
      ensures |documents0| + 1 == BATCH_SIZE ==>
                var add := Add(old(client.collections), h.name, Zip3(documents0 + [r.doc], ids0 + [r.id], metadatas0 + [r.meta]));
                client.collections == After(add, old(client.collections))
                && error == (if add.Success? then None else Some(add.error))
                && (error.None? ==> documents == [] && ids == [] && metadatas == [])
      ensures var run := AddBatches(old(client.collections), h.name, Chunks(Zip3(documents0, ids0, metadatas0) + ([r] + rest), BATCH_SIZE), false);
              if error.Some? then run == Run(client.collections, error)
              else AddBatches(client.collections, h.name, Chunks(Zip3(documents, ids, metadatas) + rest, BATCH_SIZE), false) == run
    {
      ghost var pending := Zip3(documents0, ids0, metadatas0) + ([r] + rest);
      ghost var run := AddBatches(client.collections, h.name, Chunks(pending, BATCH_SIZE), false);
      Zip3Snoc(documents0, ids0, metadatas0, r);
      documents, ids, metadatas := documents0 + [r.doc], ids0 + [r.id], metadatas0 + [r.meta];
      assert Zip3(documents, ids, metadatas) + rest == pending;
      error := None;
      if |documents| >= BATCH_SIZE {
        error := FlushFull(h, documents, ids, metadatas, rest);
        if error.None? {
          assert AddBatches(client.collections, h.name, Chunks(rest, BATCH_SIZE), false) == run;
          documents, ids, metadatas := [], [], [];
          assert Zip3(documents, ids, metadatas) + rest == rest;
        }
      }
    }

    /** The flush inside the loop: a full buffer of 5000 records is added as one batch. */
    method FlushFull(h: Handle, documents: seq<string>, ids: seq<string>, metadatas: seq<Metadata>, ghost rest: seq<Record>)
      returns (error: Option<Error>)
      requires |documents| == |ids| == |metadatas| == BATCH_SIZE
      modifies client
      ensures var add := Add(old(client.collections), h.name, Zip3(documents, ids, metadatas));
              client.collections == After(add, old(client.collections))
              && error == (if add.Success? then None else Some(add.error))
      ensures var run := AddBatches(old(client.collections), h.name, Chunks(Zip3(documents, ids, metadatas) + rest, BATCH_SIZE), false);
              error.Some? ==> run == Run(client.collections, error)
      ensures error.None? ==>
                AddBatches(old(client.collections), h.name, Chunks(Zip3(documents, ids, metadatas) + rest, BATCH_SIZE), false)
                == AddBatches(client.collections, h.name, Chunks(rest, BATCH_SIZE), false)
    {
      AddBatchesFlush(client.collections, h.name, Zip3(documents, ids, metadatas), rest, BATCH_SIZE);
      var out := client.AddRecords(h, Zip3(documents, ids, metadatas));
      error := if out.Fail? then Some(out.error) else None;
    }

    /** The flush after the loop: what is left in the buffer, if anything, is added as the last batch. */
    method FlushRest(h: Handle, documents: seq<string>, ids: seq<string>, metadatas: seq<Metadata>)
      returns (error: Option<Error>)
      requires |documents| == |ids| == |metadatas| < BATCH_SIZE
      modifies client
      ensures var run := AddBatches(old(client.collections), h.name, Chunks(Zip3(documents, ids, metadatas), BATCH_SIZE), false);
              client.collections == run.store && error == run.error
    {
      var buffer := Zip3(documents, ids, metadatas);
      if documents != [] {
        assert Chunks(buffer, BATCH_SIZE) == [buffer];
        var out := client.AddRecords(h, buffer);
        error := if out.Fail? then Some(out.error) else None;
      } else {
        assert Chunks<Record>([], BATCH_SIZE) == [];
        error := None;
      }
    }

    /** `delete_collection()`: forgets the bound collection on success; failure is only reported. */
    method DeleteCollection() returns (message: string)
      modifies this, client
      ensures client.collections == After(Delete(old(client.collections), collectionName), old(client.collections))
      ensures collection == if collectionName in old(client.collections) then None else old(collection)
      ensures message == if collectionName in old(client.collections) then BibliaFunctions.DeletedMessage(collectionName)
                         else BibliaFunctions.DeleteFailedMessage(collectionName, Describe(CollectionNotFound(collectionName)))
    {
      var r := client.DeleteCollection(collectionName);
      match r
      case Pass =>
        collection := None;
        message := BibliaFunctions.DeletedMessage(collectionName);
      case Fail(e) =>
        message := BibliaFunctions.DeleteFailedMessage(collectionName, Describe(e));
    }

    /**
     * `semantic_search(query, n_results)`: binds the collection (getting or
     * creating it) only when none is bound, then serialises the matches.
     */
    method SemanticSearch(query: string, nResults: nat, search: Search) returns (r: Result<string, Error>)
      modifies this, client
      ensures collection == if old(collection).Some? then old(collection) else Some(Handle(collectionName))
      ensures client.collections == if old(collection).Some? then old(client.collections)
                                    else GetOrCreate(old(client.collections), collectionName, L2)
      ensures var h := collection.value;
              r == if h.name in client.collections
                   then Success(Join(ObraParts(search(client.collections[h.name].records, query, nResults).documents,
                                               search(client.collections[h.name].records, query, nResults).metadatas), "\n\n"))
                   else Failure(CollectionNotFound(h.name))
    {
      if collection.None? {
        var h := client.GetOrCreateCollection(collectionName, L2);
        collection := Some(h);
      }
      var hits := client.Query(collection.value, query, nResults, search);
      if hits.Failure? {
        return Failure(hits.error);
      }
      var text := SerializeResults(hits.value.documents, hits.value.metadatas);
      r := Success(text);
    }
  }

  /** The block loop of `semantic_search`, then the join. */
  method SerializeResults(docs: seq<string>, metas: seq<Metadata>) returns (serialized: string)
    ensures serialized == Join(ObraParts(docs, metas), "\n\n")
  {
    var parts: seq<string> := [];
    var n := if |docs| < |metas| then |docs| else |metas|;
    var k := 0;
    while k < n
      invariant 0 <= k <= n
      invariant parts == ObraParts(docs, metas)[..k]
    {
      parts := parts + [ObraBlock(docs[k], metas[k])];
      k := k + 1;
    }
    assert parts == ObraParts(docs, metas);
    serialized := Join(parts, "\n\n");
  }
}
