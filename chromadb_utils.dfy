/**
 * The store loader of src/chromadb_utils.py: the `ChromaDB` class, which
 * opens (or creates, with cosine distance) collections by name, deletes
 * them, adds documents that are not yet stored, adds aligned lists in
 * slices of 5000, and at start-up rebuilds each of its three collections
 * whenever its record count differs from the count computed from the data.
 *
 * The JSON files are parameters (already parsed); the embedding model is
 * not part of this model.
 */
module ChromaUtils {
  import opened Wrappers
  import opened Text
  import opened Corpus
  import opened VectorStore
  import opened VerseIndex

  const BIBLE_COLLECTION := "biblia_ave_maria"
  const DICTIONARY_COLLECTION := "dicionario_easton"
  const TOPICS_COLLECTION := "naves_topical"
  const BATCH_SIZE: nat := 5000

  function DeletedMessage(name: string): string {
    "Coleção '" + name + "' foi deletada com sucesso."
  }

  function DeleteFailedMessage(name: string, reason: string): string {
    "Erro ao deletar a coleção '" + name + "': " + reason
  }

  // ---------------------------------------------------------------- add_documents

  /** `zip(docs, ids)` as records without metadata. */
  function Pairs(docs: seq<string>, ids: seq<string>): (rs: seq<Record>)
    ensures |rs| == if |docs| < |ids| then |docs| else |ids|
  {
    var n := if |docs| < |ids| then |docs| else |ids|;
    seq(n, k requires 0 <= k < n => Record(docs[k], ids[k], map[]))
  }

  /**
   * `add_documents`: open or create the collection, keep the pairs whose id
   * is not stored yet, and add them if there are any.
   */
  function AddDocumentsRun(s: Store, name: string, docs: seq<string>, ids: seq<string>): Run {
    var s1 := GetOrCreate(s, name, Cosine);
    var unseen := Unseen(s1[name].records, Pairs(docs, ids));
    if unseen == [] then Run(s1, None)
    else
      match Add(s1, name, unseen)
      case Failure(e) => Run(s1, Some(e))
      case Success(s2) => Run(s2, None)
  }

  /**
   * With pairwise distinct ids, `add_documents` appends exactly the pairs
   * whose id was not stored, in order, and a second identical call changes
   * nothing: afterwards every given id is stored.
   */
  lemma AddDocumentsSkipsStored(s: Store, name: string, docs: seq<string>, ids: seq<string>)
    requires DistinctIds(Pairs(docs, ids))
    ensures var s1 := GetOrCreate(s, name, Cosine);
            var run := AddDocumentsRun(s, name, docs, ids);
            run == Run(s1[name := s1[name].(records := s1[name].records + Unseen(s1[name].records, Pairs(docs, ids)))], None)
    ensures var run := AddDocumentsRun(s, name, docs, ids);
            forall k :: 0 <= k < |Pairs(docs, ids)| ==> HasId(run.store[name].records, Pairs(docs, ids)[k].id)
    ensures var run := AddDocumentsRun(s, name, docs, ids);
            AddDocumentsRun(run.store, name, docs, ids) == run
  {
    var s1 := GetOrCreate(s, name, Cosine);
    var stored, batch := s1[name].records, Pairs(docs, ids);
    var unseen := Unseen(stored, batch);
    UnseenCovers(stored, batch);
    if unseen == [] {
      assert stored + unseen == stored;
      assert s1[name := s1[name].(records := stored)] == s1;
      UnseenNone(stored, batch);
    } else {
      UnseenDistinct(stored, batch);
      assert forall k :: 0 <= k < |unseen| ==> unseen[k] in unseen;
      UnseenAllNew(stored, unseen);
      var s2 := s1[name := s1[name].(records := stored + unseen)];
      assert Add(s1, name, unseen) == Success(s2);
      UnseenNone(stored + unseen, batch);
    }
  }

  /** Filtering keeps distinct ids distinct. */
  lemma {:induction false} UnseenDistinct(existing: seq<Record>, batch: seq<Record>)
    requires DistinctIds(batch)
    ensures DistinctIds(Unseen(existing, batch))
    ensures forall r :: r in Unseen(existing, batch) ==> r in batch && !HasId(existing, r.id)
    decreases |batch|
  {
    if batch != [] {
      UnseenDistinct(existing, batch[1..]);
      var rest := Unseen(existing, batch[1..]);
      forall r | r in rest ensures r in batch {
        assert r in batch[1..];
      }
      forall r | r in rest ensures r.id != batch[0].id {
        var m :| 0 <= m < |batch[1..]| && batch[1..][m] == r;
        assert batch[m + 1] == r;
      }
      var head := if HasId(existing, batch[0].id) then [] else [batch[0]];
      var all := head + rest;
      forall i, j | 0 <= i < j < |all| ensures all[i].id != all[j].id {
        if head == [] {
          assert all == rest;
        } else if i == 0 {
          assert all[j] == rest[j - 1] && rest[j - 1] in rest;
        } else {
          assert all[i] == rest[i - 1] && all[j] == rest[j - 1];
        }
      }
    }
  }

  // ---------------------------------------------------------------- flattening the dictionary and the topics

  /** Entry `i` of Easton's dictionary: its description, id "termo_i", metadata {termo}. */
  function DictionaryRecords(entries: seq<DictionaryEntry>): seq<Record> {
    seq(|entries|, i requires 0 <= i < |entries| =>
      Record(entries[i].descricao, entries[i].termo + "_" + NatToString(i), map["termo" := Str(entries[i].termo)]))
  }

  /** Entry `i` of Nave's index: its references joined by "; ", id "topic_i", metadata {topic}. */
  function TopicRecords(entries: seq<TopicEntry>): seq<Record> {
    seq(|entries|, i requires 0 <= i < |entries| =>
      Record(Join(entries[i].versiculos, "; "), entries[i].topic + "_" + NatToString(i), map["topic" := Str(entries[i].topic)]))
  }

  /**
   * The enumerated ids are pairwise distinct even when terms or topics
   * repeat, so neither collection's insert can fail on duplicate ids.
   */
  lemma EnumeratedIdsDistinct(dicionario: seq<DictionaryEntry>, naves: seq<TopicEntry>)
    ensures DistinctIds(DictionaryRecords(dicionario))
    ensures DistinctIds(TopicRecords(naves))
  {
    var d, t := DictionaryRecords(dicionario), TopicRecords(naves);
    forall i, j | 0 <= i < j < |d| ensures d[i].id != d[j].id {
      EnumeratedIdPosition(dicionario[i].termo, i, dicionario[j].termo, j);
    }
    forall i, j | 0 <= i < j < |t| ensures t[i].id != t[j].id {
      EnumeratedIdPosition(naves[i].topic, i, naves[j].topic, j);
    }
  }

  /** The verse records of the loader: every book of antigoTestamento, then of novoTestamento, by reference. */
  function BibleRecords(oldTestament: seq<Book>, bible: Bible): seq<Record> {
    BooksRecords(Reference, oldTestament + BooksOf(bible.novoTestamento))
  }

  /** Distinct verse references over both testaments give the reference-keyed records distinct ids. */
  lemma BibleIdsDistinct(oldTestament: seq<Book>, bible: Bible)
    requires DistinctReferences(oldTestament + BooksOf(bible.novoTestamento))
    ensures DistinctIds(BibleRecords(oldTestament, bible))
  {
    DistinctReferenceIds(Reference, oldTestament + BooksOf(bible.novoTestamento));
  }

  // ---------------------------------------------------------------- ensure_collections

  /**
   * One collection's refresh: open or create it; when its record count
   * differs from `|rs|`, delete it, create it again and add `rs` in slices.
   */
  function Refresh(s: Store, name: string, rs: seq<Record>): Run {
    var s1 := GetOrCreate(s, name, Cosine);
    if |s1[name].records| == |rs| then Run(s1, None)
    else
      var s2 := GetOrCreate(s1 - {name}, name, Cosine);
      AddBatches(s2, name, Chunks(rs, BATCH_SIZE), true)
  }

  /**
   * With distinct ids a refresh succeeds and leaves the collection with
   * `|rs|` records: exactly `rs` when it rebuilt, or what was there when the
   * count already agreed. No other collection is created, removed or changed.
   */
  lemma RefreshLoads(s: Store, name: string, rs: seq<Record>)
    requires DistinctIds(rs)
    ensures var run := Refresh(s, name, rs);
            run.error == None && name in run.store && |run.store[name].records| == |rs|
            && (run.store[name].records == rs || run.store == GetOrCreate(s, name, Cosine))
    ensures var run := Refresh(s, name, rs);
            forall other :: other != name ==> (other in run.store <==> other in s) && (other in s ==> run.store[other] == s[other])
  {
    var s1 := GetOrCreate(s, name, Cosine);
    if |s1[name].records| != |rs| {
      var s2 := GetOrCreate(s1 - {name}, name, Cosine);
      ChunksProperties(rs, BATCH_SIZE);
      assert s2[name].records + Concat(Chunks(rs, BATCH_SIZE)) == rs;
      AddBatchesExact(s2, name, Chunks(rs, BATCH_SIZE), true);
    }
  }

  /**
   * The count test looks at sizes only: a collection that already holds as
   * many records as computed is kept as it is, whatever those records are.
   */
  lemma RefreshKeepsSameSize(s: Store, name: string, rs: seq<Record>)
    requires name in s && |s[name].records| == |rs|
    ensures Refresh(s, name, rs) == Run(s, None)
  {
  }

  /** Refreshing twice with the same data changes nothing the second time. */
  lemma RefreshIdempotent(s: Store, name: string, rs: seq<Record>)
    requires DistinctIds(rs)
    ensures var run := Refresh(s, name, rs);
            Refresh(run.store, name, rs) == Run(run.store, None)
  {
    RefreshLoads(s, name, rs);
  }

  /** The three handles `ensure_collections` returns. */
  datatype Handles = Handles(biblia: Handle, dicionario: Handle, naves: Handle)

  /**
   * `ensure_collections`: the verse corpus must have antigoTestamento; then
   * the three collections are refreshed in turn, stopping at the first
   * failure, and each is opened again for the returned handles.
   */
  function EnsureAll(s: Store, bible: Bible, dicionario: seq<DictionaryEntry>, naves: seq<TopicEntry>): Run {
    match bible.antigoTestamento
    case None => Run(s, Some(MissingKey("antigoTestamento")))
    case Some(ot) =>
      var r1 := Refresh(s, BIBLE_COLLECTION, BibleRecords(ot, bible));
      if r1.error.Some? then r1
      else
        var r2 := Refresh(r1.store, DICTIONARY_COLLECTION, DictionaryRecords(dicionario));
        if r2.error.Some? then r2
        else
          var r3 := Refresh(r2.store, TOPICS_COLLECTION, TopicRecords(naves));
          if r3.error.Some? then r3
          else
            var s4 := GetOrCreate(GetOrCreate(GetOrCreate(r3.store, BIBLE_COLLECTION, Cosine),
                                              DICTIONARY_COLLECTION, Cosine), TOPICS_COLLECTION, Cosine);
            Run(s4, None)
  }

  /** The three collection names, and whether a refresh of one may touch another. */
  predicate IsManaged(name: string) {
    name == BIBLE_COLLECTION || name == DICTIONARY_COLLECTION || name == TOPICS_COLLECTION
  }

  /**
   * When the verse references are distinct, start-up succeeds and each of the
   * three collections holds as many records as computed from its data; every
   * other collection is left as it was.
   */
  lemma EnsureAllLoads(s: Store, bible: Bible, dicionario: seq<DictionaryEntry>, naves: seq<TopicEntry>)
    requires bible.antigoTestamento.Some?
    requires DistinctIds(BibleRecords(bible.antigoTestamento.value, bible))
    ensures var run := EnsureAll(s, bible, dicionario, naves);
            run.error == None
            && BIBLE_COLLECTION in run.store && DICTIONARY_COLLECTION in run.store && TOPICS_COLLECTION in run.store
            && |run.store[BIBLE_COLLECTION].records| == |BibleRecords(bible.antigoTestamento.value, bible)|
            && |run.store[DICTIONARY_COLLECTION].records| == |dicionario|
            && |run.store[TOPICS_COLLECTION].records| == |naves|
    ensures var run := EnsureAll(s, bible, dicionario, naves);
            forall other :: !IsManaged(other) ==> (other in run.store <==> other in s) && (other in s ==> run.store[other] == s[other])
  {
    var ot := bible.antigoTestamento.value;
    EnumeratedIdsDistinct(dicionario, naves);
    var r1 := Refresh(s, BIBLE_COLLECTION, BibleRecords(ot, bible));
    RefreshLoads(s, BIBLE_COLLECTION, BibleRecords(ot, bible));
    var r2 := Refresh(r1.store, DICTIONARY_COLLECTION, DictionaryRecords(dicionario));
    RefreshLoads(r1.store, DICTIONARY_COLLECTION, DictionaryRecords(dicionario));
    var r3 := Refresh(r2.store, TOPICS_COLLECTION, TopicRecords(naves));
    RefreshLoads(r2.store, TOPICS_COLLECTION, TopicRecords(naves));
  }

  /** A second start-up over the same data finds every count right and changes nothing. */
  lemma EnsureAllIdempotent(s: Store, bible: Bible, dicionario: seq<DictionaryEntry>, naves: seq<TopicEntry>)
    requires bible.antigoTestamento.Some?
    requires DistinctIds(BibleRecords(bible.antigoTestamento.value, bible))
    ensures var run := EnsureAll(s, bible, dicionario, naves);
            EnsureAll(run.store, bible, dicionario, naves) == Run(run.store, None)
  {
    EnsureAllLoads(s, bible, dicionario, naves);
    var t := EnsureAll(s, bible, dicionario, naves).store;
    var ot := bible.antigoTestamento.value;
    assert Refresh(t, BIBLE_COLLECTION, BibleRecords(ot, bible)) == Run(t, None);
    assert Refresh(t, DICTIONARY_COLLECTION, DictionaryRecords(dicionario)) == Run(t, None);
    assert Refresh(t, TOPICS_COLLECTION, TopicRecords(naves)) == Run(t, None);
  }

  // ---------------------------------------------------------------- the class

  /**
   * The filtering loop of `add_documents`: the (doc, id) pairs of the zipped
   * lists whose id is not among the stored ids, in order.
   */
  method SelectNew(docs: seq<string>, ids: seq<string>, existing: set<string>, ghost stored: seq<Record>)
    returns (newDocs: seq<string>, newIds: seq<string>)
    requires forall id :: id in existing <==> HasId(stored, id)
    ensures |newDocs| == |newIds|
    ensures Pairs(newDocs, newIds) == Unseen(stored, Pairs(docs, ids))
  {
    ghost var all := Pairs(docs, ids);
    var n := if |docs| < |ids| then |docs| else |ids|;
    newDocs, newIds := [], [];
    var k := 0;
    while k < n
      invariant 0 <= k <= n
      invariant |newDocs| == |newIds|
      invariant Pairs(newDocs, newIds) == Unseen(stored, all[..k])
    {
      UnseenSnoc(stored, all[..k], all[k]);
      assert all[..k + 1] == all[..k] + [all[k]];
      if ids[k] !in existing {
        assert Pairs(newDocs + [docs[k]], newIds + [ids[k]]) == Pairs(newDocs, newIds) + [all[k]];
        newDocs, newIds := newDocs + [docs[k]], newIds + [ids[k]];
      }
      k := k + 1;
    }
    assert all[..k] == all;
  }

  class ChromaDB {
    const client: Client

    constructor (client: Client)
      ensures this.client == client
    {
      this.client := client;
    }

    /** `_get_collection(name)`: the existing collection, or a new one with cosine distance. */
    method GetCollection(name: string) returns (h: Handle)
      modifies client
      ensures h == Handle(name)
      ensures client.collections == GetOrCreate(old(client.collections), name, Cosine)
    {
      var names := client.ListCollectionNames();
      if name in names {
        var r := client.GetCollection(name);
        h := r.value;
      } else {
        var r := client.CreateCollection(name, Cosine);
        h := r.value;
      }
    }

    /** `delete_collection(name)`: the outcome as a message; a missing collection is reported, not raised. */
    method DeleteCollection(name: string) returns (message: string)
      modifies client
      ensures client.collections == After(Delete(old(client.collections), name), old(client.collections))
      ensures message == if name in old(client.collections) then DeletedMessage(name)
                         else DeleteFailedMessage(name, Describe(CollectionNotFound(name)))
    {
      var r := client.DeleteCollection(name);
      match r
      case Pass => message := DeletedMessage(name);
      case Fail(e) => message := DeleteFailedMessage(name, Describe(e));
    }

    /** `add_documents(collection_name, docs, ids)`. */
    method AddDocuments(name: string, docs: seq<string>, ids: seq<string>) returns (r: Result<Handle, Error>)
      modifies client
      ensures var run := AddDocumentsRun(old(client.collections), name, docs, ids);
              client.collections == run.store
              && r == if run.error.None? then Success(Handle(name)) else Failure(run.error.value)
    {
      var h := GetCollection(name);
      ghost var s1 := client.collections;
      var got := client.GetIds(h);
      var existing := set id | id in got.value;
      ghost var stored := client.collections[name].records;
      assert forall id :: id in existing <==> HasId(stored, id) by {
        forall id ensures id in existing <==> HasId(stored, id) {
          if HasId(stored, id) {
            var m :| 0 <= m < |stored| && stored[m].id == id;
            assert got.value[m] == id;
          }
        }
      }
      var newDocs, newIds := SelectNew(docs, ids, existing, stored);
      if newDocs != [] {
        var out := client.AddRecords(h, Pairs(newDocs, newIds));
        r := if out.Pass? then Success(h) else Failure(out.error);
      } else {
        r := Success(h);
      }
    }

    /** `_add_in_batches`: slices of 5000 aligned items, the collection opened before each. */
    method AddInBatches(name: string, docs: seq<string>, ids: seq<string>, metas: seq<Metadata>)
      returns (error: Option<Error>)
      requires |docs| == |ids| == |metas|
      modifies client
      ensures var run := AddBatches(old(client.collections), name, Chunks(Zip3(docs, ids, metas), BATCH_SIZE), true);
              client.collections == run.store && error == run.error
    {
      ghost var rs := Zip3(docs, ids, metas);
      ghost var target := AddBatches(client.collections, name, Chunks(rs, BATCH_SIZE), true);
      error := None;
      var i := 0;
      while i < |docs|
        invariant 0 <= i <= |docs|
        invariant AddBatches(client.collections, name, Chunks(rs[i..], BATCH_SIZE), true) == target
        invariant error == None
        decreases |docs| - i
      {
        var end := if i + BATCH_SIZE < |docs| then i + BATCH_SIZE else |docs|;
        ChunksStep(rs, BATCH_SIZE, i);
        Zip3Slice(docs, ids, metas, i, end);
        var batch := Zip3(docs[i..end], ids[i..end], metas[i..end]);
        ghost var chunks := Chunks(rs[i..], BATCH_SIZE);
        assert chunks[0] == batch && chunks[1..] == Chunks(rs[end..], BATCH_SIZE);
        var h := GetCollection(name);
        var out := client.AddRecords(h, batch);
        if out.Fail? {
          error := Some(out.error);
          return;
        }
        i := end;
      }
      assert rs[i..] == [];
      assert Chunks<Record>([], BATCH_SIZE) == [];
    }

    /** One refresh step of `ensure_collections`. */
    method RefreshCollection(name: string, docs: seq<string>, ids: seq<string>, metas: seq<Metadata>)
      returns (error: Option<Error>)
      requires |docs| == |ids| == |metas|
      modifies client
      ensures var run := Refresh(old(client.collections), name, Zip3(docs, ids, metas));
              client.collections == run.store && error == run.error
    {
      var h := GetCollection(name);
      ghost var s1 := client.collections;
      var got := client.GetIds(h);
      if |got.value| != |ids| {
        var _ := client.DeleteCollection(name);
        assert client.collections == s1 - {name};
        h := GetCollection(name);
        assert client.collections == GetOrCreate(s1 - {name}, name, Cosine);
        error := AddInBatches(name, docs, ids, metas);
      } else {
        error := None;
      }
    }

    /** The dictionary loop: description, "termo_i", {termo} for each entry. */
    method FlattenDictionary(dicionario: seq<DictionaryEntry>)
      returns (docs: seq<string>, ids: seq<string>, metas: seq<Metadata>)
      ensures |docs| == |ids| == |metas|
      ensures Zip3(docs, ids, metas) == DictionaryRecords(dicionario)
    {
      docs, ids, metas := [], [], [];
      ghost var all := DictionaryRecords(dicionario);
      var i := 0;
      while i < |dicionario|
        invariant 0 <= i <= |dicionario|
        invariant |docs| == |ids| == |metas| == i
        invariant Zip3(docs, ids, metas) == all[..i]
      {
        var termo, descricao := dicionario[i].termo, dicionario[i].descricao;
        Zip3Snoc(docs, ids, metas, all[i]);
        docs, ids, metas := docs + [descricao], ids + [termo + "_" + NatToString(i)], metas + [map["termo" := Str(termo)]];
        assert all[..i + 1] == all[..i] + [all[i]];
        i := i + 1;
      }
      assert all[..i] == all;
    }

    /** The topic loop: references joined by "; ", "topic_i", {topic} for each entry. */
    method FlattenTopics(naves: seq<TopicEntry>)
      returns (docs: seq<string>, ids: seq<string>, metas: seq<Metadata>)
      ensures |docs| == |ids| == |metas|
      ensures Zip3(docs, ids, metas) == TopicRecords(naves)
    {
      docs, ids, metas := [], [], [];
      ghost var all := TopicRecords(naves);
      var i := 0;
      while i < |naves|
        invariant 0 <= i <= |naves|
        invariant |docs| == |ids| == |metas| == i
        invariant Zip3(docs, ids, metas) == all[..i]
      {
        var topic := naves[i].topic;
        var referencias := Join(naves[i].versiculos, "; ");
        Zip3Snoc(docs, ids, metas, all[i]);
        docs, ids, metas := docs + [referencias], ids + [topic + "_" + NatToString(i)], metas + [map["topic" := Str(topic)]];
        assert all[..i + 1] == all[..i] + [all[i]];
        i := i + 1;
      }
      assert all[..i] == all;
    }

    /** `ensure_collections` over already parsed data files. */
    method EnsureCollections(bible: Bible, dicionario: seq<DictionaryEntry>, naves: seq<TopicEntry>)
      returns (r: Result<Handles, Error>)
      modifies client
      ensures var run := EnsureAll(old(client.collections), bible, dicionario, naves);
              client.collections == run.store
              && r == if run.error.None? then Success(Handles(Handle(BIBLE_COLLECTION), Handle(DICTIONARY_COLLECTION), Handle(TOPICS_COLLECTION)))
                      else Failure(run.error.value)
    {
      if bible.antigoTestamento.None? {
        return Failure(MissingKey("antigoTestamento"));
      }
      var ot := bible.antigoTestamento.value;
      ghost var s0 := client.collections;
      var docs, ids, metas := CollectVerses(Reference, ot + BooksOf(bible.novoTestamento), [], [], []);
      assert Zip3([], [], []) == [];
      assert Zip3(docs, ids, metas) == BibleRecords(ot, bible);
      var error := RefreshCollection(BIBLE_COLLECTION, docs, ids, metas);
      ghost var r1 := Refresh(s0, BIBLE_COLLECTION, BibleRecords(ot, bible));
      assert client.collections == r1.store && error == r1.error;
      if error.Some? {
        return Failure(error.value);
      }
      docs, ids, metas := FlattenDictionary(dicionario);
      error := RefreshCollection(DICTIONARY_COLLECTION, docs, ids, metas);
      ghost var r2 := Refresh(r1.store, DICTIONARY_COLLECTION, DictionaryRecords(dicionario));
      assert client.collections == r2.store && error == r2.error;
      if error.Some? {
        assert EnsureAll(s0, bible, dicionario, naves) == r2;
        return Failure(error.value);
      }
      docs, ids, metas := FlattenTopics(naves);
      error := RefreshCollection(TOPICS_COLLECTION, docs, ids, metas);
      ghost var r3 := Refresh(r2.store, TOPICS_COLLECTION, TopicRecords(naves));
      assert client.collections == r3.store && error == r3.error;
      if error.Some? {
        assert EnsureAll(s0, bible, dicionario, naves) == r3;
        return Failure(error.value);
      }
      var biblia := GetCollection(BIBLE_COLLECTION);
      var dic := GetCollection(DICTIONARY_COLLECTION);
      var nav := GetCollection(TOPICS_COLLECTION);
      r := Success(Handles(biblia, dic, nav));
    }
  }
}
