/**
 * The stand-alone loader script utils.py/carregar_biblia.py: it always
 * rebuilds the "bibliaAveMaria" collection from scratch (delete, ignoring a
 * missing collection; create; one single add of every verse with
 * testament-tagged ids).
 */
module CarregarBiblia {
  import opened Wrappers
  import opened Corpus
  import opened VectorStore
  import opened VerseIndex
  import BibliaFunctions

  const COLLECTION_NAME := "bibliaAveMaria"

  /** The script on the store: delete (failure ignored), create, one add of all tagged records. */
  function Reload(s: Store, bible: Bible): Run {
    var s1 := After(Delete(s, COLLECTION_NAME), s);
    var s2 := s1[COLLECTION_NAME := Collection(L2, [])];
    match Add(s2, COLLECTION_NAME, BibliaFunctions.TaggedRecords(bible))
    case Success(s3) => Run(s3, None)
    case Failure(e) => Run(s2, Some(e))
  }

  /**
   * With a non-empty corpus whose ids do not repeat, the collection ends up
   * holding exactly the tagged verses, whatever it held before, and nothing
   * else in the store changes.
   */
  lemma ReloadReplaces(s: Store, bible: Bible)
    requires BibliaFunctions.TaggedRecords(bible) != []
    requires DistinctIds(BibliaFunctions.TaggedRecords(bible))
    ensures Reload(s, bible) == Run(s[COLLECTION_NAME := Collection(L2, BibliaFunctions.TaggedRecords(bible))], None)
  {
    var rs := BibliaFunctions.TaggedRecords(bible);
    var s1 := After(Delete(s, COLLECTION_NAME), s);
    var s2 := s1[COLLECTION_NAME := Collection(L2, [])];
    assert s2 == s[COLLECTION_NAME := Collection(L2, [])];
    AddToEmpty(s, COLLECTION_NAME, L2, rs);
  }

  /**
   * When the single add is refused (an empty corpus, repeated ids), the
   * script still leaves an empty collection behind in place of the old one.
   */
  lemma ReloadFailureLeavesEmpty(s: Store, bible: Bible)
    requires BibliaFunctions.TaggedRecords(bible) == [] || !DistinctIds(BibliaFunctions.TaggedRecords(bible))
    ensures Reload(s, bible).store == s[COLLECTION_NAME := Collection(L2, [])]
    ensures Reload(s, bible).error == Some(if BibliaFunctions.TaggedRecords(bible) == [] then EmptyBatch else DuplicateIds)
  {
    var s1 := After(Delete(s, COLLECTION_NAME), s);
    assert s1[COLLECTION_NAME := Collection(L2, [])] == s[COLLECTION_NAME := Collection(L2, [])];
  }

  /** Running the script twice leaves the store as running it once. */
  lemma {:induction false} ReloadIdempotent(s: Store, bible: Bible)
    ensures Reload(Reload(s, bible).store, bible) == Reload(s, bible)
  {
    var rs := BibliaFunctions.TaggedRecords(bible);
    if rs != [] && DistinctIds(rs) {
      ReloadReplaces(s, bible);
      ReloadReplaces(Reload(s, bible).store, bible);
      assert s[COLLECTION_NAME := Collection(L2, rs)][COLLECTION_NAME := Collection(L2, rs)]
          == s[COLLECTION_NAME := Collection(L2, rs)];
    } else {
      ReloadFailureLeavesEmpty(s, bible);
      ReloadFailureLeavesEmpty(Reload(s, bible).store, bible);
      assert s[COLLECTION_NAME := Collection(L2, [])][COLLECTION_NAME := Collection(L2, [])]
          == s[COLLECTION_NAME := Collection(L2, [])];
    }
  }

  /** `carregar_biblia()` against the module-level client; the add's failure is returned, not raised. */
  method Carregar(client: Client, bible: Bible) returns (error: Option<Error>)
    modifies client
    ensures var run := Reload(old(client.collections), bible);
            client.collections == run.store && error == run.error
  {
    var _ := client.DeleteCollection(COLLECTION_NAME);
    var created := client.CreateCollection(COLLECTION_NAME, L2);
    var collection := created.value;
    var documentos, ids, metadados := CollectVerses(Tagged(OLD_TESTAMENT_TAG), BooksOf(bible.antigoTestamento), [], [], []);
    documentos, ids, metadados := CollectVerses(Tagged(NEW_TESTAMENT_TAG), BooksOf(bible.novoTestamento), documentos, ids, metadados);
    assert Zip3([], [], []) == [];
    assert Zip3(documentos, ids, metadados) == BibliaFunctions.TaggedRecords(bible);
    var out := client.AddRecords(collection, Zip3(documentos, ids, metadados));
    error := if out.Fail? then Some(out.error) else None;
  }
}
