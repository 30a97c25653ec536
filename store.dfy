/**
 * The vector store behind every loader: a set of named collections of
 * (document, id, metadata) records, kept in memory. Embeddings and
 * nearest-neighbour ranking are not part of this model; a query is a
 * function parameter that returns two sequences.
 *
 * The store's own rules, as the loaders rely on them:
 * - creating a name that exists, or getting or deleting one that does not, fails;
 * - an insert into a missing collection, an empty insert, and an insert whose
 *   ids repeat among themselves fail and change nothing;
 * - otherwise the records are appended in order, except those whose id is
 *   already stored, which are skipped.
 */
module VectorStore {
  import opened Wrappers
  import opened Text

  /** A metadata value. */
  datatype Scalar = Str(s: string) | Int(n: int)

  /** `f"{value}"`. */
  function Render(v: Scalar): string {
    match v
    case Str(s) => s
    case Int(n) => IntToString(n)
  }

  type Metadata = map<string, Scalar>

  datatype Record = Record(doc: string, id: string, meta: Metadata)

  /** The distance a collection is configured with: cosine, or the store's default (L2). */
  datatype Space = Cosine | L2

  datatype Collection = Collection(space: Space, records: seq<Record>)

  type Store = map<string, Collection>

  datatype Error =
    | CollectionNotFound(name: string)
    | CollectionExists(name: string)
    | EmptyBatch
    | DuplicateIds
    | MissingKey(key: string)

  /** `str(e)` for the store's exceptions. */
  function Describe(e: Error): string {
    match e
    case CollectionNotFound(name) => "Collection " + name + " does not exist."
    case CollectionExists(name) => "Collection " + name + " already exists"
    case EmptyBatch => "Expected IDs to be a non-empty list"
    case DuplicateIds => "Expected IDs to be unique"
    case MissingKey(key) => "'" + key + "'"
  }

  /** Where a sequence of store calls got to: the store reached and the error that stopped it, if any. */
  datatype Run = Run(store: Store, error: Option<Error>)

  /** The store after a call that either succeeds with a new store or fails and changes nothing. */
  function After(r: Result<Store, Error>, s: Store): Store {
    match r
    case Success(s') => s'
    case Failure(_) => s
  }

  // ---------------------------------------------------------------- records

  /** Three aligned lists read position by position. */
  function Zip3(docs: seq<string>, ids: seq<string>, metas: seq<Metadata>): (rs: seq<Record>)
    requires |docs| == |ids| == |metas|
    ensures |rs| == |docs|
  {
    seq(|docs|, k requires 0 <= k < |docs| => Record(docs[k], ids[k], metas[k]))
  }

  lemma Zip3Snoc(docs: seq<string>, ids: seq<string>, metas: seq<Metadata>, r: Record)
    requires |docs| == |ids| == |metas|
    ensures Zip3(docs + [r.doc], ids + [r.id], metas + [r.meta]) == Zip3(docs, ids, metas) + [r]
  {
  }

  lemma Zip3Slice(docs: seq<string>, ids: seq<string>, metas: seq<Metadata>, i: int, j: int)
    requires |docs| == |ids| == |metas|
    requires 0 <= i <= j <= |docs|
    ensures Zip3(docs[i..j], ids[i..j], metas[i..j]) == Zip3(docs, ids, metas)[i..j]
  {
  }

  predicate HasId(rs: seq<Record>, id: string) {
    exists k :: 0 <= k < |rs| && rs[k].id == id
  }

  predicate DistinctIds(rs: seq<Record>) {
    forall i, j :: 0 <= i < j < |rs| ==> rs[i].id != rs[j].id
  }

  /** The records of a batch whose id is not yet stored, in batch order. */
  function Unseen(existing: seq<Record>, batch: seq<Record>): seq<Record> {
    if batch == [] then []
    else (if HasId(existing, batch[0].id) then [] else [batch[0]]) + Unseen(existing, batch[1..])
  }

  /** A batch none of whose ids is stored passes through whole. */
  lemma {:induction false} UnseenAllNew(existing: seq<Record>, batch: seq<Record>)
    requires forall k :: 0 <= k < |batch| ==> !HasId(existing, batch[k].id)
    ensures Unseen(existing, batch) == batch
  {
    if batch != [] {
      UnseenAllNew(existing, batch[1..]);
    }
  }

  /** Filtering a batch one record longer filters that record last. */
  lemma {:induction false} UnseenSnoc(existing: seq<Record>, batch: seq<Record>, r: Record)
    ensures Unseen(existing, batch + [r]) == Unseen(existing, batch) + (if HasId(existing, r.id) then [] else [r])
    decreases |batch|
  {
    var last := if HasId(existing, r.id) then [] else [r];
    if batch == [] {
      assert [] + [r] == [r];
      assert [r][1..] == [];
      assert Unseen(existing, [r]) == last + Unseen(existing, []);
    } else {
      var head := if HasId(existing, batch[0].id) then [] else [batch[0]];
      assert (batch + [r])[0] == batch[0];
      assert (batch + [r])[1..] == batch[1..] + [r];
      UnseenSnoc(existing, batch[1..], r);
      assert Unseen(existing, batch + [r]) == head + Unseen(existing, batch[1..] + [r]);
      assert Unseen(existing, batch) == head + Unseen(existing, batch[1..]);
    }
  }

  /** After the unseen records are appended, every id of the batch is stored. */
  lemma {:induction false} UnseenCovers(existing: seq<Record>, batch: seq<Record>)
    ensures forall k :: 0 <= k < |batch| ==> HasId(existing + Unseen(existing, batch), batch[k].id)
    decreases |batch|
  {
    if batch != [] {
      var head := if HasId(existing, batch[0].id) then [] else [batch[0]];
      var rest := Unseen(existing, batch[1..]);
      UnseenCovers(existing, batch[1..]);
      var all := existing + (head + rest);
      forall k | 0 <= k < |batch| ensures HasId(all, batch[k].id) {
        if k == 0 {
          if HasId(existing, batch[0].id) {
            var m :| 0 <= m < |existing| && existing[m].id == batch[0].id;
            assert all[m] == existing[m];
          } else {
            assert all[|existing|] == batch[0];
          }
        } else {
          assert batch[1..][k - 1] == batch[k];
          var m :| 0 <= m < |existing + rest| && (existing + rest)[m].id == batch[k].id;
          if m < |existing| {
            assert all[m] == existing[m];
          } else {
            assert all[m + |head|] == rest[m - |existing|];
          }
        }
      }
    }
  }

  /** A batch whose every id is stored is filtered away completely. */
  lemma {:induction false} UnseenNone(existing: seq<Record>, batch: seq<Record>)
    requires forall k :: 0 <= k < |batch| ==> HasId(existing, batch[k].id)
    ensures Unseen(existing, batch) == []
    decreases |batch|
  {
    if batch != [] {
      UnseenNone(existing, batch[1..]);
    }
  }

  /** A record whose id the rest lacks can go in front of distinct records. */
  lemma DistinctCons(r: Record, rest: seq<Record>)
    requires DistinctIds(rest) && !HasId(rest, r.id)
    ensures DistinctIds([r] + rest)
  {
    var all := [r] + rest;
    forall a, b | 0 <= a < b < |all| ensures all[a].id != all[b].id {
      assert all[b] == rest[b - 1];
      if a > 0 {
        assert all[a] == rest[a - 1];
      }
    }
  }

  /** Distinct ids in `a + b` mean distinct ids in each part and no id of `b` in `a`. */
  lemma DistinctSplit(a: seq<Record>, b: seq<Record>)
    requires DistinctIds(a + b)
    ensures DistinctIds(a) && DistinctIds(b)
    ensures forall k :: 0 <= k < |b| ==> !HasId(a, b[k].id)
  {
    forall k, m | 0 <= k < |b| && 0 <= m < |a| ensures a[m].id != b[k].id {
      assert (a + b)[m] == a[m] && (a + b)[|a| + k] == b[k];
    }
    forall i, j | 0 <= i < j < |a| ensures a[i].id != a[j].id {
      assert (a + b)[i] == a[i] && (a + b)[j] == a[j];
    }
    forall i, j | 0 <= i < j < |b| ensures b[i].id != b[j].id {
      assert (a + b)[|a| + i] == b[i] && (a + b)[|a| + j] == b[j];
    }
  }

  /** Two lists of distinct ids that share no id concatenate to a list of distinct ids. */
  lemma DistinctJoin(a: seq<Record>, b: seq<Record>)
    requires DistinctIds(a) && DistinctIds(b)
    requires forall m, k :: 0 <= m < |a| && 0 <= k < |b| ==> a[m].id != b[k].id
    ensures DistinctIds(a + b)
  {
    var all := a + b;
    forall i, j | 0 <= i < j < |all| ensures all[i].id != all[j].id {
      if j < |a| {
        assert all[i] == a[i] && all[j] == a[j];
      } else if i < |a| {
        assert all[i] == a[i] && all[j] == b[j - |a|];
      } else {
        assert all[i] == b[i - |a|] && all[j] == b[j - |a|];
      }
    }
  }

  // ---------------------------------------------------------------- store transitions

  function GetOrCreate(s: Store, name: string, space: Space): Store {
    if name in s then s else s[name := Collection(space, [])]
  }

  function Create(s: Store, name: string, space: Space): Result<Store, Error> {
    if name in s then Failure(CollectionExists(name)) else Success(s[name := Collection(space, [])])
  }

  function Delete(s: Store, name: string): Result<Store, Error> {
    if name in s then Success(s - {name}) else Failure(CollectionNotFound(name))
  }

  function Add(s: Store, name: string, batch: seq<Record>): Result<Store, Error> {
    if name !in s then Failure(CollectionNotFound(name))
    else if batch == [] then Failure(EmptyBatch)
    else if !DistinctIds(batch) then Failure(DuplicateIds)
    else Success(s[name := s[name].(records := s[name].records + Unseen(s[name].records, batch))])
  }

  /** A non-empty batch of new, pairwise distinct ids is appended as it is, and nothing else changes. */
  lemma AddFresh(s: Store, name: string, batch: seq<Record>)
    requires name in s && batch != []
    requires DistinctIds(s[name].records + batch)
    ensures Add(s, name, batch) == Success(s[name := s[name].(records := s[name].records + batch)])
  {
    DistinctSplit(s[name].records, batch);
    UnseenAllNew(s[name].records, batch);
  }

  /** A non-empty batch of distinct ids added to a freshly emptied collection becomes its whole content. */
  lemma AddToEmpty(s: Store, name: string, space: Space, batch: seq<Record>)
    requires batch != [] && DistinctIds(batch)
    ensures Add(s[name := Collection(space, [])], name, batch) == Success(s[name := Collection(space, batch)])
  {
    var e := s[name := Collection(space, [])];
    assert e[name].records + batch == batch;
    AddFresh(e, name, batch);
    assert e[name := e[name].(records := batch)] == s[name := Collection(space, batch)];
  }

  // ---------------------------------------------------------------- batches

  /** `[s[i:i + n] for i in range(0, len(s), n)]`. */
  function Chunks<T>(s: seq<T>, n: nat): seq<seq<T>>
    requires n > 0
    decreases |s|
  {
    if s == [] then [] else if |s| <= n then [s] else [s[..n]] + Chunks(s[n..], n)
  }

  function Concat<T>(css: seq<seq<T>>): seq<T> {
    if css == [] then [] else css[0] + Concat(css[1..])
  }

  /**
   * The slices cover the input exactly once and in order; each holds between
   * 1 and `n` items and all but the last hold exactly `n`.
   */
  lemma {:induction false} ChunksProperties<T>(s: seq<T>, n: nat)
    requires n > 0
    ensures Concat(Chunks(s, n)) == s
    ensures forall k :: 0 <= k < |Chunks(s, n)| ==> 0 < |Chunks(s, n)[k]| <= n
    ensures forall k :: 0 <= k < |Chunks(s, n)| - 1 ==> |Chunks(s, n)[k]| == n
    ensures |Chunks(s, n)| == 0 <==> s == []
    decreases |s|
  {
    if s != [] && |s| > n {
      ChunksProperties(s[n..], n);
      var c := Chunks(s, n);
      assert c[1..] == Chunks(s[n..], n);
      assert s[..n] + s[n..] == s;
    } else if s != [] {
      assert Concat([s]) == s + Concat([]);
    }
  }

  /** A full leading slice comes off whole, whatever follows it. */
  lemma ChunksFull<T>(a: seq<T>, rest: seq<T>, n: nat)
    requires n > 0 && |a| == n
    ensures Chunks(a + rest, n) == [a] + Chunks(rest, n)
  {
    if rest == [] {
      assert a + rest == a;
      assert Chunks<T>([], n) == [];
    } else {
      assert (a + rest)[..n] == a;
      assert (a + rest)[n..] == rest;
    }
  }

  /** One step of the slicing loop: the slice at `i`, then the slices of what follows it. */
  lemma ChunksStep<T>(s: seq<T>, n: nat, i: nat)
    requires n > 0 && i < |s|
    ensures var end := if i + n < |s| then i + n else |s|;
            Chunks(s[i..], n) == [s[i..end]] + Chunks(s[end..], n)
  {
    var end := if i + n < |s| then i + n else |s|;
    if |s[i..]| <= n {
      assert end == |s| && s[end..] == [] && s[i..end] == s[i..];
      assert Chunks<T>([], n) == [];
    } else {
      assert s[i..][..n] == s[i..end];
      assert s[i..][n..] == s[end..];
    }
  }

  /**
   * Inserting a list of batches one after another, stopping at the first
   * failure; with `lookup` the collection is fetched (and created with
   * cosine distance if missing) before each batch.
   */
  function AddBatches(s: Store, name: string, batches: seq<seq<Record>>, lookup: bool): Run
    decreases |batches|
  {
    if batches == [] then Run(s, None)
    else
      var s1 := if lookup then GetOrCreate(s, name, Cosine) else s;
      match Add(s1, name, batches[0])
      case Failure(e) => Run(s1, Some(e))
      case Success(s2) => AddBatches(s2, name, batches[1..], lookup)
  }

  /**
   * Sending a full leading slice of `n` records: a refusal ends the run with
   * that error, an acceptance leaves the rest to be sent from the new store.
   */
  lemma AddBatchesFlush(s: Store, name: string, full: seq<Record>, rest: seq<Record>, n: nat)
    requires n > 0 && |full| == n
    ensures Add(s, name, full).Failure? ==>
              AddBatches(s, name, Chunks(full + rest, n), false) == Run(s, Some(Add(s, name, full).error))
    ensures Add(s, name, full).Success? ==>
              AddBatches(s, name, Chunks(full + rest, n), false) == AddBatches(Add(s, name, full).value, name, Chunks(rest, n), false)
  {
    ChunksFull(full, rest, n);
    assert ([full] + Chunks(rest, n))[1..] == Chunks(rest, n);
  }

  /**
   * Non-empty batches whose ids are distinct from each other and from what is
   * stored are appended whole, in order; no other collection changes.
   */
  lemma {:induction false} AddBatchesExact(s: Store, name: string, batches: seq<seq<Record>>, lookup: bool)
    requires name in s
    requires forall k :: 0 <= k < |batches| ==> batches[k] != []
    requires DistinctIds(s[name].records + Concat(batches))
    ensures AddBatches(s, name, batches, lookup)
            == Run(s[name := s[name].(records := s[name].records + Concat(batches))], None)
    decreases |batches|
  {
    if batches == [] {
      assert s[name].records + [] == s[name].records;
      assert s[name := s[name]] == s;
    } else {
      var rs, b := s[name].records, batches[0];
      assert rs + Concat(batches) == (rs + b) + Concat(batches[1..]);
      DistinctSplit(rs + b, Concat(batches[1..]));
      AddFresh(s, name, b);
      var s2 := s[name := s[name].(records := rs + b)];
      AddBatchesExact(s2, name, batches[1..], lookup);
      assert s2[name := s2[name].(records := s2[name].records + Concat(batches[1..]))]
          == s[name := s[name].(records := rs + Concat(batches))];
    }
  }

  /**
   * Distinct records sent in slices of `n` to a freshly emptied collection
   * become its whole content, and nothing fails.
   */
  lemma AddChunksToEmpty(s: Store, name: string, space: Space, rs: seq<Record>, n: nat, lookup: bool)
    requires n > 0 && DistinctIds(rs)
    ensures AddBatches(s[name := Collection(space, [])], name, Chunks(rs, n), lookup)
            == Run(s[name := Collection(space, rs)], None)
  {
    var e := s[name := Collection(space, [])];
    ChunksProperties(rs, n);
    assert e[name].records + Concat(Chunks(rs, n)) == rs;
    AddBatchesExact(e, name, Chunks(rs, n), lookup);
    assert e[name := e[name].(records := rs)] == s[name := Collection(space, rs)];
  }

  /**
   * Inserting batches never removes the target collection and never touches
   * another one, whether or not an insert fails on the way.
   */
  lemma {:induction false} AddBatchesFrame(s: Store, name: string, batches: seq<seq<Record>>, lookup: bool)
    requires name in s
    ensures var run := AddBatches(s, name, batches, lookup);
            name in run.store && run.store.Keys == s.Keys
            && forall other :: other in s && other != name ==> run.store[other] == s[other]
    decreases |batches|
  {
    if batches != [] {
      match Add(s, name, batches[0])
      case Failure(_) =>
      case Success(s2) => AddBatchesFrame(s2, name, batches[1..], lookup);
    }
  }

  // ---------------------------------------------------------------- the client

  datatype Handle = Handle(name: string)

  /** Two sequences: the documents and metadatas of the nearest matches. */
  datatype Hits = Hits(documents: seq<string>, metadatas: seq<Metadata>)

  /** Nearest-neighbour search over a collection's records: (records, query text, n_results). */
  type Search = (seq<Record>, string, nat) -> Hits

  /** The persistent client, as a mutable map from collection name to collection. */
  class Client {
    var collections: Store

    constructor (initial: Store)
      ensures collections == initial
    {
      collections := initial;
    }

    method ListCollectionNames() returns (names: set<string>)
      ensures names == collections.Keys
    {
      names := collections.Keys;
    }

    method GetCollection(name: string) returns (r: Result<Handle, Error>)
      ensures r == if name in collections then Success(Handle(name)) else Failure(CollectionNotFound(name))
    {
      if name in collections {
        r := Success(Handle(name));
      } else {
        r := Failure(CollectionNotFound(name));
      }
    }

    method CreateCollection(name: string, space: Space) returns (r: Result<Handle, Error>)
      modifies this
      ensures r == if name in old(collections) then Failure(CollectionExists(name)) else Success(Handle(name))
      ensures collections == After(Create(old(collections), name, space), old(collections))
    {
      if name in collections {
        r := Failure(CollectionExists(name));
      } else {
        collections := collections[name := Collection(space, [])];
        r := Success(Handle(name));
      }
    }

    method GetOrCreateCollection(name: string, space: Space) returns (h: Handle)
      modifies this
      ensures h == Handle(name)
      ensures collections == GetOrCreate(old(collections), name, space)
    {
      collections := GetOrCreate(collections, name, space);
      h := Handle(name);
    }

    method DeleteCollection(name: string) returns (r: Outcome<Error>)
      modifies this
      ensures r == if name in old(collections) then Pass else Fail(CollectionNotFound(name))
      ensures collections == After(Delete(old(collections), name), old(collections))
    {
      if name in collections {
        collections := collections - {name};
        r := Pass;
      } else {
        r := Fail(CollectionNotFound(name));
      }
    }

    method AddRecords(h: Handle, batch: seq<Record>) returns (r: Outcome<Error>)
      modifies this
      ensures r == if Add(old(collections), h.name, batch).Success? then Pass
                   else Fail(Add(old(collections), h.name, batch).error)
      ensures collections == After(Add(old(collections), h.name, batch), old(collections))
    {
      var next := Add(collections, h.name, batch);
      if next.Success? {
        collections := next.value;
        r := Pass;
      } else {
        r := Fail(next.error);
      }
    }

    /** `collection.get()["ids"]`. */
    method GetIds(h: Handle) returns (r: Result<seq<string>, Error>)
      ensures h.name in collections ==> r.Success? && |r.value| == |collections[h.name].records|
      ensures h.name in collections ==> forall k :: 0 <= k < |r.value| ==> r.value[k] == collections[h.name].records[k].id
      ensures h.name !in collections ==> r == Failure(CollectionNotFound(h.name))
    {
      if h.name in collections {
        var rs := collections[h.name].records;
        r := Success(seq(|rs|, k requires 0 <= k < |rs| => rs[k].id));
      } else {
        r := Failure(CollectionNotFound(h.name));
      }
    }

    /** `collection.query(query_texts=[text], n_results=n)`, first (and only) query's results. */
    method Query(h: Handle, text: string, n: nat, search: Search) returns (r: Result<Hits, Error>)
      ensures r == if h.name in collections then Success(search(collections[h.name].records, text, n))
                   else Failure(CollectionNotFound(h.name))
    {
      if h.name in collections {
        r := Success(search(collections[h.name].records, text, n));
      } else {
        r := Failure(CollectionNotFound(h.name));
      }
    }
  }
}
