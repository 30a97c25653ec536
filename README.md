# RAG_Biblico, modelled in Dafny

RAG_Biblico answers Bible questions with a language model. The model uses three
searchable collections: the Ave Maria Bible verse by verse, Easton's Bible
Dictionary and Nave's Topical Bible. This project models the parts around
the language model that have their own logic:

- **Text normalisation and structured lookups** from `src/tools.py`: the
  `normalizar_texto` key, the `livro:capítulo` chapter lookup in the verse
  corpus, the dictionary lookup, and the two search tools that turn query
  hits into prompt text.
- **The collection loaders**: `ChromaDB` in `src/chromadb_utils.py`, two
  copies of `BibliaFunctions`, `ObrasFunctions` and the stand-alone script
  `utils.py/carregar_biblia.py`. Between them they flatten the corpora into
  (document, id, metadata) records, add them in slices of 5000 or from a
  buffer flushed at 5000, and skip, rebuild or replace existing collections.
- **The agent's scope gate** in `src/biblia_agent.py`: a question is refused
  when the classifier's reply contains "false" in any letter case. The
  constructor binds the three collections that start-up prepared.

The vector store is an in-memory map from names to collections. The store
calls the loaders use follow the rules stated in `store.dfy`, and their
failures are values (`Result`, `Outcome`, or a `Run` that keeps the store
reached before the error). The collection classes hold a `Client` object and
change its `collections` field. Each of their methods is specified against a
function on the store: `Refresh`, `EnsureAll`, `LoadOnce`, `LoadObra`,
`Reload`. The lemmas are proved about those functions.

The following are parameters, so every property holds for any choice of
them:

- the `unidecode` transliteration: any function whose output is ASCII and
  which leaves ASCII text unchanged;
- the semantic query: a function from the stored records, the query text
  and a count to two lists;
- the language model, the executor and the prompt templates.

Files: `wrappers.dfy` (Option, Result, Outcome), `text.dfy` (Python string
operations), `normalizer.dfy`, `corpus.dfy` (the parsed JSON), `store.dfy`
(the vector store), `tools.dfy`, `verse_index.dfy` (verse flattening shared
by the loaders), `chromadb_utils.dfy`, `biblia_functions.dfy`,
`obra_functions.dfy`, `carregar_biblia.dfy`, `biblia_agent.dfy`.

## Model

| member | source | states |
|---|---|---|
| Text.Lower | src/tools.py:14 | `lower()` keeps the length and lowers each character on its own |
| Text.LowerProperties | src/tools.py:14 | lowering is idempotent, leaves no upper-case letter, keeps ASCII text ASCII and never creates or removes whitespace |
| Text.LowerSlice | src/biblia_agent.py:38 | lowering commutes with slicing, which is what makes a substring test on the lowered reply meaningful |
| Text.RemoveSpaces | src/tools.py:13 | `re.sub(r"\s+", "", s)` leaves no whitespace and never lengthens the text |
| Text.RemoveSpacesAppend | src/tools.py:13 | removing whitespace distributes over concatenation |
| Text.RemoveSpacesIdentity | src/tools.py:13 | removing whitespace leaves a string unchanged exactly when it has none |
| Text.RemoveSpacesLower | src/tools.py:13-14 | removing whitespace and lowering commute |
| Text.Strip | src/tools.py:41 | `strip()` leaves no whitespace at either end and returns a contiguous slice of its input |
| Text.StripPlain | src/tools.py:41 | `strip()` leaves a string without whitespace unchanged |
| Text.Split | src/tools.py:26 | `split(":")` gives one more part than there are separators, and no part contains the separator |
| Text.SplitJoin | src/tools.py:26 | joining the parts of `split(c)` with `c` gives back the input |
| Text.SplitTwo | src/tools.py:26 | `(a + ":" + b).split(":")` is `[a, b]` when neither part contains ":" |
| Text.JoinLength | src/tools.py:64-67 | the length of a `"\n\n".join` is the sum of the parts plus one separator between each pair |
| Text.JoinEmpty | src/tools.py:64-67 | a join of non-empty parts is "" exactly when there are no parts |
| Text.NatToStringInjective | src/chromadb_utils.py:127 | the decimal rendering of indices in enumerated ids is injective |
| Text.IntToString | src/tools.py:41 | `str(n)` is non-empty, starts with "-" exactly for negatives, and is otherwise made of digits |
| Text.IntToStringInjective | src/tools.py:41 | distinct chapter numbers render differently |
| Text.IntToStringSeparators | src/chromadb_utils.py:100 | a rendered number contains no space, ":" or "_", the separators of the verse ids |
| Text.CutAtLast | src/chromadb_utils.py:100 | cutting at the last separator is unique when the tails lack it |
| Text.EnumeratedIdPosition | src/chromadb_utils.py:127 | ids `x_i` and `y_j` are equal only when `i == j` |
| Normalizer.Normalize | src/tools.py:8-14 | `normalizar_texto` always yields ASCII with no whitespace and no upper-case letter |
| Normalizer.NormalizeIdempotent | src/tools.py:8-14 | normalising a key again changes nothing |
| Normalizer.NormalizeIgnoresCase | src/tools.py:14 | ASCII text and its lowering have the same key |
| Normalizer.NormalizeIgnoresSpaces | src/tools.py:13 | inserting ASCII whitespace anywhere in ASCII text does not change its key |
| Normalizer.AllSpacesVanish | src/tools.py:13 | removing whitespace leaves nothing of a string of whitespace only |
| Normalizer.NormalizeBlank | src/tools.py:13-14 | an ASCII string of whitespace only has the empty key |
| Normalizer.NormalizePlain | src/tools.py:8-14 | for ASCII text without whitespace the key is its lowering |
| Normalizer.AsciiOrQuestionMark | src/tools.py:12 | at least one admissible transliteration exists: ASCII output, identity on ASCII |
| VectorStore.Zip3 | src/chromadb_utils.py:87 | documents, ids and metadatas of equal length zip into records position by position |
| VectorStore.AddFresh | src/chromadb_utils.py:87 | a non-empty add of new, distinct ids appends the batch as it is and changes nothing else |
| VectorStore.UnseenAllNew | src/chromadb_utils.py:63-69 | filtering out stored ids keeps a batch whole when none of its ids is stored |
| VectorStore.UnseenCovers | src/chromadb_utils.py:63-69 | after the filter, every id of the batch is stored or kept |
| VectorStore.UnseenNone | src/chromadb_utils.py:63-71 | the filter keeps nothing when every id is already stored |
| VectorStore.ChunksProperties | src/chromadb_utils.py:81-84 | the slices of `range(0, len, 5000)` are non-empty, at most 5000 long, all but the last exactly 5000, and concatenate to the whole list |
| VectorStore.ChunksStep | src/chromadb_utils.py:81-84 | the slice at `i` followed by the slices from `i + 5000` are the slices from `i` |
| VectorStore.ChunksFull | src/utils/obra_functions.py:48-55 | a full 5000-record buffer comes off as one slice, whatever follows it |
| VectorStore.AddBatchesExact | src/chromadb_utils.py:79-87 | slices of distinct new ids are appended in order, as one concatenated list |
| VectorStore.AddBatchesFrame | src/chromadb_utils.py:79-87 | adding slices to one collection never creates, removes or changes another |
| VectorStore.Client.GetOrCreateCollection | src/chromadb_utils.py:37-48 | the named collection exists afterwards, and an existing one is kept as it is |
| VectorStore.Client.AddRecords | src/chromadb_utils.py:73 | an add either appends the unseen records or fails and changes nothing |
| VectorStore.Client.Query | src/tools.py:56-62 | a query on a missing collection fails; otherwise it returns the search function's hits |
| Tools.FirstIndex | src/tools.py:80-83 | returns the first index satisfying the test, or None exactly when none does |
| Tools.FirstHit | src/tools.py:32-45 | returns the lexicographically first (book, chapter) matching pair in scan order, or None exactly when there is none |
| Tools.LookupChapter | src/tools.py:30-46 | NotFound exactly when no book matches the key by name or abbreviation with a chapter whose `str` equals the stripped part; otherwise the first such chapter's verses and the reference "nome capitulo" |
| Tools.BuscarNaBibliaJson | src/tools.py:17-46 | an argument without exactly one ":" yields the interpretation error message; otherwise the chapter lookup on the two parts |
| Tools.LookupDependsOnKey | src/tools.py:30 | two book parts with the same key give the same answer |
| Tools.LookupIgnoresCaseAndSpaces | src/tools.py:30-39 | free whitespace and ASCII case in the book part do not change the answer |
| Tools.BlankBookPartMatchesUnabbreviated | src/tools.py:35-39 | a blank book part matches any book that has no abbreviation, through the empty default |
| Tools.BuscarDicionarioEaston | src/tools.py:71-85 | the first entry with the same key gives "termo\n\ndescricao"; with none, the not-found text naming the query |
| Tools.EastonIgnoresCase | src/tools.py:78-82 | an entry's ASCII term, queried in lower case, finds that entry when no earlier entry has the same key |
| Tools.CollectBlocks | src/tools.py:64-67 | one block per zipped pair, in order, when every pair formats; otherwise the first pair's error |
| Tools.SerializedShape | src/tools.py:64-67 | the serialised text is "" exactly when there are no pairs, and its length is the blocks plus separators |
| Tools.BlocksEndWithDocument | src/tools.py:64-67 | every block ends with "Texto: " and its document |
| Tools.SearchTool | src/tools.py:53-67 | a missing collection fails, a hit without the block's key fails with that key, otherwise the joined blocks |
| Tools.BuscarNavesTopical | src/tools.py:48-68 | queries "naves_topical" for 3 results and renders "Tópico: ...\nTexto: ..." blocks |
| Tools.BuscarVersiculosSemantica | src/tools.py:87-108 | queries "biblia_ave_maria" for 5 results and renders "livro: ..., capítulo: ..., versículo: ..." blocks |
| VerseIndex.VerseIdInjective | src/chromadb_utils.py:100 | verse ids of one scheme determine the book name, chapter and verse numbers |
| VerseIndex.VerseIdKeyInjective | src/chromadb_utils.py:100 | within one scheme a verse id determines its (book name, chapter, verse) reference |
| VerseIndex.BooksKeysAligned | src/chromadb_utils.py:96-107 | the flattened records carry, position by position, the ids of the flattened verse references |
| VerseIndex.DistinctReferenceIds | src/chromadb_utils.py:96-107 | books in which no two verses share book name, chapter and verse flatten to records with distinct ids, under either id scheme |
| VerseIndex.VerseRecordSerialises | utils/biblia_functions.py:76-79 | a stored verse record renders through the verse block as its reference and text |
| VerseIndex.ChapterRecordsExact | src/chromadb_utils.py:97-107 | a chapter yields one record per verse, and exactly those |
| VerseIndex.BookRecordsExact | src/chromadb_utils.py:96-107 | a book yields as many records as its verses, each from one of its chapters |
| VerseIndex.BooksRecordsExact | src/chromadb_utils.py:96-107 | a book list yields one record per verse, each from one of its books |
| VerseIndex.BooksRecordsAppend | src/chromadb_utils.py:96 | flattening the concatenated testaments is flattening each in turn |
| VerseIndex.CollectVerses | src/chromadb_utils.py:95-107 | the nested append loops extend the three aligned lists by exactly the flattened records |
| ChromaUtils.Pairs | src/chromadb_utils.py:66 | `zip(docs, ids)` is as long as the shorter list |
| ChromaUtils.AddDocumentsSkipsStored | src/chromadb_utils.py:60-77 | with distinct ids, the pairs whose id was unseen are appended, every id is stored afterwards, and a repeated call changes nothing |
| ChromaUtils.UnseenDistinct | src/chromadb_utils.py:63-69 | the kept pairs are new, come from the batch, and keep its distinct ids |
| ChromaUtils.EnumeratedIdsDistinct | src/chromadb_utils.py:123-149 | "termo_i" and "topic_i" ids never repeat, even when terms or topics do |
| ChromaUtils.RefreshLoads | src/chromadb_utils.py:109-117 | a refresh succeeds, leaves as many records as computed and touches no other collection |
| ChromaUtils.RefreshKeepsSameSize | src/chromadb_utils.py:111 | a collection that already has the computed count is kept as it is |
| ChromaUtils.RefreshIdempotent | src/chromadb_utils.py:109-117 | a second refresh with the same data changes nothing |
| ChromaUtils.BibleIdsDistinct | src/chromadb_utils.py:96-107 | when no verse reference repeats across both testaments, the reference-keyed records have distinct ids |
| ChromaUtils.EnsureAllLoads | src/chromadb_utils.py:89-166 | with distinct verse references, start-up succeeds and each collection has its computed count |
| ChromaUtils.EnsureAllIdempotent | src/chromadb_utils.py:89-166 | running start-up twice leaves the store as running it once |
| ChromaUtils.ChromaDB.GetCollection | src/chromadb_utils.py:37-48 | opens the collection, or creates it with cosine distance |
| ChromaUtils.ChromaDB.DeleteCollection | src/chromadb_utils.py:50-58 | deletes the collection and returns the success text, or returns the error text and changes nothing |
| ChromaUtils.ChromaDB.AddDocuments | src/chromadb_utils.py:60-77 | the filtering loop adds exactly the unseen pairs, and adds nothing when there are none |
| ChromaUtils.SelectNew | src/chromadb_utils.py:64-69 | the kept (doc, id) pairs are exactly the zipped pairs whose id is not stored, in order |
| ChromaUtils.ChromaDB.AddInBatches | src/chromadb_utils.py:79-87 | the slicing loop performs exactly the adds of the 5000-record slices, stopping at the first failure |
| ChromaUtils.ChromaDB.RefreshCollection | src/chromadb_utils.py:109-117 | the count check, delete, re-create and slice loop compute `Refresh` |
| ChromaUtils.ChromaDB.FlattenDictionary | src/chromadb_utils.py:122-128 | the loop builds exactly the dictionary records |
| ChromaUtils.ChromaDB.FlattenTopics | src/chromadb_utils.py:143-149 | the loop builds exactly the topic records |
| ChromaUtils.ChromaDB.EnsureCollections | src/chromadb_utils.py:89-166 | start-up computes `EnsureAll` and returns the three handles exactly when it succeeds |
| BibliaFunctions.TestamentIdsDiffer | src/utils/biblia_functions.py:38 | an Old Testament id never equals a New Testament id |
| BibliaFunctions.TaggedIdsDistinct | src/utils/biblia_functions.py:31-45 | when neither testament repeats a (book name, chapter, verse) reference, the tagged records of both testaments have distinct ids |
| BibliaFunctions.LoadOnceLoads | src/utils/biblia_functions.py:13-62 | a first load with distinct ids stores exactly the tagged verses, Old Testament first |
| BibliaFunctions.LoadOnceCommitsName | src/utils/biblia_functions.py:15-20 | after any load the name exists and nothing else changes, so a second load does nothing, even after a failed first one |
| BibliaFunctions.BuscarPorReferencia | src/utils/biblia_functions.py:93-114 | the first book whose lowered name or abbreviation equals the lowered query and that has the chapter; None exactly when there is none |
| BibliaFunctions.BuscarPorReferenciaIgnoresCase | src/utils/biblia_functions.py:97 | a book query and its lowering get the same answer |
| BibliaFunctions.LookupsAgreeOnPlainNames | src/tools.py:17-46 | for plain ASCII names the JSON tool and `buscar_por_referencia` find the same chapter |
| BibliaFunctions.BibliaFunctions.CarregarBiblia | src/utils/biblia_functions.py:13-62 | computes `LoadOnce` and binds the collection |
| BibliaFunctions.BibliaFunctions.AddSlices | src/utils/biblia_functions.py:50-60 | the slice loop performs exactly the adds of the 5000-record slices |
| BibliaFunctions.BibliaFunctions.DeleteCollection | src/utils/biblia_functions.py:65-72 | on success the collection is removed and unbound; on failure nothing changes; the message says which |
| BibliaFunctions.BibliaFunctions.BuscaVersiculo | utils/biblia_functions.py:65-81 | a missing collection fails; otherwise the hits joined as verse blocks |
| ObraFunctions.ItemRecord | src/utils/obra_functions.py:28-44 | an item yields a record exactly when it has termo and descricao or topic and versiculos; the term shape wins, and the id is "name_i" |
| ObraFunctions.RecordsFromExact | src/utils/obra_functions.py:28-44 | the records are exactly those of the well-formed items, with distinct ids |
| ObraFunctions.LoadObraLoads | src/utils/obra_functions.py:12-64 | a first load stores exactly the well-formed items' records, in source order |
| ObraFunctions.ObraBlockDispatch | src/utils/obra_functions.py:94-108 | the block header is "Termo: " iff termo is present, "Tópico: " iff only topic is, "Livro: " iff only the three verse keys are, "📖 Texto: " otherwise, and every block ends with the document |
| ObraFunctions.ObraParts | src/utils/obra_functions.py:94 | one block per zipped pair |
| ObraFunctions.LoadedRecordRenders | src/utils/obra_functions.py:28-44 | a loaded term or topic is rendered under its own header |
| ObraFunctions.VerseRecordRenders | src/utils/obra_functions.py:103-106 | a tagged verse record is rendered as a "Livro: ..." block |
| ObraFunctions.ObrasFunctions.LoadCollection | src/utils/obra_functions.py:12-66 | computes `LoadObra` and binds the collection |
| ObraFunctions.ObrasFunctions.LoadBuffered | src/utils/obra_functions.py:26-64 | the buffer loop flushes at 5000 and then the remainder: exactly the adds of the 5000-record slices of the kept records |
| ObraFunctions.ObrasFunctions.Append | src/utils/obra_functions.py:42-55 | below 5000 the record is appended to the buffer and the store is unchanged; at 5000 the buffer is added as one batch and, on success, emptied; either way the remaining adds are the same, or the load stops with the add's error |
| ObraFunctions.ObrasFunctions.FlushFull | src/utils/obra_functions.py:48-55 | the store becomes the result of adding the full buffer, or stays as it was with the add's error; the buffer is the next 5000-record slice, so a refusal ends the load |
| ObraFunctions.ObrasFunctions.FlushRest | src/utils/obra_functions.py:57-64 | a non-empty remainder is added as the last slice; an empty one adds nothing |
| ObraFunctions.ObrasFunctions.DeleteCollection | src/utils/obra_functions.py:69-76 | on success the collection is removed and unbound; on failure nothing changes |
| ObraFunctions.ObrasFunctions.SemanticSearch | src/utils/obra_functions.py:79-112 | binds the collection only when none is bound, then returns the hits joined as dispatched blocks |
| ObraFunctions.SerializeResults | src/utils/obra_functions.py:93-111 | the block loop and join produce the joined dispatched blocks |
| CarregarBiblia.ReloadReplaces | utils.py/carregar_biblia.py:14-60 | with non-empty distinct records the collection holds exactly the tagged verses, nothing from before, and nothing else changes |
| CarregarBiblia.ReloadFailureLeavesEmpty | utils.py/carregar_biblia.py:23-59 | a refused single add leaves an empty collection in place of the old one |
| CarregarBiblia.ReloadIdempotent | utils.py/carregar_biblia.py:14-60 | running the script twice leaves the store as running it once |
| CarregarBiblia.Carregar | utils.py/carregar_biblia.py:14-60 | it deletes, ignoring a missing collection, re-creates, flattens both testaments and makes one add: `Reload` |
| BibliaAgent.Ask | src/biblia_agent.py:24-63 | one classifier call; a reply that refuses yields the fixed refusal and no executor call; otherwise one executor call with the four tools and its output verbatim |
| BibliaAgent.RefusesIff | src/biblia_agent.py:38 | the gate refuses exactly when five consecutive reply characters lower to "false" |
| BibliaAgent.AnyCaseRefuses | src/biblia_agent.py:38 | "false" in any letter case, anywhere in the reply, refuses |
| BibliaAgent.Start | src/biblia_agent.py:15-22 | start-up runs `ensure_collections` once and binds the three handles exactly when it succeeds |

## Left out

- Reading the JSON files, `chromadb.PersistentClient` persistence, `print` and `logging`: the parsed documents are parameters and the store is an in-memory map.
- Embeddings and nearest-neighbour ranking: the semantic query is a `Search` function parameter, so no ranking property is stated.
- The language model (`ChatGroq`), the ReAct executor's loop and the prompt template texts of src/system_prompts.py: the classifier, the executor and the templates are parameters; the model's temperature (a float) is not modelled.
- `unidecode`: only its shape is fixed (ASCII output, identity on ASCII).
- Normalizer.NormalizeIgnoresCase: stated for ASCII text only, because `unidecode`'s treatment of other letters is not known.
- Text.Lower: lowers ASCII and Latin-1 capitals only; Python's `str.lower()` covers all of Unicode.
- JSON objects missing `nome`, `capitulos` or `versiculos`: the corpus types always have those fields (only `abreviacao` and the two testament keys are optional), so two behaviours are not modelled. The loaders (src/chromadb_utils.py:96-107, src/utils/biblia_functions.py:31-38, utils.py/carregar_biblia.py:33-39) index those keys and raise `KeyError`. The two chapter lookups (src/tools.py:35-44, src/utils/biblia_functions.py:102-111) read them with `.get` defaults: a book without `nome` matches the empty key, and its reference falls back to `abreviacao`.
- JSON objects missing `capitulo`, `texto`, `versiculo`, `termo`, `descricao` or `topic`, where the source raises `KeyError`: the corpus types always have those fields.
- JSON values of unexpected types (a non-integer chapter number, a non-string name): the corpus types fix one type for each field.
- The exact texts of the store's exception messages: `VectorStore.Describe` gives one fixed text per error kind.
- Tools.BuscarNaBibliaJson: the interpretation error names the arity in the wording of one Python version; the message's wording in other versions is not modelled.
- `n_results` is a natural number; negative counts, which the store rejects, are not modelled.
- utils/biblia_functions.py duplicates `carregar_biblia` and `busca_versiculo` of src/utils/biblia_functions.py except for one `print`, so the same `BibliaFunctions` class models both.
- ChromaUtils.ChromaDB.AddInBatches: requires the three lists to have equal length, unlike the source, which slices each list on its own.
- A collection handle is the collection's name; a chromadb `Collection` object kept after its collection was deleted elsewhere is not distinguished from a fresh one.
- The tools' inner `PersistentClient` and `BibliaAgent`'s inner `ChromaDB()`: the model passes one `Client` to every loader and tool.
- VectorStore.Client.AddRecords: the store's maximum batch size is not modelled; chromadb refuses an `add` larger than its limit, while the modelled store accepts a batch of any size.
- CarregarBiblia.ReloadReplaces: holds because the modelled store has no maximum batch size; the script's single `add` of every verse (utils.py/carregar_biblia.py:58) can exceed chromadb's limit, which this model does not capture.
- ChromaUtils.ChromaDB.AddDocuments: the single `add` of all unseen pairs (src/chromadb_utils.py:73) is not checked against the store's maximum batch size, which is not modelled.
- BibliaFunctions.BibliaFunctions.DeleteCollection: the source prints its line and returns `None`; the model returns the printed line as `message`.
- ObraFunctions.ObrasFunctions.DeleteCollection: the source prints its line and returns `None`; the model returns the printed line as `message`.
- Default argument values: `semantic_search`'s `n_results=5` (src/utils/obra_functions.py:79), `_add_in_batches`'s `batch_size=5000` (src/chromadb_utils.py:79) and the agent's model name and temperature (src/biblia_agent.py:15). The model's callers pass `nResults` explicitly, and the batch size is the constant 5000 that every call uses.
- Exceptions the source does not catch, such as a failed `add` in a loader, are returned as errors instead of propagating.
