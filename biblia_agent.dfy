/**
 * `BibliaAgent` of src/biblia_agent.py: start-up binds the three
 * collections that `ensure_collections` prepares, and `ask` first asks a
 * classifier whether the question is in scope, refusing it when the reply
 * says "false", and otherwise hands the question to a tool-using executor.
 * The language model, the executor and the prompt templates are parameters.
 */
module BibliaAgent {
  import opened Wrappers
  import opened Text
  import opened Corpus
  import opened VectorStore
  import opened ChromaUtils

  const REFUSAL := "Desculpe, não posso ajudar com essa pergunta. Por favor, faça uma pergunta relacionada a ensinamentos bíblicos."

  const PARSING_ERROR_RETRY := "Check your output and make sure it conforms to the expected format. Try again."

  /** The four tools of src/tools.py the executor may call. */
  datatype Tool = BuscarNaBibliaJson | BuscarNavesTopical | BuscarDicionarioEaston | BuscarVersiculosSemantica

  const TOOLS: seq<Tool> := [BuscarNaBibliaJson, BuscarNavesTopical, BuscarDicionarioEaston, BuscarVersiculosSemantica]

  /** What `initialize_agent` is given: the tools, the zero-shot ReAct agent, the retry text, no intermediate steps. */
  datatype ExecutorConfig = ExecutorConfig(tools: seq<Tool>, zeroShotReact: bool, handleParsingErrors: string,
                                           returnIntermediateSteps: bool)

  const EXECUTOR_CONFIG := ExecutorConfig(TOOLS, true, PARSING_ERROR_RETRY, false)

  /** One call into the language-model service: a classification, or an executor run. */
  datatype Call = Classify(model: string, prompt: string) | Execute(model: string, config: ExecutorConfig, prompt: string)

  /** The answer `ask` returns, and the service calls it made, in order. */
  datatype AskRun = AskRun(answer: string, calls: seq<Call>)

  /** The classifier reply rules the question out when its lowercase form contains "false". */
  predicate Refuses(reply: string) {
    Contains(Lower(reply), "false")
  }

  /**
   * `ask(question)`: the classifier is called once with the analysis prompt;
   * a refusing reply yields the fixed refusal and nothing else is called;
   * otherwise the executor runs once with the instruction prompt and its
   * output is returned as it is.
   */
  function Ask(model: string, analysis: string -> string, instruction: string -> string,
               classify: (string, string) -> string, execute: (string, ExecutorConfig, string) -> string,
               question: string): (r: AskRun)
    ensures |r.calls| >= 1 && r.calls[0] == Classify(model, analysis(question))
    ensures |r.calls| == 1 <==> Refuses(classify(model, analysis(question)))
    ensures |r.calls| == 1 ==> r.answer == REFUSAL
    ensures |r.calls| != 1 ==>
              && r.calls == [Classify(model, analysis(question)), Execute(model, EXECUTOR_CONFIG, instruction(question))]
              && r.answer == execute(model, EXECUTOR_CONFIG, instruction(question))
    ensures forall k :: 0 <= k < |r.calls| && r.calls[k].Execute? ==> r.calls[k].config.tools == TOOLS
  {
    var analise := classify(model, analysis(question));
    if Refuses(analise) then AskRun(REFUSAL, [Classify(model, analysis(question))])
    else
      var prompt := instruction(question);
      AskRun(execute(model, EXECUTOR_CONFIG, prompt), [Classify(model, analysis(question)), Execute(model, EXECUTOR_CONFIG, prompt)])
  }

  /** Characters `i..i + 5` of the reply lowercase to "false". */
  predicate FalseAt(reply: string, i: int) {
    0 <= i <= |reply| - 5 && Lower(reply[i..i + 5]) == "false"
  }

  /**
   * The gate is exactly "some five characters of the reply lowercase to
   * "false"": "False.", "FALSE" and "it's false" all refuse.
   */
  lemma RefusesIff(reply: string)
    ensures Refuses(reply) <==> exists i :: FalseAt(reply, i)
  {
    if Refuses(reply) {
      var i: nat :| i <= |Lower(reply)| && OccursAt(Lower(reply), "false", i);
      LowerSlice(reply, i, i + 5);
      assert FalseAt(reply, i);
    }
    if exists i :: FalseAt(reply, i) {
      var i :| FalseAt(reply, i);
      LowerSlice(reply, i, i + 5);
      assert OccursAt(Lower(reply), "false", i);
    }
  }

  /** A reply with "false" in any letter case, anywhere, refuses the question. */
  lemma AnyCaseRefuses(before: string, word: string, after: string)
    requires Lower(word) == "false"
    ensures Refuses(before + word + after)
  {
    var reply := before + word + after;
    assert reply[|before|..|before| + 5] == word;
    assert FalseAt(reply, |before|);
    RefusesIff(reply);
  }

  class BibliaAgent {
    const modelName: string
    const db: ChromaDB
    const biblia: Handle
    const easton: Handle
    const naves: Handle

    constructor (modelName: string, db: ChromaDB, handles: Handles)
      ensures this.modelName == modelName && this.db == db
      ensures biblia == handles.biblia && easton == handles.dicionario && naves == handles.naves
    {
      this.modelName := modelName;
      this.db := db;
      biblia := handles.biblia;
      easton := handles.dicionario;
      naves := handles.naves;
    }
  }

  /**
   * `BibliaAgent.__init__`: prepares the collections once and binds the
   * three handles; a failure of the preparation aborts the construction.
   */
  method Start(modelName: string, db: ChromaDB, bible: Bible, dicionario: seq<DictionaryEntry>, naves: seq<TopicEntry>)
    returns (r: Result<BibliaAgent, Error>)
    modifies db.client
    ensures var run := EnsureAll(old(db.client.collections), bible, dicionario, naves);
            && db.client.collections == run.store
            && (r.Success? <==> run.error.None?)
            && (r.Failure? ==> r.error == run.error.value)
    ensures r.Success? ==> fresh(r.value) && r.value.db == db && r.value.modelName == modelName
    ensures r.Success? ==> r.value.biblia == Handle(BIBLE_COLLECTION) && r.value.easton == Handle(DICTIONARY_COLLECTION)
                           && r.value.naves == Handle(TOPICS_COLLECTION)
  {
    var collections := db.EnsureCollections(bible, dicionario, naves);
    if collections.Failure? {
      return Failure(collections.error);
    }
    var agent := new BibliaAgent(modelName, db, collections.value);
    r := Success(agent);
  }
}
