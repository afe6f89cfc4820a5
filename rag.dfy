/** `RAGService` from backend/services/rag.py: the document registry, the per-document
    vector collections it fills, and the extractive fallbacks used when no language model
    is available. The text splitter, the embedder, the vector search and the language
    model are opaque functions fixed when the service is built. */
module Rag {
  import opened Text
  import opened Outcomes

  /** The metadata kept for a registered document. */
  datatype DocMeta = DocMeta(filename: string, content: string, chunks: nat, collectionName: string)

  /** One entry of a vector collection: its id, the chunk text and its metadata
      (`chunk_id`, `doc_id`). The embedding vector itself is not modelled. */
  datatype StoredChunk = StoredChunk(id: string, text: string, chunkId: nat, docId: string)

  /** The three kinds of language model the service can hold: none, a chat model with a
      `predict` method (which may raise), or a client without `predict`. */
  datatype Llm = NoLlm | Predictor(predict: string -> Result<string>) | ClientWithoutPredict

  /** One entry of `list_documents`. */
  datatype Listing = Listing(id: string, filename: string, chunks: nat)

  /** The result of `get_document_context`. */
  datatype DocContext = DocContext(filename: string, wordCount: nat, characterCount: nat, chunks: nat, preview: string)

  /** One hit of `search_document`. */
  datatype SearchHit = SearchHit(chunkId: nat, content: string, relevance: real)

  /** The result of `answer_question`. */
  datatype Answer = Answer(answer: string, justification: string, sourceSnippets: seq<string>, confidence: real)

  /** A conversation turn: a dictionary that may hold `"question"` and `"answer"`. */
  type Turn = map<string, string>

  type Query = (string, seq<StoredChunk>, int) -> Result<seq<StoredChunk>>

  // ---------------------------------------------------------------------------
  //  Names and ids
  // ---------------------------------------------------------------------------

  /** `f"doc_{doc_id.replace('-', '_')}"` */
  function CollectionName(docId: string): (r: string)
    ensures |r| == |docId| + 4 && r[..4] == "doc_"
    ensures forall i :: 0 <= i < |r| ==> r[i] != '-'
  {
    "doc_" + ReplaceChar(docId, '-', '_')
  }

  /** The collection name of an id ends with any tail of that id, once `'-'` is
      replaced by `'_'`. */
  lemma ReplaceCharTail(s: string, k: nat)
    requires k <= |s|
    ensures EndsWith(CollectionName(s), ReplaceChar(s[k..], '-', '_'))
  {
    var r := ReplaceChar(s, '-', '_');
    var name := "doc_" + r;
    var t := ReplaceChar(s[k..], '-', '_');
    assert r[k..] == t by {
      forall i | 0 <= i < |t|
        ensures r[k..][i] == t[i]
      {
        assert s[k..][i] == s[k + i];
      }
    }
    assert name[|name| - |t|..] == r[k..];
  }

  /** `f"{doc_id}_{i}"` */
  function ChunkKey(docId: string, i: nat): string
  {
    docId + "_" + NatToString(i)
  }

  /** Two chunks of the same document never share an id. */
  lemma ChunkKeysDistinct(docId: string, i: nat, j: nat)
    requires ChunkKey(docId, i) == ChunkKey(docId, j)
    ensures i == j
  {
    var n := |docId| + 1;
    assert NatToString(i) == ChunkKey(docId, i)[n..];
    assert NatToString(j) == ChunkKey(docId, j)[n..];
    NatToStringInjective(i, j);
  }

  /** The collection entries for the chunks `texts` of document `docId`, in order. */
  function Stored(docId: string, texts: seq<string>): (r: seq<StoredChunk>)
    ensures |r| == |texts|
    ensures forall i :: 0 <= i < |r| ==> r[i] == StoredChunk(ChunkKey(docId, i), texts[i], i, docId)
  {
    seq(|texts|, i requires 0 <= i < |texts| => StoredChunk(ChunkKey(docId, i), texts[i], i, docId))
  }

  lemma StoredSnoc(docId: string, texts: seq<string>, i: nat)
    requires i < |texts|
    ensures Stored(docId, texts[..i + 1]) == Stored(docId, texts[..i]) + [StoredChunk(ChunkKey(docId, i), texts[i], i, docId)]
  {
  }

  /** Every chunk of a document is stored under its own id. */
  lemma StoredIdsDistinct(docId: string, texts: seq<string>)
    ensures forall i, j :: 0 <= i < j < |texts| ==> Stored(docId, texts)[i].id != Stored(docId, texts)[j].id
  {
    forall i, j | 0 <= i < j < |texts|
      ensures Stored(docId, texts)[i].id != Stored(docId, texts)[j].id
    {
      if Stored(docId, texts)[i].id == Stored(docId, texts)[j].id {
        ChunkKeysDistinct(docId, i, j);
      }
    }
  }

  /** What the vector store guarantees of a query: at most `n_results` hits, each an
      entry of the collection searched. */
  ghost predicate QueryContract(query: Query)
  {
    forall text, coll, n :: query(text, coll, n).Ok? ==>
      |query(text, coll, n).value| <= (if n > 0 then n else 0)
      && forall h :: h in query(text, coll, n).value ==> h in coll
  }

  /** `xs` without the element `x`. */
  function Without(xs: seq<string>, x: string): (r: seq<string>)
    ensures forall y :: y in r <==> y in xs && y != x
  {
    if xs == [] then []
    else if xs[0] == x then Without(xs[1..], x)
    else [xs[0]] + Without(xs[1..], x)
  }

  /** Removing an element keeps a list free of repetitions. */
  lemma {:induction false} WithoutDistinct(xs: seq<string>, x: string)
    requires Distinct(xs)
    ensures Distinct(Without(xs, x))
    decreases |xs|
  {
    if xs != [] {
      WithoutDistinct(xs[1..], x);
      var rest := Without(xs[1..], x);
      if xs[0] != x {
        var r := [xs[0]] + rest;
        assert xs[0] !in xs[1..];
        forall i, j | 0 <= i < j < |r|
          ensures r[i] != r[j]
        {
          if i == 0 {
            assert r[j] == rest[j - 1] && r[j] in rest;
          } else {
            assert r[i] == rest[i - 1] && r[j] == rest[j - 1];
          }
        }
      }
    }
  }

  // ---------------------------------------------------------------------------
  //  _generate_basic_answer
  // ---------------------------------------------------------------------------

  const NotFoundMessage: string := "I couldn't find a specific answer to your question in the document."

  /** `set(text.lower().split())` */
  function WordSet(text: string): set<string>
  {
    ToSet(Words(Lower(text)))
  }

  /** A sentence is relevant when it shares a lower-cased word with the question. */
  predicate Shares(questionWords: set<string>, sentence: string)
  {
    questionWords * WordSet(sentence) != {}
  }

  /** The stripped relevant sentences, in context order. */
  function Relevant(questionWords: set<string>, sentences: seq<string>): seq<string>
    decreases |sentences|
  {
    if sentences == [] then []
    else
      var last := sentences[|sentences| - 1];
      Relevant(questionWords, sentences[..|sentences| - 1])
        + (if Shares(questionWords, last) then [Strip(last)] else [])
  }

  /** The positions of the relevant sentences. */
  function RelevantPositions(questionWords: set<string>, sentences: seq<string>): seq<nat>
    decreases |sentences|
  {
    if sentences == [] then []
    else
      var n := |sentences| - 1;
      RelevantPositions(questionWords, sentences[..n])
        + (if Shares(questionWords, sentences[n]) then [n] else [])
  }

  /** The positions are increasing, in range, and are exactly those of the sentences
      that share a word with the question. */
  lemma {:induction false} PositionsSpec(questionWords: set<string>, sentences: seq<string>)
    ensures forall k :: 0 <= k < |RelevantPositions(questionWords, sentences)| ==>
              RelevantPositions(questionWords, sentences)[k] < |sentences|
    ensures forall k, l :: 0 <= k < l < |RelevantPositions(questionWords, sentences)| ==>
              RelevantPositions(questionWords, sentences)[k] < RelevantPositions(questionWords, sentences)[l]
    ensures forall j :: 0 <= j < |sentences| ==>
              (Shares(questionWords, sentences[j]) <==> j in RelevantPositions(questionWords, sentences))
    decreases |sentences|
  {
    if sentences != [] {
      var n := |sentences| - 1;
      var init := sentences[..n];
      PositionsSpec(questionWords, init);
      var ps := RelevantPositions(questionWords, init);
      assert RelevantPositions(questionWords, sentences) == ps + (if Shares(questionWords, sentences[n]) then [n] else []);
      assert forall j :: 0 <= j < n ==> sentences[j] == init[j];
    }
  }

  /** The relevant sentences are the stripped sentences at those positions. */
  lemma {:induction false} RelevantAtPositions(questionWords: set<string>, sentences: seq<string>)
    ensures |Relevant(questionWords, sentences)| == |RelevantPositions(questionWords, sentences)|
    ensures forall k :: 0 <= k < |RelevantPositions(questionWords, sentences)| ==>
              RelevantPositions(questionWords, sentences)[k] < |sentences|
              && Relevant(questionWords, sentences)[k] == Strip(sentences[RelevantPositions(questionWords, sentences)[k]])
    decreases |sentences|
  {
    if sentences != [] {
      var n := |sentences| - 1;
      var init := sentences[..n];
      RelevantAtPositions(questionWords, init);
      var ps := RelevantPositions(questionWords, init);
      var rs := Relevant(questionWords, init);
      var shares := Shares(questionWords, sentences[n]);
      var positions := RelevantPositions(questionWords, sentences);
      var relevant := Relevant(questionWords, sentences);
      assert positions == ps + (if shares then [n] else []);
      assert relevant == rs + (if shares then [Strip(sentences[n])] else []);
      forall k | 0 <= k < |positions|
        ensures positions[k] < |sentences| && relevant[k] == Strip(sentences[positions[k]])
      {
        if k < |ps| {
          assert positions[k] == ps[k] && relevant[k] == rs[k];
          assert sentences[ps[k]] == init[ps[k]];
        }
      }
    }
  }

  /** What `_generate_basic_answer(question, context)` returns. */
  function BasicAnswer(question: string, context: string): string
  {
    var relevant := Relevant(WordSet(question), Split(context, "."));
    if relevant != [] then Join(Prefix(relevant, 3), ". ") + "." else NotFoundMessage
  }

  /** `_generate_basic_answer` */
  method GenerateBasicAnswer(question: string, context: string) returns (answer: string)
    ensures answer == BasicAnswer(question, context)
    ensures var relevant := Relevant(WordSet(question), Split(context, "."));
            if relevant == [] then answer == NotFoundMessage
            else answer == Join(Prefix(relevant, 3), ". ") + "." && |Prefix(relevant, 3)| <= 3
  {
    var sentences := Split(context, ".");
    var relevantSentences: seq<string> := [];
    var questionWords := WordSet(question);
    for i := 0 to |sentences|
      invariant relevantSentences == Relevant(questionWords, sentences[..i])
    {
      assert sentences[..i + 1][..i] == sentences[..i];
      var sentenceWords := WordSet(sentences[i]);
      if |questionWords * sentenceWords| > 0 {
        relevantSentences := relevantSentences + [Strip(sentences[i])];
      }
    }
    assert sentences[..|sentences|] == sentences;
    if relevantSentences != [] {
      answer := Join(Prefix(relevantSentences, 3), ". ") + ".";
    } else {
      answer := NotFoundMessage;
    }
  }

  /** When no sentence of the context shares a word with the question, the fixed
      message is returned; otherwise the answer is built from the first (at most three)
      relevant sentences. */
  lemma BasicAnswerCases(question: string, context: string)
    ensures (forall j :: 0 <= j < |Split(context, ".")| ==> !Shares(WordSet(question), Split(context, ".")[j]))
            ==> BasicAnswer(question, context) == NotFoundMessage
    ensures forall j :: 0 <= j < |Split(context, ".")| && Shares(WordSet(question), Split(context, ".")[j]) ==>
              (EndsWith(BasicAnswer(question, context), ".")
               && BasicAnswer(question, context)[..|BasicAnswer(question, context)| - 1]
                  == Join(Prefix(Relevant(WordSet(question), Split(context, ".")), 3), ". "))
  {
    var qw := WordSet(question);
    var ss := Split(context, ".");
    PositionsSpec(qw, ss);
    RelevantAtPositions(qw, ss);
    if Relevant(qw, ss) != [] {
      var a := BasicAnswer(question, context);
      assert a == Join(Prefix(Relevant(qw, ss), 3), ". ") + ".";
      assert a[|a| - 1..] == ".";
    } else {
      assert forall j :: 0 <= j < |ss| ==> !Shares(qw, ss[j]);
    }
  }

  // ---------------------------------------------------------------------------
  //  _generate_basic_summary
  // ---------------------------------------------------------------------------

  /** `len(sentence.split())` summed over `sentences`. */
  function WordTotal(sentences: seq<string>): nat
  {
    if sentences == [] then 0 else |Words(sentences[0])| + WordTotal(sentences[1..])
  }

  /** The sentences the summary keeps: the longest prefix of `sentences` that fits the
      word budget, stopping at the first sentence that would overflow it. */
  function Budgeted(sentences: seq<string>, budget: int): (kept: seq<string>)
    ensures |kept| <= |sentences|
  {
    if sentences == [] || |Words(sentences[0])| > budget then []
    else [sentences[0]] + Budgeted(sentences[1..], budget - |Words(sentences[0])|)
  }

  /** The kept sentences are a prefix, they fit the budget, and the next sentence (if
      any) would not have fitted. */
  lemma {:induction false} BudgetedSpec(sentences: seq<string>, budget: int)
    ensures var kept := Budgeted(sentences, budget);
            && kept == sentences[..|kept|]
            && (kept != [] ==> WordTotal(kept) <= budget)
            && (|kept| < |sentences| ==> WordTotal(kept) + |Words(sentences[|kept|])| > budget)
    decreases |sentences|
  {
    if sentences != [] && |Words(sentences[0])| <= budget {
      var w := |Words(sentences[0])|;
      var rest := Budgeted(sentences[1..], budget - w);
      BudgetedSpec(sentences[1..], budget - w);
      var kept := [sentences[0]] + rest;
      assert kept[1..] == rest;
      assert WordTotal(kept) == w + WordTotal(rest);
      assert kept == sentences[..|kept|];
      if |kept| < |sentences| {
        assert sentences[|kept|] == sentences[1..][|rest|];
      }
    }
  }

  /** One step of the budget: the sentence at `i` is kept exactly when it fits. */
  lemma BudgetedStep(sentences: seq<string>, i: nat, budget: int)
    requires i < |sentences|
    ensures |Words(sentences[i])| <= budget ==>
              Budgeted(sentences[i..], budget) == [sentences[i]] + Budgeted(sentences[i + 1..], budget - |Words(sentences[i])|)
    ensures |Words(sentences[i])| > budget ==> Budgeted(sentences[i..], budget) == []
  {
    assert sentences[i..][0] == sentences[i] && sentences[i..][1..] == sentences[i + 1..];
  }

  /** What `_generate_basic_summary(content, max_words)` returns. */
  function BasicSummary(content: string, maxWords: int): string
  {
    Join(Budgeted(Split(content, ". "), maxWords), ". ") + "."
  }

  /** `_generate_basic_summary` */
  method GenerateBasicSummary(content: string, maxWords: int) returns (summary: string)
    ensures summary == BasicSummary(content, maxWords)
    ensures EndsWith(summary, ".")
  {
    var sentences := Split(content, ". ");
    var summarySentences := KeepWithinBudget(sentences, maxWords);
    summary := Join(summarySentences, ". ") + ".";
    assert summary[|summary| - 1..] == ".";
  }

  /** The loop of `_generate_basic_summary`: sentences are taken in order while the
      running word count stays within `maxWords`. */
  method KeepWithinBudget(sentences: seq<string>, maxWords: int) returns (kept: seq<string>)
    ensures kept == Budgeted(sentences, maxWords)
  {
    kept := [];
    var wordCount := 0;
    var i := 0;
    while i < |sentences|
      invariant 0 <= i <= |sentences|
      invariant Budgeted(sentences, maxWords) == kept + Budgeted(sentences[i..], maxWords - wordCount)
    {
      var sentenceWords := |Words(sentences[i])|;
      BudgetedStep(sentences, i, maxWords - wordCount);
      if wordCount + sentenceWords <= maxWords {
        kept := kept + [sentences[i]];
        wordCount := wordCount + sentenceWords;
      } else {
        break;
      }
      i := i + 1;
    }
    if i == |sentences| {
      assert sentences[i..] == [];
    }
  }

  // ---------------------------------------------------------------------------
  //  Relevance scores, previews, prompts
  // ---------------------------------------------------------------------------

  /** `1.0 - (i * 0.1)`, computed exactly. */
  function Relevance(i: nat): (r: real)
    ensures r <= 1.0
    ensures i == 0 ==> r == 1.0
    ensures 0.0 <= r <==> i <= 10
  {
    1.0 - (i as real) * 0.1
  }

  /** Scores fall strictly with rank. */
  lemma RelevanceDecreases(i: nat, j: nat)
    requires i < j
    ensures Relevance(j) < Relevance(i)
    ensures Relevance(i) - Relevance(j) == (j - i) as real * 0.1
  {
  }

  const PreviewLength: nat := 500

  /** `content[:500] + "..." if len(content) > 500 else content` */
  function Preview(content: string): (r: string)
    ensures |content| <= PreviewLength ==> r == content
    ensures |content| > PreviewLength ==> |r| == PreviewLength + 3 && r[..PreviewLength] == content[..PreviewLength]
                                          && r[PreviewLength..] == "..."
  {
    if |content| > PreviewLength then Prefix(content, PreviewLength) + "..." else content
  }

  /** `question` between single quotes starts at position `i` of `s`. */
  predicate QuotedAt(s: string, question: string, i: nat)
  {
    i + |question| + 2 <= |s| && s[i..i + |question| + 2] == "'" + question + "'"
  }

  /** `s` holds `question` between single quotes. */
  ghost predicate Quotes(s: string, question: string)
  {
    exists i: nat :: i <= |s| && QuotedAt(s, question, i)
  }

  lemma QuotedIn(before: string, question: string, after: string)
    requires before != [] && before[|before| - 1] == '\'' && after != [] && after[0] == '\''
    ensures Quotes(before + question + after, question)
  {
    var s := before + question + after;
    var i := |before| - 1;
    assert s[i..i + |question| + 2] == "'" + question + "'";
    assert QuotedAt(s, question, i);
  }

  /** `turn.get(key, '')` */
  function Get(turn: Turn, key: string): string
  {
    if key in turn then turn[key] else ""
  }

  /** The text one turn contributes to the prompt. */
  function TurnText(turn: Turn): string
  {
    "Q: " + Get(turn, "question") + "\nA: " + Get(turn, "answer") + "\n\n"
  }

  /** `conversation_history[-3:]` */
  function Recent(history: seq<Turn>): (r: seq<Turn>)
    ensures |r| <= 3
  {
    SliceFrom(history, -3)
  }

  /** The turns laid out one after the other. */
  function ConversationText(turns: seq<Turn>): string
    decreases |turns|
  {
    if turns == [] then "" else ConversationText(turns[..|turns| - 1]) + TurnText(turns[|turns| - 1])
  }

  /** The prompt sent to a model with `predict`, around the conversation text. */
  function PromptText(conversation: string, context: string, question: string): string
  {
    "Based on the following document context, answer the question.\n\nPrevious conversation:\n"
    + conversation
    + "\n\nDocument context:\n" + context
    + "\n\nCurrent question: " + question
    + "\n\nPlease provide a clear answer with justification."
  }

  /** The prompt for `question` after the conversation `history`. */
  function Prompt(question: string, context: string, history: seq<Turn>): string
  {
    PromptText(ConversationText(Recent(history)), context, question)
  }

  /** Only the last three turns reach the prompt: a turn older than those changes nothing. */
  lemma OlderTurnsIgnored(question: string, context: string, older: Turn, history: seq<Turn>)
    requires |history| >= 3
    ensures Prompt(question, context, [older] + history) == Prompt(question, context, history)
  {
    var longer := [older] + history;
    assert longer[|longer| - 3..] == history[|history| - 3..];
  }

  lemma AppendAssociative<T>(a: seq<T>, b: seq<T>, c: seq<T>)
    ensures (a + b) + c == a + (b + c)
  {
  }

  /** The text of a conversation is the texts of its parts laid end to end. */
  lemma {:induction false} ConversationTextAppend(turns: seq<Turn>, more: seq<Turn>)
    ensures ConversationText(turns + more) == ConversationText(turns) + ConversationText(more)
    decreases |more|
  {
    if more == [] {
      assert turns + more == turns;
    } else {
      var n := |more| - 1;
      var all := turns + more;
      var init := turns + more[..n];
      ConversationTextAppend(turns, more[..n]);
      assert all[..|all| - 1] == init;
      assert all[|all| - 1] == more[n];
      assert ConversationText(all) == ConversationText(init) + TurnText(more[n]);
      AppendAssociative(ConversationText(turns), ConversationText(more[..n]), TurnText(more[n]));
    }
  }

  /** `f"Based on {n} relevant passages from the document"` */
  function Justification(n: nat): string
  {
    "Based on " + NatToString(n) + " relevant passages from the document"
  }

  /** `{"answer": f"Error answering question: {str(e)}", ...}` */
  function ErrorAnswer(e: Exception): Answer
  {
    Answer("Error answering question: " + Describe(e), "System error occurred", [], 0.0)
  }

  function Texts(hits: seq<StoredChunk>): (r: seq<string>)
    ensures |r| == |hits| && forall i :: 0 <= i < |hits| ==> r[i] == hits[i].text
  {
    seq(|hits|, i requires 0 <= i < |hits| => hits[i].text)
  }

  /** The scored hits of a search. */
  function Scored(hits: seq<StoredChunk>): (r: seq<SearchHit>)
    ensures |r| == |hits|
    ensures forall i :: 0 <= i < |hits| ==> r[i] == SearchHit(hits[i].chunkId, hits[i].text, Relevance(i))
  {
    seq(|hits|, i requires 0 <= i < |hits| => SearchHit(hits[i].chunkId, hits[i].text, Relevance(i)))
  }

  /** The listing of the documents `ids`, in that order. */
  function Listings(ids: seq<string>, docs: map<string, DocMeta>): (r: seq<Listing>)
    requires forall i :: 0 <= i < |ids| ==> ids[i] in docs
    ensures |r| == |ids|
    ensures forall i :: 0 <= i < |ids| ==> r[i] == Listing(ids[i], docs[ids[i]].filename, docs[ids[i]].chunks)
  {
    seq(|ids|, i requires 0 <= i < |ids| && ids[i] in docs => Listing(ids[i], docs[ids[i]].filename, docs[ids[i]].chunks))
  }

  /** The registry and the vector store agree: the order lists each document once,
      and every document has its own collection, named after its id, holding one entry
      per chunk. Other collections (left behind by a failed registration) may exist. */
  ghost predicate Consistent(documents: map<string, DocMeta>, order: seq<string>, collections: map<string, seq<StoredChunk>>)
  {
    && Distinct(order)
    && (forall id :: id in documents <==> id in order)
    && CollectionsPresent(documents, collections)
    && (forall id :: id in documents ==>
          documents[id].collectionName == CollectionName(id)
          && |collections[documents[id].collectionName]| == documents[id].chunks)
    && (forall a, b :: a in documents && b in documents && a != b ==> CollectionName(a) != CollectionName(b))
  }

  /** Every registered document's collection is in the store. */
  ghost predicate CollectionsPresent(documents: map<string, DocMeta>, collections: map<string, seq<StoredChunk>>)
  {
    forall id :: id in documents ==> documents[id].collectionName in collections
  }

  /** Registering a fresh id together with its filled collection keeps the agreement. */
  lemma RegisterKeepsConsistent(documents: map<string, DocMeta>, order: seq<string>, collections: map<string, seq<StoredChunk>>,
                                id: string, meta: DocMeta, entries: seq<StoredChunk>)
    requires Consistent(documents, order, collections)
    requires id !in documents && CollectionName(id) !in collections
    requires meta.collectionName == CollectionName(id) && meta.chunks == |entries|
    ensures Consistent(documents[id := meta], order + [id], collections[CollectionName(id) := entries])
  {
    var o := order + [id];
    forall i, j | 0 <= i < j < |o|
      ensures o[i] != o[j]
    {
      if j == |order| {
        assert o[i] in order;
      }
    }
  }

  /** A new collection that no document names keeps the agreement. */
  lemma NewCollectionKeepsConsistent(documents: map<string, DocMeta>, order: seq<string>, collections: map<string, seq<StoredChunk>>,
                                     name: string, entries: seq<StoredChunk>)
    requires Consistent(documents, order, collections)
    requires name !in collections
    ensures Consistent(documents, order, collections[name := entries])
  {
  }

  /** Dropping a document together with its collection keeps the agreement. */
  lemma RemoveKeepsConsistent(documents: map<string, DocMeta>, order: seq<string>, collections: map<string, seq<StoredChunk>>, id: string)
    requires Consistent(documents, order, collections)
    requires id in documents
    ensures Consistent(documents - {id}, Without(order, id), collections - {CollectionName(id)})
  {
    WithoutDistinct(order, id);
  }

  // ---------------------------------------------------------------------------
  //  The service
  // ---------------------------------------------------------------------------

  class RagService {
    /** `self.documents`, keyed by document id. */
    var documents: map<string, DocMeta>
    /** The keys of `self.documents` in insertion order (a Python dict keeps it). */
    var order: seq<string>
    /** The vector store: collection name to its entries, in insertion order. */
    var collections: map<string, seq<StoredChunk>>

    /** `RecursiveCharacterTextSplitter(chunk_size=1000, chunk_overlap=200).split_text` */
    const splitter: string -> seq<string>
    /** `embed_query`, which may fail. */
    const embedder: string -> Result<seq<real>>
    /** `collection.query(query_embeddings=..., n_results=n)` on the given collection. */
    const query: Query
    const llm: Llm

    /** The registry and the vector store agree: every document has its own collection,
        named after its id, holding one entry per chunk. */
    ghost predicate Valid()
      reads this
    {
      Consistent(documents, order, collections) && QueryContract(query)
    }

    /** Every registered document's collection is in the store. */
    ghost predicate HasCollections()
      reads this
    {
      CollectionsPresent(documents, collections)
    }

    /** A fresh service with an empty registry and an empty store; loading the metadata
        files left by earlier runs is not modelled. */
    constructor(splitter: string -> seq<string>, embedder: string -> Result<seq<real>>, query: Query, llm: Llm)
      requires QueryContract(query)
      ensures Valid()
      ensures documents == map[] && order == [] && collections == map[]
      ensures this.splitter == splitter && this.embedder == embedder && this.query == query && this.llm == llm
    {
      this.splitter := splitter;
      this.embedder := embedder;
      this.query := query;
      this.llm := llm;
      documents := map[];
      order := [];
      collections := map[];
    }

    // -------------------------------------------------------------------------
    //  document_exists
    // -------------------------------------------------------------------------

    /** `document_exists`: the stripped id is a key, or some document's collection name
        ends with it once `'-'` is replaced by `'_'`. */
    predicate DocumentExists(docId: string)
      reads this
    {
      var id := Strip(docId);
      id in documents
      || exists key :: key in documents && EndsWith(documents[key].collectionName, ReplaceChar(id, '-', '_'))
    }

    /** Padding around a registered id does not matter. */
    lemma RegisteredExists(docId: string)
      requires Strip(docId) in documents
      ensures DocumentExists(docId)
    {
    }

    /** With nothing registered, no id exists. */
    lemma EmptyRegistryHasNothing(docId: string)
      requires documents == map[]
      ensures !DocumentExists(docId)
    {
    }

    /** Every tail of a registered (stripped) id is reported as existing, through the
        collection-name fallback; in particular the blank id exists as soon as any
        document is registered. */
    lemma TailsOfIdsExist(key: string, k: nat)
      requires Valid() && key in documents
      requires k <= |key| && IsStripped(key[k..])
      ensures DocumentExists(key[k..])
    {
      var tail := key[k..];
      assert Strip(tail) == tail by {
        StripFacts(tail);
      }
      assert EndsWith(documents[key].collectionName, ReplaceChar(tail, '-', '_')) by {
        ReplaceCharTail(key, k);
      }
    }

    lemma BlankIdExists(docId: string, key: string)
      requires Valid() && key in documents
      requires forall i :: 0 <= i < |docId| ==> IsSpace(docId[i])
      ensures DocumentExists(docId)
    {
      StripFacts(docId);
      var name := documents[key].collectionName;
      assert ReplaceChar("", '-', '_') == "";
      assert EndsWith(name, "");
    }

    // -------------------------------------------------------------------------
    //  process_document
    // -------------------------------------------------------------------------

    /** How many leading chunks embed without error. */
    function EmbeddedCount(chunks: seq<string>): (n: nat)
      ensures n <= |chunks|
      ensures forall j :: 0 <= j < n ==> embedder(chunks[j]).Ok?
      ensures n < |chunks| ==> embedder(chunks[n]).Err?
    {
      if chunks == [] || embedder(chunks[0]).Err? then 0 else 1 + EmbeddedCount(chunks[1..])
    }

    /** The collection and the loop of `process_document`: the collection `name` is
        created empty, then each chunk is embedded and added to it in turn; the first
        failing embedding stops the loop and its error is returned. */
    method EmbedChunks(name: string, docId: string, chunks: seq<string>) returns (failure: Option<Exception>)
      modifies this`collections
      ensures collections == old(collections)[name := Stored(docId, chunks[..EmbeddedCount(chunks)])]
      ensures failure.None? <==> EmbeddedCount(chunks) == |chunks|
      ensures failure.Some? ==> failure.value == embedder(chunks[EmbeddedCount(chunks)]).error
    {
      collections := collections[name := []];
      for i := 0 to |chunks|
        invariant collections == old(collections)[name := Stored(docId, chunks[..i])]
        invariant forall j :: 0 <= j < i ==> embedder(chunks[j]).Ok?
      {
        var embedding := embedder(chunks[i]);
        if embedding.Err? {
          EmbeddedCountAt(chunks, i);
          return Some(embedding.error);
        }
        StoredSnoc(docId, chunks, i);
        collections := collections[name := collections[name] + [StoredChunk(ChunkKey(docId, i), chunks[i], i, docId)]];
      }
      EmbeddedCountAt(chunks, |chunks|);
      assert chunks[..|chunks|] == chunks;
      failure := None;
    }

    /** The embedded count is the position of the first failing chunk. */
    lemma {:induction false} EmbeddedCountAt(chunks: seq<string>, i: nat)
      requires i <= |chunks| && forall j :: 0 <= j < i ==> embedder(chunks[j]).Ok?
      requires i < |chunks| ==> embedder(chunks[i]).Err?
      ensures EmbeddedCount(chunks) == i
      decreases i
    {
      if i > 0 {
        EmbeddedCountAt(chunks[1..], i - 1);
      }
    }

    /** `process_document(content, filename)` with `freshId` standing for the new
        `uuid4`. The collection is created first and filled chunk by chunk; if an
        embedding fails the partly filled collection stays behind, nothing is
        registered and the error is re-raised with a prefix. */
    method ProcessDocument(content: string, filename: string, freshId: string) returns (r: Result<string>)
      requires Valid()
      requires freshId !in documents && CollectionName(freshId) !in collections
      modifies this
      ensures Valid()
      ensures var chunks := splitter(content);
              collections == old(collections)[CollectionName(freshId) := Stored(freshId, chunks[..EmbeddedCount(chunks)])]
      ensures var chunks := splitter(content);
              r.Ok? <==> EmbeddedCount(chunks) == |chunks|
      ensures r.Ok? ==> r.value == freshId
                        && documents == old(documents)[freshId := DocMeta(filename, content, |splitter(content)|, CollectionName(freshId))]
                        && order == old(order) + [freshId]
      ensures r.Err? ==> documents == old(documents) && order == old(order)
                         && var chunks := splitter(content);
                            r.error == PlainException("Error processing document: " + Describe(embedder(chunks[EmbeddedCount(chunks)]).error))
    {
      var chunks := splitter(content);
      var name := CollectionName(freshId);
      var failure := EmbedChunks(name, freshId, chunks);
      if failure.Some? {
        r := Err(PlainException("Error processing document: " + Describe(failure.value)));
        NewCollectionKeepsConsistent(documents, order, old(collections), name, Stored(freshId, chunks[..EmbeddedCount(chunks)]));
        return;
      }
      assert chunks[..|chunks|] == chunks;
      RegisterKeepsConsistent(documents, order, old(collections), freshId, DocMeta(filename, content, |chunks|, name), Stored(freshId, chunks));
      Register(freshId, DocMeta(filename, content, |chunks|, name));
      r := Ok(freshId);
    }

    /** The last step of `process_document`: the metadata is recorded and the id
        appended to the registration order. */
    method Register(id: string, meta: DocMeta)
      modifies this`documents, this`order
      ensures documents == old(documents)[id := meta] && order == old(order) + [id]
    {
      documents := documents[id := meta];
      order := order + [id];
    }

    // -------------------------------------------------------------------------
    //  delete_document, list_documents, get_document_context, suggest_clarifications
    // -------------------------------------------------------------------------

    /** `delete_document`: drops the document and its collection; an unknown id changes
        nothing and answers false, so deleting twice answers false the second time. */
    method DeleteDocument(docId: string) returns (deleted: bool)
      requires Valid()
      modifies this
      ensures Valid()
      ensures deleted <==> Strip(docId) in old(documents)
      ensures Strip(docId) !in documents
      ensures deleted ==> documents == old(documents) - {Strip(docId)}
                          && collections == old(collections) - {CollectionName(Strip(docId))}
                          && order == Without(old(order), Strip(docId))
      ensures !deleted ==> documents == old(documents) && collections == old(collections) && order == old(order)
    {
      var id := Strip(docId);
      if id !in documents {
        return false;
      }
      var name := documents[id].collectionName;
      RemoveKeepsConsistent(documents, order, collections, id);
      collections := collections - {name};
      documents := documents - {id};
      order := Without(order, id);
      return true;
    }

    /** `list_documents`: one entry per registered document, in registration order. */
    function ListDocuments(): (r: seq<Listing>)
      requires Valid()
      reads this
      ensures |r| == |documents|
      ensures |r| == |order| && forall i :: 0 <= i < |r| ==> r[i].id == order[i]
      ensures forall i :: 0 <= i < |r| ==>
                (r[i].id in documents && r[i] == Listing(r[i].id, documents[r[i].id].filename, documents[r[i].id].chunks))
      ensures forall id :: id in documents ==> exists i :: 0 <= i < |r| && r[i].id == id
      ensures forall i, j :: 0 <= i < j < |r| ==> r[i].id != r[j].id
    {
      OrderLength();
      ListingsCover();
      Listings(order, documents)
    }

    lemma ListingsCover()
      requires Valid()
      ensures forall id :: id in documents ==> exists i :: 0 <= i < |order| && Listings(order, documents)[i].id == id
    {
      forall id | id in documents
        ensures exists i :: 0 <= i < |order| && Listings(order, documents)[i].id == id
      {
        var i :| 0 <= i < |order| && order[i] == id;
        assert Listings(order, documents)[i].id == id;
      }
    }

    lemma OrderLength()
      requires Valid()
      ensures |order| == |documents|
    {
      DistinctLength(order, documents.Keys);
      assert ToSet(order) == documents.Keys;
      SetLength(order);
    }

    /** `get_document_context` */
    function GetDocumentContext(docId: string): (r: Result<DocContext>)
      reads this
      ensures Strip(docId) !in documents <==> r == Err(PlainException("Document not found"))
      ensures r.Ok? ==> var meta := documents[Strip(docId)];
                        r.value.characterCount == |meta.content| && r.value.filename == meta.filename
                        && r.value.chunks == meta.chunks && r.value.wordCount == |Words(meta.content)|
                        && r.value.preview == Preview(meta.content)
    {
      var id := Strip(docId);
      if id !in documents then Err(PlainException("Document not found"))
      else
        var meta := documents[id];
        Ok(DocContext(meta.filename, |Words(meta.content)|, |meta.content|, meta.chunks, Preview(meta.content)))
    }

    /** `suggest_clarifications`: nothing for an unknown document, otherwise three
        rephrasing prompts, each a question quoting the user's question. */
    function SuggestClarifications(question: string, docId: string): (r: seq<string>)
      reads this
      ensures Strip(docId) !in documents <==> r == []
      ensures r != [] ==> |r| == 3 && forall k :: 0 <= k < 3 ==> Quotes(r[k], question) && r[k][|r[k]| - 1] == '?'
    {
      if Strip(docId) !in documents then []
      else
        QuotedIn("Could you be more specific about '", question, "'?");
        QuotedIn("Are you asking about a particular aspect of '", question, "'?");
        QuotedIn("Would you like me to explain '", question, "' in more detail?");
        ["Could you be more specific about '" + question + "'?",
         "Are you asking about a particular aspect of '" + question + "'?",
         "Would you like me to explain '" + question + "' in more detail?"]
    }

    // -------------------------------------------------------------------------
    //  search_document
    // -------------------------------------------------------------------------

    /** What `search_document` returns. */
    function SearchOf(queryText: string, docId: string, topK: int): seq<SearchHit>
      requires Valid()
      reads this
    {
      var id := Strip(docId);
      if id !in documents then []
      else if embedder(queryText).Err? then []
      else
        match query(queryText, collections[documents[id].collectionName], topK)
        case Err(_) => []
        case Ok(hits) => Scored(hits)
    }

    /** `search_document`: nothing for an unknown document or a failing store; otherwise
        at most `top_k` hits from the document's own collection, scored by rank. */
    method SearchDocument(queryText: string, docId: string, topK: int) returns (results: seq<SearchHit>)
      requires Valid()
      ensures results == SearchOf(queryText, docId, topK)
      ensures Strip(docId) !in documents ==> results == []
      ensures |results| <= if topK > 0 then topK else 0
      ensures forall i :: 0 <= i < |results| ==> results[i].relevance == Relevance(i)
      ensures forall i, j :: 0 <= i < j < |results| ==> results[i].relevance > results[j].relevance
      ensures forall i :: 0 <= i < |results| ==>
                exists c :: c in collections[documents[Strip(docId)].collectionName]
                            && c.text == results[i].content && c.chunkId == results[i].chunkId
    {
      var id := Strip(docId);
      if id !in documents {
        return [];
      }
      var collection := collections[documents[id].collectionName];
      var embedding := embedder(queryText);
      if embedding.Err? {
        return [];
      }
      var found := query(queryText, collection, topK);
      if found.Err? {
        return [];
      }
      var hits := found.value;
      results := [];
      for i := 0 to |hits|
        invariant |results| == i
        invariant forall k :: 0 <= k < i ==> results[k] == SearchHit(hits[k].chunkId, hits[k].text, Relevance(k))
      {
        results := results + [SearchHit(hits[i].chunkId, hits[i].text, 1.0 - (i as real) * 0.1)];
      }
      forall i, j | 0 <= i < j < |results|
        ensures results[i].relevance > results[j].relevance
      {
        RelevanceDecreases(i, j);
      }
      assert forall h :: h in hits ==> h in collection;
      forall i | 0 <= i < |results|
        ensures exists c :: c in collection && c.text == results[i].content && c.chunkId == results[i].chunkId
      {
        var c := hits[i];
        assert c in hits;
        assert c.text == results[i].content && c.chunkId == results[i].chunkId;
      }
    }

    // -------------------------------------------------------------------------
    //  answer_question
    // -------------------------------------------------------------------------

    /** The answer text once the context is known: a model with `predict` gets the
        prompt; otherwise the extractive answer is used. */
    function Reply(question: string, context: string, history: seq<Turn>): Result<string>
    {
      match llm
      case Predictor(predict) => predict(Prompt(question, context, history))
      case _ => Ok(BasicAnswer(question, context))
    }

    /** What `answer_question` returns. */
    function AnswerOf(question: string, docId: string, history: seq<Turn>): Answer
      requires HasCollections()
      reads this
    {
      var id := Strip(docId);
      if id !in documents then ErrorAnswer(PlainException("Document not found"))
      else if embedder(question).Err? then ErrorAnswer(embedder(question).error)
      else
        match query(question, collections[documents[id].collectionName], 5)
        case Err(e) => ErrorAnswer(e)
        case Ok(hits) =>
          var texts := Texts(hits);
          match Reply(question, Join(texts, "\n\n"), history)
          case Err(e) => ErrorAnswer(e)
          case Ok(a) =>
            Answer(a, Justification(|texts|), Prefix(texts, 3), 0.8)
    }

    /** The conversation part of the prompt: the last three turns, in order. */
    method ConversationContext(history: seq<Turn>) returns (text: string)
      ensures text == ConversationText(Recent(history))
    {
      text := "";
      var recent := Recent(history);
      for i := 0 to |recent|
        invariant text == ConversationText(recent[..i])
      {
        assert recent[..i + 1][..i] == recent[..i];
        text := text + TurnText(recent[i]);
      }
      assert recent[..|recent|] == recent;
    }

    /** The answer-producing step of `answer_question`. */
    method ReplyTo(question: string, context: string, history: seq<Turn>) returns (r: Result<string>)
      ensures r == Reply(question, context, history)
      ensures !llm.Predictor? ==> r == Ok(BasicAnswer(question, context))
    {
      if llm.Predictor? {
        var conversation := ConversationContext(history);
        r := llm.predict(PromptText(conversation, context, question));
      } else {
        var answer := GenerateBasicAnswer(question, context);
        r := Ok(answer);
      }
    }

    /** `answer_question`: never raises. Any failure becomes an error answer with
        confidence 0.0 and no snippets; success has confidence 0.8 and at most three
        snippets, the first hits of the document's own collection. */
    method AnswerQuestion(question: string, docId: string, history: seq<Turn>) returns (r: Answer)
      requires HasCollections()
      ensures r == AnswerOf(question, docId, history)
    {
      var id := Strip(docId);
      if id !in documents {
        return ErrorAnswer(PlainException("Document not found"));
      }
      var collection := collections[documents[id].collectionName];
      var embedding := embedder(question);
      if embedding.Err? {
        return ErrorAnswer(embedding.error);
      }
      var found := query(question, collection, 5);
      if found.Err? {
        return ErrorAnswer(found.error);
      }
      var texts := Texts(found.value);
      var answer := ReplyTo(question, Join(texts, "\n\n"), history);
      if answer.Err? {
        return ErrorAnswer(answer.error);
      }
      r := Answer(answer.value, Justification(|texts|), Prefix(texts, 3), 0.8);
    }

    /** `answer_question` never raises. An unknown document or any failure gives
        confidence 0.0, no snippets and "System error occurred"; success gives
        confidence 0.8 and at most three snippets, all texts of the document's own
        collection. */
    lemma AnswerShape(question: string, docId: string, history: seq<Turn>)
      requires Valid()
      ensures var r := AnswerOf(question, docId, history);
              && (Strip(docId) !in documents ==> r == ErrorAnswer(PlainException("Document not found")))
              && (r.confidence == 0.0 || r.confidence == 0.8)
              && (r.confidence == 0.0 ==> r.sourceSnippets == [] && r.justification == "System error occurred")
              && (r.confidence == 0.8 ==>
                    && |r.sourceSnippets| <= 3
                    && forall t :: t in r.sourceSnippets ==>
                         exists c :: c in collections[documents[Strip(docId)].collectionName] && c.text == t)
    {
      var id := Strip(docId);
      if id in documents && embedder(question).Ok? {
        var collection := collections[documents[id].collectionName];
        var found := query(question, collection, 5);
        if found.Ok? {
          SnippetsFromCollection(found.value, collection);
        }
      }
    }
  }

  /** The first hits' texts come from the collection the hits were drawn from. */
  lemma SnippetsFromCollection(hits: seq<StoredChunk>, collection: seq<StoredChunk>)
    requires forall h :: h in hits ==> h in collection
    ensures forall t :: t in Prefix(Texts(hits), 3) ==> exists c :: c in collection && c.text == t
  {
    var snippets := Prefix(Texts(hits), 3);
    forall t | t in snippets
      ensures exists c :: c in collection && c.text == t
    {
      var k :| 0 <= k < |snippets| && snippets[k] == t;
      var c := hits[k];
      assert c in hits;
      assert snippets[k] == Texts(hits)[k] == c.text;
    }
  }
}
