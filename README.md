# DocIntel core in Dafny

This project models the document-handling core of DocIntel, a document question-answering and
quiz backend, and proves properties of the model. It covers four parts:

- **Text splitting** (`parser.dfy`, module `Parser`):
  - `chunk_text` packs `"\n\n"`-separated paragraphs into size-bounded chunks and carries an
    overlap into the next chunk;
  - `extract_sections` groups the non-blank lines under header lines;
  - `_clean_text` is modelled only for its empty-input and strip behaviour.
- **Document registry** (`rag.dfy`, module `Rag`, class `RagService`):
  - the `documents` dictionary, its insertion order and the per-document chunk collections;
  - `document_exists` with its collection-name fallback;
  - `process_document` bookkeeping, `delete_document`, `list_documents`, `get_document_context`
    and `suggest_clarifications`;
  - the extractive fallbacks `_generate_basic_answer` and `_generate_basic_summary`;
  - rank-based scoring in `search_document`;
  - the result shape of `answer_question`, including the last-three-turns prompt.
- **MCQ quiz service** (`quiz.dfy`, module `Quiz`, class `QuizService`):
  - key-concept extraction, which reproduces `Counter.most_common(15)`;
  - distractor selection, shuffling and letter assignment;
  - the `active_quizzes` session table, which `grade` consumes in one go.
- **Challenge-mode service** (`challenge.dfy`, module `Challenge`, class `QuizService`):
  - the fabricated question bank;
  - sessions with their `questions`, `qmap` and `answers` log;
  - evaluation with the three feedback tiers, progress with its rounded average, hints, and the
    end of a session.

`text.dfy` (module `Text`) states the Python string builtins the core relies on:

- `split(sep)`, `split()`, `strip()`, `strip(chars)`, `join`, `endswith`, `lower`, `upper`, `str(n)`;
- the slices `s[:n]` and `s[a:]`, including `s[-0:]`, which is the whole string;
- `random.shuffle`, modelled as the permutation that a Lehmer code selects.

`outcomes.dfy` (module `Outcomes`) holds the exception kinds and the `Result`/`Option` types.

The collaborators the core calls are parameters of the services:

- the text splitter, the embedder, the vector-store query and the language model;
- `SequenceMatcher.ratio`, taken as an uninterpreted function into [0, 1];
- the random draws and the new uuids.

Properties are proved for every value of these parameters. The vector-store query has one
obligation: it returns at most `n_results` chunks, all from the queried collection.

Behaviour of the code worth knowing:

- `chunk_text` can return an empty chunk, even as its last one: `Parser.BlankChunkExample` shows
  `"\n\n"` with chunk size 1 giving `[""]`.
  - For text that `_clean_text` produces (non-empty and stripped) the last chunk is non-empty,
    see `Parser.LastChunkOfCleanText`.
- An MCQ has between 2 and 4 options.
  - A drawn pool sentence equal to the correct answer is filtered out.
  - The snippet option exists only when the search returns hits.
- Registering a document is not atomic. When an embedding fails part-way, the chunks stored so far
  stay in their new collection while the registry is left unchanged.
- Grading in the MCQ service removes the whole session at once; nothing removes single questions.
- `document_exists("")` (or a blank id) holds as soon as any document is registered, because every
  string ends with the empty string.
- `_fake_questions` with a negative count keeps all but the last `-num` bank entries, as Python
  slicing does.

## Model

| member | source | states |
|---|---|---|
| Parser.CleanText | backend/services/parser.py:78-94 | empty text gives ""; the result is always whitespace-stripped and no longer than the rewritten text |
| Parser.ChunkText | backend/services/parser.py:122-147 | the loop computes the paragraph-packing specification `Chunks`; empty text gives no chunks; never more chunks than `"\n\n"`-separated paragraphs; every chunk is stripped |
| Parser.PackStep | backend/services/parser.py:134-141 | one pass of the paragraph loop: when the running chunk is non-empty and adding the paragraph would exceed the chunk size, the stripped running chunk is emitted and the next one is its last `overlap` characters followed by the paragraph with no separator; otherwise the paragraph and `"\n\n"` are appended (properties in PackFacts) |
| Parser.Pack | backend/services/parser.py:131-141 | the loop state after the paragraphs in order, starting from no chunks and an empty running chunk (properties in PackFacts) |
| Parser.Chunks | backend/services/parser.py:126-147 | the result of `chunk_text`: no chunks for empty text, otherwise the emitted chunks followed by the stripped running chunk when that is not blank (properties in ChunkCountAndShape and LastChunkOfCleanText) |
| Parser.PackPrefix | backend/services/parser.py:134-141 | handling one more paragraph is one packing step on the state left by the earlier paragraphs |
| Parser.PackFacts | backend/services/parser.py:130-141 | packing n > 0 paragraphs emits fewer than n chunks, all stripped, and the running chunk ends with the last paragraph |
| Parser.ChunkCountAndShape | backend/services/parser.py:130-145 | the chunk count never exceeds the paragraph count and every chunk is stripped |
| Parser.StripKeepsInk | backend/services/parser.py:144 | a string containing a non-whitespace character does not strip to the empty string |
| Parser.SplitLast | backend/services/parser.py:130 | the last piece of `split(sep)` is a suffix of the text, and an empty last piece of non-empty text means the text ends with `sep` |
| Parser.LastChunkOfCleanText | backend/services/parser.py:126-145 | for non-empty stripped text there is at least one chunk and the last chunk is non-empty |
| Parser.LastParagraphKeepsInk | backend/services/parser.py:144-145 | a running chunk ending in a paragraph that ends in non-whitespace, possibly followed by the break, does not strip to "" |
| Parser.BreakPacks | backend/services/parser.py:134-141 | two empty paragraphs with a chunk size below 2 and an overlap of at least 2: the second emits the blank running chunk |
| Parser.BlankChunkExample | backend/services/parser.py:136-137 | `"\n\n"` with chunk size 1 gives the single chunk "": an emitted chunk can be empty and can be the last |
| Parser.OverlapZeroKeepsEverything | backend/services/parser.py:139 | with overlap 0 (`s[-0:]` is all of `s`) nothing is ever dropped: every paragraph read so far occurs as a contiguous piece of the running chunk, and the running chunk is at least as long as all paragraphs together (through `OverlapZeroPrefixes`: each pass only extends the running chunk) |
| Parser.OverlapZeroPrefixes | backend/services/parser.py:134-141 | with overlap 0 the running chunk after the first k paragraphs is a prefix of the running chunk after all of them: the loop only ever extends it |
| Parser.RunLength | backend/services/parser.py:156-160 | the longest prefix whose characters satisfy a predicate, used to read the header patterns |
| Parser.IsCapsHeader | backend/services/parser.py:157 | `^([A-Z][A-Z\s]+)$`: a capital followed by at least one more capital or whitespace character, and nothing else |
| Parser.IsNumberedHeader | backend/services/parser.py:158 | `^(\d+\.?\s+[A-Z][^.]*?)$`: digits, an optional dot, whitespace, a capital, and no further dot |
| Parser.IsColonHeader | backend/services/parser.py:159 | `^([A-Z][^.]*?):$`: a capital, no dot, and a final colon |
| Parser.IsHeader | backend/services/parser.py:156-160 | a stripped line is a header when any of the three patterns matches it |
| Parser.ScanStep | backend/services/parser.py:166-189 | one pass of the line loop: a blank line changes nothing; a header closes the open section (if any) and opens a new one with no content; any other line joins the open content (properties in ScanHeaderAgrees and ScanBodyAgrees) |
| Parser.ScanLines | backend/services/parser.py:162-189 | the loop state after the lines in order, starting with no sections and none open (properties in ScanLinesAgrees) |
| Parser.Sections | backend/services/parser.py:149-198 | the result of `extract_sections`: the closed sections plus the open one, each content joined by `"\n"` (properties in SectionTitlesInOrder and SectionsCoverLines) |
| Parser.RenderAll | backend/services/parser.py:177-180 | one section per collected group |
| Parser.ExtractSections | backend/services/parser.py:149-198 | the loop computes `Sections`; there is exactly one section per header among the stripped non-blank lines, titled with that line, in input order |
| Parser.RenderAllTitles | backend/services/parser.py:178 | each rendered section keeps its group's title |
| Parser.SectionTitlesInOrder | backend/services/parser.py:166-196 | the sections' titles are exactly the header lines, in order |
| Parser.ScanPrefix | backend/services/parser.py:166-189 | scanning one more line is one scan step |
| Parser.FromFirstHeaderSnoc | backend/services/parser.py:176-189 | the lines kept from the first header on grow by the new line once a header has been seen |
| Parser.ScanHeaderAgrees | backend/services/parser.py:175-185 | a header closes the open section and opens a new one, keeping the scan in agreement with the kept lines |
| Parser.ScanBodyAgrees | backend/services/parser.py:188-189 | a non-header line joins the open section's content |
| Parser.ScanLinesAgrees | backend/services/parser.py:166-189 | after any number of lines, closed plus open sections account for exactly the kept lines from the first header on |
| Parser.SectionTitles | backend/services/parser.py:166-196 | the groups' titles are the header lines, one group per header |
| Parser.TitlesLength | backend/services/parser.py:178 | one title per group, in group order |
| Parser.SectionsCoverLines | backend/services/parser.py:176-196 | titles and content lines together are exactly the kept lines from the first header on: lines before the first header are dropped, nothing else is |
| Parser.SectionBodiesPlain | backend/services/parser.py:188-189 | every content line is non-empty and not a header |
| Rag.CollectionName | backend/services/rag.py:102 | the name is `"doc_"` followed by the id with every `'-'` replaced by `'_'`, so it holds no `'-'` |
| Rag.ReplaceCharTail | backend/services/rag.py:93 | every tail of an id, with `'-'` replaced, is a suffix of its collection name |
| Rag.ChunkKeysDistinct | backend/services/rag.py:114 | chunk ids `"{doc_id}_{i}"` of one document are distinct |
| Rag.Stored | backend/services/rag.py:108-115 | chunk i is stored under id `"{doc_id}_{i}"` with chunk id i, its text and the document id |
| Rag.StoredSnoc | backend/services/rag.py:108-115 | storing one more chunk appends exactly its entry |
| Rag.StoredIdsDistinct | backend/services/rag.py:114 | the stored chunk ids of one document are pairwise distinct |
| Rag.Without | backend/services/rag.py:260 | removing a key keeps exactly the other keys |
| Rag.WithoutDistinct | backend/services/rag.py:260 | removing a key from distinct keys leaves distinct keys |
| Rag.PositionsSpec | backend/services/rag.py:199-202 | the selected sentences are exactly those sharing a lower-cased word with the question, listed in increasing context order |
| Rag.RelevantAtPositions | backend/services/rag.py:202 | each selected sentence is the stripped context sentence at its position |
| Rag.BasicAnswer | backend/services/rag.py:190-207 | the result of `_generate_basic_answer`: the first three stripped `"."`-separated sentences that share a lower-cased word with the question, joined by `". "` with a final `"."`, or the not-found message (properties in PositionsSpec and BasicAnswerCases) |
| Rag.GenerateBasicAnswer | backend/services/rag.py:190-207 | the loop computes `BasicAnswer`: the not-found message when no sentence qualifies, else at most 3 selected sentences joined by `". "` plus a final `"."` |
| Rag.BasicAnswerCases | backend/services/rag.py:204-207 | no sentence sharing a word gives the not-found message; any sharing sentence gives an answer ending in `"."` that joins the first three selected sentences |
| Rag.Budgeted | backend/services/rag.py:242-248 | the kept sentences are no more than the sentences |
| Rag.BudgetedSpec | backend/services/rag.py:242-248 | the kept sentences are a prefix within the word budget, and the first sentence left out would overflow it |
| Rag.BudgetedStep | backend/services/rag.py:243-248 | a sentence is kept exactly when it fits the remaining budget, and the first one that does not fit ends the summary |
| Rag.BasicSummary | backend/services/rag.py:237-250 | the result of `_generate_basic_summary`: the budgeted `". "`-separated sentences joined by `". "` with a final `"."` (properties in BudgetedSpec) |
| Rag.KeepWithinBudget | backend/services/rag.py:239-248 | the loop with its early exit keeps exactly the sentences `Budgeted` describes |
| Rag.GenerateBasicSummary | backend/services/rag.py:237-250 | the summary joins the budgeted sentences of `content.split(". ")` and always ends with `"."` |
| Rag.Relevance | backend/services/rag.py:327 | the score of hit i is at most 1.0, is 1.0 for the first hit, and is non-negative exactly for i ≤ 10 |
| Rag.RelevanceDecreases | backend/services/rag.py:327 | scores strictly decrease with rank, by 0.1 per step |
| Rag.Preview | backend/services/rag.py:304 | content of at most 500 characters is kept whole; longer content gives its first 500 characters plus `"..."` |
| Rag.QuotedIn | backend/services/rag.py:285-287 | a question placed between two single quotes is quoted in the text |
| Rag.Recent | backend/services/rag.py:153 | at most the last three turns are used |
| Rag.OlderTurnsIgnored | backend/services/rag.py:152-166 | with three or more turns, an older turn does not change the prompt |
| Rag.Prompt | backend/services/rag.py:150-166 | the prompt: the text of the last three turns, the document context and the current question in the fixed template (properties in OlderTurnsIgnored) |
| Rag.ConversationTextAppend | backend/services/rag.py:153-154 | the conversation text of two turn lists is the concatenation of their texts |
| Rag.Texts | backend/services/rag.py:148 | the context passages are the hit texts, in rank order |
| Rag.Scored | backend/services/rag.py:323-328 | hit i keeps its chunk id and text and gets the rank score of position i |
| Rag.Listings | backend/services/rag.py:271-278 | one listing per id, carrying that document's filename and chunk count |
| Rag.RegisterKeepsConsistent | backend/services/rag.py:117-122 | registering a new document with its new collection keeps the registry consistent |
| Rag.NewCollectionKeepsConsistent | backend/services/rag.py:103-106 | creating a collection under an unused name keeps the registry consistent |
| Rag.RemoveKeepsConsistent | backend/services/rag.py:258-260 | deleting a document with its collection keeps the registry consistent |
| Rag.RagService.constructor | backend/services/rag.py:74-81 | the service starts with no documents and no collections |
| Rag.RagService.DocumentExists | backend/services/rag.py:83-96 | the stripped id is registered, or some document's collection name ends with it once `'-'` is replaced by `'_'` (consequences in RegisteredExists, EmptyRegistryHasNothing, TailsOfIdsExist and BlankIdExists) |
| Rag.RagService.RegisteredExists | backend/services/rag.py:84-89 | a registered id, after stripping, exists |
| Rag.RagService.EmptyRegistryHasNothing | backend/services/rag.py:88-96 | with no documents, no id exists |
| Rag.RagService.TailsOfIdsExist | backend/services/rag.py:91-94 | any stripped tail of a registered id also exists, through the collection-name fallback |
| Rag.RagService.BlankIdExists | backend/services/rag.py:84-94 | a blank id exists as soon as any document is registered |
| Rag.RagService.EmbeddedCount | backend/services/rag.py:108-109 | the number of leading chunks whose embedding succeeds |
| Rag.RagService.EmbedChunks | backend/services/rag.py:102-115 | the new collection holds the stored chunks up to the first failing embedding; the error is returned exactly when some embedding fails, and it is that embedding's error |
| Rag.RagService.EmbeddedCountAt | backend/services/rag.py:108-109 | the number of chunks embedded before the first failure is the position of that failure |
| Rag.RagService.Register | backend/services/rag.py:117-122 | the metadata is recorded under the id and the id appended to the registration order; nothing else changes |
| Rag.RagService.ProcessDocument | backend/services/rag.py:98-130 | a new collection holds every successfully embedded chunk. On success the id is registered last, with the chunk count and collection name. On an embedding failure the registry is unchanged and the error is wrapped as "Error processing document: …" |
| Rag.RagService.DeleteDocument | backend/services/rag.py:252-268 | returns true exactly for a registered (stripped) id; it then removes exactly that document and its collection, otherwise nothing changes; afterwards the id is not registered, so a second delete returns false |
| Rag.RagService.ListDocuments | backend/services/rag.py:270-278 | one listing per registered document, in registration order (entry i is the i-th registered id), each with its own filename and chunk count, with no id twice |
| Rag.RagService.ListingsCover | backend/services/rag.py:277 | every registered document appears in the listing |
| Rag.RagService.OrderLength | backend/services/rag.py:277 | the insertion order lists each registered document once |
| Rag.RagService.GetDocumentContext | backend/services/rag.py:291-305 | an unknown id raises "Document not found"; otherwise filename, word count, character count, chunk count and the preview of the stored content |
| Rag.RagService.SuggestClarifications | backend/services/rag.py:280-289 | nothing for an unknown document; otherwise three questions, each quoting the question and ending in `?` |
| Rag.RagService.SearchDocument | backend/services/rag.py:307-333 | nothing for an unknown document or a failure. Otherwise at most `top_k` hits from the document's own collection. Hit i scores 1.0 − 0.1·i, so scores strictly decrease |
| Rag.RagService.SearchOf | backend/services/rag.py:307-333 | the result of `search_document`: no hits for an unregistered id, a failing embedder or a failing query; otherwise the query's hits on the document's collection scored by rank (properties in SearchDocument's contract) |
| Rag.RagService.ConversationContext | backend/services/rag.py:151-154 | the loop builds the text of the last three turns |
| Rag.RagService.ReplyTo | backend/services/rag.py:150-173 | without a model that has `predict`, the reply is the extractive basic answer |
| Rag.RagService.Reply | backend/services/rag.py:150-173 | a model with `predict` answers the prompt; without one the extractive basic answer is used |
| Rag.RagService.AnswerOf | backend/services/rag.py:132-188 | the result of `answer_question`: an error answer for an unknown id or any failure of the embedder, the query or the model; otherwise the reply, the passage count, the first three passages and confidence 0.8 (properties in AnswerShape) |
| Rag.RagService.AnswerQuestion | backend/services/rag.py:132-188 | the method returns exactly the answer `AnswerOf` describes, on every path, including each error path |
| Rag.RagService.AnswerShape | backend/services/rag.py:132-188 | never raises. An unknown document or any failure gives confidence 0.0, no snippets and "System error occurred". Success gives confidence 0.8 and at most 3 snippets, all from the document's collection |
| Rag.SnippetsFromCollection | backend/services/rag.py:178 | the first three hit texts all come from the queried collection |
| Quiz.KeyTermIsLower | backend/services/quiz.py:104-105 | a kept token is lower-case and alphabetic |
| Quiz.KeptTokensAreTerms | backend/services/quiz.py:103-106 | every token kept from a sentence is longer than 3 characters, alphabetic, lower-case and not a stop word |
| Quiz.SentenceTokensAreTerms | backend/services/quiz.py:102-106 | the same for all sentences |
| Quiz.FirstIndex | backend/services/quiz.py:108-109 | the first occurrence of a word: `Counter`'s order for equal counts |
| Quiz.Keys | backend/services/quiz.py:108 | the distinct words, each once |
| Quiz.Insert | backend/services/quiz.py:109 | inserting a word adds exactly that word |
| Quiz.SortByCount | backend/services/quiz.py:109 | sorting keeps exactly the keys |
| Quiz.BeforeTotal | backend/services/quiz.py:109 | any two different words are ordered by count, then first occurrence |
| Quiz.BeforeTransitive | backend/services/quiz.py:109 | that order is transitive |
| Quiz.InsertRanked | backend/services/quiz.py:109 | insertion keeps the list ranked |
| Quiz.SortRanked | backend/services/quiz.py:109 | the sorted keys are ranked by count, ties by first occurrence |
| Quiz.MostCommon | backend/services/quiz.py:108-109 | `[k for k, _ in Counter(words).most_common(n)]`: the first n distinct words ordered by count, ties by first occurrence (properties in MostCommonSpec) |
| Quiz.MostCommonSpec | backend/services/quiz.py:108-109 | at most n distinct words, all occurring, ranked; any word left out comes after all n kept words |
| Quiz.KeyConceptsSpec | backend/services/quiz.py:94-109 | at most 15 distinct terms, each a kept token of the text, in non-increasing count order; any term left out ranks after all 15 kept ones |
| Quiz.KeyConcepts | backend/services/quiz.py:94-109 | the result of `_extract_key_concepts`: the 15 most common key terms of the text (properties in KeyConceptsSpec) |
| Quiz.KeptTokensPrefix | backend/services/quiz.py:103-106 | one more word adds its token exactly when it is a key term |
| Quiz.SentenceTokensPrefix | backend/services/quiz.py:102-106 | one more sentence adds its kept tokens |
| Quiz.ExtractKeyConcepts | backend/services/quiz.py:94-109 | the nested loops compute `KeyConcepts` |
| Quiz.SamplePair | backend/services/quiz.py:140 | the two drawn pool positions are different |
| Quiz.SamplePairCoversAll | backend/services/quiz.py:140 | every ordered pair of different pool positions can be drawn |
| Quiz.Snippet | backend/services/quiz.py:144-145 | the snippet ends with `" …"` and contains no `'.'` |
| Quiz.SplitFirstPiece | backend/services/quiz.py:144 | the first piece of a split on `'.'` contains no `'.'` |
| Quiz.FirstSentence | backend/services/quiz.py:144-145 | the stripped first sentence of the first 120 characters contains no `'.'` |
| Quiz.SnippetOf | backend/services/quiz.py:143-145 | a snippet exactly when there are hits, and it does not end with `'.'` |
| Quiz.GenericPoolShaped | backend/services/quiz.py:134-139 | the generic pool holds four different sentences, each ending with `'.'` |
| Quiz.SentencesAndSnippet | backend/services/quiz.py:140-145 | two different full-stop sentences followed by at most one string not ending in `'.'` are all different |
| Quiz.PickedDistinct | backend/services/quiz.py:140-145 | two different sentences drawn from such a pool, with the snippet, are 2 or 3 different candidates |
| Quiz.CandidatesDistinct | backend/services/quiz.py:133-145 | the candidates of `_generate_distractors` number 2 or 3 and are all different |
| Quiz.Candidates | backend/services/quiz.py:133-145 | the two drawn pool sentences, then the snippet of the last hit when there are hits (properties in CandidatesDistinct) |
| Quiz.FilterCandidates | backend/services/quiz.py:147 | filtering the correct answer out of 2 or 3 different candidates leaves 1 to 3 different distractors, none the correct answer, all kept by `[:3]` |
| Quiz.Distractors | backend/services/quiz.py:147 | `[d for d in distractors if d != correct][:3]` (properties in DistractorsSpec) |
| Quiz.DistractorsSpec | backend/services/quiz.py:132-148 | one to three distractors, pairwise different, none equal to the correct answer, in candidate order |
| Quiz.AssignLetters | backend/services/quiz.py:126-127 | letters A, B, C, D go in order to at most four options |
| Quiz.TextIndex | backend/services/quiz.py:128 | the first option with a given text |
| Quiz.LetterIndex | backend/services/quiz.py:127 | the first option under a given letter |
| Quiz.CorrectLetter | backend/services/quiz.py:128 | `next(...)`: the letter of the first option whose text is the correct answer, or none (properties in CorrectLetterResolves and ArrangedOptions) |
| Quiz.Lookup | backend/services/quiz.py:127 | `options_dict.get(letter)`: the text under the first option with that letter, or none |
| Quiz.CorrectLetterResolves | backend/services/quiz.py:124-128 | for any arrangement of up to four options containing the correct answer, its letter is one of A–D and the option under that letter is the correct answer |
| Quiz.QuestionIdsDistinct | backend/services/quiz.py:51 | the ids `q_1`, `q_2`, … are distinct |
| Quiz.ChooseConcept | backend/services/quiz.py:112 | the concept is one of the key concepts when there are any |
| Quiz.GradeOneSpec | backend/services/quiz.py:78-88 | score 100 exactly when the upper-cased submitted letter is the stored letter, else 0; an unanswered question scores 0 |
| Quiz.GradeOne | backend/services/quiz.py:78-88 | one graded entry: the upper-cased submitted letter ("" when missing), the stored letter, whether they agree, score 100 or 0, and the stored justification (properties in GradeOneSpec) |
| Quiz.GradeAll | backend/services/quiz.py:77-88 | one graded entry per stored question, in stored order |
| Quiz.QuizService.constructor | backend/services/quiz.py:15-21 | the service starts with no sessions and no cached documents |
| Quiz.QuizService.RegisterDocument | backend/services/quiz.py:26-29 | caches the text under the id; sessions are untouched |
| Quiz.QuizService.GenerateDistractors | backend/services/quiz.py:132-148 | the distractors are the filtered candidates: one to three, distinct, never the correct answer |
| Quiz.ArrangedOptions | backend/services/quiz.py:124-128 | shuffling one to three distinct distractors with a different correct answer and lettering them gives 2 to 4 options with pairwise different texts, lettered in order, whose correct letter leads back to the correct answer |
| Quiz.QuizService.Arrangement | backend/services/quiz.py:116-127 | the options of one question: `Distractors` of the candidates drawn for the search hits, then the stripped answer, shuffled by `draw.shuffle` and lettered A, B, … in order (properties in ArrangedOptions) |
| Quiz.QuizService.BuildSingleMcq | backend/services/quiz.py:111-130 | the question asks about the drawn concept. There are 2 to 4 options with pairwise different texts, lettered A, B, … in order. The option under the returned letter is the service's stripped answer, and the justification is the service's. The options are exactly `Arrangement`: the distractors of `_generate_distractors` for the drawn candidates followed by the stripped answer, shuffled by the draw and lettered in order |
| Quiz.IdsAgreeSnoc | backend/services/quiz.py:51-61 | appending question `q_{n+1}` and its key keeps the ids `q_1…` in step on both sides |
| Quiz.TextsAgreeSnoc | backend/services/quiz.py:52-55 | appending a question about the next drawn concept keeps every question about its own draw |
| Quiz.KeysAgreeSnoc | backend/services/quiz.py:52-61 | appending a key whose letter names the option holding the answer keeps every key pointing at its answer |
| Quiz.QuizService.Answers | backend/services/quiz.py:116 | one service answer per question, in order |
| Quiz.QuizService.AnswersSnoc | backend/services/quiz.py:50-52 | the answers to one more question are the earlier answers followed by the new one |
| Quiz.KeysWellFormedPut | backend/services/quiz.py:63 | storing a session whose keys agree with its questions keeps every stored letter in A–D |
| Quiz.QuizService.BuildQuestions | backend/services/quiz.py:50-63 | the loop builds n questions `q_1..q_n` and keys with the same ids, each key's letter naming the option holding the answer; every question has 2 to 4 options lettered A, B, … in order with pairwise different texts, and question k's options are `Arrangement` of its own shuffled distractors and answer under draw k |
| Quiz.QuizService.CacheDocument | backend/services/quiz.py:34-40 | a cached id is used unchanged. An unknown id raises ValueError; an id known only through the collection-name fallback raises "Document not found"; neither changes the cache. Otherwise the preview of the stored content is cached and returned |
| Quiz.QuizService.GenerateQuestions | backend/services/quiz.py:31-68 | an uncached id unknown to the document service raises ValueError. An id that exists only through the collection-name fallback raises the context lookup's "Document not found". Both leave everything unchanged. Otherwise the preview is cached and max(n, 0) questions are stored under the new session id, with ids `q_1..q_n` and keys naming the correct options; every stored question has 2 to 4 options lettered A, B, … in order with pairwise different texts, and question k's options are its shuffled distractors and answer under draw k (`Arrangements`) |
| Quiz.QuizService.Grade | backend/services/quiz.py:70-89 | an unknown or already graded session raises ValueError. Otherwise the session is removed and every stored question is graded in order |
| Challenge.RoundHalfEven | backend/routers/challenge.py:147-151 | Python's `round`: within one half of the value, halves to the even integer |
| Challenge.RoundWithin | backend/routers/challenge.py:114 | rounding a value between two integers stays between them |
| Challenge.Fabricate | backend/routers/challenge.py:46-57 | one question per chosen bank entry, in order |
| Challenge.MakeQuestionSpec | backend/routers/challenge.py:47-56 | a question is true/false exactly when its answer is "True" or "False", and exactly then offers the options "True" and "False"; it keeps its text, answer, uuid, difficulty and the explanation quoting the answer |
| Challenge.MakeQuestion | backend/routers/challenge.py:47-56 | the question built from one bank entry with its uuid and difficulty (properties in MakeQuestionSpec) |
| Challenge.BankSize | backend/routers/challenge.py:36-42 | the bank holds five entries |
| Challenge.FakeQuestionsCount | backend/routers/challenge.py:43-46 | the stub keeps min(num, 5) questions for num ≥ 0, the k-th built from the k-th shuffled entry |
| Challenge.BankQuestionsDistinct | backend/routers/challenge.py:36-42 | the bank's question texts are distinct |
| Challenge.BankTrueFalse | backend/routers/challenge.py:36-42 | at most one bank entry is a true/false entry |
| Challenge.ShuffledPrefixFromBank | backend/routers/challenge.py:43-46 | any shuffle's prefix is drawn from the bank and keeps its distinct texts and its single true/false entry |
| Challenge.EntriesOf | backend/routers/challenge.py:50-53 | the (question, answer) pair behind each question |
| Challenge.FabricateEntries | backend/routers/challenge.py:46-57 | fabricated questions keep their entries and are true/false exactly for true/false entries |
| Challenge.FakeQuestionsFromBank | backend/routers/challenge.py:34-58 | for any shuffle, every question comes from the bank, no question text repeats, and at most one question is true/false |
| Challenge.FakeQuestionsOf | backend/routers/challenge.py:34-58 | the result of `_fake_questions` for a given shuffle and given uuids: the questions built from `sample_bank[:num]` (properties in FakeQuestionsCount and FakeQuestionsFromBank) |
| Challenge.FabricateCount | backend/routers/challenge.py:43-46 | for any five-entry bank, `bank[:num]` after the shuffle gives min(num, 5) questions for num ≥ 0, the k-th built from the k-th shuffled entry |
| Challenge.BuildFromEntries | backend/routers/challenge.py:44-57 | the loop builds one question per chosen entry, in order |
| Challenge.FakeQuestions | backend/routers/challenge.py:34-58 | the loop builds exactly `FakeQuestionsOf`, min(num, 5) questions for num ≥ 0 |
| Challenge.EvaluateSpec | backend/routers/challenge.py:114-131 | correct exactly at score ≥ 80. The feedback is "Excellent" exactly at ≥ 80, "Close" exactly in 60–79 and "Not quite" below 60. The evaluation carries the gold answer and the explanation as its reference |
| Challenge.Evaluate | backend/routers/challenge.py:116-131 | the evaluation for a score: correctness, the feedback tier, the match note, the gold answer and the explanation twice (properties in EvaluateSpec) |
| Challenge.Ids | backend/routers/challenge.py:134 | the question ids of the answers log, in order |
| Challenge.PutFind | backend/routers/challenge.py:134-137 | after storing, the question id maps to the new record and every other id keeps its record |
| Challenge.Put | backend/routers/challenge.py:134-137 | `answers[id] = record` on an insertion-ordered dictionary: an existing entry is replaced in place, a new one goes last (properties in PutFind, PutIds and PutSpec) |
| Challenge.PutIds | backend/routers/challenge.py:134-137 | re-evaluating keeps the id list; a first evaluation appends the id |
| Challenge.PutSpec | backend/routers/challenge.py:134-137 | ids stay distinct and the log grows only for a question not yet answered |
| Challenge.ScoreSumBounds | backend/routers/challenge.py:149 | n scores in 0..100 sum to between 0 and 100·n |
| Challenge.PutScoresInRange | backend/routers/challenge.py:134-137 | storing a score in 0..100 keeps all stored scores in 0..100 |
| Challenge.QMap | backend/routers/challenge.py:90 | the map's keys are exactly the questions' ids |
| Challenge.QMapValues | backend/routers/challenge.py:90 | each map entry is one of the questions, under its own id |
| Challenge.QMapSize | backend/routers/challenge.py:90 | the map has no more keys than there are questions |
| Challenge.ProgressBounds | backend/routers/challenge.py:141-159 | answered never exceeds the number of questions; the average is in 0..100, and 0 when nothing is answered |
| Challenge.ProgressOf | backend/routers/challenge.py:145-159 | the progress of a session: answers, questions and the rounded average score, 0 with no answers (properties in ProgressBounds) |
| Challenge.AverageBounds | backend/routers/challenge.py:147-151 | the mean of scores in 0..100 lies in [0, 100] |
| Challenge.NewSessionValid | backend/routers/challenge.py:87-92 | a new session with its id map and no answers is well formed |
| Challenge.HintSpec | backend/routers/challenge.py:166 | the hint is "Hint: ", then text that splits into exactly the first four words of the answer, then "..." |
| Challenge.Hint | backend/routers/challenge.py:166 | "Hint: ", the first four words of the answer joined by spaces, and "..." (properties in HintSpec) |
| Challenge.StoreSessionValid | backend/routers/challenge.py:87-92 | storing a well-formed session keeps every session well formed |
| Challenge.RemoveSessionValid | backend/routers/challenge.py:170 | removing a session keeps the others well formed |
| Challenge.QuizService.constructor | backend/routers/challenge.py:78-79 | the service starts with no sessions |
| Challenge.QuizService.Similarity | backend/routers/challenge.py:29-31 | `SequenceMatcher.ratio` of the lower-cased, stripped strings |
| Challenge.QuizService.Score | backend/routers/challenge.py:113-114 | the rounded similarity percentage lies in 0..100 |
| Challenge.QuizService.GenerateQuestions | backend/routers/challenge.py:82-93 | stores a new session holding the fabricated questions, their id map and no answers, and returns its id |
| Challenge.QuizService.StartSession | backend/routers/challenge.py:87-92 | a new session with the questions, their id map and no answers is stored under the id, and all sessions stay valid |
| Challenge.QuizService.EvaluateAnswer | backend/routers/challenge.py:96-138 | an unknown session, then an unknown question id, raises ValueError and changes nothing. Otherwise the evaluation of the scored answer is stored under the question id, overwriting any earlier one, and questions and id map are untouched |
| Challenge.QuizService.GetSessionProgress | backend/routers/challenge.py:141-159 | an unknown session raises. Otherwise answered, total and the rounded mean score, read without change, with answered ≤ total and the average in 0..100 |
| Challenge.QuizService.GetHint | backend/routers/challenge.py:161-166 | an unknown session raises ValueError, an unknown question KeyError; otherwise the hint from the gold answer |
| Challenge.QuizService.EndSession | backend/routers/challenge.py:168-171 | an unknown session raises and nothing is removed. Otherwise it returns the session's progress and removes the session, so later evaluate and progress calls raise |
| Outcomes.Describe | backend/services/rag.py:182-184 | `str(e)`: the message of a `ValueError` or plain exception; for a `KeyError` the key between quotes, double quotes exactly when the key holds a single quote and no double quote, as `repr` chooses |
| Text.Split | backend/services/parser.py:130 | `str.split(sep)`: at least one piece |
| Text.JoinSplit | backend/services/rag.py:205 | joining the pieces of a split with the same separator gives back the text |
| Text.Words | backend/services/rag.py:197 | `str.split()`: non-empty pieces without whitespace |
| Text.WordsJoin | backend/routers/challenge.py:166 | words joined by single spaces split back into the same words |
| Text.Strip | backend/services/parser.py:167 | `str.strip()`: the result has no whitespace at either end |
| Text.StripWithin | backend/services/quiz.py:145 | every character of the stripped text occurs in the text |
| Text.StripFacts | backend/services/parser.py:144 | stripping keeps stripped text whole and gives "" exactly for all-whitespace text |
| Text.Prefix | backend/services/quiz.py:147 | Python's `s[:n]`: always a prefix of `s`, of length min(n, len(s)) for n ≥ 0 |
| Text.SliceFrom | backend/services/parser.py:139 | Python's `s[a:]`; `s[-0:]` is all of `s` |
| Text.NatToStringInjective | backend/services/rag.py:114 | different numbers print differently |
| Text.Permute | backend/services/quiz.py:125 | a shuffle is a permutation: same length and same elements with multiplicity |
| Text.PermuteDistinct | backend/services/quiz.py:125 | shuffling distinct elements keeps them distinct |

## Left out

- File, PDF and JSON I/O: text extraction, metadata, the JSON file per document and the loading
  of stored documents at start-up are not modelled.
- HTTP routing: the FastAPI endpoint functions, including challenge.py's endpoints, are not
  modelled. The upload and question-answer routers are not part of this model.
- Chroma, HuggingFace and LLM internals are parameters:
  - the text splitter and the embedder are functions;
  - the vector query is a function restricted to returning at most `n_results` entries of the
    queried collection;
  - the language model is `Llm`.
  - Cosine similarity and prompt quality are not modelled.
- `generate_summary` in rag.py is not modelled; only its fallback `_generate_basic_summary` is.
- Parser.CleanText: the regex substitutions are one opaque rewrite, and only the empty-input and
  strip behaviour is stated.
- Text.Lower, Text.Upper: case mapping and `isalpha` cover ASCII letters only. Python maps all
  Unicode letters.
- Parser.IsHeader: the header regexes are modelled with ASCII digits and letters for `\d` and `[A-Z]`.
- Rag.Relevance: the score `1.0 - i * 0.1` is exact real arithmetic, not a float. Rounding of
  binary floats is not modelled.
- Challenge.QuizService.Score: `SequenceMatcher.ratio` is an uninterpreted function into [0, 1].
  The float product `sim * 100` is exact here before Python's round-half-even.
- Challenge.ProgressBounds: the mean is exact `sum / answered` before round-half-even, not a float
  quotient.
- Rag.RagService.ProcessDocument: requires the fresh id and its collection name to be unused.
  A uuid4 collision and Chroma's error for an existing collection are not modelled.
- Rag.RagService.AnswerQuestion: requires every registered document's collection to be in the
  store, which the registry invariant guarantees. Chroma's error for a missing collection is not
  modelled.
- Rag.RagService.DeleteDocument: the failure path of `delete_collection` is not modelled. The
  registry invariant guarantees that the collection exists.
- Quiz.QuizService.GenerateQuestions: the random choices are draws passed in (`draws(k)` for
  question k), and the session id is a parameter. Distinctness of session ids is not assumed;
  a repeated id overwrites, as the dictionary does.
- Challenge.QuizService.GenerateQuestions: the shuffle and the uuids are parameters. The
  `difficulty` value is stored as given, since request validation belongs to the router.
- Challenge.QuizService.EndSession returns the progress itself rather than the
  `{"final_results": …}` wrapper.
- Outcomes.Describe: of `repr`'s rules for a `KeyError` key only the choice of quote is modelled.
  The escaping of backslashes, control characters and a quote that occurs inside the key is not.
- `async` and concurrency: the methods run one at a time.
- Console `print` calls are not modelled.
