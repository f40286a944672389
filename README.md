# Internet-banking FAQ assistant, modelled in Dafny

This project models the core of an internet-banking FAQ assistant built on retrieval-augmented generation (RAG), and proves properties of that model. A question goes through these stages:

- PII masking of the question and the user context;
- intent classification and query rewriting by an LLM;
- hybrid retrieval, fusing vector hits with normalised BM25 scores;
- a relaxed retry when fewer than three documents come back;
- conflict resolution: newest first, one chunk per FAQ;
- answer generation from the first five documents;
- answer formatting: citation synthesis, line splitting, caps on steps and follow-ups;
- attachment of the safety warnings, then confidence calibration.

The ingestion side is modelled as well: HTML/whitespace/special-character cleaning and paragraph chunking with token-overlap. So are the offline evaluation metrics: Recall@5, keyword faithfulness, the hallucination heuristic and their aggregation.

Every model, library and I/O call is a parameter of the model:

| call | modelled as |
|---|---|
| Gemini `generate_content` | a function from prompt and configuration to `Result<string>` |
| `json.loads` | a function to `Decoded`: not JSON, a JSON value that is not an object (named by its Python type), or an object as `AnswerData` |
| the regular-expression engine | `Finder`: ascending, non-overlapping, in-bounds spans |
| BeautifulSoup | `string -> string` |
| tiktoken | `string -> Option<nat>`; `None` when encoding raises |
| FAISS k-NN | `Knn`: `k` candidates, index `-1` or a stored position, distance ≥ 0 |
| the embedder | a function from texts to vectors |
| BM25Okapi `get_scores` | a function returning one score per corpus document |
| the vector store as the retriever sees it | `VectorSearch`: at most `top_k` pairs, distances ≥ 0; `HybridSearch.StoreVectorSearch` builds one from the store's successful `search` results |

Python dicts become datatypes whose optional keys are `Option` fields. Where a missing key and a JSON `null` behave differently, the field is a `JsonText`: missing, `null`, or a string. These fields are the text fields of the model's answer and the metadata channel. Scores and ratios are exact `real`s.

Each module follows one source file:

| module | source |
|---|---|
| `HybridSearch`, `HybridSearchProperties` | `app/retriever/hybrid_search.py` |
| `VectorStore` | `app/retriever/vector_store.py` |
| `PiiDetector` | `app/security/pii_detector.py` |
| `GeminiClient` | `app/llm/gemini_client.py` |
| `Tools` | `app/agent/tools.py` |
| `Orchestrator`, `OrchestratorProperties` | `app/agent/orchestrator.py` |
| `Cleaning` | `app/preprocessing/cleaning.py` |
| `Chunking` | `app/preprocessing/chunking.py` |
| `Metrics` | `app/evaluation/metrics.py` |

Shared modules:

- `Common`: Option/Result and sequence helpers.
- `Text`: character classes, `strip`, `split`, `lower`, `join`, `in`.
- `Sorting`: the stable descending sort behind `list.sort(reverse=True)` and `sorted(..., reverse=True)`.
- `Schemas`: the records that flow between the stages.

Code that updates state step by step is modelled as methods with loops, each proved equal to a specification function; the properties are then proved about those functions. This covers:

- the fusion loops, rerank and the BM25 load;
- the FAISS candidate loop, `add_documents` and `_create_new_index`;
- `mask_text` and `detect_and_mask_pii`;
- the `docs_text` loop and the fence cleaning;
- `format_answer`'s citation loop;
- `_resolve_conflicts`, the relaxed merge and `process_question`;
- `create_chunks`, its overlap loop and `chunk_faq_items`.

The retriever, the vector store and the agent are classes with the fields the source updates.

## Model

| member | source | states |
|---|---|---|
| HybridSearch.Tokenize | app/retriever/hybrid_search.py:56-61 | every token is a non-empty run of `[\w가-힣]` characters |
| HybridSearch.TokenizeSplits | app/retriever/hybrid_search.py:60 | a non-token character separates tokens: the tokens of `a + c + b` are those of `a` then those of `b` |
| HybridSearch.TokenizeWord | app/retriever/hybrid_search.py:60 | a non-empty word of token characters is exactly one token, its lower-cased form |
| HybridSearch.TokenizeKeepsTokenChars | app/retriever/hybrid_search.py:56-61 | the tokens, glued together, are exactly the token characters of the lower-cased text, in order |
| HybridSearch.ExtractSnippet | app/retriever/hybrid_search.py:200-206 | the text itself when it has at most `max_length` characters, otherwise its first `max_length` characters followed by "..." |
| HybridSearch.FormatResult | app/retriever/hybrid_search.py:185-198 | the result carries the metadata (text defaulting to "", a missing channel written as `null`), the score, no rerank score, and the 200-character snippet of the text |
| HybridSearch.FormatAll | app/retriever/hybrid_search.py:94 | one formatted result per (metadata, score) pair, in order |
| HybridSearch.VectorScore | app/retriever/hybrid_search.py:120 | `1 / (1 + distance)` lies in (0, 1] for a non-negative distance |
| HybridSearch.MaxOf | app/retriever/hybrid_search.py:136 | the maximum is an element of the scores and bounds every score |
| HybridSearch.NormalizeBelowMax | app/retriever/hybrid_search.py:133-139 | the normalised BM25 score of a score not above the maximum lies in [0, 1] |
| HybridSearch.NormalizeInUnitRange | app/retriever/hybrid_search.py:133-139 | every normalised score of a non-negative score vector lies in [0, 1] and is `score / max` for a positive score |
| HybridSearch.AddVectorHit | app/retriever/hybrid_search.py:116-125 | one vector-hit step keeps the `chunk_scores` table well formed (keys distinct, each with an entry) |
| HybridSearch.VectorPass | app/retriever/hybrid_search.py:116-125 | the table after the vector-hit loop is well formed |
| HybridSearch.Rebuilt | app/retriever/hybrid_search.py:156-165 | the metadata of a BM25-only chunk equals the chunk's, except that a missing channel becomes `null` |
| HybridSearch.AddLexical | app/retriever/hybrid_search.py:141-168 | one BM25 step keeps the table well formed |
| HybridSearch.LexicalPass | app/retriever/hybrid_search.py:128-168 | the table after the BM25 loop is well formed |
| HybridSearch.FinalList | app/retriever/hybrid_search.py:171-177 | one (metadata, `vector_score * vector_weight + bm25_score * bm25_weight`) pair per key, in insertion order |
| HybridSearch.FusionTable | app/retriever/hybrid_search.py:113-168 | the fusion table of a query is well formed |
| HybridSearch.WithRerankScores | app/retriever/hybrid_search.py:229-242 | every result, in order, gets its `rerank_score` and is otherwise unchanged |
| HybridSearch.CorpusTokens | app/retriever/hybrid_search.py:44-50 | one token list per chunk, the tokens of its text (default "") |
| HybridSearch.ParsedLines | app/retriever/hybrid_search.py:39-42 | at most one record per line of the chunks file |
| HybridSearch.HybridRetriever.constructor | app/retriever/hybrid_search.py:15-32 | with a chunks file the chunks are its parsed non-blank lines and a BM25 index exists; without one, no chunks and no index |
| HybridSearch.HybridRetriever.BuildBm25Index | app/retriever/hybrid_search.py:34-54 | appends the parsed non-blank lines to the chunks, rebuilds the corpus tokens and records the index |
| HybridSearch.HybridRetriever.Search | app/retriever/hybrid_search.py:63-89 | the hybrid ranking when hybrid search is requested and an index exists, otherwise the vector-only results |
| HybridSearch.HybridRetriever.VectorOnlySearch | app/retriever/hybrid_search.py:91-94 | the formatted hits of the vector store |
| HybridSearch.HybridRetriever.HybridSearchPass | app/retriever/hybrid_search.py:96-183 | the top `top_k` of the fused ranking over `3 * top_k` vector hits and the BM25 scores of the query tokens |
| HybridSearch.HybridRetriever.VectorHitLoop | app/retriever/hybrid_search.py:116-125 | the loop builds exactly the vector-pass table |
| HybridSearch.HybridRetriever.Bm25Loop | app/retriever/hybrid_search.py:128-168 | the loop builds exactly the fusion table |
| HybridSearch.HybridRetriever.FinalScoreLoop | app/retriever/hybrid_search.py:171-177 | the loop builds exactly the unsorted final list |
| HybridSearch.HybridRetriever.Rerank | app/retriever/hybrid_search.py:208-247 | the results scored by keyword overlap, stably sorted by descending score, cut at `top_k` |
| HybridSearchProperties.VectorPassEntriesFromHits | app/retriever/hybrid_search.py:116-125 | every vector entry comes from a hit with a non-empty chunk id: its metadata, `1 / (1 + distance)` and BM25 score 0 |
| HybridSearchProperties.VectorPassLastHitWins | app/retriever/hybrid_search.py:121-125 | for a repeated chunk id the last hit decides the entry |
| HybridSearchProperties.VectorPassKeys | app/retriever/hybrid_search.py:116-118 | a chunk id is a key exactly when some hit carries it, non-empty |
| HybridSearchProperties.VectorPassScoresInUnitRange | app/retriever/hybrid_search.py:120-125 | all vector-pass scores lie in [0, 1] |
| HybridSearchProperties.AddLexicalFacts | app/retriever/hybrid_search.py:129-168 | a BM25 step sets the BM25 score of a present chunk id to the normalised score, appends an admitted new chunk with vector score 0 and that BM25 score, leaves every other entry unchanged; a key is added exactly for a truthy, admitted chunk id |
| HybridSearchProperties.LexicalPassFrame | app/retriever/hybrid_search.py:128-168 | the BM25 pass only appends keys, keeps the metadata and vector score of existing entries, and adds only admitted corpus chunks with vector score 0 |
| HybridSearchProperties.LexicalPassKeys | app/retriever/hybrid_search.py:128-168 | a key after the pass is exactly an earlier key or the truthy id of an admitted corpus chunk |
| HybridSearchProperties.LexicalPassUntouched | app/retriever/hybrid_search.py:128-168 | an entry whose id no corpus chunk carries leaves the pass unchanged |
| HybridSearchProperties.LexicalPassLastChunkWins | app/retriever/hybrid_search.py:129-142 | the BM25 score of a key is the normalised score of the last corpus chunk carrying it (dict assignment overwrites) |
| HybridSearchProperties.LexicalPassExtends | app/retriever/hybrid_search.py:128-168 | the frame of the pass, its exact key set, the untouched entries, and each chunk-carried key's BM25 score as the normalised score of the last chunk carrying it |
| HybridSearchProperties.FusionTableKeys | app/retriever/hybrid_search.py:108-168 | the fused chunk ids are exactly the truthy ids of the vector hits and of the admitted corpus chunks |
| HybridSearchProperties.FusionTableBm25 | app/retriever/hybrid_search.py:121-168 | the BM25 score of a fused entry is the normalised score of the last corpus chunk carrying its id, and 0 when none does |
| HybridSearchProperties.LexicalPassScoresInUnitRange | app/retriever/hybrid_search.py:133-168 | for non-negative BM25 scores every score of the table stays in [0, 1] |
| HybridSearchProperties.VectorKeysFirst | app/retriever/hybrid_search.py:113-172 | the table starts with the vector hits' chunk ids, in the order the store returned them |
| HybridSearchProperties.FinalListDistinct | app/retriever/hybrid_search.py:171-177 | the final list has one pair per distinct key |
| HybridSearchProperties.FusedLength | app/retriever/hybrid_search.py:183 | at most `top_k` results, and exactly `top_k` when the table has that many chunks |
| HybridSearchProperties.FusedOrderedByScore | app/retriever/hybrid_search.py:180 | the results come in non-increasing fused score |
| HybridSearchProperties.FusedDistinctChunks | app/retriever/hybrid_search.py:113-183 | every result has a non-empty chunk id and no two results share one |
| HybridSearchProperties.FusedFromTable | app/retriever/hybrid_search.py:171-183 | every result is a table entry formatted with its fused score |
| HybridSearchProperties.FusedScoreInRange | app/retriever/hybrid_search.py:173-176 | an entry with scores in [0, 1] and non-negative weights has a fused score in [0, vector_weight + bm25_weight] |
| HybridSearchProperties.FusedScoreBounds | app/retriever/hybrid_search.py:171-183 | with non-negative weights every returned score lies in [0, vector_weight + bm25_weight] |
| HybridSearchProperties.FusedTiesKeepInsertionOrder | app/retriever/hybrid_search.py:172-180 | results with equal fused scores keep the table's insertion order |
| HybridSearchProperties.RerankLength | app/retriever/hybrid_search.py:247 | rerank returns `min(top_k, len(results))` documents |
| HybridSearchProperties.RerankOrdered | app/retriever/hybrid_search.py:245 | the reranked list is in non-increasing `rerank_score` |
| HybridSearchProperties.RerankElements | app/retriever/hybrid_search.py:229-247 | every reranked document is an input document with its score attached; with `top_k >= len(results)` every input is kept |
| HybridSearchProperties.RerankTiesKeepOrder | app/retriever/hybrid_search.py:245 | documents with equal `rerank_score` keep their retrieval order |
| HybridSearchProperties.RerankScoreBounds | app/retriever/hybrid_search.py:235-240 | a rerank score lies between 0 and three times the number of distinct query tokens |
| HybridSearchProperties.SearchAtMostTopK | app/retriever/hybrid_search.py:86-94 | `search` never returns more than `top_k` results, on either path |
| Schemas.AdmitsDefaults | app/retriever/hybrid_search.py:146-153 | absent filters admit every chunk, and a missing channel or "both" passes every channel filter. A `null` channel fails every channel filter. A string channel under a channel filter is admitted exactly when the category matches and the channel is "both" or the filter's |
| Sorting.Insert | app/retriever/hybrid_search.py:180 | inserting keeps the elements (as a multiset) and the descending order |
| Sorting.SortDesc | app/retriever/hybrid_search.py:180 | the sorted list is a permutation of the input in non-increasing key order |
| Sorting.SortDescStable | app/agent/orchestrator.py:149 | for every key value the elements with that key keep their relative order (a stable sort) |
| VectorStore.SearchK | app/retriever/vector_store.py:128 | `search_k` is `min(top_k * 10, ntotal)` |
| VectorStore.Batches | app/retriever/vector_store.py:85-86 | every batch has between 1 and `batch_size` texts |
| VectorStore.EmbedInBatches | app/retriever/vector_store.py:84-89 | the loop collects the embeddings of all batches, in order |
| VectorStore.ScanIsPrefixOfAdmitted | app/retriever/vector_store.py:132-155 | the loop returns the first admitted candidates in candidate order, as many as `top_k` allows, and fails only on an index past the metadata list |
| VectorStore.AdmittedHitsAdmitted | app/retriever/vector_store.py:137-152 | every hit is a stored record that passes the category and channel filters, with a non-negative distance |
| VectorStore.StoreSearchResults | app/retriever/vector_store.py:119-157 | at most `top_k` admitted results in candidate order; an empty index gives none; success whenever FAISS's indices are in range |
| HybridSearch.StoreResultsAreBounded | app/retriever/vector_store.py:119-157 | every successful store search has at most `top_k` pairs and non-negative distances, the bound `VectorSearch` assumes |
| HybridSearch.StoreSearchSucceeds | app/retriever/vector_store.py:119-157 | no store search fails while every vector has its metadata |
| HybridSearch.StoreVectorSearch | app/retriever/hybrid_search.py:91-106 | the retriever's vector search is the store's successful `search`, and equals it exactly when every vector has its metadata |
| VectorStore.UpdatedAtFilterIgnored | app/retriever/vector_store.py:148-150 | the `updated_at` filter changes nothing |
| VectorStore.BatchesCoverTexts | app/retriever/vector_store.py:85-86 | the batches, concatenated, are the texts |
| VectorStore.EmbedBatchesCount | app/retriever/vector_store.py:84-88 | an embedder giving one vector per text gives one vector per text over all batches |
| VectorStore.AddKeepsAlignment | app/retriever/vector_store.py:84-98 | vectors and metadata stay aligned when one metadata record is given per text |
| VectorStore.FaissVectorStore.constructor | app/retriever/vector_store.py:16-55 | a stored index and metadata are loaded; otherwise the store starts empty; the dimension is the given one, else the model's, else 384 |
| VectorStore.FaissVectorStore.CreateNewIndex | app/retriever/vector_store.py:57-62 | an empty index and empty metadata, dimension unchanged |
| VectorStore.FaissVectorStore.AddDocuments | app/retriever/vector_store.py:64-100 | no change for no texts; a zero `batch_size` with texts is the `ValueError` of `range` and changes nothing; otherwise the batch embeddings are appended to the vectors and `metadatas` to the metadata |
| VectorStore.FaissVectorStore.Search | app/retriever/vector_store.py:102-157 | the result of the store's search specification |
| VectorStore.FaissVectorStore.FilterCandidates | app/retriever/vector_store.py:132-155 | the filter/skip/stop loop computes the scan of the candidates |
| PiiDetector.Stars | app/security/pii_detector.py:67 | `n` mask characters |
| PiiDetector.FirstSeparator | app/security/pii_detector.py:63 | the position of the first `:` or `=`, or the length when there is none |
| PiiDetector.SplitAtFirstSeparator | app/security/pii_detector.py:63 | one or two parts |
| PiiDetector.SplitTwoPartsIffSeparator | app/security/pii_detector.py:62-70 | the split has two parts exactly when the match has a separator, so the whole-match fallback at line 70 is never reached |
| PiiDetector.MaskMatchAt | app/security/pii_detector.py:62-68 | the replacement is the text before the first separator, `:` if any `:` occurs (else `=`), a space, and one mask character per character of the stripped value |
| PiiDetector.MaskMatchWithoutSeparator | app/security/pii_detector.py:71-72 | a match without separator becomes mask characters only, one per character |
| PiiDetector.MaskMatchWithSeparator | app/security/pii_detector.py:62-68 | with a separator the text before it is kept and the rest is the separator, a space and mask characters |
| PiiDetector.SeparatorQuirk | app/security/pii_detector.py:65 | when the first separator is `=` but the match contains a `:`, the replacement writes `:` in its place |
| PiiDetector.RewriteStep | app/security/pii_detector.py:56-75 | one iteration of the reversed loop keeps its invariant: the text before the frontier untouched, the rest rewritten |
| PiiDetector.RewriteFromLast | app/security/pii_detector.py:56-75 | rewriting the matches from the last to the first gives the left-to-right rebuild |
| PiiDetector.MaskText | app/security/pii_detector.py:40-77 | the masked text, and `was_masked` exactly when there was a match |
| PiiDetector.RebuiltSplitAt | app/security/pii_detector.py:66-74 | the rewritten text is the rewritten pieces up to span `i` followed by the rewrite of the remaining spans |
| PiiDetector.MaskedAround | app/security/pii_detector.py:66-74 | around each match: the pieces before it, its gap copied verbatim, its replacement, then the rest |
| PiiDetector.MaskedKeepsOutside | app/security/pii_detector.py:56-74 | without matches the text is unchanged; otherwise the prefix, every gap between matches and the tail after the last match are copied verbatim around the replacements |
| PiiDetector.RebuiltFixedPoint | app/security/pii_detector.py:74 | replacements that return the matched text leave the text unchanged |
| PiiDetector.PasswordSeparatorPosition | app/security/pii_detector.py:11 | in a password match the first separator is the one after the field name |
| PiiDetector.PasswordColon | app/security/pii_detector.py:11 | a password match contains a `:` outside its value only as its separator |
| PiiDetector.PasswordReplacement | app/security/pii_detector.py:62-68 | a password match becomes field name, blanks, separator, a space and one mask character per value character |
| PiiDetector.MaskedPasswordStillMatches | app/security/pii_detector.py:11 | a masked password value without `:`/`=` is itself a password match, so the warning is raised again |
| PiiDetector.MaskedPasswordMatchFixed | app/security/pii_detector.py:56-74 | a masked password match is a password match again, and masking it gives it back unchanged |
| PiiDetector.MaskedPasswordFixedPoint | app/security/pii_detector.py:56-74 | a text whose matches are all masked password matches is not changed by masking, while the password warning is raised again |
| PiiDetector.WarningMessage | app/security/pii_detector.py:109-121 | each known category has its fixed message; any other type gets the generic message |
| PiiDetector.CategoryMessages | app/security/pii_detector.py:96-104 | one message per category of the table, in table order |
| PiiDetector.TableMessagesDistinct | app/security/pii_detector.py:109-121 | the seven categories have seven distinct messages, none the generic one |
| PiiDetector.Detect | app/security/pii_detector.py:90-91 | empty text yields itself and no warnings |
| PiiDetector.RunPatternsWarnings | app/security/pii_detector.py:98-104 | one category adds its message at most once, exactly when one of its patterns matched the running text |
| PiiDetector.RunTableWarnings | app/security/pii_detector.py:96-106 | the warnings are duplicate-free and in table order |
| PiiDetector.DetectWarnings | app/security/pii_detector.py:80-106 | `detect_and_mask_pii`'s warnings: no duplicates, in table order, each a category's own message |
| PiiDetector.MaskCategory | app/security/pii_detector.py:98-104 | the inner pattern loop computes the category's detection step |
| PiiDetector.DetectAndMaskPii | app/security/pii_detector.py:80-106 | the method computes the detection specification |
| PiiDetector.CheckPiiInInput | app/security/pii_detector.py:124-142 | the question's warnings then those of a non-empty context, duplicates kept; PII is reported exactly when there is a warning |
| GeminiClient.FullPrompt | app/llm/gemini_client.py:63-65 | with a truthy system instruction the prompt is `instr + "\n\n---\n\n" + prompt`, otherwise the prompt alone |
| GeminiClient.Config | app/llm/gemini_client.py:54-59 | the temperature is kept; `max_output_tokens` is set exactly for a truthy `max_tokens` |
| GeminiClient.GenerateOutcome | app/llm/gemini_client.py:35-75 | `generate` succeeds exactly when the model does, with its text; a failure is reported with the prefix and its cause |
| GeminiClient.FirstTokenIsFirstWord | app/llm/gemini_client.py:106 | the first token of `split()` is the first word of the string |
| GeminiClient.ClassifyIntent | app/llm/gemini_client.py:77-111 | the intent is a non-empty word without whitespace |
| GeminiClient.ClassifyIntentSpec | app/llm/gemini_client.py:103-111 | the first word of the stripped response, or "기타" for a blank response or a failure |
| GeminiClient.ClassifyIntentOfWord | app/llm/gemini_client.py:106 | a response of one word padded with whitespace yields exactly that word |
| GeminiClient.RewriteQuery | app/llm/gemini_client.py:113-145 | the rewrite is the question itself or a non-empty stripped text |
| GeminiClient.RewriteQuerySpec | app/llm/gemini_client.py:138-145 | the stripped response, or the question for a blank response or a failure |
| GeminiClient.DropPrefix | app/llm/gemini_client.py:213-216 | removes the prefix exactly when the text starts with it |
| GeminiClient.DropSuffix | app/llm/gemini_client.py:217-218 | removes the suffix exactly when the text ends with it |
| GeminiClient.StripFencesShape | app/llm/gemini_client.py:212-219 | the cleaned response is stripped and no longer than the response |
| GeminiClient.StripFencesJsonBlock | app/llm/gemini_client.py:212-219 | a ```` ```json ```` block padded with whitespace is reduced to its stripped body |
| GeminiClient.StripFencesPlainBlock | app/llm/gemini_client.py:212-219 | a ```` ``` ```` block padded with whitespace is reduced to its stripped body |
| GeminiClient.StripFencesUnfenced | app/llm/gemini_client.py:212-219 | a response with no backquote at either end is only stripped |
| GeminiClient.DocBlocks | app/llm/gemini_client.py:186-190 | one `[FAQ i]` block per document, numbered from 1, in order; a `None` title or url is written as "None" |
| GeminiClient.DocsTextIsBlocks | app/llm/gemini_client.py:185-190 | `docs_text` is the concatenation of the numbered blocks |
| GeminiClient.AnswerForCases | app/llm/gemini_client.py:199-242 | a decoded object is returned as decoded; a parse failure gives the raw response, empty lists and "medium"; a JSON value that is not an object gives "low", empty lists and the `AttributeError` of `result.get` as the error answer; a failed generation gives "low", empty lists and an error answer |
| GeminiClient.ErrorAnswerPrefix | app/llm/gemini_client.py:237 | the error answer starts with the answer-error prefix followed by the generate-error prefix |
| GeminiClient.AppendBlock | app/llm/gemini_client.py:187-190 | the four appends of one iteration add the document's block, a `None` title or url written as "None" |
| GeminiClient.BuildDocsText | app/llm/gemini_client.py:185-190 | the loop builds `docs_text` |
| GeminiClient.BuildUserPrompt | app/llm/gemini_client.py:192-197 | the user prompt: question, the situation line for a truthy context, then the FAQ section |
| GeminiClient.CleanResponse | app/llm/gemini_client.py:212-219 | the stage-by-stage cleaning computes the fence-stripping specification |
| GeminiClient.GenerateAnswer | app/llm/gemini_client.py:147-242 | the method computes the answer specification, including the error payload for a non-object JSON reply |
| Tools.RetrievedIsSearch | app/agent/tools.py:27-33 | `retrieve_faq` returns the search results unchanged and at most `top_k` of them: the rerank branch is never taken |
| Tools.RetrieveFaq | app/agent/tools.py:9-33 | the method computes the retrieval specification |
| Tools.NonBlankLines | app/agent/tools.py:103-105 | every line is non-empty and stripped |
| Tools.NonBlankLinesOfEmpty | app/agent/tools.py:103-105 | an empty string gives no lines |
| Tools.NonBlankLinesOfJoin | app/agent/tools.py:102-110 | stripped, non-empty, newline-free lines joined by newlines split back into themselves |
| Tools.CitationOf | app/agent/tools.py:86-91 | title, url and faq_id from the document, `None` passed through; the snippet, or else the first 200 characters of the text |
| Tools.CitationsOf | app/agent/tools.py:85-92 | one citation per document, in order |
| Tools.FormattedCaps | app/agent/tools.py:112-119 | at most 7 steps and 2 follow-ups, each the leading part of what the model sent, and full when there were enough |
| Tools.FormattedCitations | app/agent/tools.py:79-92 | model citations pass through uncapped; otherwise the first `min(5, len(docs))` documents are cited |
| Tools.FormattedConfidence | app/agent/tools.py:94-119 | no citations exactly when none were given and no documents retrieved; then "low" and an answer starting with the no-match text. Otherwise the model's answer (default "") and confidence (default "medium"), each `None` when the model sent `null`. Safety is copied the same way (default "", `None` for `null`) |
| Tools.CiteDocuments | app/agent/tools.py:84-92 | the citation loop cites the first five documents |
| Tools.FormatAnswer | app/agent/tools.py:65-119 | the method computes the formatting specification |
| Orchestrator.MonthField | app/agent/orchestrator.py:144 | a `%m` field is a month 1..12 taking one or two characters |
| Orchestrator.DayField | app/agent/orchestrator.py:144 | a `%d` field is a day 1..31 |
| Orchestrator.ParseDate | app/agent/orchestrator.py:141-146 | every parsed date is a valid calendar date |
| Orchestrator.KeepFirstPerFaq | app/agent/orchestrator.py:152-162 | the loop computes the deduplication specification |
| Orchestrator.ResolveConflicts | app/agent/orchestrator.py:130-164 | the method computes the conflict-resolution specification |
| Orchestrator.BuildFilters | app/agent/orchestrator.py:68-72 | a channel filter exactly for a truthy channel, and `category = intent` exactly for a non-empty intent other than "기타"; no date filter |
| Orchestrator.MergeRelaxed | app/agent/orchestrator.py:96-99 | the loop computes the merge specification |
| Orchestrator.FAQAgent.constructor | app/agent/orchestrator.py:21-34 | the agent holds the given retriever and collaborators |
| Orchestrator.FAQAgent.GatherEvidence | app/agent/orchestrator.py:67-102 | search, relaxed retry and conflict resolution compute the evidence specification |
| Orchestrator.FAQAgent.Finish | app/agent/orchestrator.py:114-126 | steps 8 and 9 compute calibration after the safety text |
| Orchestrator.FAQAgent.MaskInputs | app/agent/orchestrator.py:53-59 | the masked question, the masked context only for a truthy one, and the question's warnings followed by the context's |
| Orchestrator.FAQAgent.RespondTo | app/agent/orchestrator.py:61-128 | steps 1 to 9 compute the response specification |
| Orchestrator.FAQAgent.ProcessQuestion | app/agent/orchestrator.py:36-128 | `process_question` computes the pipeline specification |
| OrchestratorProperties.DateKeyOrder | app/agent/orchestrator.py:149 | on valid dates the sort key orders exactly as the calendar and tells dates apart |
| OrchestratorProperties.MinDateIsLeast | app/agent/orchestrator.py:141-146 | a missing or unparseable date sorts as `datetime.min`, below every parsed date |
| OrchestratorProperties.ParseFormatDate | app/agent/orchestrator.py:144 | every valid date reads back from its `YYYY-MM-DD` text |
| OrchestratorProperties.UniqueSubseq | app/agent/orchestrator.py:152-162 | the deduplicated list is a subsequence of its input |
| OrchestratorProperties.UniqueFaqIds | app/agent/orchestrator.py:152-162 | every non-empty `faq_id` of the input is still represented |
| OrchestratorProperties.UniqueDistinct | app/agent/orchestrator.py:157-159 | no non-empty `faq_id` occurs twice |
| OrchestratorProperties.UniqueKeepsUntagged | app/agent/orchestrator.py:160-162 | every document without a `faq_id` survives, in order |
| OrchestratorProperties.UniqueKeepsFirst | app/agent/orchestrator.py:155-162 | the first document of each FAQ is kept |
| OrchestratorProperties.ResolvedProperties | app/agent/orchestrator.py:130-164 | newest first, one document per `faq_id`, only input documents, and every FAQ of the input represented by a document no older than any other of that FAQ |
| OrchestratorProperties.KeptIsNewest | app/agent/orchestrator.py:149-162 | after the newest-first sort, the document kept for a `faq_id` is at least as new as every document carrying it |
| OrchestratorProperties.NewDocsMembers | app/agent/orchestrator.py:96-99 | the added documents are exactly the relaxed ones whose `chunk_id` is new, in relaxed order |
| OrchestratorProperties.MergedProperties | app/agent/orchestrator.py:95-99 | the first results are an unchanged prefix; every later document is a relaxed one with a new `chunk_id`, and every such one is there |
| OrchestratorProperties.RelaxedDropsCategory | app/agent/orchestrator.py:84-86 | the relaxed filters are the first filters without the category |
| OrchestratorProperties.EvidenceProperties | app/agent/orchestrator.py:74-102 | the evidence is newest first with one document per FAQ; with three or more first results the relaxed search plays no part |
| OrchestratorProperties.FinishProperties | app/agent/orchestrator.py:114-126 | warnings become `"주의: " + " ".join(warnings)` exactly when there are any; no citations give "low" and the no-match answer; nothing else changes |
| OrchestratorProperties.CalibrationRedundant | app/agent/orchestrator.py:119-126 | step 9 never changes a formatted answer, because `format_answer` already calibrated it |
| Cleaning.RemoveHtml | app/preprocessing/cleaning.py:10-16 | empty text stays empty; any other text goes through the HTML parser |
| Cleaning.CollapseSpaces | app/preprocessing/cleaning.py:25 | empty exactly for empty input; a leading non-space character is kept |
| Cleaning.CollapseSingleSpaced | app/preprocessing/cleaning.py:25 | after collapsing, every whitespace character is one plain space not followed by whitespace |
| Cleaning.NormalizeShape | app/preprocessing/cleaning.py:19-28 | normalised text is stripped and single-spaced |
| Cleaning.NormalizeKeepsNonSpace | app/preprocessing/cleaning.py:19-28 | normalisation keeps the non-whitespace characters, in order |
| Cleaning.NormalizeChars | app/preprocessing/cleaning.py:19-28 | every character of the result is a space or a character of the input |
| Cleaning.NormalizeFixes | app/preprocessing/cleaning.py:19-28 | stripped, single-spaced text is left unchanged |
| Cleaning.NormalizeIdempotent | app/preprocessing/cleaning.py:19-28 | normalising twice is normalising once |
| Cleaning.NormalizeEmptyIffBlank | app/preprocessing/cleaning.py:19-28 | the result is empty exactly for blank input |
| Cleaning.RemoveSpecialCharsSpec | app/preprocessing/cleaning.py:31-43 | the result has only allowed characters, is a subsequence of the input, and does not depend on `keep_newlines` |
| Cleaning.RemoveSpecialCharsFixes | app/preprocessing/cleaning.py:42 | the text is unchanged exactly when all its characters are allowed |
| Cleaning.RemoveSpecialCharsIdempotent | app/preprocessing/cleaning.py:42 | removing twice is removing once |
| Cleaning.CleanTextSpec | app/preprocessing/cleaning.py:46-73 | "" for empty input; otherwise normalised, only allowed characters, and cleaning it again without HTML removal changes nothing |
| Cleaning.CleanFaqItemSpec | app/preprocessing/cleaning.py:76-94 | same keys; `title` and `body` cleaned where present; every other field copied |
| Chunking.CountTokensOfWords | app/preprocessing/chunking.py:18-27 | without an encoder, or when it fails, `n` space-separated words count as `n` tokens; an encoder's count is kept |
| Chunking.BreakTail | app/preprocessing/chunking.py:36 | the tail of a blank-line match takes at least one character |
| Chunking.FirstBreak | app/preprocessing/chunking.py:36 | the first `\n\s*\n` match lies at or after the start and spans at least two characters |
| Chunking.SplitAtBreaks | app/preprocessing/chunking.py:36 | `re.split` always yields at least one piece |
| Chunking.SplitParagraphs | app/preprocessing/chunking.py:30-41 | every paragraph is non-empty and stripped |
| Chunking.SplitParagraphsOfLine | app/preprocessing/chunking.py:30-41 | text without newlines is one paragraph, its stripped form, or none when blank |
| Chunking.SplitParagraphsOfJoin | app/preprocessing/chunking.py:30-41 | stripped one-line paragraphs joined by blank lines split back into themselves |
| Chunking.CleanedBodyIsOneParagraph | app/preprocessing/chunking.py:73-97 | a cleaned body has no newline, so it is one paragraph (itself) or none |
| Chunking.OverlapWordsSuffix | app/preprocessing/chunking.py:149-159 | the overlap is a suffix of the previous chunk's words |
| Chunking.OverlapWordsFit | app/preprocessing/chunking.py:153-159 | a non-empty overlap costs at most `overlap_tokens` |
| Chunking.OverlapWordsLongest | app/preprocessing/chunking.py:153-159 | the overlap is the longest fitting suffix: one more word would exceed the budget |
| Chunking.TakeOverlap | app/preprocessing/chunking.py:149-159 | the reversed loop computes the overlap specification |
| Chunking.FlushKeeps | app/preprocessing/chunking.py:129-141 | a flush stores one chunk exactly when the current text is not blank, numbered next, with the FAQ's metadata and a stripped non-empty text |
| Chunking.StepKeeps | app/preprocessing/chunking.py:119-169 | a paragraph step stores at most one chunk and keeps the numbering invariant |
| Chunking.PackAllKeeps | app/preprocessing/chunking.py:119-169 | after `n` paragraphs at most `n` chunks are stored, numbered, and the last paragraph is pending |
| Chunking.ChunkIdInjective | app/preprocessing/chunking.py:131 | `{faq_id}_chunk_{j}` and `{faq_id}_chunk_{k}` are equal only for `j == k` |
| Chunking.NumberedIdsDistinct | app/preprocessing/chunking.py:131 | numbered chunks have pairwise distinct ids |
| Chunking.ChunksOfSpec | app/preprocessing/chunking.py:78-185 | at least one chunk and at most one more than there are paragraphs, numbered `_chunk_0`, `_chunk_1`, ..., with the FAQ's metadata; a fitting text or no paragraphs gives the single chunk `title + "\n\n" + body`; otherwise every text is stripped and non-empty |
| Chunking.ChunksSpec | app/preprocessing/chunking.py:44-185 | one or two chunks, numbered and with the FAQ's metadata; the single chunk exactly when the full text fits or the cleaned body is empty |
| Chunking.OneParagraphChunks | app/preprocessing/chunking.py:96-185 | a body that is one paragraph or none gives one or two chunks |
| Chunking.ChunksIdsDistinct | app/preprocessing/chunking.py:84-174 | the chunks of one FAQ have distinct ids |
| Chunking.StartChunk | app/preprocessing/chunking.py:143-169 | the restart text: the overlap words (or else the title), then the paragraph |
| Chunking.PackParagraph | app/preprocessing/chunking.py:120-169 | one loop iteration computes one packing step |
| Chunking.PackParagraphs | app/preprocessing/chunking.py:114-169 | the paragraph loop computes the packing of all paragraphs |
| Chunking.CreateChunks | app/preprocessing/chunking.py:44-185 | the method computes the chunking specification |
| Chunking.ChunkFaqItems | app/preprocessing/chunking.py:188-214 | the loop concatenates every record's chunks, in record order |
| Chunking.RecordChunks | app/preprocessing/chunking.py:201-212 | each record yields one or two chunks with its `faq_id` (default "") and channel (default "both") |
| Chunking.AllChunksLength | app/preprocessing/chunking.py:199-214 | between `n` and `2n` chunks for `n` records |
| Text.SplitWordsOfJoin | app/preprocessing/chunking.py:22 | words without whitespace joined by single spaces split back into themselves |
| Text.NatToStringInjective | app/preprocessing/chunking.py:131 | distinct chunk indices print differently |
| Text.StripIdempotent | app/preprocessing/cleaning.py:27 | `strip` is idempotent |
| Text.JoinSplitOn | app/agent/tools.py:105 | splitting on a character and joining with it gives the string back |
| Metrics.RecallAtKSpec | app/evaluation/metrics.py:8-34 | Recall@K lies in [0, 1]; it is 1 exactly when every ground-truth id is among the first `k`, and 0 exactly when none is or the ground truth is empty |
| Metrics.FaithfulnessSpec | app/evaluation/metrics.py:37-77 | faithfulness lies in [0, 1]; 1 exactly when the answer has words and all occur in the snippets; 0 exactly for an empty answer, no snippets or no shared word |
| Metrics.HallucinationOfEmpty | app/evaluation/metrics.py:97-98 | an empty answer is never a hallucination |
| Metrics.HallucinationWithoutCitations | app/evaluation/metrics.py:101-105 | without citations an answer hallucinates exactly when it does not contain "찾지 못했" |
| Metrics.HallucinationIsLowFaithfulness | app/evaluation/metrics.py:107-123 | with citations the match ratio is the faithfulness score, so an answer hallucinates exactly when it has words and faithfulness is below 0.3 |
| Metrics.ComplementRatio | app/evaluation/metrics.py:117 | one minus the unmatched share is the matched share |
| Metrics.NoMatchPrefixSaysNotFound | app/evaluation/metrics.py:103 | the canned no-match prefix contains "찾지 못했" |
| Metrics.NoMatchAnswerIsHonest | app/evaluation/metrics.py:101-105 | an answer opening with the no-match text and citing nothing is not a hallucination |
| Metrics.FormattedWithoutCitationsIsHonest | app/evaluation/metrics.py:101-105 | an answer formatted by `format_answer` without citations is never judged a hallucination |
| Metrics.RetrievedFaqIds | app/evaluation/metrics.py:151 | every retrieved id is non-empty, at most one per document |
| Metrics.RetrievedFaqIdsMembers | app/evaluation/metrics.py:151 | an id is retrieved exactly when it is non-empty and some document carries it |
| Metrics.Snippets | app/evaluation/metrics.py:157 | one snippet per document, its text (default "") |
| Metrics.CalculateMetricsSpec | app/evaluation/metrics.py:126-182 | scores in [0, 1]; recall 1 exactly when every ground-truth id is among the first five non-empty retrieved ids; counts, latency and tokens passed through; `has_citations` exactly when there are citations |
| Metrics.CountIf | app/evaluation/metrics.py:202 | a count never exceeds the number of records |
| Metrics.SumBounds | app/evaluation/metrics.py:200-201 | a sum of values in [lo, hi] lies in [n * lo, n * hi] |
| Metrics.SumNonNegative | app/evaluation/metrics.py:204 | a sum of non-negative values is non-negative |
| Metrics.CountIfAll | app/evaluation/metrics.py:205 | the count is the whole run exactly when every record qualifies |
| Metrics.CountIfNone | app/evaluation/metrics.py:202 | the count is zero exactly when no record qualifies |
| Metrics.AggregateMetricsSpec | app/evaluation/metrics.py:185-218 | absent exactly for an empty run; otherwise the question count, both rates in [0, 1] (hallucination rate 0 exactly when none hallucinated, citation rate 1 exactly when all cited), and the token total only when positive |
| Metrics.AggregateScoresBounded | app/evaluation/metrics.py:200-204 | averages of scores in [0, 1] lie in [0, 1]; the average citation count is non-negative |
| Metrics.AggregateOfOne | app/evaluation/metrics.py:185-218 | the aggregate of one record repeats its values |

## Notes on the behaviour as written

- Cleaned text contains no newline, because `clean_text` collapses all whitespace. `split_by_paragraphs` on a cleaned body therefore finds at most one paragraph, so `create_chunks` never emits more than two chunks (`Chunking.ChunksSpec`).
- Two facts make step 9 of `process_question` unreachable in effect:
  - `search` never returns more than `top_k` results (`HybridSearchProperties.SearchAtMostTopK`, with the store's bound carried over by `HybridSearch.StoreResultsAreBounded`), so the rerank branch of `retrieve_faq` is dead (`Tools.RetrievedIsSearch`);
  - `format_answer` already forces low confidence and the no-match text when there are no citations, so step 9 changes nothing (`OrchestratorProperties.CalibrationRedundant`).
- Masking quirks:
  - `mask_text` writes `:` when the match holds any `:`, even when `=` was the first separator (`PiiDetector.SeparatorQuirk`).
  - A masked password still matches the password pattern, because `*` is in its value class; the warning is raised again while the text stays unchanged (`PiiDetector.MaskedPasswordStillMatches`, `PiiDetector.MaskedPasswordFixedPoint`).
- A search result always holds the `title` and `url` keys, possibly as `None`. A missing title or url therefore reaches the prompt as "None" (`GeminiClient.DocBlocks`) and the synthesised citation as `None` (`Tools.CitationOf`).
- A JSON `null` is not a missing key. A `null` confidence, answer (with citations) or safety text comes out of `format_answer` as `None`, where a missing field gets its default (`Tools.FormattedConfidence`). A chunk whose stored channel is `null` fails every channel filter: `None` is neither "both" nor the filter's channel (`Schemas.AdmitsDefaults`).
- A reply that is valid JSON but not an object (a list, say) passes `json.loads`; `result.get` then raises `AttributeError`, and the outer handler returns the error payload with low confidence (`GeminiClient.AnswerForCases`).
- Duplicate warnings are kept. Warnings from the user context are appended after the question's without deduplication (`PiiDetector.CheckPiiInInput`).
- `keep_newlines` has no effect: both branches of `remove_special_chars` use the same pattern (`Cleaning.RemoveSpecialCharsSpec`).

## Left out

- I/O and environment: the FastAPI routes, file reading and writing, index save/load, logging, `print` and timing. Files are given as lists of lines; a stored index is a constructor argument.
- Foreign libraries are parameters with only the guarantees stated above: Gemini, `json.loads`, the regex engine, BeautifulSoup, tiktoken, FAISS, the embedders and BM25Okapi. `app/llm/embeddings.py` is not part of this model.
- Gemini client set-up (API key, model name) is left out. The three system instructions are reproduced verbatim in `GeminiClient.DefaultPrompts`; the request functions take them as a `Prompts` parameter, and `Orchestrator.FAQAgent` sets that parameter to `DefaultPrompts`.
- Exact string formats that are not modelled:
  - Python floats are modelled as exact reals: IEEE rounding is not modelled, for example exactly at the 0.3 threshold or in `1 / (1 + distance)`.
  - `str.lower()` lower-cases ASCII letters only.
  - `\w` is approximated by ASCII letters, digits, `_` and the Hangul blocks.
  - `\s` and `str.isspace` are a fixed set of whitespace characters.
  - `strptime` accepts ASCII digits only.
- Malformed JSON lines in the chunks file are not modelled: the parser is total. `None`-valued keys, on which Python would raise in `.lower()`, `.startswith` or slicing, are treated like missing keys. The other metadata keys default to `None` under `.get`, so for them `null` and missing behave alike.
- Chunking.RecordChunks: FAQ records are maps from keys to strings, so a record whose channel is JSON `null` is not representable. Python would copy that `null` into the record's chunks. Such chunks can still reach the filters through the vector store's metadata, where `Schemas.Admits` rejects them.
- `top_k` is a natural number: Python's negative-slice semantics are not modelled.
- `batch_size` is a natural number: a negative batch size, for which `range` is empty, is not modelled.
- The `mask_char` parameter of `mask_text` is fixed to `*`, the only value the source passes.
- `rerank` writes `rerank_score` into the caller's dicts in place. The model returns updated copies, so the aliasing is not captured.
- `clean_faq_item` copies its input; dict identity is not modelled.
- `prev_tokens` (app/preprocessing/chunking.py:146) is computed and never used; it is omitted.
- `calculate_faithfulness` ignores `ground_truth_snippet`, and `calculate_metrics` ignores `question`. The model takes them and does not use them either.
- `aggregate_metrics` reads fields with `m.get(key, 0)`. The model's records always hold every field except `tokens`, so these defaults matter only for `tokens`.
- Chunking.AllChunksLength: states the number of chunks, not that each chunk comes from its own record in order beyond what Chunking.RecordChunks states per record.
