# Agentic RAG system: a Dafny model of its core

The system answers questions about uploaded documents. It has two sides:

- **Ingestion.** A document processor cleans the text of each file and cuts it into overlapping chunks. It then tags each chunk with metadata.
- **Querying.** A router asks a text generator which of three specialist agents should answer: the document agent, the spreadsheet agent or the general QA agent. The chosen agent retrieves hits from a vector store, reranks them by score, keeps the best three, and answers from them. It also reports a confidence and the distinct sources.

The web front end turns the confidence into a CSS tier and the agent's name into an HTML badge.

This project models that logic. The embedding model, the vector store's search and the text generator are oracles:

- they are function-typed values in `BaseAgent.Oracles` and `Llm.Generator`;
- `None` stands for a call that raised.

Because the oracles are plain values, every fallback can be stated: no hits when embedding or search fails, "Generation failed." when the generator fails, and the apology when the answer prompt cannot be built.

Modules, one per source file, plus two of support:

- `PyStr`: the Python string operations the code relies on. It covers `str.isspace`, `strip`, `split`, `rfind`, `lower`, slicing with a possibly negative end, and `join`.
- `Wrappers` (`Option`, `Result`) and `Records` (hits, metadata values, agent results).
- `DocumentProcessor` (`core/document_processor.py`):
  - `_clean_text` is the function `CleanText`.
  - `_create_chunks` is the method `CreateChunks`. It is a `while` loop proved equal to the function `Chunks`, which is defined through the window spans `Windows`.
  - The rest of `process_file` is the method `ProcessFile`, with the extractors as an oracle.
- `BaseAgent` (`agents/base_agent.py`): retrieval, the stable score sort and `rerank_results`, the mean score, the distinct sources, and `generate_answer`.
- `DocumentAgent`, `ExcelAgent`, `QaAgent`: each specialist's `process_query`.
- `RouterAgent` (`agents/router_agent.py`):
  - `_route_query`;
  - the registry and dispatch of `process_query`, a method that adds the routing fields to the specialist's result;
  - `get_agent_info`.
- `Llm` (`core/llm.py`): `generate` and its failure message, the context string and answer prompt, `classify_query` and `extract_keywords`.
- `App` (`app.py`): `get_confidence_class` and `get_agent_badge`.

## Model

| member | source | states |
|---|---|---|
| DocumentProcessor.NewProcessor | core/document_processor.py:33-34 | each setting is the one given, unless it is absent or 0, in which case the configured one is used |
| DocumentProcessor.DefaultsWellFormed | utils/config.py:31-32 | the configured defaults, 1000 and 200, satisfy the condition under which the chunking loop makes progress |
| DocumentProcessor.CleanTextNormalForm | core/document_processor.py:188-199 | the cleaned text has no whitespace at either end, has whitespace only as single spaces and so no newline, and keeps every non-space character in order |
| DocumentProcessor.SplitCollapseSpace | core/document_processor.py:191 | replacing every whitespace run by one space keeps the words of `split()` |
| DocumentProcessor.CleanTextWords | core/document_processor.py:188-199 | the cleaned text has the same words as the input, and it is exactly those words joined by single spaces, `' '.join(text.split())` |
| DocumentProcessor.JoinSplit | core/document_processor.py:188-199 | a text without whitespace at either end and with whitespace only as single spaces is the join of its words with one space |
| DocumentProcessor.CleanTextIdempotent | core/document_processor.py:188-199 | cleaning a cleaned text changes nothing |
| DocumentProcessor.LastBreakSpec | core/document_processor.py:226-228 | the larger of the two `rfind` results is -1 or the start of a break (a newline, or a period followed by a space), and no break starts after it |
| DocumentProcessor.LastBreakSearch | core/document_processor.py:226-228 | the two `rfind` calls give the same index as a backward scan for the last break |
| DocumentProcessor.WindowEnd | core/document_processor.py:220-232 | a window ends after its start and at most `chunk_size` later; it ends more than `chunk_overlap` after its start; it has full length when it reaches the end of the text; and when it stops short of the end, it is more than half of `chunk_size` long |
| DocumentProcessor.WindowEndCut | core/document_processor.py:224-232 | a window that stops short of the end of the text is cut just after its last break exactly when that break lies strictly past half of `chunk_size`; otherwise it is a full window |
| DocumentProcessor.WindowsShape | core/document_processor.py:218-241 | the windows start at 0 and the last ends at the end of the text. Each is non-empty, at most `chunk_size` long, and ends where the cut rule says. Each next one starts `chunk_overlap` before the previous end, and only the last reaches the end of the text |
| DocumentProcessor.WindowsCover | core/document_processor.py:237-241 | every position of the text lies in some window |
| DocumentProcessor.StripSpanSpec | core/document_processor.py:234 | the span kept from a window is exactly the stripped window, and what is dropped at either end is whitespace |
| DocumentProcessor.StrippedWindow | core/document_processor.py:234 | a stripped window is the text of its kept span, and it is blank exactly when that span is empty |
| DocumentProcessor.DropBlankStripped | core/document_processor.py:243-244 | removing the blank stripped windows leaves the texts of the non-empty kept spans |
| DocumentProcessor.NextWindow | core/document_processor.py:220-232 | the loop body's window ends where `WindowEnd` says, and the chunk is the text from the start to that end, clamped to the text |
| DocumentProcessor.ChunkLoopStep | core/document_processor.py:236-241 | the k-th window ends where the loop body puts `end`. It is the last window exactly when `end` reaches the end of the text; otherwise the next window starts at `end - chunk_overlap` |
| DocumentProcessor.ChunkStep | core/document_processor.py:219-241 | one loop pass appends the k-th stripped window, and the next start is strictly greater than this one |
| DocumentProcessor.CreateChunks | core/document_processor.py:201-246 | the loop returns exactly `Chunks`: the stripped windows with the blank ones removed |
| DocumentProcessor.EmptyTextNoChunks | core/document_processor.py:211-212 | an empty text gives no chunks |
| DocumentProcessor.ChunksShape | core/document_processor.py:220-244 | every chunk is a non-empty contiguous substring of the text, has no whitespace at either end, and is at most `chunk_size` long |
| DocumentProcessor.ChunksCoverContent | core/document_processor.py:218-244 | every non-space character of the text lies inside some chunk |
| DocumentProcessor.FileNameSpec | core/document_processor.py:49 | the file name ends the path (trailing slashes ignored) and holds no slash; a slash precedes it unless it is the whole trimmed path |
| DocumentProcessor.SuffixSpec | core/document_processor.py:48 | the suffix is empty, or it is a period followed by at least one non-period character, ending the name and shorter than it. Conversely, when the name's last period is neither its first nor its last character, the suffix is the name from that period on; when there is no such period, the suffix is empty |
| DocumentProcessor.KindOf | core/document_processor.py:54-65 | the extension is accepted exactly when it is one of `.pdf`, `.docx`, `.pptx`, `.xlsx`, `.txt`, and it is read as a spreadsheet exactly when it is `.xlsx` |
| DocumentProcessor.ChunkMetadata | core/document_processor.py:74-82 | one metadata entry per chunk, with exactly the keys source, file_type, chunk_index = i and total_chunks = the count |
| DocumentProcessor.ProcessFile | core/document_processor.py:37-96 | an unsupported extension or a failed extraction is an error. Otherwise the result holds the cleaned text, its chunks, their metadata, the file name and the lower-cased extension |
| PyStr.StripSpec | core/document_processor.py:197 | `strip()` leaves no whitespace at either end, is empty exactly for all-whitespace input, and drops no non-space character |
| PyStr.RFindSpec | core/document_processor.py:226-227 | `rfind` gives -1 or an index where the needle occurs, and the needle occurs at no later index |
| PyStr.SplitKeepsContent | core/llm.py:58 | the words of `split()`, put back together, are the text's non-space characters in order |
| PyStr.SplitAtSpace | core/llm.py:58 | a whitespace character separates words: the words of `a + c + b` for a whitespace `c` are the words of `a` followed by those of `b` |
| PyStr.SplitWord | core/llm.py:58 | a non-empty string without whitespace is a single word, so words are maximal |
| PyStr.SplitAllSpace | core/llm.py:58 | a string of whitespace has no words |
| PyStr.SplitSkip | core/llm.py:58 | leading whitespace does not change the words |
| PyStr.SplitStrip | core/document_processor.py:197 | `strip()` does not change the words |
| BaseAgent.RetrieveContext | agents/base_agent.py:61-77 | no hits when embedding or search fails; otherwise exactly the search's hits |
| BaseAgent.FilterSpec | agents/document_agent.py:55-58 | the file-type filter keeps every passing hit as often as it occurs and drops every other hit |
| BaseAgent.FilterEmpty | agents/document_agent.py:55-60 | the filter leaves nothing exactly when no hit passes |
| BaseAgent.FilterAppend | agents/document_agent.py:55-58 | the filter keeps input order: filtering a concatenation concatenates the filtered parts |
| BaseAgent.SortByScoreSorted | agents/base_agent.py:102-106 | the sort by score, descending, leaves scores non-increasing (a missing score counts as 0) |
| BaseAgent.SortByScoreStable | agents/base_agent.py:102-106 | hits with equal scores keep their input order |
| BaseAgent.Rerank | agents/base_agent.py:96-108 | the result is a prefix of the sorted hits, of length `min(top_k, len(results))` for a non-negative `top_k` |
| BaseAgent.RerankNegative | agents/base_agent.py:108 | with a negative `top_k` the slice drops that many of the lowest-scored hits |
| BaseAgent.RerankSpec | agents/base_agent.py:96-108 | the kept hits are in score order and are a sub-multiset of the input. Together with the dropped hits they are the input, each kept hit scores at least as high as every dropped one, and ties keep their input order |
| BaseAgent.RerankFiltered | agents/document_agent.py:55-69 | reranking the filtered hits keeps only hits that pass the filter, drawn from the unfiltered hits |
| BaseAgent.MeanScoreBetween | agents/document_agent.py:79 | the mean score is not clamped: it lies within any bounds on the scores |
| BaseAgent.DistinctSpec | agents/document_agent.py:86 | `list(set(...))` holds exactly the values of its input, each once |
| BaseAgent.SourceList | agents/document_agent.py:86 | one source per hit, `Unknown` when a hit has none |
| BaseAgent.SourcesSpec | agents/document_agent.py:86 | every kept hit's source is listed exactly once, and nothing else is listed |
| BaseAgent.AgentAnswer | agents/base_agent.py:131-140 | the generator's reply to the answer prompt when every hit has a text; the fixed apology when some hit has none |
| Llm.Generate | core/llm.py:23-29 | the pipeline's text, or "Generation failed." when the pipeline raises |
| Llm.GenerateIgnoresSettings | core/llm.py:23-29 | temperature and token limit have no effect on the reply |
| Llm.FailureMessageStripped | core/llm.py:29 | the failure message has no whitespace at either end |
| Llm.FailureMessageLetters | core/llm.py:29 | the failure message holds none of u, x and q in either case, so it names no agent |
| Llm.ContextString | core/llm.py:38-40 | a context string exists exactly when every hit has a text |
| Llm.ContextStringAppend | core/llm.py:38-40 | the context string keeps the hits in input order, separated by a blank line |
| Llm.ContextStringLength | core/llm.py:38-40 | its length is the texts' total length plus two per separator, and one hit gives its own text |
| Llm.AnswerPrompt | core/llm.py:42-50 | the prompt is laid out as a Context header, the context, a Question header, the query and an Answer header |
| Llm.GenerateAnswer | core/llm.py:31-52 | an answer exists exactly when every hit has a text, and it is the generator's reply to the answer prompt |
| Llm.SystemPromptIgnored | core/llm.py:31-52 | the system prompt does not change the answer |
| Llm.ClassifyQuery | core/llm.py:54-55 | the first category, and an error on an empty list |
| Llm.ExtractKeywords | core/llm.py:57-58 | a prefix of the whitespace split; its length is `min(max_keywords, n)` for a non-negative limit and `max(n + max_keywords, 0)` for a negative one, where n is the number of words |
| Llm.ExtractKeywordsSpec | core/llm.py:57-58 | the keywords are non-empty, hold no whitespace, and together are a prefix of the text's non-space characters; they are all of them when the limit is large enough |
| DocumentAgent.ProcessQuery | agents/document_agent.py:36-87 | the result is the document agent's, with no error, data type or routing fields |
| DocumentAgent.NotFoundExactly | agents/document_agent.py:55-66 | the fixed "couldn't find" record (no context, confidence 0, no sources key) comes back exactly when no retrieved hit is a document |
| DocumentAgent.AnsweredContext | agents/document_agent.py:60-69 | an answered query keeps the reranked candidates, one to three of them |
| DocumentAgent.KeptSpec | agents/document_agent.py:55-69 | the kept hits are documents drawn from the retrieved hits, in score order, each scoring at least as high as every candidate left out |
| DocumentAgent.Confidence | agents/document_agent.py:79-85 | the confidence is 0 for the not-found record. Otherwise the kept hits are non-empty, the confidence is their mean score, and it lies within any bounds on those scores |
| DocumentAgent.AnsweredSources | agents/document_agent.py:81-87 | the sources name each kept hit's source once and nothing else |
| DocumentAgent.ErrorResult | agents/document_agent.py:89-97 | the except record: no context, confidence 0, the error message |
| ExcelAgent.ProcessQuery | agents/excel_agent.py:36-88 | the spreadsheet agent's result. It carries `data_type` spreadsheet exactly when it carries sources |
| ExcelAgent.NotFoundExactly | agents/excel_agent.py:49-60 | the fixed "couldn't find" record comes back exactly when no retrieved hit is an `.xlsx` hit |
| ExcelAgent.AnsweredContext | agents/excel_agent.py:54-63 | an answered query keeps the reranked candidates, one to three of them |
| ExcelAgent.KeptSpec | agents/excel_agent.py:49-63 | the kept hits are `.xlsx` hits drawn from the retrieved hits, in score order, each scoring at least as high as every candidate left out |
| ExcelAgent.Confidence | agents/excel_agent.py:73-85 | the confidence is 0 for the not-found record. Otherwise the kept hits are non-empty, the confidence is their mean score, and it lies within any bounds on those scores |
| ExcelAgent.AnsweredSources | agents/excel_agent.py:75-86 | the sources name each kept hit's source once and nothing else |
| ExcelAgent.ErrorResult | agents/excel_agent.py:90-98 | the except record: no context, confidence 0, the error message |
| QaAgent.DirectPrompt | agents/qa_agent.py:64-67 | the direct prompt is the system prompt, a Question tag, the query and an Answer tag |
| QaAgent.ProcessQuery | agents/qa_agent.py:36-82 | the QA agent's result always carries a source list and has no error, data type or routing fields |
| QaAgent.NoContext | agents/qa_agent.py:48-82 | with no retrieved hit, the answer is the generator's reply to the direct prompt (or the failure message); the context is empty, the confidence 0 and the sources empty |
| QaAgent.AnsweredContext | agents/qa_agent.py:48-53 | with retrieved hits, the context is the best `min(3, n)` of them and the confidence their mean score |
| QaAgent.ContextEmptyExactly | agents/qa_agent.py:48-50 | the context is empty exactly when retrieval gives nothing |
| QaAgent.KeptSpec | agents/qa_agent.py:48-50 | the kept hits are drawn from the retrieved hits, in score order, each scoring at least as high as every hit left out |
| QaAgent.Confidence | agents/qa_agent.py:48-53 | the confidence is 0 without context, and otherwise lies within any bounds on the kept scores |
| QaAgent.ContextSources | agents/qa_agent.py:69-82 | the sources name each context hit's source once and nothing else, and are empty without context |
| QaAgent.ErrorResult | agents/qa_agent.py:84-92 | the except record: no context, confidence 0, the error message |
| RouterAgent.ClassificationPrompt | agents/router_agent.py:82-96 | the prompt is the fixed instructions with the query between them |
| RouterAgent.FirstContained | agents/router_agent.py:104-110 | a name the reply contains such that the reply contains no earlier name, so the first one; none when the reply contains none of them |
| RouterAgent.RouteReply | agents/router_agent.py:98-118 | the choice is always one of document, excel, qa |
| RouterAgent.RouteChoice | agents/router_agent.py:102-114 | the normalised reply is searched for document, then excel, then qa, with document as the default |
| RouterAgent.RouteDocument | agents/router_agent.py:104-114 | document is chosen exactly when the reply mentions document, or mentions neither excel nor qa |
| RouterAgent.RouteExcel | agents/router_agent.py:104-114 | excel is chosen exactly when the reply mentions excel but not document |
| RouterAgent.RouteQa | agents/router_agent.py:104-114 | qa is chosen exactly when the reply mentions qa and neither of the other names |
| RouterAgent.RouteFailure | agents/router_agent.py:116-118 | an exception while routing gives qa |
| RouterAgent.RouteQuery | agents/router_agent.py:80-114 | routing a query always gives one of the three choices |
| RouterAgent.GeneratorFailureRoutesToDocument | agents/router_agent.py:98-114 | when the generator fails, the reply is the failure message, which names no agent, so the query goes to document |
| RouterAgent.NoLetterRoutesToDocument | agents/router_agent.py:102-114 | a stripped reply without u, x and q in either case goes to document |
| RouterAgent.NoLetterNoAgent | agents/router_agent.py:102-110 | normalising such a reply leaves none of the three names in it |
| RouterAgent.LookupIn | agents/router_agent.py:49 | `dict.get`: the value of the entry for the key, or the default when no entry has it |
| RouterAgent.LookupSpec | agents/router_agent.py:49 | document and excel go to their own agents, and any name outside the three goes to the QA agent |
| RouterAgent.KeysAreChoices | agents/router_agent.py:21-25 | the registered keys are exactly the router's choices, in the same order |
| RouterAgent.ChoiceRegistered | agents/router_agent.py:44-49 | every choice the router makes has a registry entry, so the lookup's default is never used |
| RouterAgent.Specialist | agents/router_agent.py:52 | the chosen specialist's result carries that specialist's name and no routing fields |
| RouterAgent.ProcessQuery | agents/router_agent.py:40-58 | the result is the chosen specialist's, unchanged except that `router_decision` is the choice and `available_agents` is the three keys |
| RouterAgent.ErrorResult | agents/router_agent.py:60-68 | the except record: no context, confidence 0, the router's name, the error message |
| RouterAgent.GetAgentInfo | agents/router_agent.py:120-133 | one name and description per registered agent, in registration order |
| RouterAgent.AgentInfoNames | agents/router_agent.py:127-133 | the listed names are the ones the specialists put in their results, and they are pairwise distinct |
| App.ConfidenceClass | app.py:160-167 | the class is one of the three tiers |
| App.ConfidenceClassSpec | app.py:160-167 | high exactly from 0.7 up, medium exactly on [0.4, 0.7), low exactly below 0.4, negative scores included |
| App.ConfidenceClassMonotone | app.py:160-167 | a higher confidence never gets a lower tier |
| App.AgentClass | app.py:150-156 | the mapped class for the three specialists, and qa-agent for any other name |
| App.AgentClassSpec | app.py:150-156 | each specialist's class is its registry key followed by `-agent`; any other name, the router's included, gets qa-agent |
| App.AgentBadge | app.py:157 | the badge is the opening span tag with the class, the name verbatim (not escaped), and the closing tag |
| App.AgentBadgeInjective | app.py:148-157 | different agent names give different badges |

## Left out

- Reading files is not modelled. The PDF, Word, PowerPoint, Excel and text extractors (with their float summary statistics) are one oracle, `extract`, in `DocumentProcessor.ProcessFile`. An extractor that raises is an `ExtractionFailed` error, which `process_file` passes on.
- The embedding model, the vector store (connection, schema, insert, search) and the generation pipeline are oracles. Their internals, logging and the Streamlit user interface of `app.py` are not part of this model.
- The vector store's `filter_dict` parameter is accepted but never used. Retrieval is therefore modelled without a filter, and the document agent's unused filter dictionary is left out.
- Scores and confidence are `real`, not IEEE doubles. NaN and rounding are not modelled, and `float(avg_score)` is the identity.
- `Lower` folds only ASCII letters. Python's `str.lower` also folds non-ASCII letters, which cannot change whether a reply contains `document`, `excel` or `qa`.
- DocumentProcessor.FileExtension: it also uses the ASCII-only `Lower`. A suffix with non-ASCII capitals can therefore appear differently in the `UnsupportedFileType` error text, but it is rejected or accepted exactly as in the source, since every accepted extension is ASCII.
- `FileName` and `Suffix` follow `pathlib` on plain `/`-separated paths. Drive letters, backslashes and `.` or `..` components are not modelled.
- `DocumentProcessor.CreateChunks` requires `0 < chunk_size`, `0 <= chunk_overlap` and `2 * chunk_overlap <= chunk_size`. The source checks none of these. With a larger overlap, a sentence cut can move the next start back to or before the current one, and the loop need not terminate. The defaults satisfy the condition (`DocumentProcessor.DefaultsWellFormed`).
- `DocumentProcessor.CleanText` models both substitutions of `_clean_text`. The second one (`\n\s*\n`) can never match after the first, because the first leaves no newline. The model keeps it, and `CleanTextNormalForm` shows why it changes nothing.
- `BaseAgent.Sources`: the order of `list(set(...))` depends on Python's hashing. The model lists each source at its last occurrence and proves only what does not depend on the order: each source once, and exactly the kept hits' sources.
- BaseAgent.Rerank: the `except` branch of `rerank_results` is not modelled. Sorting by a real score cannot raise.
- The `except` branches of the specialists' and the router's `process_query` are modelled as `ErrorResult` records. Nothing in the model raises there, so they are not connected to `ProcessQuery`. A hit without a text makes `generate_answer` raise, and that case is modelled through `BaseAgent.AgentAnswer` (the apology).
- RouterAgent.RouteReply: the `except` branch of `_route_query` (routing to `qa`) is modelled by a reply of `None`. `generate` catches the generator's failure itself, so that branch is not reached by a generator failure. Such a failure routes to `document` (`RouterAgent.GeneratorFailureRoutesToDocument`).
- Llm.Generate: temperature and token limit are parameters with no effect, as in the source. The QA agent's direct call therefore needs no separate model of its `max_tokens` default.
- Llm.GenerateAnswer: the system prompt is a parameter with no effect, as in the source.
- A `top_k` keyword argument is passed to the search oracle unchanged. A negative `top_k` in `rerank_results` is modelled with Python's slice rule (`BaseAgent.RerankNegative`). The agents themselves always rerank with 3.
- Module-level singletons, configuration loading from the environment and logging are not modelled. The configured chunk settings are parameters of `DocumentProcessor.NewProcessor`.
