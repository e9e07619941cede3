# Resume Roaster: a verified model of retrieval, chat and section assembly

Resume Roaster reads a resume (and optionally a job description) and answers questions
about it through a hosted chat model. Before the model is called, a retrieval layer
builds the context it sees. This project is a Dafny model of the deterministic
bookkeeping around the machine-learning and network calls, with proofs of what that
bookkeeping guarantees.

The model covers three source files:

- `src/embeddings.py`:
  - the word-window chunker;
  - the corpus builder: chunk ids, entry types and order, and the job-description branch;
  - the index restore;
  - search post-processing: over-fetch, type filter, truncation;
  - the context formatter: one header per section;
  - the resume/JD alignment report: grouping, means, the 0.5 weak threshold;
  - the keyword post-filter.
- `src/rag_chat.py`:
  - the sliding-window rate limiter;
  - the one-hour response cache;
  - the conversation log and its summary;
  - prompt selection and response decoration;
  - the decisions and ordering of `rag_query`.
- `src/resume_parser.py`:
  - the section-name normaliser;
  - the header-match slicer with the contact-information prepend;
  - the grouping half of AI section detection;
  - the AI-to-rule-based fallback;
  - the metrics and summary functions.

The model's form follows the source:

- Global module state becomes classes:
  - `Corpus.Store` holds the in-memory `index`, `metadata` and `job_description_embedding`, plus the three files on disk;
  - `RagChat.ChatSession` holds `api_call_times`, `conversation_history` and the cache directory.
- Loops that append to lists become methods with invariants. Each is proved equal to a specification function, and the lemmas beside it state the properties.
- Ordered dictionaries (`OrderedDict`, and `dict`s that are iterated) are association lists. Keys keep their first-insertion position and values are overwritten in place (`OrderedMaps.Put`).

The sentence encoder, the FAISS ranking, the zero-shot classifier, the regular
expressions, the chat model, the clock and number formatting are all parameters of the
operations: functions, or integers for the clock. Similarities and means are Dafny `real`s.

Modules, in dependency order:

| Module | Contents |
|---|---|
| `Wrappers` | Option and Result |
| `Text` | words, strip, join, lower and title case, substring search |
| `OrderedMaps` | ordered maps, dedup, filter, grouping |
| `Metadata` | chunk entries |
| `Chunker` | the chunker |
| `Retrieval` | search and context formatting |
| `Alignment` | the alignment report |
| `Keywords` | JD keywords |
| `Corpus` | the corpus builder and the `Store` class |
| `RagChat` | the chat session |
| `SectionNames` | the name normaliser |
| `AiDetection` | AI grouping |
| `ResumeParser` | slicer, fallback, metrics, summary |

## Model

| member | source | states |
|---|---|---|
| Chunker.ChunkText | src/embeddings.py:28-42 | The while loop that advances by `max_tokens - overlap` and appends the non-blank windows returns exactly the chunk list `Chunks` of the text. Callers must give an overlap below `max_tokens` unless the text has no words: otherwise the loop never advances. |
| Chunker.Chunks | src/embeddings.py:28-42 | The chunk list is empty exactly when the text has no words. |
| Chunker.ChunkCountIsCeiling | src/embeddings.py:35-40 | With n words and step = max_tokens - overlap > 0, there are exactly ceil(n / step) chunks. |
| Chunker.ChunkWordsAtOffset | src/embeddings.py:35-40 | Chunk j consists of exactly words[j·step .. min(n, j·step + max_tokens)], and its start offset lies inside the text. |
| Chunker.ChunkWordCount | src/embeddings.py:35-40 | Every chunk has at least 1 and at most `max_tokens` words. |
| Chunker.ChunkNotBlank | src/embeddings.py:38 | Every window survives the `chunk.strip()` test, so no window is dropped. |
| Chunker.WindowJoin | src/embeddings.py:36-37 | Window j is the words from offset j·step up to `max_tokens` further, joined by single spaces. |
| Corpus.Store.constructor | src/embeddings.py:10-12 | A fresh process has no index, empty metadata and no JD embedding in memory, whatever files are on disk. |
| Corpus.Store.BuildEmbeddings | src/embeddings.py:44-136 | Afterwards `metadata` is the corpus layout `CorpusMetadata`. The index holds one encoder vector per chunk text, in order. The JD embedding is the encoding of the JD when the JD is non-blank after strip, and None otherwise. The three files mirror the new in-memory state, so a stale JD embedding file is gone. |
| Corpus.Store.CollectChunks | src/embeddings.py:55-100 | The appended metadata is exactly `CorpusMetadata`, and `chunks` is always the list of the metadata texts, so the two have equal length. |
| Corpus.Store.CollectSectionChunks | src/embeddings.py:61-86 | The overview entry comes first, then each section's chunks in section order. |
| Corpus.Store.AppendChunkEntries | src/embeddings.py:76-86 | Appending one section's chunks numbers them consecutively from the current length and keeps `chunks` equal to the metadata texts. |
| Corpus.CorpusIdsDense | src/embeddings.py:62-100 | `metadata[i].chunk_id == i` for every i. |
| Corpus.CorpusLayout | src/embeddings.py:61-100 | Entry 0 is the overview: "Resume Overview", id 0, the first 1500 characters, type overview. It is followed by the section entries, then the JD entries. JD entries exist exactly when the JD is non-blank after strip. |
| Corpus.SectionEntryAt | src/embeddings.py:74-86 | Each section entry has type section, a section name among the section keys, and a `word_count` equal to the word count of its text. |
| Corpus.SectionEntriesShape | src/embeddings.py:74-86 | Every section entry has the shape SectionEntryAt states. |
| Corpus.SectionsFollowOverview | src/embeddings.py:74-86 | Positions 1 through the section-entry count of the metadata are section entries. |
| Corpus.JdEntriesShape | src/embeddings.py:88-100 | Every JD entry is labelled "Job Description", has type job_description and has no word count. |
| Corpus.JdEntryAt | src/embeddings.py:91-100 | Any one JD entry has that shape. |
| Corpus.JdFollowsSections | src/embeddings.py:88-100 | All metadata positions after the section entries are JD entries. |
| Corpus.EmbedAll | src/embeddings.py:112 | The embedding list has one vector per text: the encoding of that text. |
| Corpus.Store.LoadOrCreateIndex | src/embeddings.py:138-153 | It loads exactly when both index and metadata files exist; the files themselves do not change. When it loads, index and metadata come from disk, and the JD embedding is loaded when its file exists and otherwise left as it was. When it does not load, nothing in memory changes. An in-memory JD embedding is never cleared. |
| Corpus.Store.SearchSimilar | src/embeddings.py:155-198 | With no index in memory or on disk, the result is the "No index found" error. Otherwise the index is loaded first when needed, and the result is the search as written (`Retrieval.Search`) over the ranked candidates for 3k (filtered search) or k results. That includes the IndexError for a position below `-len(metadata)`. |
| Corpus.Store.GetRelevantContext | src/embeddings.py:200-228 | The same loading and error behaviour as the search, including its IndexError. Otherwise the text is the context layout of the search's hits, searched with filter `'section'` unless the JD is included. |
| Corpus.ContextFilter | src/embeddings.py:210 | The filter is None exactly when JD chunks are included, and `section` otherwise, which also excludes the overview. |
| Corpus.Store.CompareResumeToJd | src/embeddings.py:230-281 | The result is the alignment report `Alignment.Compare` of the current metadata and JD embedding. |
| Retrieval.SearchK | src/embeddings.py:180 | k candidates are requested without a filter and 3k with one. |
| Retrieval.PyIndex | src/embeddings.py:186-187 | Python list indexing: a negative index counts from the end, and anything outside `-len .. len-1` raises. |
| Retrieval.ReadAt | src/embeddings.py:185-187 | One candidate as written: a position at or past the end is skipped. Any valid position reads its entry. A position below `-len(metadata)` raises IndexError, and only such a position does. |
| Retrieval.CollectHits | src/embeddings.py:184-198 | The result loop, with its upper-bound-only guard, Python indexing and `break`, returns exactly the search as written, `Search`: the IndexError, or the hits truncated to k. |
| Retrieval.ScanSettled | src/embeddings.py:195-196 | Once the loop has broken (or raised), the later candidates change nothing. |
| Retrieval.SearchSound | src/embeddings.py:184-198 | A successful search returns at most k hits. Each hit is the entry read for some candidate (possibly via a negative position), with that candidate's score, and it passes the type filter. An error happens only when some position is below `-len(metadata)`. |
| Retrieval.SearchWithoutPadding | src/embeddings.py:184-198 | When no candidate position is negative, the search as written returns the first k hits of the corrected reference `Hits`, so it inherits HitsSound, HitsComplete and HitsDistinct. |
| Retrieval.HitsSound | src/embeddings.py:184-193 | For the corrected reference `Hits` (guard `0 <= idx < len(metadata)`): every hit copies the metadata entry at a valid position of some candidate, with that candidate's score. With a filter, its type is the filter type. |
| Retrieval.HitsComplete | src/embeddings.py:184-193 | For the corrected reference `Hits`: every qualifying candidate contributes a hit. |
| Retrieval.HitsDistinct | src/embeddings.py:184-193 | For the corrected reference `Hits`: with dense ids and no repeated non-negative candidate positions, no two hits share an entry. |
| Retrieval.PaddingDuplicatesLastEntry | src/embeddings.py:185-187 | As written, the upper-bound-only guard lets FAISS padding (position -1) through as `metadata[-1]`. Two entries, k = 2 and a section filter give the Skills hit twice, the second with the padding score -FLT_MAX. The corrected reference gives the single true hit. |
| Retrieval.FormatContext | src/embeddings.py:213-228 | The loop with its `seen_sections` set builds exactly the `"\n\n"`-join of the rendered context layout. |
| Retrieval.RenderAll | src/embeddings.py:221-228 | Each layout part becomes one line, in order: a header as `--- section (relevance: s) ---`, a body as its text. |
| Retrieval.LayoutBodies | src/embeddings.py:217-226 | The body parts are exactly the hit texts, once each, in rank order. |
| Retrieval.LayoutHeaders | src/embeddings.py:220-224 | The headers name distinct sections, and exactly the sections of the hits. |
| Retrieval.LayoutHeaderFirst | src/embeddings.py:220-226 | Every body part is preceded by its section's header. |
| Retrieval.LayoutHeaderScores | src/embeddings.py:220-223 | Each header carries the similarity of the first hit of its section. |
| Alignment.CompareNone | src/embeddings.py:237-246 | There is no report exactly when there is no JD embedding or every chunk is a JD chunk. |
| Alignment.ResumeChunksSpec | src/embeddings.py:243 | The resume chunks are exactly the overview and section entries. |
| Alignment.GroupScores | src/embeddings.py:264-269 | The `section_groups` loop groups scores by section name in first-appearance order. |
| Alignment.NewListThenAppend | src/embeddings.py:266-269 | Creating an empty list for an absent section and then appending is the same as the grouping step. |
| Alignment.Averages | src/embeddings.py:272-275 | The averages have the same keys, in the same order, as the groups. |
| Alignment.AveragesGet | src/embeddings.py:272-275 | Each section's average is the mean of its group. |
| Alignment.SectionScores | src/embeddings.py:264-275 | The section scores have one key per distinct section, in first-appearance order. Each key's group is non-empty and its score is the group mean. |
| Alignment.WeakSectionsAt | src/embeddings.py:280 | The weak sections are exactly the keys whose average is below 0.5, without duplicates. Their order is stated by WeakSectionsInOrder. |
| Alignment.WeakSectionsInOrder | src/embeddings.py:280 | The weak sections keep the order of the averages: each is a key with average below 0.5, and of two weak sections the earlier one has the earlier key. |
| Alignment.WeakSectionsSpec | src/embeddings.py:280 | A section is weak exactly when its average is below 0.5. |
| Alignment.ReportSpec | src/embeddings.py:248-281 | `overall_match` is 100 × the mean over the resume chunks only. The section keys are the distinct section names. A section is weak exactly when it occurs and its mean is below 0.5. The order is stated by ReportWeakSectionsInOrder. |
| Alignment.ReportWeakSectionsInOrder | src/embeddings.py:272-281 | In the report, the weak sections appear in the order of their keys in `section_scores`. |
| Keywords.KeywordsSpec | src/embeddings.py:283-306 | At most 20 keywords, without duplicates. Each comes from the two regex findings, is longer than 2 characters and is not a stopword. When at most 20 terms survive, every surviving term is returned. |
| Keywords.NoJdNoKeywords | src/embeddings.py:285-287 | With no job-description chunk the result is empty. |
| RagChat.RecentSpec | src/rag_chat.py:64-68 | Pruning keeps exactly the timestamps less than 60 s old. It never grows the list and is idempotent. |
| RagChat.RecentKeepsOrder | src/rag_chat.py:64-68 | Pruning keeps the timestamps in order. |
| RagChat.WaitBounds | src/rag_chat.py:74-76 | With timestamps not after `now`, the wait lies in (0, 60]. |
| RagChat.ChatSession.constructor | src/rag_chat.py:14-22 | A fresh process has no recorded calls and no history. |
| RagChat.ChatSession.CheckRateLimit | src/rag_chat.py:62-78 | Timestamps become the pruned list, in order. The verdict is "proceed, wait 0" exactly when fewer than 10 remain, and otherwise a positive wait of 60 − (now − first retained timestamp). Nothing else changes. |
| RagChat.ChatSession.RecordApiCall | src/rag_chat.py:80-84 | Exactly one timestamp is appended at the end, and nothing else changes. |
| RagChat.ChatSession.CheckCache | src/rag_chat.py:35-48 | A stored response is returned exactly when its key is cached and younger than 3600 s. |
| RagChat.ChatSession.SaveToCache | src/rag_chat.py:50-60 | The key now maps to the response stamped `now`. Other keys and the other state are unchanged. |
| RagChat.ChatSession.ClearConversationHistory | src/rag_chat.py:371-374 | The history is empty and its summary is the fixed "no history" text. |
| RagChat.ConversationSummary | src/rag_chat.py:355-369 | The fixed "No conversation history yet." text appears exactly when the history is empty. |
| RagChat.ModeCountsBounded | src/rag_chat.py:362-365 | The roast count plus the constructive count is at most the number of exchanges. |
| RagChat.BuildPromptSpec | src/rag_chat.py:86-153 | The system message is chosen by exact equality with the two mode literals, and every other mode gets the normal one. The user message starts with the JD alignment block, which is empty exactly without a comparison. It contains the context and the query. |
| RagChat.JdContext | src/rag_chat.py:134-144 | The alignment block is empty exactly when there is no comparison. |
| RagChat.InterfaceModesGetNormalPrompt | src/rag_chat.py:89-130 | The mode labels the interface passes differ from the literals compared here, so both get the normal prompt. |
| RagChat.Decorate | src/rag_chat.py:166-176 | A decorated response is the header, the response and the footer, each in its place. |
| RagChat.EnhanceInverse | src/rag_chat.py:166-176 | Removing the fixed header and footer of either enhancement gives the response back. |
| RagChat.ApplyMinimalFilter | src/rag_chat.py:155-164 | With no blocked patterns, the filter is the identity. |
| RagChat.FinalResponseSpec | src/rag_chat.py:306-320 | The model's text always appears in the answer. The two modes start it with their headers. In other modes, without a match summary, the answer is the text itself. |
| RagChat.MissingKeyReply | src/rag_chat.py:191-192 | With no API key configured, the reply is the API-error text followed by the missing-key message, in every mode. |
| RagChat.ChatSession.CallModel | src/rag_chat.py:298-331 | The call is recorded before it is made, stamped with the pre-call clock `now`. On success the decorated answer is cached, stamped with the post-call clock `answeredAt`, and appended to the history once. On failure the error reply is returned and the cache and history do not change. |
| RagChat.ChatSession.Answer | src/rag_chat.py:286-353 | A non-empty fresh cache hit is returned with no state change. Otherwise a rate-limit refusal happens exactly when 10 or more recent calls remain, and returns the wait message without recording a call. Otherwise the call proceeds as in CallModel, with the cache stamp taken from the post-call clock. |
| RagChat.PrepareRequest | src/rag_chat.py:261-283 | The search depth is 8 only for a truthy JD and a JD-related query. JD chunks are included exactly when the JD is not None. The context comes from the search as written, and its IndexError is returned as the error. The comparison is computed only for a truthy JD. The keyword line lists at most the first 15 keywords and is added only for a keyword query with a truthy JD. A missing index gives the no-index error. |
| RagChat.RagQuery | src/rag_chat.py:251-353 | A missing index, or an IndexError from the search as written, ends the request with the error reply and no state change. A cache hit or a rate-limit refusal never records a call nor logs. A model call records exactly one timestamp after pruning. Exactly one exchange is logged, and only on success. |
| SectionNames.NormalizeSectionName | src/resume_parser.py:191-214 | The result is one of the nine canonical names or the title-cased input. |
| SectionNames.FirstHit | src/resume_parser.py:193-212 | The first family with a term in the lower-cased name is found, and no earlier family has one. |
| SectionNames.FirstHitWins | src/resume_parser.py:193-212 | The first family in test order whose term occurs wins. |
| SectionNames.FirstHitAt | src/resume_parser.py:193-212 | A family with a term that no earlier family has is the one found. |
| SectionNames.NoHitIsTitled | src/resume_parser.py:214 | A name with no term of any family is title-cased. |
| SectionNames.CanonicalNamesAreFixed | src/resume_parser.py:193-212 | Every canonical name maps to itself, except "Volunteer Experience", which maps to "Experience" because the experience test comes first. |
| AiDetection.ClassifyChunks | src/resume_parser.py:113-127 | The classification loop fails exactly when the classifier fails on some kept chunk. Otherwise it groups the kept (label, chunk) pairs by label in first-appearance order. |
| AiDetection.KeptFails | src/resume_parser.py:115-124 | Detection fails exactly when the classifier raises on some chunk of at least 20 stripped characters. |
| AiDetection.KeptSound | src/resume_parser.py:115-127 | Every kept pair is a chunk of at least 20 stripped characters, paired with its top label, whose confidence is above 0.3. |
| AiDetection.KeptComplete | src/resume_parser.py:115-127 | Every such chunk with confidence above 0.3 is kept. |
| AiDetection.KeptFailurePersists | src/resume_parser.py:136-138 | Once the classifier has raised, later chunks cannot rescue the result. |
| AiDetection.ClassifiedIsGroup | src/resume_parser.py:125-127 | The per-label lists are the grouping of the kept chunks by label. |
| AiDetection.TitledGroups | src/resume_parser.py:130-134 | Each group becomes its title-cased label and its chunks joined by a blank line. |
| AiDetection.FinalizeGroups | src/resume_parser.py:130-134 | Building `final_sections` stores each titled group in order. |
| AiDetection.FinalizedKeys | src/resume_parser.py:130-134 | The final keys are the distinct title-cased labels in first-appearance order. The result is empty exactly when nothing was kept. |
| AiDetection.FinalizedValue | src/resume_parser.py:130-134 | When no other label title-cases to the same key, a label's section is its chunks in order, joined by a blank line. |
| AiDetection.AiNoneWhenNothingKept | src/resume_parser.py:134 | Detection returns None exactly when nothing was kept, and otherwise returns the finalised sections. |
| AiDetection.AiSectionDetection | src/resume_parser.py:87-138 | The detection method computes the detection function, including None when AI is unavailable. |
| ResumeParser.Openings | src/resume_parser.py:163-175 | Each match gives its normalised name and the stripped text from the end of its match to the start of the next, or to the end of the text. |
| ResumeParser.SlicedStep | src/resume_parser.py:163-178 | One loop step stores a non-empty content under its name and skips an empty one. |
| ResumeParser.RuleBasedSectionDetection | src/resume_parser.py:140-189 | The slicing loop with the contact prepend computes `RuleBasedSections`. |
| ResumeParser.NoMatchesGiveFullResume | src/resume_parser.py:152-160 | With no header match and no all-caps match, the result is exactly `{"Full Resume": text}`. |
| ResumeParser.SlicedKeys | src/resume_parser.py:163-178 | The keys are the distinct names of the non-empty contents, in first-appearance order, and every value is non-empty. |
| ResumeParser.SlicedNames | src/resume_parser.py:163-178 | A name is a key exactly when some match with that name has non-empty content. |
| ResumeParser.LastSectionWins | src/resume_parser.py:176-178 | A repeated name holds the last non-empty content. |
| ResumeParser.ContactPrepended | src/resume_parser.py:180-187 | When the first match starts after offset 50 and the stripped prefix is non-empty, "Contact Information" becomes the first key; otherwise the sections are unchanged. |
| ResumeParser.RuleBasedKeysDistinct | src/resume_parser.py:140-189 | The keys of the result are distinct. |
| ResumeParser.RuleBasedContact | src/resume_parser.py:180-189 | With matches and a contact prefix, "Contact Information" is the first key. Without one, the result is the sliced sections. |
| ResumeParser.ChooseSections | src/resume_parser.py:266-273 | AI sections are used when there are at least two, and the rule-based ones otherwise. |
| ResumeParser.ParseResume | src/resume_parser.py:235-279 | The second result is the cleaned text. |
| ResumeParser.ParseFallsBack | src/resume_parser.py:261-279 | The parse falls back to rule-based detection when AI is unavailable, returns None, or gives fewer than two sections; otherwise it uses the AI sections. |
| ResumeParser.ParseKeysDistinct | src/resume_parser.py:235-279 | The parsed section keys are distinct. |
| ResumeParser.ExtractKeyMetrics | src/resume_parser.py:216-233 | `total_sections` is the number of sections. `word_count` is the number of whitespace-separated words over all contents. The figures flag is the regex test over the joined contents. |
| ResumeParser.MetricsSeeCanonicalNames | src/resume_parser.py:221-226 | Each `has_*` flag is set when the matching canonical name is a key. "Volunteer Experience" also counts as experience. |
| ResumeParser.SummaryLines | src/resume_parser.py:285-289 | There is one summary line per section, in section order. |
| ResumeParser.GetSectionSummary | src/resume_parser.py:281-290 | The summary loop emits the header line, then each section's line, joined by newlines. |
| ResumeParser.SummaryCoversSections | src/resume_parser.py:281-290 | The summary starts with the header and contains each section's line. |

## Left out

- **Files:** file I/O is not modelled: the index, metadata and JD-embedding files, the JSON metadata file, the cache directory and PDF extraction. The files become fields of `Store` and `ChatSession`. A write or delete sets them, and a load reads them.
- **Cache key:** the md5 hash is not modelled. The cache is keyed by the string that would be hashed (query, first 500 characters of the context, mode). Hash collisions are therefore not modelled.
- **Clock:** the clock is an integer parameter `now`. Timestamps are integer seconds rather than floats.
- **Encoder, FAISS and classifier:** the sentence encoder, the FAISS ranking and the zero-shot classifier are function parameters. Scores are arbitrary reals: L2 normalisation is not modelled, so no score bounds are assumed.
- **Real numbers:** floating-point rounding is not modelled. Means and percentages are exact reals.
- **Number formatting:** `:.1f` and `:.2f` formatting are parameters `oneDecimal` and `twoDecimals`.
- **Regular expressions:** all are parameters or inputs. This covers `clean_text`, the chunk splitting before classification, the header and all-caps matches, the two keyword `findall`s and the quantifiable-achievement search.
- **Case conversion:** `lower()` and `title()` are modelled on ASCII letters only.
- **Set order:** Python `set` iteration order in `get_jd_keywords` is taken to be first-appearance order.
- **Network call:** the HTTP request to the chat model is a function parameter returning a reply or an error string. Exceptions are modelled as `Result` and `Option` values.
- **Console and timing:** console printing, timing output and the model-loading cache (`get_model`, `load_models`) are not modelled.
- **Input dispatch:** the file-type dispatch of `parse_resume` is not modelled. The model starts from the extracted text.
- **Cache and key maintenance:** `clear_cache` and `check_api_key` are not modelled; they only touch files and the environment.
- **Long literals:** message literals are written as concatenations of shorter pieces with the same value. The mode and decoration literals keep the characters that appear in src/rag_chat.py, which differ from the labels of src/resume_roaster_app.py:146.
- **Behaviour kept exactly as written, although it may look unintended:**
  - JD chunks use the default overlap of 50;
  - `include_jd=False` filters to `section`, so the overview chunk is excluded too;
  - a JD embedding in memory survives an index load when its file is absent;
  - the mode literals never equal the interface labels, so interface requests get the normal prompt.
- Retrieval.HitsSound: stated for the corrected reference `Hits`. The search as written (`Search`, `CollectHits`) meets it only when no candidate position is negative (SearchWithoutPadding). Its own soundness, with negative positions read from the end, is SearchSound.
- Retrieval.HitsComplete: stated for the corrected reference `Hits`. As written, an early IndexError or padding hits filling the k slots can displace a qualifying candidate.
- Retrieval.HitsDistinct: stated for the corrected reference `Hits`. As written, the guard admits the padding index -1 (see Findings).
- RagChat.ChatSession.Answer: `time.time()` is read separately by the cache check, the rate limiter and the call record. Before the model call these readings are one parameter `now`; only the cache stamp after the call is a separate `answeredAt`.
- RagChat.ChatSession.CallModel: the call record uses `now` and the cache stamp uses `answeredAt`. Nothing relates the two, so a clock going backwards is not excluded.
- Keywords.KeywordsSpec: the completeness half holds only when at most 20 terms survive the filter. Which 20 survive otherwise depends on Python's set order.

## Findings

| source | as written | input that shows it | evidently intended | confidence | as-written member | corrected member |
|---|---|---|---|---|---|---|
| src/embeddings.py:185-187 | The guard `idx < len(metadata)` has no lower bound. The FAISS padding position -1, returned when fewer than `search_k` vectors exist, passes it, and `metadata[-1]` copies the last entry with the padding score -FLT_MAX. | Metadata: an overview and one "Skills" section entry. k = 2, filter `section`, ranking [(1, 0.75), (0, 0.25)] followed by four padding pairs (-1, -FLT_MAX). As written this returns the Skills entry twice, the second with similarity -FLT_MAX. | `0 <= idx < len(metadata)`: padding is skipped and hits are distinct | not executed | Retrieval.PaddingDuplicatesLastEntry | Retrieval.HitsDistinct |
