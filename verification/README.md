# Proofs about parts-lookup

A Dafny model of the parts-lookup service: what its retrieval pipeline ranks, what its abstention gate
refuses, what its ingestion commands leave in the store, and how politely its crawler fetches. Each module
follows one component of the program. Code that changes state (the repository, the pipelines, the registry,
the crawler, the command line, the embedding batcher, the migrations, the accumulating loops of the ranking)
is imperative Dafny proved against specification functions; the properties of those functions are lemmas.

`dafny verify dfyconfig.toml` checks everything.

## What is modelled

**Ranking and the gate** (`RankFusion`, `Reranking`, `DocumentRanking`, `TailWeights`, `PageExpansion`,
`HybridSearch`, `UndoneTitle`, `MovedBase`, `ProductMatch`, `Extraction`, `QueryRoute`). Two ranked channels are fused by reciprocal rank, re-sorted by
title, product and torque-page boosts, cut, aggregated into documents, expanded with neighbour pages under a
budget, checked by the product gate, answered, and cited by number. Scores are exact reals. The main results
are end to end: no page with a lead of 0.0015 is displaced, agreement of the two channels is never overturned,
the anchor page is covered, and the gate fires exactly when the ranking penalised every candidate.

**Embedding batcher** (`Embedder`). The greedy loop returns the one-at-a-time embedding and uses the fewest
requests of all legal order-preserving splits.

**Document store and its life** (`Tables`, `Store`, `HtmlParser`, `ModuleText`, `PdfPipeline`, `HtmlPipeline`,
`BlockTexts`, `Registry`, `PublicationRefs`, `Crawler`, `Lifecycle`, `StoredTexts`, `StoredAnswers`, `Migrations`,
`MigrationRuns`). The tables are maps keyed by their unique columns, with explicit id sequences; a session holds
the committed and the working tables. Every statement is a value: it raises if the server makes it raise (a dropped
connection, say) or if a text it sends holds U+0000, which PostgreSQL cannot store; a row that does not change is
not written. A run is any sequence of transactions (PDF ingests, HTML ingests, crawls), each of which may fail or
be rolled back; a ghost ledger remembers the last committed ingest of every document and a history remembers the
registry events. The migrations are statements over tables whose rows are met in any order.

**Polite fetcher** (`Fetcher`). Any number of concurrent `get` calls, interleaved at their awaits, with
exceptions and cancellation possible at each of them, and the bodies each of them fetches.

Foreign code appears as parameters: the answers of the channels, the replies of the model, the embedding
provider, the renderer, uploads, fetched pages, robots verdicts, token sets, JSON trees, clocks. A brand scan
walks a Python set, so a text that names two brands has no fixed brand: `BrandPicker` is that choice, one per
process.

## Where the code and its own comments disagree

The model follows the code.

- `hybrid.py:366` claims the aggregation sees the title order; the product re-sort keys on the raw score
  (`hybrid.py:312`), so with a named product the title order is only a tie-break (`Reranking.PoolOrder`). It survives
  for a pair exactly when the product key does not contradict it (`Reranking.TitleOrderSurvives`), and as a whole
  exactly under `Reranking.PoolIsTitleOrderExactly`; `UndoneTitle.ProductUndoesTitle` is a request in which it is lost.
- `hybrid.py:671` claims base positions of other documents are unaffected by the within-document pass; the whole
  base is re-sorted by raw score (`hybrid.py:436`). `Reranking.WithinIsIdentityExactly` says when nothing moves,
  `Reranking.WithinPlace` where every hit lands and when it keeps its place, `Reranking.OtherDocumentsMove` when two
  outside hits keep their order, and `MovedBase.OutsideHitMoves` is a request in which one loses its place.
- `hybrid.py:369` claims a catalogue's tail at ranks 15 to 20 cannot out-sum a focused manual at ranks 1 to 3. It does
  exactly with four hits or more (`TailWeights.TailAgainstFocus`; a request in which it then leads is
  `TailWeights.TailLeads`). In general p hits always beat q hits exactly when the pool's last p ranks outweigh its
  first q (`TailWeights.CountsDecideExactly`).
- `product_match.py:204-205` documents a leading "guide" as the brake; the function falls through to False
  (`ProductMatch.LeadingGuideIsNotProduct`, and the exact rule in `ProductMatch.GuideIsProductExactly`).
- `product_match.py:376` documents a brand-only question against a family title without a brand as
  non-blocking; the code blocks it (`ProductMatch.BrandlessFamilyTitleBlocksBrandQuestion`).
- `product_match.py:219` iterates a set. The ranking and the gate agree about a title for every question and
  every process exactly when it names at most one brand (`ProductMatch.AgreementNeedsOneBrand`, and a title for
  which it fails: `ProductMatch.TwoBrandTitle`).
- `query.py:188-196` falls back to document-level links for a PDF hit without a page image; the request has
  already failed by then (`QueryRoute.NoPageImageFailsTheRequest`).
- `claude_client.py:545-552` and `claude_client.py:578-586` catch KeyError, TypeError and ValueError around the
  conversions, and `claude_client.py:537-543` catches JSONDecodeError. An int confidence too large for a float, an infinite
  index, and anything else the decoder raises escape. `Extraction.EscapesExactly` is the condition,
  `Extraction.HugeConfidenceEscapes` and `Extraction.InfiniteIndexEscapes` are inputs.
- `html_pipeline.py:47-49` promises that only an IngestionError is raised. `HtmlPipeline.UncaughtExactly` is the
  exact condition for anything else: the decoder raises, the tree has the wrong shape
  (`HtmlPipeline.NumberForModulesEscapes`), or a statement raises or carries a text that cannot be stored
  (`HtmlPipeline.NulTextEscapes`). Such an exception ends the whole command.
- `pipeline.py:58-60` returns whatever document has the hash as its source_ref without looking at its type
  (`Lifecycle.ShortcutIsSound` names the one case that matters, `Lifecycle.ShortcutReturnsHtml` shows it).
- `0005_drop_pdfs_pages.py:87-90` claims max(ordinal) reproduces page_count even when a page row is missing; it does
  exactly when the count was the largest stored page number (`MigrationRuns.PageCountAfterRoundTrip`,
  `MigrationRuns.LastPageMissing`).

## Model

| member | source | states |
|---|---|---|
| RankFusion.ReciprocalRankFusion | src/parts_lookup/retrieval/hybrid.py:191-204 | the dict-accumulating loops return the fused list: every chunk once in first-seen order, sorted by the sum of its rank weights |
| RankFusion.FusedContents | src/parts_lookup/retrieval/hybrid.py:191-204 | the fused list holds exactly the chunks of any channel, once each, with the sum of 1/(k + rank) over all channels |
| RankFusion.FusedOrder | src/parts_lookup/retrieval/hybrid.py:200-204 | one chunk precedes another exactly if its score is higher, or equal and it was seen first |
| RankFusion.BothChannelsLead | src/parts_lookup/retrieval/hybrid.py:191-204 | with duplicate-free channels of at most 20 hits, a chunk of both channels leads any chunk of one by at least 1/40 - 1/61 |
| Reranking.PoolPermutes | src/parts_lookup/retrieval/hybrid.py:230-318 | the title and product re-sorts are permutations that leave scores untouched |
| Reranking.TitleOrder | src/parts_lookup/retrieval/hybrid.py:230-251 | the title re-sort orders by score + bounded boost, then fused position, also when it returns early |
| Reranking.PoolOrder | src/parts_lookup/retrieval/hybrid.py:290-318 | when the question names a product the pool order is exactly lexicographic in score + product delta, score + title boost, fused position; else the title order |
| Reranking.TitleOrderSurvives | src/parts_lookup/retrieval/hybrid.py:365-368 | with a named product, a hit that the title re-sort puts before another one stays before it if and only if its raw score + product delta is not smaller |
| Reranking.PoolIsTitleOrderExactly | src/parts_lookup/retrieval/hybrid.py:290-318 | the pool is the title order if and only if no product is named or no earlier hit has a smaller raw score + product delta than a later one |
| Reranking.MatchBeatsMismatch | src/parts_lookup/retrieval/hybrid.py:265-318 | with a named product a matching hit precedes a mismatching one unless it trails by more than 0.001, and one of unknown product unless it trails by more than 0.0005; at equality the title order decides |
| UndoneTitle.ProductUndoesTitle | src/parts_lookup/retrieval/hybrid.py:305-318 | a possible request in which the year in a title brings a hit to the front and the product re-sort takes it back |
| Reranking.WithinOrder | src/parts_lookup/retrieval/hybrid.py:407-442 | the within-document pass orders the whole base by raw score + bonus, the previous order breaking ties |
| Reranking.NoDemotion | src/parts_lookup/retrieval/hybrid.py:419-426 | of two base hits the one with the higher raw score comes first if and only if it is not the case that only the other is a PDF page of the leading document with a torque value and a word of the question, and the lead does not exceed the bonus (or equals it, the other standing first) |
| Reranking.BonusExactly | src/parts_lookup/retrieval/hybrid.py:407-442 | the bonus goes to exactly the leading document's PDF pages that hold a torque value and a word of the question |
| Reranking.OtherDocumentsMove | src/parts_lookup/retrieval/hybrid.py:431-442 | two hits outside the leading document keep their order in the within-document pass if and only if their raw scores do not contradict it |
| Reranking.WithinIsIdentityExactly | src/parts_lookup/retrieval/hybrid.py:407-442 | the within-document pass leaves the base as it is if and only if no earlier hit has a smaller raw score + bonus than a later one |
| Reranking.WithinPlace | src/parts_lookup/retrieval/hybrid.py:407-442 | every hit lands one place back per later hit with a larger key and one forward per earlier hit with a smaller key; it keeps its place if and only if these are equally many |
| MovedBase.OutsideHitMoves | src/parts_lookup/retrieval/hybrid.py:668-675 | a possible request whose base starts with another document's page, which the pass moves to second place |
| Reranking.LeadSurvivesPool | src/parts_lookup/retrieval/hybrid.py:230-318 | a fused lead of at least the title cap survives both re-sorts, whatever the titles, facets and question |
| Reranking.LeadSurvivesWithin | src/parts_lookup/retrieval/hybrid.py:407-442 | a lead of at least the bonus survives the within-document pass |
| Reranking.SmallerLeadCanBeLost | src/parts_lookup/retrieval/hybrid.py:74-120 | the cap is the exact threshold: for any two hits of a fused list with a smaller lead there are a question and titles, of tokens the tokenizer can yield, that reverse them |
| DocumentRanking.AggregateToDocuments | src/parts_lookup/retrieval/hybrid.py:354-388 | the loop returns every owning document once with its rank weight, best first, lowest id among equals |
| DocumentRanking.LeadingDocumentIsBest | src/parts_lookup/retrieval/hybrid.py:391-404 | a document leads if and only if it owns a hit and no owner has more weight, or equal weight and a lower id |
| DocumentRanking.ScoresConserveWeight | src/parts_lookup/retrieval/hybrid.py:354-388 | the document scores sum to the rank weight of the hydrated hits |
| DocumentRanking.EarlierHitsWin | src/parts_lookup/retrieval/hybrid.py:354-388 | if the hits of B map one to one to earlier hits of A, A scores strictly higher |
| DocumentRanking.TwoHitsBeatOne | src/parts_lookup/retrieval/hybrid.py:354-388 | in every pool of at most 62 hits a document with two hits outscores every document with one |
| DocumentRanking.SingleHitLeadsOnlyAmongSingles | src/parts_lookup/retrieval/hybrid.py:391-404 | in a pool of the two channels a single-hit document leads only if all documents are single-hit |
| DocumentRanking.EnoughHitsWin | src/parts_lookup/retrieval/hybrid.py:354-388 | a closed-form sufficient count: p hits anywhere in the pool beat q hits anywhere as soon as 61 p > (60 + pool) q |
| TailWeights.CountsDecideExactly | src/parts_lookup/retrieval/hybrid.py:354-388 | over pools of n hits and rows that respect the constraints, every document with p hits beats every other with q hits if and only if the last p ranks outweigh the first q |
| TailWeights.TwoBeatOneExactly | src/parts_lookup/retrieval/hybrid.py:354-388 | two hits always beat one of another document if and only if the pool has at most 62 hits (two channels give more only with a per_channel_k above 31) |
| TailWeights.TailAgainstFocus | src/parts_lookup/retrieval/hybrid.py:367-370 | a document hit only at ranks 15 to 20 out-sums one hit at exactly ranks 1 to 3 if and only if it has at least four hits |
| TailWeights.TailLeads | src/parts_lookup/retrieval/hybrid.py:367-370 | a possible request with twenty vector hits in which four hits at ranks 15 to 18 make the leading document over three at ranks 1 to 3 |
| PageExpansion.AssembleCandidates | src/parts_lookup/retrieval/hybrid.py:445-490 | the appending loop yields the kept base followed by the closest new pages that fit, with their display scores |
| PageExpansion.AssemblyShape | src/parts_lookup/retrieval/hybrid.py:445-490 | the base prefix is unchanged, ids stay distinct, the length is min(budget, base + new pages) |
| PageExpansion.InjectedPages | src/parts_lookup/retrieval/hybrid.py:475-490 | every injected page is a new neighbour; injected scores lie below the anchor's and strictly decrease |
| PageExpansion.InjectedScores | src/parts_lookup/retrieval/hybrid.py:484-490 | the n-th injected page has the anchor's score less n times 0.0005 |
| PageExpansion.ClosestPagesKept | src/parts_lookup/retrieval/hybrid.py:478-490 | every kept new neighbour is no farther from the anchor, in page numbers, than every dropped one; of two equally far ones the lower page is kept |
| PageExpansion.AppendedInOrder | src/parts_lookup/retrieval/hybrid.py:478-490 | the appended pages come by distance from the anchor, equally far ones lower page first |
| PageExpansion.KeptAndDropped | src/parts_lookup/retrieval/hybrid.py:683-690 | kept pages plus dropped pages are exactly the considered pages |
| HybridSearch.HybridSearch | src/parts_lookup/retrieval/hybrid.py:554-712 | the whole skeleton, with its rebindings and early exit, returns the composition of the stages for whatever order the neighbour rows came in |
| HybridSearch.LoadNeighbors | src/parts_lookup/retrieval/hybrid.py:640-668 | the neighbour rows are exactly the leading document's rows within the window, once each, in an arbitrary order |
| HybridSearch.WindowMeans | src/parts_lookup/retrieval/hybrid.py:640-668 | the neighbour rows are the document's rows whose page number is at most the window away |
| HybridSearch.ExpandsExactly | src/parts_lookup/retrieval/hybrid.py:638-656 | the neighbours are loaded if and only if the window is positive and the anchor is in a PDF |
| HybridSearch.BaseIsTopK | src/parts_lookup/retrieval/hybrid.py:605-610 | the retrieved base is made of exactly the first top_k hits of the pool |
| HybridSearch.FarAheadIsNeverDisplaced | src/parts_lookup/retrieval/hybrid.py:575-610 | if a leads b by at least 0.0015 in fused score, then whenever b survives the cut and the budget so does a, and a is retrieved before b |
| HybridSearch.BothChannelsStayAhead | src/parts_lookup/retrieval/hybrid.py:579-587 | a chunk both channels found comes before every chunk only one found: fused, in the pool, in the base, and among the retrieved base pages |
| HybridSearch.LeaderChunkIsBest | src/parts_lookup/retrieval/hybrid.py:340-351 | the chosen chunk has the highest score, the lowest id among equals |
| HybridSearch.AnchorBelongs | src/parts_lookup/retrieval/hybrid.py:610-637 | the anchor is a hit of the leading document: its best-scored base hit (lowest id among equals) if the base has one, else its first hit in the pool |
| HybridSearch.AnchorCovered | src/parts_lookup/retrieval/hybrid.py:638-682 | when the leading document is expanded its anchor is a candidate if and only if it is in the kept base or the base leaves room |
| HybridSearch.AnchorIsRetrieved | src/parts_lookup/retrieval/hybrid.py:610-712 | with a base smaller than the budget the anchor page is retrieved, even if the document won on hits below top_k |
| HybridSearch.RetrievedPages | src/parts_lookup/retrieval/hybrid.py:638-712 | the result respects the budget without duplicates, and every injected page belongs to the leading PDF and is at most the window away from the anchor page |
| HybridSearch.AnswerOrderIrrelevant | src/parts_lookup/retrieval/hybrid.py:640-668 | the result does not depend on the order in which the database returns the neighbours |
| ProductMatch.GuideIsProductExactly | src/parts_lookup/retrieval/product_match.py:184-206 | "guide" is the product if and only if brake or a variant token follows some occurrence |
| ProductMatch.LeadingGuideIsNotProduct | src/parts_lookup/retrieval/product_match.py:184-206 | a leading "guide" that the comment counts as the product is not |
| ProductMatch.FamilyExactly | src/parts_lookup/retrieval/product_match.py:225-240 | the detected family is the first of the table that the text names: by a phrase, by a token, or by "guide" where it is the product; none if it names none |
| ProductMatch.BrandExactly | src/parts_lookup/retrieval/product_match.py:209-222 | the detected brand is that of the first phrase of the table in the text, else a brand word of the text, none only if there is neither |
| ProductMatch.OneReading | src/parts_lookup/retrieval/product_match.py:243-330 | question scope, title scope and stored facet read the same family and brand off the same text |
| ProductMatch.ScopeMatchesExactly | src/parts_lookup/retrieval/product_match.py:333-380 | for identified questions, the match is exactly one of three agreements of family and brand |
| ProductMatch.BrandlessFamilyTitleBlocksBrandQuestion | src/parts_lookup/retrieval/product_match.py:366-380 | a brand-only question passes a title that names a family if and only if the title names that brand |
| ProductMatch.PenaltyMeansRejection | src/parts_lookup/retrieval/hybrid.py:265-287 | for a one-brand title stored with its derived facet, the ranking penalty applies if and only if the gate's predicate rejects the title, across processes |
| ProductMatch.AgreementNeedsOneBrand | src/parts_lookup/retrieval/product_match.py:209-222 | that agreement holds for all questions and all processes if and only if the title names at most one brand |
| ProductMatch.OwnTitleIsAccepted | src/parts_lookup/retrieval/product_match.py:304-330 | asking with a title's own words is never rejected by it if and only if the title names a family or at most one brand |
| ProductMatch.TwoBrandTitle | src/parts_lookup/retrieval/product_match.py:209-222 | a concrete title with two brands and no family for which some ranking disagrees with some gate, and which some process rejects when asked with its own words |
| Extraction.GateIgnoresModel | src/parts_lookup/extraction/claude_client.py:491-520 | when the gate fires every model reply gives the same abstention |
| Extraction.PayloadOutcome | src/parts_lookup/extraction/claude_client.py:520-631 | a parsed payload ends in an error, the one abstention, or an answer citing the supplied candidate of its own source_index, and it cites if and only if its fields allow it |
| Extraction.PayloadFields | src/parts_lookup/extraction/claude_client.py:545-626 | a citing payload is answered with its own fields: text, confidence, index, and tool size and torque each under its own key, none exactly if missing or null |
| Extraction.PayloadVerdict | src/parts_lookup/extraction/claude_client.py:545-618 | abstention exactly for a readable payload with no source_index; an unknown index exactly for one no candidate has; an invalid answer exactly if the index is supplied and the confidence outside [0, 1] |
| Extraction.ResponseOutcome | src/parts_lookup/extraction/claude_client.py:491-631 | the same for every reply, fenced or broken ones included |
| Extraction.ResponseFields | src/parts_lookup/extraction/claude_client.py:491-631 | a whole reply is answered exactly if the gate is silent and the object it holds can cite, and then says what that object says; it abstains exactly if the gate fires or the object names no source |
| Extraction.MissingPartExactly | src/parts_lookup/extraction/claude_client.py:362-402 | candidates are complete if and only if every PDF has its image and every publication its text |
| Extraction.EscapesExactly | src/parts_lookup/extraction/claude_client.py:491-631 | anything but an ExtractionError escapes if and only if a reply that is read breaks the decoder or is an object with answer and confidence whose confidence is too large for a float, or converts while source_index is infinite |
| Extraction.HugeConfidenceEscapes | src/parts_lookup/extraction/claude_client.py:545-552 | an int confidence too large for a float raises out of the parser |
| Extraction.InfiniteIndexEscapes | src/parts_lookup/extraction/claude_client.py:578-586 | an infinite source_index raises out of the parser |
| Json.ConversionsAgree | src/parts_lookup/extraction/claude_client.py:545-586 | int() of a number is float() of it without its fraction, and only a too large int has no float |
| Json.OtherConversions | src/parts_lookup/extraction/claude_client.py:545-586 | a string converts as Python parses it, an infinity overflows as an integer only, everything else is refused |
| Extraction.MoreCandidatesNeverAbstain | src/parts_lookup/extraction/claude_client.py:441-453 | adding candidates never turns an answer into an abstention |
| Extraction.ExpansionVerdict | src/parts_lookup/retrieval/hybrid.py:638-682 | the gate fires on the expanded list if and only if it fires on the kept base and, when pages were injected, the leading document's title is rejected too |
| Extraction.ExpansionKeepsVerdict | src/parts_lookup/retrieval/hybrid.py:638-682 | expansion cannot change the verdict once the leading document has a page in the kept base |
| Extraction.GateIsTotalPenalty | src/parts_lookup/extraction/claude_client.py:441-453 | over candidates with one-brand titles, each stored by whatever process with the facet it derived, the gate fires if and only if the question is identified and every candidate is a penalised one |
| Extraction.ForeignBrandIsRefused | src/parts_lookup/extraction/claude_client.py:423-453 | a brand without a family is refused exactly when every title is recognised and names another brand |
| QueryRoute.Query | src/parts_lookup/api/routes/query.py:57-208 | no retrieval is 503, an empty one 404; else the hits are sent in order until a read fails, with that failure's status, and a reply to all of them is the extractor's outcome with the cited hit's link or an error status |
| QueryRoute.SentMeans | src/parts_lookup/api/routes/query.py:84-113 | candidate i carries the title of hit i and, for a PDF, the image fetched under that hit's own key, for a publication the text of its own module or, if that is empty, of its own chunk |
| QueryRoute.SendFailure | src/parts_lookup/api/routes/query.py:84-113 | the first hit that is not sent is a PDF without a key or with a failing read, or a publication whose module text cannot be read; the status says which |
| QueryRoute.GateOnSent | src/parts_lookup/api/routes/query.py:116-120 | the gate on the sent candidates is the gate on the titles of the retrieved hits |
| QueryRoute.ReplyToModel | src/parts_lookup/api/routes/query.py:116-208 | when the model responds: an out-of-corpus question gets the abstention without link or values; else the reply abstains, answers, or fails exactly as the object in the response says, with that object's fields |
| QueryRoute.NoReplyOfModel | src/parts_lookup/api/routes/query.py:121-147 | without a response the status is 502 for a rejected request and 503 otherwise |
| QueryRoute.RepliedLinks | src/parts_lookup/api/routes/query.py:149-208 | an answer links the cited hit: its page image and PDF page, or its own deep link; every listed candidate links its own hit |
| QueryRoute.LinkableExactly | src/parts_lookup/api/routes/query.py:149-160 | links are missing, and an answer fails, only if the URL of some retrieved PDF or of its page image cannot be resolved |
| QueryRoute.AnswerCites | src/parts_lookup/api/routes/query.py:149-186 | the cited number is a valid 1-based position and names the one candidate built from that hit; an abstention has none |
| QueryRoute.GateFixesTheReply | src/parts_lookup/api/routes/query.py:116-162 | when every retrieved title is rejected, every two responses of the model give one and the same reply of the route |
| QueryRoute.NoPageImageFailsTheRequest | src/parts_lookup/api/routes/query.py:84-117 | no request reaches the extractor with a PDF hit that has no page image |
| QueryRoute.SentIsComplete | src/parts_lookup/api/routes/query.py:84-117 | every sent candidate has the part its kind needs, so extraction never fails for a missing one |
| Embedder.EmbedDocuments | src/parts_lookup/retrieval/embedder.py:96-117 | the loop sends greedy, legal requests that together are the clipped texts in order, and collects the answers in that order |
| Embedder.RequestLimits | src/parts_lookup/retrieval/embedder.py:37-38 | each request holds 1 to 96 texts with a sum of max(1, length / 3) of at most 100,000, and could not have taken the next text under these limits; texts are cut to 96,000 characters |
| Embedder.BatchingIsInvisible | src/parts_lookup/retrieval/embedder.py:96-117 | a successful call returns the one-at-a-time embedding of every clipped text in input order |
| Embedder.GreedyStaysAhead | src/parts_lookup/retrieval/embedder.py:96-117 | after any number of requests the loop has covered at least as many texts as any other legal split |
| Embedder.FewestRequests | src/parts_lookup/retrieval/embedder.py:32-38 | no order-preserving split into requests of at most 96 texts whose thirds (at least 1 each) sum to at most 100,000 needs fewer requests |
| Fetcher.Politeness | src/parts_lookup/discovery/fetcher.py:56-108 | in every reachable state at most max_concurrency pages are in flight, at most one robots.txt, none for an origin with stored rules, and every page written was allowed by its origin's stored rules |
| Fetcher.StoredRulesAreFinal | src/parts_lookup/discovery/fetcher.py:56-79 | stored rules never change and their origin is never asked again |
| Fetcher.StoredRulesNeedNoLock | src/parts_lookup/discovery/fetcher.py:56-63 | with rules stored a call never waits for the lock and goes on exactly if they allow its URL |
| Fetcher.RulesAreAnswers | src/parts_lookup/discovery/fetcher.py:63-79 | stored rules are what a call to that origin was answered, or the empty ones of a failing answer |
| Fetcher.OutcomesAreFounded | src/parts_lookup/discovery/fetcher.py:89-108 | a returned body was fetched from its URL or held in the cache under its key; a blocked call is one the stored rules refuse; a cached key is not fetched unless forced |
| Fetcher.CacheHoldsLastBody | src/parts_lookup/discovery/fetcher.py:89-108 | under each key the cache holds the body last fetched for it, else what it held at the start |
| Fetcher.RaisedOnlyByFailure | src/parts_lookup/discovery/fetcher.py:56-108 | a call raises only if one of its own moves was an interruption or a failed page request |
| Fetcher.NoDeadlock | src/parts_lookup/discovery/fetcher.py:89-108 | with at least one slot, some call can move until every call has finished |
| Fetcher.CallsEnd | src/parts_lookup/discovery/fetcher.py:89-108 | in every interleaving a call makes at most eight moves |
| Store.Repository.UpsertDocument | src/parts_lookup/indexing/repository.py:140-188 | keeps id, type and creation time of a known source_ref, refuses another type, else adds a row with the derived facet; a statement that raises changes nothing |
| Tables.UnchangedIsNotWritten | src/parts_lookup/indexing/repository.py:140-188 | an upsert that changes no column succeeds with the lookup alone; every other one needs its write to get through |
| Store.Repository.InsertChunk | src/parts_lookup/indexing/repository.py:221-246 | adds one chunk; a second (document, ordinal), an unknown document or a statement that raises changes nothing |
| Store.Repository.DeleteChunks | src/parts_lookup/indexing/repository.py:248-256 | removes exactly the document's chunks and returns their number, or raises and changes nothing |
| Store.Repository.SetProductFacet | src/parts_lookup/indexing/repository.py:204-219 | changes the facet of that document only, or fails for an unknown id |
| Store.Repository.FetchModuleText | src/parts_lookup/indexing/repository.py:327-341 | joins the texts of exactly the chunks with that parent anchor, in ordinal order |
| HtmlParser.ParsePublication | src/parts_lookup/ingestion/html_parser.py:143-187 | the nested loops with their ordinal counter produce the numbered non-empty pieces of the document, or fail where a list is expected |
| HtmlParser.ChunksAreNumbered | src/parts_lookup/ingestion/html_parser.py:158-187 | ordinals are exactly 1..n in document order, every text non-empty and trimmed, each chunk with its piece's anchors and the link to its anchor |
| BlockTexts.PiecesExactly | src/parts_lookup/ingestion/html_parser.py:158-187 | the pieces of a publication are its tool list and, per module, its title, tool list and blocks, each non-empty: none lost, none invented |
| BlockTexts.PiecesInOrder | src/parts_lookup/ingestion/html_parser.py:158-187 | pieces stand in document order: the tool list, then earlier modules before later ones |
| BlockTexts.ModuleInOrder | src/parts_lookup/ingestion/html_parser.py:170-187 | inside a module: title, tool list, then earlier blocks before later ones |
| BlockTexts.ContentTextsExactly | src/parts_lookup/ingestion/html_parser.py:65-92 | the flattening yields exactly the texts of the content: a string, an object's first string and its captions, or any of these inside a list |
| BlockTexts.BlockTextIsItsParts | src/parts_lookup/ingestion/html_parser.py:122-140 | a block's text is its title, its texts and captions and its tools, each once, one per line, the title first and the tools last unless they repeat a text |
| BlockTexts.ToolListMeans | src/parts_lookup/ingestion/html_parser.py:95-119 | a tool list is one line of its non-empty entries, the same bare or under "content" |
| BlockTexts.ToolEntryMeans | src/parts_lookup/ingestion/html_parser.py:95-119 | an entry with a name and a size is listed as "name: size", a string entry as itself, stripped |
| BlockTexts.HashExactly | src/parts_lookup/ingestion/html_parser.py:42-44 | a node's anchor is its hash label without leading hash signs, none if nothing is left |
| Text.StripExactly | src/parts_lookup/ingestion/html_parser.py:158-162 | stripping cuts white space off both ends, all of it and nothing else |
| HtmlParser.AnchorSelectsModules | src/parts_lookup/ingestion/html_parser.py:170-187 | the pieces stored under a parent anchor are exactly those of the modules with that hash, in order |
| HtmlParser.OwnHashOwnPieces | src/parts_lookup/ingestion/html_parser.py:170-187 | under a hash only one module carries stand exactly that module's pieces |
| ModuleText.ListingIsUnder | src/parts_lookup/indexing/repository.py:327-341 | what the store lists for an anchor of an ingested publication is what the parser put under it |
| ModuleText.ModuleTextIsItsPieces | src/parts_lookup/indexing/repository.py:327-341 | fetch_module_text returns the joined pieces of the modules with that hash |
| ModuleText.ModuleIsReconstructed | src/parts_lookup/indexing/repository.py:327-341 | with a hash of its own a module comes back as precisely its non-empty title, tool list and block texts |
| ModuleText.TitledModuleLabel | src/parts_lookup/api/routes/query.py:215-234 | a titled module is labelled by its title's first line cut to 80 characters |
| PdfPipeline.IngestionPipeline.Ingest | src/parts_lookup/ingestion/pipeline.py:50-111 | the step-by-step ingest ends as, and leaves the tables of, the specified attempt; the committed tables stay |
| PdfPipeline.PersistStoresPlan | src/parts_lookup/ingestion/pipeline.py:113-163 | the render loop stores exactly the planned chunks; it stops early only for a failed upload or a statement that raises, whichever comes first |
| PdfPipeline.PdfIngestIsComplete | src/parts_lookup/ingestion/pipeline.py:50-163 | a first ingest that ends well leaves the complete chunk set and touches nothing else |
| PdfPipeline.PlanPairsPages | src/parts_lookup/ingestion/pipeline.py:113-163 | a chunk is planned for exactly the rendered pages with parsed text, and it holds the text, vector, image key and link of that one page and no anchors |
| PdfPipeline.PagesHaveOwnImages | src/parts_lookup/ingestion/pipeline.py:150-156 | two pages have the same image key only if they are the same page of the same file |
| PdfPipeline.UncaughtExactly | src/parts_lookup/ingestion/pipeline.py:50-163 | an exception other than an IngestionError escapes if and only if the file check, a read of the file, or a statement the attempt reaches raises: never for a constraint, and not for an upload; an insert is reached if and only if every earlier page passes and its own upload works |
| PdfPipeline.IngestedExactly | src/parts_lookup/ingestion/pipeline.py:50-163 | a new file is ingested if and only if it is read, stored, parsed and embedded, every indexed page's upload and insert works, and the renderer does not raise |
| HtmlPipeline.HtmlIngestionPipeline.IngestPublication | src/parts_lookup/ingestion/html_pipeline.py:44-97 | fetch, parse, embed, upsert, delete, insert and flip end as the specified attempt |
| HtmlPipeline.StoreReplaces | src/parts_lookup/ingestion/html_pipeline.py:72-97 | a good end replaces exactly the document's chunks by the parsed set and touches no other document |
| HtmlPipeline.IngestedPieces | src/parts_lookup/ingestion/html_pipeline.py:72-88 | after a good ingest the chunks are exactly those at ordinals 1..n, and chunk o holds text, anchors and link of parsed chunk o and the vector at its place |
| HtmlPipeline.StoredVectorIsOfItsText | src/parts_lookup/ingestion/html_pipeline.py:62-88 | with the batched embedder over a pointwise provider, every stored vector is the embedding of the text it is stored with |
| HtmlPipeline.IngestedDocument | src/parts_lookup/ingestion/html_pipeline.py:66-78 | the document has the page's title, or the registered one if that is blank, the facet derived from it, and keeps id and creation time if it was there |
| HtmlPipeline.StoreOutcome | src/parts_lookup/ingestion/html_pipeline.py:72-97 | the writes raise if and only if a statement they reach does, and end well if and only if all get through, the publication is registered and no PDF has its id: no constraint is violated |
| HtmlPipeline.HtmlIngestIsComplete | src/parts_lookup/ingestion/html_pipeline.py:44-97 | an attempt succeeds if and only if its inputs are ready, the publication is registered, no PDF has its id and every statement gets through |
| HtmlPipeline.UncaughtExactly | src/parts_lookup/ingestion/html_pipeline.py:44-97 | an exception other than an IngestionError escapes if and only if the decoder raises, the tree has the wrong shape, or a ready attempt reaches a statement that raises or cannot be stored |
| HtmlPipeline.NumberForModulesEscapes | src/parts_lookup/ingestion/html_parser.py:172-174 | a page whose modules are the number 5 raises out of the parser |
| HtmlPipeline.NulTextEscapes | src/parts_lookup/ingestion/html_pipeline.py:78-88 | a well-shaped page with U+0000 in a block text raises out of the insert |
| PublicationRefs.ParsePublicationRefs | src/parts_lookup/discovery/model_page.py:16-38 | the dict loop returns each publication once in first-seen order with its first typed link, else its first link |
| PublicationRefs.BestLink | src/parts_lookup/discovery/model_page.py:16-38 | the reference is that of the first link with a type, or of the first link if none has one |
| PublicationRefs.TwoLevelsAreFlat | src/parts_lookup/discovery/crawler.py:32-45 | deduplicating per page and then across pages is deduplicating all links once |
| Crawler.DiscoveryCrawler.DiscoverSeed | src/parts_lookup/discovery/crawler.py:32-58 | the two loops with their shared dicts do the flat crawl: each linked publication is upserted once |
| Crawler.SitemapModels | src/parts_lookup/discovery/crawler.py:60-83 | exactly the models of the English sitemaps (of all when there is none), once each in first-seen order |
| Crawler.CrawlReferences | src/parts_lookup/discovery/crawler.py:32-58 | a publication is registered exactly if it was or is linked, and referenced by a model exactly if it was or that model's page mentions it |
| Crawler.CrawlRefreshes | src/parts_lookup/discovery/crawler.py:32-58 | a completed crawl upserts each linked publication with the content of its own page under its best link, and leaves every other row as it was |
| Crawler.CrawlTouchesOnlyPublications | src/parts_lookup/discovery/crawler.py:32-58 | a crawl, complete or not, changes no document, chunk or id sequence and keeps the registry sound |
| Crawler.CrawlTracks | src/parts_lookup/discovery/crawler.py:32-58 | a committed crawl keeps the registry in agreement with the event history |
| Registry.PublicationRegistry.Upsert | src/parts_lookup/discovery/registry.py:70-111 | inserts, refreshes or marks stale one row and reports which |
| Registry.UpsertMeans | src/parts_lookup/discovery/registry.py:70-111 | a new publication is stored as discovered; a changed hash refreshes every column and makes it stale; an unchanged one leaves columns and status; no other row moves |
| Registry.PublicationRegistry.SetStatus | src/parts_lookup/discovery/registry.py:117-125 | sets the status of a registered publication, else fails without a change |
| Registry.SameStatusIsNotWritten | src/parts_lookup/discovery/registry.py:117-125 | a flip to the status a publication already has sends no update; every other one needs its update to get through |
| Registry.RepeatIsUnchanged | src/parts_lookup/discovery/registry.py:70-111 | repeating an upsert reports unchanged and changes nothing |
| Registry.ReferencesGrow | src/parts_lookup/discovery/registry.py:95-97 | referenced models grow by exactly the given ones |
| Registry.SortedSetFacts | src/parts_lookup/discovery/registry.py:95-97 | sorted(set(...)) is sorted, duplicate-free and has the same members |
| Registry.CurrentIsUpToDate | src/parts_lookup/discovery/registry.py:94-111 | the event-by-event verdict is: some successful ingest was followed by no hash-changing upsert |
| Lifecycle.RunIngestOne | src/parts_lookup/ingestion/cli.py:72-80 | one scope commits or rolls back one PDF and returns 0 exactly if it committed |
| Lifecycle.RunIngestDir | src/parts_lookup/ingestion/cli.py:83-116 | the tables are those of the per-file transactions in order, and the code is 0 exactly if all committed |
| Lifecycle.CleanDirectoryRun | src/parts_lookup/ingestion/cli.py:83-116 | code 0 means that every file of the directory has its document, with the complete chunk set of the ingest that stored it unless it is older than the record |
| Lifecycle.RunIngestHtml | src/parts_lookup/ingestion/cli.py:119-171 | unknown ids are refused before any work; else the targets are processed in order up to the first uncaught exception, which alone ends the run early, and the code is 0 exactly if all committed |
| Lifecycle.RunDiscovery | src/parts_lookup/discovery/cli.py:43-65 | one transaction for the whole crawl: it commits everything or restores every row |
| Lifecycle.TargetsInOrder | src/parts_lookup/ingestion/cli.py:145-168 | the targets of an HTML ingest come in registration order, each once |
| Lifecycle.FailureLeavesOnlySequences | src/parts_lookup/ingestion/cli.py:72-171 | a transaction that does not commit leaves every row, and the ids it took are never given again |
| Lifecycle.RunKeepsInv | src/parts_lookup/ingestion/cli.py:72-235 | integrity, completeness of every committed document, and agreement of the registry with its history survive every run with failures and rollbacks |
| Lifecycle.CommittedDocumentsAreComplete | src/parts_lookup/ingestion/pipeline.py:50-163 | over every run from any tables a committed document that was not there before holds exactly the complete chunk set of its last successful ingest, and each PDF chunk its page's image key |
| Lifecycle.CommittedChunksAreTheirs | src/parts_lookup/ingestion/html_pipeline.py:72-88 | over every run each chunk of a committed document is the parsed page or piece of its own ordinal, with the vector computed for it, of the last successful ingest |
| StoredTexts.NoNulIsCommitted | src/parts_lookup/indexing/repository.py:140-246 | over every run no text of a document, chunk or publication holds U+0000 |
| Lifecycle.ShortcutIsSound | src/parts_lookup/ingestion/pipeline.py:56-63 | the sha256 shortcut changes nothing and returns a document, complete unless it is older than the run, that is the PDF of that hash if and only if its type is pdf |
| Lifecycle.ShortcutReturnsHtml | src/parts_lookup/ingestion/pipeline.py:56-60 | after any committed ingest of a publication a file whose hash is its id is answered with the HTML document, and nothing is stored |
| Lifecycle.IdentityIsPermanent | src/parts_lookup/indexing/repository.py:140-188 | over every run a source_ref keeps its document, id, type and creation time, and the row of a stored PDF never changes |
| Lifecycle.ChangedPublicationsAreTargets | src/parts_lookup/ingestion/cli.py:145-168 | over every run a publication is "ingested" if and only if no hash-changing upsert followed its last successful ingest, and the next full ingest takes exactly the others |
| Lifecycle.ReferencesOnlyGrow | src/parts_lookup/discovery/registry.py:95-97 | over every run recorded references are never lost and stay sorted and duplicate-free |
| StoredAnswers.JoinIsWellFormed | src/parts_lookup/retrieval/hybrid.py:556-573 | rows joined from sound tables agree on every document column and have one chunk per ordinal |
| StoredAnswers.FacetsAreDerived | src/parts_lookup/indexing/repository.py:140-188 | over every run each stored facet is what some process derives from the stored title, or still the missing one a document had before |
| StoredAnswers.GateIsTotalPenaltyOverRuns | src/parts_lookup/extraction/claude_client.py:441-453 | after any run from empty tables over one-brand titles a question is refused if and only if it is identified and the ranking penalised everything retrieved |
| StoredAnswers.GateOverRuns | src/parts_lookup/extraction/claude_client.py:441-453 | after any run, copied tables included, it is refused if and only if it is identified and everything retrieved was penalised or has no facet and a title the question rejects |
| StoredAnswers.CopiesAreBlank | infra/migrations/versions/0004_documents_chunks.py:89-108 | copied tables are such a start: none of their documents has a facet |
| StoredAnswers.CommittedModule | src/parts_lookup/indexing/repository.py:327-341 | over every run a module with a hash of its own is read back as exactly its pieces of the last successful ingest |
| StoredAnswers.HtmlCandidateIsItsModule | src/parts_lookup/api/routes/query.py:100-113 | the candidate sent for a hit in such a module carries exactly that module's text |
| Migrations.Database.Upgrade0004 | infra/migrations/versions/0004_documents_chunks.py:89-108 | the two copies, row by row in any order, leave the specified tables and the legacy tables untouched |
| Migrations.Database.Upgrade0005 | infra/migrations/versions/0005_drop_pdfs_pages.py:30-36 | drops the legacy tables and touches nothing else |
| Migrations.Database.Downgrade0005 | infra/migrations/versions/0005_drop_pdfs_pages.py:91-110 | the two rebuilds leave the specified legacy tables, or nothing when a statement fails |
| Migrations.UpgradeMirrors | infra/migrations/versions/0004_documents_chunks.py:89-108 | the copied tables satisfy every constraint and hold exactly the legacy PDFs and pages |
| Migrations.CopiedPageLinks | infra/migrations/versions/0004_documents_chunks.py:89-108 | each copied page links its PDF's stored file at its page number and has no anchors |
| Migrations.DowngradeMirrors | infra/migrations/versions/0005_drop_pdfs_pages.py:91-110 | the rebuild fails if and only if a PDF chunk lacks an image; else it holds exactly the PDF documents and chunks, no HTML row, each count the largest page number |
| MigrationRuns.RoundTrip | infra/migrations/versions/0005_drop_pdfs_pages.py:39-110 | copy, drop, any HTML ingests and crawls, downgrade: the same PDFs with the same pages up to row ids, nothing lost, doubled or from HTML |
| MigrationRuns.PageCountAfterRoundTrip | infra/migrations/versions/0005_drop_pdfs_pages.py:87-101 | the rebuilt page_count is the original one if and only if that was the largest stored page number (0 without pages) |
| MigrationRuns.LastPageMissing | infra/migrations/versions/0005_drop_pdfs_pages.py:87-101 | a two-page PDF without its last page row, copied and rebuilt, has a count of one |
| MigrationRuns.NothingIsLost | infra/migrations/versions/0005_drop_pdfs_pages.py:39-110 | with PDF ingests in between as well, every legacy PDF comes back with exactly its pages |
| MigrationRuns.CopiedOrComplete | infra/migrations/versions/0004_documents_chunks.py:89-108 | after any run from copied tables a document is a legacy PDF with exactly its legacy pages and no facet, or holds the complete chunk set of its last successful ingest |
| MigrationRuns.MissingPagesStay | src/parts_lookup/ingestion/pipeline.py:56-63 | a page that a copied PDF lacks is never added by ingesting the file again: the shortcut answers it as done |

## Left out

- HTTP, S3/R2, Anthropic, Voyage, docling and pypdfium2: each call is an arbitrary function or a step that may fail.
- Postgres full-text ranking and pgvector search: the channels are arbitrary lists; their raw scores are unused by the code as well.
- Floating-point rounding: scores are reals, so ties and thresholds are exact.
- `_stub_embed` and embedding values: vectors are opaque.
- Interpreter limits: recursion depth and memory; an integer literal past Python's digit limit is a decoder that raises.
- Lone surrogates, which JSON can spell and UTF-8 cannot: Dafny strings have none, so such a text appears as a statement that raises.
- Regular expressions, HTML entities, JSON decoding, case folding: token sets, link sequences and parsed trees are inputs; a question and a title come with the readings both tokenizers give.
- Robots rule matching: a stored rule set is known by its verdicts. A non-200 robots.txt stores empty rules, as the code does.
- Fetcher: the shared dict, lock, semaphore and cache are one state value changed by atomic steps between awaits, not objects; the delay's length is not modelled.
- Upstream error classification, retry headers, readiness flags, logging, settings, FastAPI wiring, argument parsing: plumbing.
- Overlapping discovery and ingestion processes: runs are sequences of transactions; no lock protects the status flip between processes.
- HybridSearch.HybridSearch: the two chunk queries of a request see the same rows; a write between them is not modelled.
- Text flattening of a publication (`_content_texts`, `_block_text`, `_tool_list_text`) is recursive functions on the JSON tree rather than list-building loops; recursion through nested lists has no loop in the source either.
- `list_documents`, `scan_chunks_matching`, `discovered_at` and `last_seen_at`: columns and queries no modelled property reads.
- Store.Repository.SetProductFacet: its two statements never raise; only the backfill script calls it.
- Migrations.Database.Upgrade0004: indexes, time zones and the generated tsvector columns are not modelled; a unique-key collision would overwrite in the model where the database raises, and `Migrations.UpgradeMirrors` shows that none occurs.
- 0006 (nullable facet columns) is modelled only by its effect: copied documents have no facet.
