# Founder discovery and enrichment — a Dafny model

This project models the text-transformation core of a founder discovery tool.
The tool asks an external answer engine about Australian startup founders and
extracts structured data from the engine's free-text replies. The model covers:

- **Discovery prompt** (`QueryBuilder`): optional criteria become one prompt.
  The prompt has a fixed opening and fixed output instructions. Between them
  comes one clause per truthy criterion, in the order diversity, industry,
  stage, location.
- **Discovery result extraction** (`ArrayExtractor`): the reply text is
  searched for `/\[\s*\{.*\}\s*\]/s`. The match is handed to JSON parsing
  unchanged. The regular expression is written as a scanner. `ArrayShapeAt`
  states what the pattern matches, and `FindArray` is proved to return the
  match the regular-expression engine returns: the leftmost start and, from
  there, the longest match. The greedy `.*` makes it the longest: both `\s*`
  splits are forced, and a later `}` always gives a later closing `]`.
- **Enrichment** (`Enrichment`, `PatternScan`, `DataCollection`): a name check
  comes first, then the research prompt. Three independent searches read the
  reply: a LinkedIn handle, "based in …" and "background: …". Each writes only
  its own field of the partial founder record.
- **Search form** (`FounderSearch`): adding, removing and toggling entries of
  the tag and diversity selection lists. Also the normalisation that turns
  empty inputs into absent criteria.
- **Founder card** (`FounderCard`): the score colour band, the first three
  tags with a `+N` overflow badge, and the diversity badge block.

Modelling conventions:

- Network calls are parameters. `engine: string -> Reply` maps a prompt to the
  reply it gets. `jsonParse: string -> Result<J, string>` stands for
  `JSON.parse`, which is left uninterpreted.
- Thrown errors are `Failure` values of `Replies.Error`.
- The mutable `founderData` argument is modelled as a record value that is
  returned.
- `\s` and `trim()` share one white-space predicate. It covers the
  ECMAScript WhiteSpace and LineTerminator code points.
- The `i` flag is modelled as ASCII case folding. This is exact for these
  ASCII patterns: without the `u` flag, no non-ASCII character folds onto an
  ASCII one.

Three facts about the code that a reader might not expect:

- The extracted array is returned exactly as parsed: elements without a name
  are kept and `confidence` is not clamped. `ArrayExtractor.ArrayInProse`
  shows a nameless element passed through.
- The location capture `[^,.]+` cannot contain a comma. So `split(',')`
  always gives one part, the city is the whole trimmed run, and the state is
  never written. For "based in Sydney, NSW" the city becomes "Sydney" and the
  state does not change (`Enrichment.SydneyExample`).
- The prompt clauses are joined with plain spaces, exactly as the code
  concatenates them.

## Model

| member | source | states |
|---|---|---|
| QueryBuilder.BuildDiscoveryQuery | src/lib/services/data-collection.ts:64-91 | The prompt always starts with the fixed opening and ends with the fixed instructions. It is exactly opening plus instructions if and only if no criterion is truthy. |
| QueryBuilder.NoCriteriaQuery | src/lib/services/data-collection.ts:70-88 | With no criteria at all, the prompt is the opening followed directly by the instructions. |
| QueryBuilder.ClauseContributes | src/lib/services/data-collection.ts:72-86 | Removing a criterion changes the prompt if and only if that criterion is truthy. An empty string or an empty diversity list contributes nothing. |
| QueryBuilder.ClausesInOrder | src/lib/services/data-collection.ts:72-86 | Each truthy criterion's clause, holding the criterion's text, sits after the opening. The clauses are consecutive and ordered diversity, industry, stage, location. |
| QueryBuilder.IndustryBeforeLocation | src/lib/services/data-collection.ts:76-86 | When industry and location are both given, the industry clause occurs before the location clause. |
| QueryBuilder.FintechAdelaideExample | src/lib/services/data-collection.ts:76-86 | For industry "fintech" and location "Adelaide", "in the fintech industry " occurs before "based in Adelaide ". |
| Text.Join | src/lib/services/data-collection.ts:73 | `Array.prototype.join`: the elements in order with the separator between neighbours. Its properties are stated by `Text.JoinStart`, `Text.JoinAppend` and `Text.SplitJoin`. |
| Text.JoinStart | src/lib/services/data-collection.ts:73 | Joining no elements gives the empty string, and a join always starts with the first element. |
| Text.JoinAppend | src/lib/services/data-collection.ts:73 | Joining a list with one more term appends the separator and that term. The diversity terms appear in selection order. |
| Replies.Message | src/lib/services/data-collection.ts:99 | The service writes its own message text exactly for the no-array error and the missing-name error (line 110). The errors the runtime raises carry none. |
| Replies.Content | src/lib/services/data-collection.ts:95 | Reading the first choice's content fails if and only if the reply has no choices. Otherwise it yields that content. |
| ArrayExtractor.FindArray | src/lib/services/data-collection.ts:97-100 | No match is returned if and only if no substring has the array shape. A returned span has the array shape. No shape starts further left, and no shape from the same start is longer. |
| ArrayExtractor.SoleShapeSelected | src/lib/services/data-collection.ts:97 | A shape with no `[` before it and no `]` after it is exactly the span selected. |
| ArrayExtractor.Parsed | src/lib/services/data-collection.ts:101-104 | The parser's outcome passes through the catch-and-rethrow unchanged. A parsed value is returned as is, and a parse failure becomes the runtime's `InvalidJson` error, which carries no message text of the service. |
| ArrayExtractor.ParseDiscoveryResults | src/lib/services/data-collection.ts:93-106 | A reply without choices fails. The call fails with "No valid JSON found in response" if and only if the content has no array shape. Otherwise the selected slice starts with `[` and ends with `]`, and the parser's outcome on it is returned unchanged. |
| ArrayExtractor.ArrayInProse | src/lib/services/data-collection.ts:97-101 | For prose around `[{"name": "A"}, {"role": "x"}]`, the whole array is parsed and returned as is. The nameless element is kept. |
| PatternScan.Search | src/lib/services/data-collection.ts:142-157 | The search returns nothing if and only if the pattern matches nowhere. Otherwise it returns the leftmost position where the literal is followed by a class character, and the run after it is maximal. |
| PatternScan.CaptureUnique | src/lib/services/data-collection.ts:142-157 | A pattern captures at most one run in a text: the start of the leftmost match and the maximal run after it are unique. |
| PatternScan.SearchFromStart | src/lib/services/data-collection.ts:148 | A match at position 0 whose run stops at `e` is exactly the match returned. |
| Enrichment.LinkedInHandle | src/lib/services/data-collection.ts:142 | There is no handle if and only if `linkedin.com/in/` followed by a handle character occurs nowhere (case-sensitive). A found handle is the maximal run of handle characters after the leftmost such occurrence, so it is non-empty and made only of letters, digits and hyphens. |
| Enrichment.BasedIn | src/lib/services/data-collection.ts:148-150 | There is no place if and only if `based in ` (any case) followed by a character other than comma or period occurs nowhere. A found place is the trimmed maximal comma- and period-free run after the leftmost such occurrence. It holds no comma or period and is already trimmed. |
| Enrichment.Background | src/lib/services/data-collection.ts:157-159 | There is no bio if and only if `background:` (any case) followed by a non-period occurs nowhere. A found bio is the trimmed maximal period-free run after the leftmost such occurrence. It holds no period and is already trimmed. |
| Enrichment.ApplyLinkedIn | src/lib/services/data-collection.ts:141-145 | Prefixing the whole match with `https://www.` gives the canonical `https://www.linkedin.com/in/<handle>`. It is written only when a handle is found, and no other field changes. |
| Enrichment.ApplyLocation | src/lib/services/data-collection.ts:147-154 | Trimming, splitting at commas and trimming each part sets the city to the trimmed place when that place is non-empty. The state is never written, and no other field changes. |
| Enrichment.SecondPart | src/lib/services/data-collection.ts:151 | The destructured `state` is `undefined` exactly when the split gives fewer than two parts, and otherwise it is the second part. |
| Enrichment.ApplyBackground | src/lib/services/data-collection.ts:156-160 | The bio becomes the trimmed run, even when it is empty, if the pattern matches. No other field changes. |
| Enrichment.ExtractInsights | src/lib/services/data-collection.ts:138-163 | Only `linkedin_url`, `city` and `bio` can change, each from its own independent search. `state` and every other field keep their input values. |
| Enrichment.LinkMatchIsCanonical | src/lib/services/data-collection.ts:144 | The case-sensitive match behind the origin is the canonical profile address of the captured handle. |
| Enrichment.SinglePlace | src/lib/services/data-collection.ts:151 | A trimmed, comma-free location splits and trims to itself alone, so no second part exists for the state. |
| Enrichment.ExtractIdempotent | src/lib/services/data-collection.ts:138-163 | Extracting twice from the same text gives the same record as extracting once. |
| Enrichment.NoMatchLeavesRecord | src/lib/services/data-collection.ts:138-163 | When none of the three patterns matches, the record is returned unchanged. |
| Enrichment.SydneyExample | src/lib/services/data-collection.ts:148-154 | For "Based In Sydney, NSW" the city becomes "Sydney" and the state is left as it was. |
| Enrichment.SydneyPlace | src/lib/services/data-collection.ts:148-150 | The place captured from "Based In Sydney, NSW" is "Sydney": the match ignores case and the run stops at the comma. |
| DataCollection.ResearchPrompt | src/lib/services/data-collection.ts:109-113 | The prompt fails with the name-required error if and only if a name is absent or empty. The failure carries the service's message "Founder name is required for enrichment". Otherwise the prompt is `Research ` and the first name, one space, then the last name and the fixed tail. |
| DataCollection.EnrichFounderProfile | src/lib/services/data-collection.ts:108-136 | Without both names the result is the name-required error. Otherwise a reply without choices fails, and any other reply gives the extraction from its first content. |
| DataCollection.NameCheckedBeforeRequest | src/lib/services/data-collection.ts:109-111 | Without a name, the outcome is the same error whatever the engine would answer, so no request matters. |
| DataCollection.EnrichIdempotent | src/lib/services/data-collection.ts:108-163 | Enriching an enriched record again, against an engine that repeats its answer, changes nothing. |
| DataCollection.DiscoverFounders | src/lib/services/data-collection.ts:30-62 | The engine's reply to the discovery prompt fails on a missing choice. It fails with "No valid JSON found in response" if and only if its content has no array shape. Otherwise the parser's outcome on the leftmost-longest array slice is returned. |
| Text.Trim | src/lib/services/data-collection.ts:150 | The result is a slice of the input with only white space outside it. It has no white space at either end and is empty if and only if the input is all white space. |
| Text.TrimIdempotent | src/lib/services/data-collection.ts:151 | Trimming a trimmed string changes nothing. |
| Text.SplitOn | src/lib/services/data-collection.ts:151 | Splitting gives at least one part, and no part contains the separator. |
| Text.TrimAll | src/lib/services/data-collection.ts:151 | `.map(s => s.trim())`: the same number of parts, each one trimmed. |
| Text.SplitJoin | src/lib/services/data-collection.ts:151 | Joining the parts of a split with the separator gives back the original string. |
| FounderSearch.AddTag | src/components/FounderSearch.tsx:59-63 | The result holds exactly the old tags and the new one. The old list is an unchanged prefix. The length grows by one only if the tag was absent, and a duplicate-free list stays duplicate-free. |
| FounderSearch.AddIdempotent | src/components/FounderSearch.tsx:59-63 | Adding the same tag twice equals adding it once. |
| FounderSearch.RemoveTag | src/components/FounderSearch.tsx:55-57 | The removed tag no longer occurs. Every other tag occurs exactly as often as before, and removing an absent tag changes nothing. |
| FounderSearch.RemoveDistributes | src/components/FounderSearch.tsx:55-57 | Removing from a concatenation removes from each part, so the remaining tags keep their relative order. |
| FounderSearch.RemoveKeepsNoDuplicates | src/components/FounderSearch.tsx:55-57 | Removing a tag from a duplicate-free list leaves it duplicate-free. |
| FounderSearch.AddThenRemove | src/components/FounderSearch.tsx:55-63 | Adding an absent tag and then removing it restores the original list. |
| FounderSearch.Toggle | src/components/FounderSearch.tsx:65-71 | Toggling flips the value's membership and leaves every other value's membership unchanged. A present value is removed entirely, and an absent value is added. |
| FounderSearch.ToggleTwiceAbsent | src/components/FounderSearch.tsx:65-71 | Toggling an absent value twice restores the original list. |
| FounderSearch.ToggleTwicePresent | src/components/FounderSearch.tsx:65-71 | Toggling a present value twice removes all its copies and puts one copy at the end. |
| FounderSearch.ToggleExtendsDiversityClause | src/components/FounderSearch.tsx:65-71 | Toggling a new diversity value onto a non-empty selection extends the prompt's diversity clause by ` or ` and that value. |
| FounderSearch.DiscoveryIgnoresNormalisation | src/components/FounderSearch.tsx:41-53 | Against the same engine and parser, a discovery from the normalised form inputs returns the same outcome as one from the raw inputs. |
| FounderSearch.OrUndefined | src/components/FounderSearch.tsx:31-32 | An empty input becomes absent, and any other input passes through unchanged. |
| FounderSearch.NonEmptyOrUndefined | src/components/FounderSearch.tsx:33 | An empty list becomes absent, and any other list passes through unchanged. |
| FounderSearch.SearchCriteria | src/components/FounderSearch.tsx:30-34 | Each search filter is absent exactly when its input is empty. Otherwise it carries the input unchanged. |
| FounderSearch.DiscoveryCriteria | src/components/FounderSearch.tsx:43-48 | Each discovery criterion is absent exactly when its input is empty. Otherwise it carries the input unchanged. |
| FounderSearch.NormalisationKeepsPrompt | src/components/FounderSearch.tsx:43-48 | The normalised criteria give the same discovery prompt as the raw inputs. |
| FounderCard.ScoreBand | src/components/FounderCard.tsx:34-38 | Scores of 85 and above are green, scores from 70 up to 85 are yellow, and scores below 70 are gray. |
| FounderCard.BandClasses | src/components/FounderCard.tsx:35-37 | Each band has its own class string, and no two bands share one. |
| FounderCard.ScoreColor | src/components/FounderCard.tsx:34-38 | `getScoreColor` gives the green classes if and only if the score is at least 85. It gives the yellow classes if and only if the score is from 70 up to 85, and the gray classes if and only if it is below 70. |
| FounderCard.BandMonotone | src/components/FounderCard.tsx:34-38 | A higher score never lands in a lower band. |
| FounderCard.VisibleTags | src/components/FounderCard.tsx:82 | The shown tags are the first min(3, n) tags, in their original order. |
| FounderCard.OverflowBadge | src/components/FounderCard.tsx:87-91 | The `+N` badge appears if and only if there are more than three tags, and its count is the number of tags beyond the first three. |
| FounderCard.TagsAccountedFor | src/components/FounderCard.tsx:82-91 | The number of shown tags plus the badge's count equals the number of tags. |
| FounderCard.DiversityBadges | src/components/FounderCard.tsx:94-102 | The diversity block is rendered if and only if the list is non-empty, and it shows the whole list. |

## Left out

- HTTP calls to the answer engine: the endpoint, headers, bearer token, model name, domain filters and citation caps (src/lib/services/data-collection.ts:39-56, 116-130). These are network I/O. The reply is a parameter (`engine`).
- `JSON.parse` internals: this is a foreign library call, modelled as the uninterpreted parameter `jsonParse`.
- The `TypeError` text a reply without choices would raise: it is modelled as the error value `MissingContent`, since only its failure matters to callers.
- Logging and rethrowing in the `catch` blocks: the rethrow is modelled by returning the same error, and logging is a side effect.
- The relational store operations `collectFounderData`, `updateFounderProfile` and `addFounderTag` (src/lib/services/data-collection.ts:165-246): they pass through to an external query builder.
- React state, hooks, context, pages, routing, authentication and decorative widgets: these are presentation with no transformation logic.
- The confidence percentage `Math.round(result.confidence * 100)` (src/components/FounderSearch.tsx:249): this is floating-point display.
- FounderCard.ScoreBand: scores are reals, so the JavaScript `NaN` score, which lands in the gray band, is not represented.
- Text.IsSpace and the scanners work on code points, not UTF-16 code units. None of the patterns can tell the difference.
- PatternScan.Search: it covers only patterns of the shape literal-then-class-run that the three extractions use, not regular expressions in general.
