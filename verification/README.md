# Verified model of the citypods pipeline

A Dafny model of the algorithmic parts of citypods, the pipeline that turns city meeting recordings into
podcast feeds, with proofs of what those parts promise. Times are exact numbers (reals, or whole
milliseconds where the code rounds or where a measure is taken); loops and in-place updates stay loops and
in-place updates; a server, a model endpoint or a history is an arbitrary function or sequence.

`dafny verify dfyconfig.toml` checks everything.

| file | what it models |
| --- | --- |
| `HostLimiter.dfy` | the per-host concurrency limiter: the key lookup, the slot blocks, and any number of threads taking and returning permits |
| `TimeMaps.dfy` | edit decision lists and the two time maps that read them |
| `Chapters.dfy` | provider chapters carried to served time |
| `Edl.dfy` | the concat planner that builds edit decision lists, the clipper that cuts them and the validator that checks them |
| `RangeDownload.dfy` | the verified range download against an arbitrary server |
| `Evidence.dfy`, `TokenSearch.dfy` | finding a quote in the lines of an agenda: by an offset index, and by a greedy token search |
| `AgendaItems.dfy` | strict checking, recovery and numbering of agenda items |
| `TitleMatching.dfy` | greedy matching of candidate and detected titles |
| `ProbeLedger.dfy`, `CeilingSearch.dfy` | what probes of an input ceiling settle, and the search with its budgets, retries and confirmation phase |
| `Availability.dfy` | the media availability verdict over whole histories, and the measure of silence |
| `YamlTree.dfy`, `YamlEdit.dfy` | the line-level YAML editor, and an indentation reader that says what an edit means |
| `Overlap.dfy` | the sweep that flags overlapping speaker turns |
| `Interpolation.dfy` | filling missing word times |
| `Vtt.dfy` | the WebVTT printer and the parser that reads its output |
| `Reconcile.dfy` | reconciling the copies of one meeting across record stores |
| `Sorting.dfy`, `Text.dfy`, `Wrappers.dfy` | stable sorting; trimming, splitting and decimals of text; optional values |

Some properties one might expect are false of the code. Each has an input that shows it, and a lemma or a
contract that says exactly when it holds:

- A clip need not play what the original plays at the very last instant of its range
  (`Edl.ClipChangesLastInstant`; exactly when it does: `Edl.ClipMeaningAtEnd`).
- The two time maps are not inverse to each other everywhere: not where a second is played twice
  (`TimeMaps.ReplayedSecond`) nor at the end of every timeline (`TimeMaps.SwappedEnd`; exactly where:
  `TimeMaps.MapsInverse`), and not where a source hands over to another segment (`TimeMaps.HandOffIsSeam`;
  exactly where: `TimeMaps.MapsInverseFromSource`).
- A size that just got a usable completion can be reported as rejected (`CeilingSearch.ServedYetRejected`):
  only when the caller or a response of the run stated a smaller budget, and against an endpoint that serves
  everything exactly when the first size is over its quote and nothing is confirmed (`CeilingSearch.RunPhase2`).
- A verbatim quote can be missed by the token search, behind a stray copy of its first token
  (`TokenSearch.StrayFirstToken`; exactly when: `TokenSearch.VerbatimWindow`, `TokenSearch.NothingChosen`).
- A full response that stops short can pass for the object (`RangeDownload.UnadvertisedTruncationIsSilent`;
  exactly when: `RangeDownload.TruncationIsSilent`).
- A turn can be flagged as overlapping though it shares no time with another (`Overlap.EmptyTurnIsFlagged`;
  exactly when flags mean overlap: `Overlap.FlagsAreCrossings`).
- A cue outside the first hundred hours, or before zero, is printed but not read back (`Vtt.TimingBack`; exactly
  which units come back: `Vtt.RoundTrip`, `Vtt.AllComeBack`).
- The YAML editor can add its line in the wrong place: behind a comment that is not indented like the block's
  keys (`YamlEdit.CommentMisleads`), and in a list at its key's own indent, which YAML allows
  (`YamlEdit.CompactListBreaks`). For every file that can be read, `YamlEdit.EditListMeaning` and
  `YamlEdit.EditNewKeyMeaning` say exactly when the result is the intended document.

Where code and documentation differ, the code is modelled:

- An observation with an empty fingerprint string is never stored as the verdict's source, yet counts as a
  change of source (`citypods/availability.py:243-250`, `citypods/availability.py:273`).
- The two time maps are said to disagree only where one source hands over to another
  (`citypods/timeline.py:255-262`); they also do where an earlier segment of the source plays the same second on
  (`TimeMaps.MapsInverse`), be it a second played twice or the one the timeline ends on.
- Both YAML edits are called idempotent (`citypods/feed_yaml_edit.py:8`), but neither looks whether its item is
  there: the output always differs from the input (`YamlEdit.AddBodyAny`), and a second edit appends the item
  again (`YamlEdit.SecondEditAppendsAgain`).

## Model

| member | source | states |
| --- | --- | --- |
| HostLimiter.CapsMeaning | citypods/http.py:143-158 | a domain is limited exactly when some entry for it, cleaned, has a positive cap, and the last such entry's cap holds |
| HostLimiter.CleanKeyMeans | citypods/http.py:155 | a configured key stands for its lower-case form without the whitespace around |
| HostLimiter.HostRateLimiter.Configure | citypods/http.py:143-158 | the limits are those of the entries and all earlier semaphores are dropped |
| HostLimiter.HostRateLimiter.KeyFor | citypods/http.py:160-168 | the answer is the longest configured domain that the lower-cased host is, or ends with after a dot, or none if there is none; so every subdomain of a configured domain gets a key at least as long |
| HostLimiter.GovernsIsUnder | citypods/http.py:165 | the suffix test holds exactly of the domain itself and of some labels and a dot before it |
| HostLimiter.SuffixIsNotUnder | citypods/http.py:165 | a name that merely ends like the domain is none of its hosts |
| HostLimiter.GoverningKeyUnique | citypods/http.py:160-168 | two domains of one length cannot both govern a host, so the longest is never tied |
| HostLimiter.GoverningKeyDetermined | citypods/http.py:160-168 | the governing key does not depend on the order in which the limits are looked through |
| HostLimiter.HostRateLimiter.SemForKey | citypods/http.py:170-177 | callers asking for one domain get one semaphore, created with the domain's cap when first asked for |
| HostLimiter.HostRateLimiter.SlotKeys | citypods/http.py:188-206 | a block asks for exactly the longest configured domains above its hosts, once each, in ascending order; for every host and every configured domain above it one of them is at least as long |
| HostLimiter.Sorted | citypods/http.py:202-206 | a set of keys comes out ascending, with nothing lost or added |
| HostLimiter.LessMeans | citypods/http.py:202-206 | one key comes before another exactly if it is a proper prefix or has the smaller character where they first differ |
| HostLimiter.Slots.Enter | citypods/http.py:225-238 | the polls decide: it is stopped, holding nothing, exactly if the stop fires while a key is missing; else it enters, holding every key in order, exactly if there were as many successes as keys; else it holds the first keys and waits; every acquire and release is a step of the thread's protocol |
| HostLimiter.Slots.Exit | citypods/http.py:240-242 | leaving gives back every permit held |
| HostLimiter.StepInv | citypods/http.py:225-242 | every step of every thread keeps: available permits plus holders equal the cap, for each key |
| HostLimiter.Safety | citypods/http.py:188-242 | in every reachable state of any number of threads permits are conserved, no cap is exceeded, and a thread outside its blocks, stopped or done, holds nothing |
| HostLimiter.NoDeadlock | citypods/http.py:202-242 | while any thread is unfinished, some thread has a step that is not a mere poll timeout |
| HostLimiter.FindMover | citypods/http.py:202-242 | from any blocked thread, following holders to ever larger keys reaches a thread that can move |
| HostLimiter.RunsAreBounded | citypods/http.py:225-242 | no schedule has more productive steps than the threads' initial work |
| HostLimiter.CanFinish | citypods/http.py:225-242 | from every reachable state all threads can be driven to the end with no stop fired, and then every permit is back |
| HostLimiter.UnsortedDeadlocks | citypods/http.py:202-206 | without the sort two threads can block each other for good |
| HostLimiter.DuplicateDeadlocks | citypods/http.py:202-206 | without the deduplication one block can block itself |
| TimeMaps.ServedToSource | citypods/timeline.py:223-246 | the answer comes from the first segment that holds the instant, where only the last one owns its right end; there is none if none holds it or that one is an insert |
| TimeMaps.MapsInverse | citypods/timeline.py:223-278 | from served to source and back, on any contiguous unit-speed timeline: an instant served from a segment comes back exactly when no earlier segment of that source plays the same second on |
| TimeMaps.ReplayedSecond | citypods/timeline.py:223-278 | a second that is played twice comes back as where it is played first |
| TimeMaps.SwappedEnd | citypods/timeline.py:223-278 | the end of a timeline need not come back, though no second is played twice |
| TimeMaps.DisjointMapsInverse | citypods/timeline.py:223-278 | where no source second is served twice every instant before the end comes back |
| TimeMaps.SourceToServed | citypods/timeline.py:249-278 | the answer comes from the first of the source's own segments that holds the instant, where only the last of them owns its right end; there is none only if none holds it |
| TimeMaps.MapsInverseFromSource | citypods/timeline.py:223-278 | from source to served and back, an instant that is served comes back exactly when it is at no seam, that is, not the end of the segment it is served from with another segment to follow |
| TimeMaps.HandOffIsSeam | citypods/timeline.py:255-278 | wherever a source played in one piece hands over to another segment there is such a seam |
| Chapters.NextKeptBoundary | citypods/timeline.py:302-316 | the answer is the served start of the source's segment that starts next after the second, the first in the timeline of those that start together; none only if none starts after it |
| Chapters.Remap | citypods/timeline.py:319-366 | the loop carries each chapter's start and end to served time, starts in removed audio to the next kept audio, and drops the rest |
| Chapters.ServedChaptersMean | citypods/chapters.py:11-49 | the episode's own chapters if there are none from the provider or the timeline does not play exactly one source; the provider's as they are on a recording played whole; else the provider's carried to served time |
| Chapters.ChapterLost | citypods/timeline.py:344-366 | a chapter is dropped exactly when no segment holds its start and none of its source starts later |
| Chapters.ServedInRange | citypods/timeline.py:319-366 | on a contiguous unit-speed timeline every remapped start lies within it |
| Chapters.RemapKeepsOrder | citypods/timeline.py:319-366 | where the source's audio is kept in its own order, so are the chapters |
| Edl.ClipTimeline | citypods/clips.py:95-152 | the cutting loop computes the clip and its source cuts |
| Edl.ClipRegular | citypods/clips.py:112-152 | a clip of a contiguous unit-speed timeline is one too, and is as long as its range |
| Edl.ClipOfClip | citypods/clips.py:95-152 | clipping twice is clipping once by the shifted range, segment for segment and cut for cut |
| Edl.ClipMeaning | citypods/clips.py:112-152 | at every instant of the range but its last the clip plays the source second the original plays |
| Edl.ClipMeaningAtEnd | citypods/clips.py:112-152 | at the last instant it does exactly when the range ends inside a segment, at the timeline's end, or where two segments join |
| Edl.ClipChangesLastInstant | citypods/clips.py:112-152 | cutting the first of two sources out of a timeline changes what its last instant plays |
| Edl.IdentityClipAgrees | citypods/clips.py:155-171 | the shortcut for an uncut source equals cutting its identity timeline |
| Edl.Plan | citypods/concat.py:194-237 | the planner's three loops yield distinct sources, chapters at the running offsets, and one full-source segment per source; source chapters are emptied, and chapters replaced only if there are some |
| Edl.ConcatRegular | citypods/concat.py:221-237 | the planned timeline is contiguous from zero, at unit speed, and as long as the sum of the durations |
| Text.DecimalInjective | citypods/concat.py:194-205 | source ids made from distinct numbers are distinct |
| Edl.CheckTimeline | citypods/audit.py:1377-1707 | the structural checks report exactly the findings that are due: none without a timeline or for an identity one; else empty, overlap, gap, start gap, duration, end coverage, source underrun and overrun, chapter out of range, from the smallest reported difference on |
| TimeMaps.IdentityMeans | citypods/timeline.py:151-179 | a timeline counts as an identity one exactly if its one segment plays a source from zero at the same served times, and, unless no sources are listed, to the end of the first one listed under its id, where that is known |
| Edl.CheckOrder | citypods/audit.py:1391-1430 | the ordering loop reports a segment exactly when it starts off the previous end by more than the tolerance |
| Edl.CheckBounds | citypods/audit.py:1660-1687 | the source-bound checks report exactly the segments that start before their source does or end after it, where its duration is known |
| Edl.LookupIsLast | citypods/audit.py:1660-1687 | the source a segment is held against is the last one listed under its id |
| Edl.CheckChapters | citypods/audit.py:1688-1707 | the chapter check reports exactly the chapters outside the served duration, of those the episode serves: derived from the provider's when there are any and the timeline has one source |
| Edl.RegularIsClean | citypods/audit.py:1391-1555 | a regular timeline draws no ordering finding, and no duration finding against its own length |
| Edl.PlanPassesValidator | citypods/concat.py:194-237 | the planner's own timeline, chapters included, draws no finding against the summed duration |
| Edl.DerivedChaptersPass | citypods/chapters.py:11-49 | chapters derived from a provider's draw no finding on a contiguous unit-speed timeline of one source |
| Edl.ClipPassesValidator | citypods/clips.py:95-152 | nor does any clip of a timeline that is regular and within its sources |
| Edl.CleanTotals | citypods/audit.py:1391-1430 | without ordering findings the summed lengths differ from the last end by at most one tolerance a segment |
| Edl.ValidatorBoundsTotal | citypods/audit.py:1391-1430 | the same, read off the validator's silence |
| RangeDownload.StreamContract | citypods/granicus_chunked.py:55-91 | what a streamed body amounts to: on success the sent bytes are the payload, cut at the limit; an undisturbed body of the expected length does succeed, and so does one exactly when the limit is filled before a stop, a break or a byte too many; it is stopped, or broken off, exactly if nothing ends it before |
| RangeDownload.StreamResponse | citypods/granicus_chunked.py:55-91 | the streaming loop writes exactly the specified bytes and ends as specified |
| RangeDownload.TryRange | citypods/granicus_chunked.py:153-227 | one attempt appends the whole exact range to the file exactly if the reply carries it undisturbed, of the known size or one within the cap; it is to be tried again exactly after no connection, a transient status or a body that breaks off; it is stopped exactly if the caller stops it, and ranges are given up exactly on status 200; else the file is left alone |
| RangeDownload.FetchRange | citypods/granicus_chunked.py:152-227 | the reply to the last of at most two requests for a range decides: success appends one exact answer, anything else leaves the file alone; only a passing failure is tried again; it succeeds if the server fails at most once in a row |
| RangeDownload.DownloadRanges | citypods/granicus_chunked.py:128-236 | for every server, on every exit, the file is the accepted ranges tiled from byte zero, each asking for a chunk or what is left; on success it has min(total, limit) bytes; else the reply to the last request tells why; it succeeds if the server has an object and never fails twice in a row |
| RangeDownload.AssembledIsPrefix | citypods/granicus_chunked.py:139-236 | if the server describes one object, what is assembled is a prefix of it: nothing lost, repeated or reordered |
| RangeDownload.DownloadFull | citypods/granicus_chunked.py:94-125 | a full download that succeeds holds the payload or its first limit bytes, and the advertised length if any; a complete answer does succeed; it is stopped exactly if the reply is one to be read and its body is stopped |
| RangeDownload.DownloadVerified | citypods/granicus_chunked.py:239-291 | invalid sizes are refused before anything is written; the full request is made exactly if the last range request was answered with status 200, and decides then; else the file is what the accepted ranges assemble, which succeeds exactly if it is all that is wanted, and is stopped exactly if the last range was; so success means the prefix of the asked length of an object described truthfully; it succeeds for a server that never fails twice in a row, and for one that ignores ranges and then answers completely |
| RangeDownload.TruncationIsSilent | citypods/granicus_chunked.py:94-125 | a full answer that stops short can pass for the object exactly when it advertises no length or one below what is wanted |
| RangeDownload.UnadvertisedTruncationIsSilent | citypods/granicus_chunked.py:94-125 | so any object can be cut short behind a full answer without a length |
| Evidence.LineOffsets | citypods/chapter_titles.py:650-659 | each line's offset is its position in the joined text |
| Evidence.LineForOffset | citypods/chapter_titles.py:662-668 | the line found is the one whose text, or the space after it, holds the offset |
| Evidence.ExactSpans | citypods/chapter_titles.py:671-686 | the loop reports exactly the line spans of the quote's occurrences |
| Evidence.SpanHolds | citypods/chapter_titles.py:671-686 | a reported span is a window of lines whose joined text contains the quote |
| Evidence.WindowHasSpan | citypods/chapter_titles.py:671-686 | every window containing the quote has a reported span inside it |
| Evidence.IndexAgreesWithBruteForce | citypods/chapter_titles.py:671-693 | the tightest reported spans are the minimum-width windows of a search over all windows |
| Evidence.TightestExactSpans | citypods/chapter_titles.py:671-693 | the two steps together return exactly those windows, sorted and without repeats |
| TokenSearch.GreedyMatch | citypods/chapter_titles.py:696-743 | the scan finds the quote exactly when it is a subsequence, at a placement no later, token by token, than any other |
| TokenSearch.SubsequenceSpans | citypods/chapter_titles.py:696-743 | the spans are exactly the narrowest, then least padded, windows of the neighbourhood within the padding bound |
| TokenSearch.VerbatimWindow | citypods/chapter_titles.py:715-735 | a window that holds the quote verbatim is a candidate exactly when the foreign tokens of its leftmost placement are within the bound; they are at most the tokens from the first copy of the quote's first token up to the quote |
| TokenSearch.NothingChosen | citypods/chapter_titles.py:696-743 | the search finds nothing exactly when every window that holds the quote in order is too loose |
| TokenSearch.VerbatimIsFound | citypods/chapter_titles.py:696-743 | with the quote verbatim in a window, the search finds one no wider while the stray distance there is within the bound |
| TokenSearch.StrayFirstToken | citypods/chapter_titles.py:715-735 | on a line that opens with a stray copy of the first token the quote is accepted exactly while the stray distance is within the bound |
| TitleMatching.MatchTitles | citypods/chapter_titles.py:1127-1155 | the scores are those of a greedy matching: one-to-one, in descending order of score, title and candidate, all at or above the threshold, and every other usable pair loses an end to one that goes before it; a threshold outside 0 to 1 is refused |
| TitleMatching.GreedyDetermined | citypods/chapter_titles.py:1127-1155 | there is one such matching, ties included |
| TitleMatching.GreedyIsHalfOptimal | citypods/chapter_titles.py:1127-1155 | no one-to-one matching above the threshold is more than twice as large |
| TitleMatching.GreedyCanHalve | citypods/chapter_titles.py:1127-1155 | and that factor is reached |
| AgendaItems.EvidenceSpan | citypods/chapter_titles.py:284-314 | the declared window is taken if it carries the quote, else the one nearest carrying window, else an error that tells ambiguity from absence |
| AgendaItems.CheckItem | citypods/chapter_titles.py:586-643 | one item is accepted or rejected by the strict rules in their order |
| AgendaItems.Assess | citypods/chapter_titles.py:578-643 | every item gets one fate; the kept and rejected lists are those fates in order, repeats rejected |
| AgendaItems.Locate | citypods/chapter_titles.py:957-982 | the located span is the single tightest window, exact before token search, or none |
| AgendaItems.ExpandTrailing | citypods/chapter_titles.py:792-807 | the new end is the first reference line among the sixteen below the span with no blank line before it, or the old end if there is none |
| AgendaItems.IdentifierPrefix | citypods/chapter_titles.py:770-775 | the new start is the top of the maximal run of identifier lines right above the span |
| AgendaItems.RecoverItem | citypods/chapter_titles.py:957-1052 | a rejected item is recovered by the recovery rules or not at all |
| AgendaItems.Recover | citypods/chapter_titles.py:925-1061 | strict items stay, every other item is recovered or lost, and the three lists are those outcomes in order |
| AgendaItems.ItemsConserved | citypods/chapter_titles.py:941-1061 | each item of the response ends in exactly one of the three lists |
| AgendaItems.KeptKeysDistinct | citypods/chapter_titles.py:586-643 | no two kept items share start, end and quote |
| AgendaItems.StrictIsGrounded | citypods/chapter_titles.py:284-328 | a strictly kept span carries its quote, up to one identifier line above; the item keeps its title, quote and reference, the reference being found in the span, or is given the first one of the span |
| AgendaItems.LocatedIsGrounded | citypods/chapter_titles.py:671-743 | a located span is the one tightest verbatim window, or no window is verbatim and the span holds the quote's tokens in order |
| AgendaItems.SalvageIsGrounded | citypods/chapter_titles.py:941-1061 | a recovered item covers its located span, keeps its title and quote, and its evidence splits into exactly the lines of its span |
| AgendaItems.SalvageFollowsRules | citypods/chapter_titles.py:984-1030 | its span ends with its paragraph and starts at the least line its reference names or above its identifier lines; the reference resolves to the item's own marker, or is an outline position, which is kept if the outline confirms it and else replaced by the first one of the span |
| AgendaItems.EvidenceIsSource | citypods/chapter_jobs.py:198 | the evidence text splits into exactly the lines of the span |
| AgendaItems.Finalize | citypods/chapter_jobs.py:174-248 | it succeeds exactly when at most a tenth of the items that are not repeats were dropped, and numbers strict then recovered items from zero |
| AgendaItems.FinalizeJob | citypods/chapter_jobs.py:146-248 | the whole job: it succeeds exactly if at most a tenth of the items that are not repeats went missing, and else fails for the first missing one's reason; a finished job has a candidate for every item not lost and no other, numbered from zero, with its words, its reference or the span's, and as evidence the lines of its span, trimmed |
| CeilingSearch.RateProbeRunner.CheckBudgets | citypods/llm_rate_probe.py:75-88 | a request may go out exactly while the clock, the total and the route have budget; a used-up route is told apart |
| CeilingSearch.RateProbeRunner.SendRequest | citypods/llm_rate_probe.py:90-165 | it is answered exactly when clock and budgets allow it, before the hook and after; one request is counted exactly when one is sent, for its route and the total; dry runs send none and no budget is overspent |
| CeilingSearch.RetryThrottled | citypods/llm_rate_probe.py:513-522 | a throttled probe is repeated at the same size within its own retries, and only the last answer settles it |
| CeilingSearch.SettleKeeps | citypods/llm_rate_probe.py:493-550 | after any answer the bounds hold: low is accepted or the floor, accepted sizes lie below the smallest rejected one |
| CeilingSearch.Concludes | citypods/llm_rate_probe.py:493-532 | however a round ends, the bounds hold, every size served in the run so far is accepted by them or over the budget, and the budget is one the caller gave or a response quoted |
| CeilingSearch.SettleHalves | citypods/llm_rate_probe.py:486-532 | against a threshold endpoint each round halves the interval and keeps the threshold in it |
| CeilingSearch.EightHalvings | citypods/llm_rate_probe.py:461-487 | eight halvings of the widest interval reach the floor's width |
| ProbeLedger.RoundLedger | citypods/llm_rate_probe.py:486-550 | a round keeps the ledger: only its first answer can lower the budget, only its last settles the size, a loss in transport is forgiven three times, and anything else that settles nothing leaves the search stuck |
| ProbeLedger.LeastDismissedMeans | citypods/llm_rate_probe.py:509-532 | the rejected size is the least that was refused for its size or is over the budget heard of by then |
| ProbeLedger.GreatestTakenMeans | citypods/llm_rate_probe.py:524-526 | the observed ceiling is the greatest size served within the budget heard of by then |
| ProbeLedger.HeardFrom | citypods/llm_rate_probe.py:494-498 | the budget is the one given or one that some response quotes |
| ProbeLedger.HeardShrinks | citypods/llm_rate_probe.py:494-498 | and never grows |
| CeilingSearch.SupportedBounds | citypods/llm_rate_probe.py:486-550 | so every size served in the phase is accepted by its bounds or over the budget, and a rejected one was refused or is over it |
| CeilingSearch.FirstPhase | citypods/llm_rate_probe.py:461-550 | the search ends for every endpoint and aborts only with clock or budget used up; what it found is what its probes settle: the budget heard of, the least size refused or over the budget, the greatest accepted, the upper bound no lower than need be, and the probes but for up to three lost in transport; it is inconclusive exactly if its probes end with one that settles nothing, and else its interval is narrow or its probes are used up; with time and room it finishes against an endpoint that keeps to a rule, brackets a threshold, and after one probe stays within a quoted budget |
| CeilingSearch.ResumeUpward | citypods/llm_rate_probe.py:578-595 | the search resumed from a boundary that gave way keeps its bounds, and ends with a narrow interval, the remaining probes used up, or a probe that tells nothing |
| CeilingSearch.Confirm | citypods/llm_rate_probe.py:559-595 | contention is found exactly if a size was served in this phase, which then had been rejected before; without it the result stands and its boundary was asked for again in every round the probes allow; an endpoint that will refuse the boundary again never shows it, and with time and room the phase then finishes |
| CeilingSearch.RunPhase2 | citypods/llm_rate_probe.py:434-617 | for every endpoint the report is read off the probes: its budget, sizes and count of probes are those its first phase settles, it is inconclusive exactly if that got stuck and shows contention exactly if a size rejected before was served in the confirmation; a report that is neither has a narrow interval or used up its probes. It aborts only with clock or budget used up; an observed ceiling is a size that got a usable completion, a rejected size one that was refused or over budget, the first below the second; a rejected size that was served in the run is over the budget, and that is one the caller gave or a response of the run quoted. With time and room, against a threshold, it ends conclusively and the default probes pin it to the floor's width. Against an endpoint that serves everything but quotes a budget, a served size is reported as rejected exactly when the first size is over the quote and nothing is confirmed |
| CeilingSearch.ServedYetRejected | citypods/llm_rate_probe.py:493-511 | such a run: the report's rejected size is one that got a usable completion |
| Availability.CounterIsTrailingBlock | citypods/availability.py:253-374 | over any history the stored counter is the length of the trailing block of its kind, since the last other kind or change of source, transport failures and operator actions passed over |
| Availability.TrailingBlockUnique | citypods/availability.py:253-374 | that block is determined by the history |
| Availability.StateFollowsCounters | citypods/availability.py:324-358 | a state is confirmed exactly from two confirmations on, suspected at one |
| Availability.StateTellsKind | citypods/availability.py:305-371 | over any history each state stands for one kind of last content: invalid for dead, missing for absent, empty for silent, partial for partial, available or recovered for playable |
| Availability.VerdictExists | citypods/availability.py:264-269 | there is a verdict from the first content or override on; without content it is the blank one; its check stamp is the last event's |
| Availability.KnownSourceMeans | citypods/availability.py:276 | the source on record is the last one named by a content observation |
| Availability.ProfileMeans | citypods/availability.py:277 | and so is the profile |
| Availability.ReasonMeans | citypods/availability.py:305-371 | the reason is the last content's own, or the default for the state and the count |
| Availability.ConfirmedMeans | citypods/availability.py:253-374 | confirmed empty means a silent block of two or more at the end of the history, confirmed partial likewise |
| Availability.TransportSaysNothing | citypods/availability.py:264-269 | deleting every transport failure from a history changes only the last-check stamp |
| Availability.RecoveredMeans | citypods/availability.py:351-371 | over any history, recovered means the last content was playable, of the same media, and found while the recording was held back: by the operator's override in force, or else because the content before was silent, dead or absent |
| Availability.RecoveredAtMeans | citypods/availability.py:351-371 | the recovery stamp is that of the last recovery, if no other media were seen since, and else there is none |
| Availability.OverrideIsInForce | citypods/availability.py:276-303 | the stored override and its reason are the operator's last word, if no other media were seen since, and else there is none |
| Availability.OverrideHolds | citypods/availability.py:276-303 | an operator override is in force exactly until the first observation of other media |
| Availability.OverrideStep | citypods/availability.py:276-303 | one observation keeps the override unless it shows other media |
| Availability.ContentMillis | citypods/availability.py:188-219 | the loop computes the measure of the source minus the union of the spans, whatever their order, overlaps and ends |
| Availability.MeasureLaws | citypods/availability.py:188-219 | the measure lies within the source, depends on the spans only as a set, and never grows with a span |
| Availability.EffectivelySilent | citypods/availability.py:222-240 | silent means less content than one of the two floors asks for, the milliseconds or the fraction |
| YamlEdit.BlockBounds | citypods/feed_yaml_edit.py:26-52 | the first header line, the end of its run of indented lines without trailing blanks, the indent of its first filled line; or which of the two errors |
| YamlEdit.SubkeyItemsEnd | citypods/feed_yaml_edit.py:55-82 | the key's first line in the block and the end of its deeper lines; none if it is missing; an error if it is written inline |
| YamlEdit.SpliceSplits | citypods/feed_yaml_edit.py:85-91 | splitting, splicing and joining gains and loses no line break, at the end of the file or elsewhere |
| YamlEdit.AddBodyAny | citypods/feed_yaml_edit.py:94-105 | the output is the input with one run of lines inserted at the site found, never the input itself, or the right error; on a file the reader accepts it means what `EditMeans` says for one item with the scalar |
| YamlEdit.AddBodyInclude | citypods/feed_yaml_edit.py:108-123 | the same for the two-line mapping |
| YamlEdit.ScalarRoundTrip | citypods/feed_yaml_edit.py:21-23 | a printed scalar has no control characters, so it is one line, and reads back as the value |
| YamlEdit.ScalarPlain | citypods/feed_yaml_edit.py:21-23 | a value without quotes, backslashes and control characters is printed as it is |
| YamlTree.ForestConcat | citypods/feed_yaml_edit.py:126-140 | reading two stretches of a document in turn is reading them together, where the second starts no deeper than the first |
| YamlTree.SizeForest | citypods/feed_yaml_edit.py:126-140 | reading loses no entry and makes none up |
| YamlTree.InsertTwig | citypods/feed_yaml_edit.py:94-123 | a subtree put into a sibling list becomes its last sibling exactly when it stands in the siblings' column and only copies of it follow |
| YamlTree.AppendEntries | citypods/feed_yaml_edit.py:126-157 | for the list of a child of the block, exactly then the list alone grew by the item, and then the children are the old ones with the item appended |
| YamlTree.OpenEntries | citypods/feed_yaml_edit.py:126-157 | a key put among the block's children with the item is a new one with that item alone exactly when it stands in their column, a child follows, if anything, and none has its name |
| YamlTree.ChildBuried | citypods/feed_yaml_edit.py:126-157 | a list whose key stands deeper than the block's children is not the one the guard looks at |
| YamlEdit.EditListMeaning | citypods/feed_yaml_edit.py:94-157 | for a key that is there, in any file the reader accepts, the edited file reads as the old document with the item appended, and passes the guard, exactly when the block's keys stand at its indent, the list's items at twice the indent, and whatever the scan missed of the list is copies of the item |
| YamlEdit.EditNewKeyMeaning | citypods/feed_yaml_edit.py:94-157 | for a missing key it does exactly when the block's keys stand at its indent, the scan missed no such key, and what it missed of the block starts with one of its keys |
| YamlEdit.AnyIsItem | citypods/feed_yaml_edit.py:102-104 | the inserted line reads as one list item with the scalar |
| YamlEdit.IncludeIsItem | citypods/feed_yaml_edit.py:113-116 | the two inserted lines read as one list item with guid and body |
| YamlEdit.AddBodyAnyMeaning | citypods/feed_yaml_edit.py:94-105 | the same from text to text, for the item this edit adds; a stray comment's indent of other whitespace than spaces makes the output unreadable |
| YamlEdit.AddBodyIncludeMeaning | citypods/feed_yaml_edit.py:108-123 | and for the mapping |
| YamlEdit.EditSplits | citypods/feed_yaml_edit.py:85-123 | the output's lines are the spliced ones, so no edit is a no-op |
| YamlEdit.SecondEditAppendsAgain | citypods/feed_yaml_edit.py:94-123 | two edits that append leave the item in the list twice more |
| YamlEdit.CommentedSite | citypods/feed_yaml_edit.py:26-52 | the scans take the indent of a leading comment for the block's |
| YamlEdit.CommentMisleads | citypods/feed_yaml_edit.py:94-105 | a key created in a column that is only the comment's is not one of the block's |
| YamlEdit.CompactSite | citypods/feed_yaml_edit.py:55-82 | a list at its key's own indent is accepted by the scans, which see no items in it |
| YamlEdit.CompactListBreaks | citypods/feed_yaml_edit.py:94-105 | the edit then turns a readable file into an unreadable one |
| Overlap.MarkOverlap | citypods/diarize.py:675-685 | in place, a turn ends up flagged exactly if it was or if it meets another turn |
| Overlap.StillOpen | citypods/diarize.py:680 | dropping a turn from the active list loses no later meeting |
| Overlap.FlagsAreCrossings | citypods/diarize.py:675-685 | in any list order, the flagged turns are those that share an open stretch of time with another exactly when every turn met by an earlier one has positive length |
| Overlap.FlaggedIsCrossing | citypods/diarize.py:675-685 | so they are for turns of positive length |
| Overlap.EmptyTurnIsFlagged | citypods/diarize.py:675-685 | an empty turn inside another is flagged though they share none |
| Interpolation.InterpolateWords | citypods/asr.py:469-506 | in place, every segment's words get the fill of its original times; unknown methods are refused first and ignore changes nothing |
| Interpolation.FillWord | citypods/asr.py:488-506 | a word is filled from its closest located neighbours, found by bisection; no filled word is read |
| Interpolation.FillMeans | citypods/asr.py:481-506 | a missing word takes the times of the closest located one, the earlier of two as close, if the method is nearest or there is none on one side, and else the times that divide its neighbours' in proportion to its position; without any located word nothing changes |
| Interpolation.BisectLeft | citypods/asr.py:490 | the position splits the list into smaller and not smaller elements |
| Interpolation.Neighbours | citypods/asr.py:490-492 | the list positions around it are the closest located words |
| Interpolation.FillAscends | citypods/asr.py:493-506 | if located starts and ends never go back, no start or end does after the fill |
| Interpolation.FillInside | citypods/asr.py:493-506 | a filled word lies between its located neighbours |
| Interpolation.FillKeepsLength | citypods/asr.py:493-506 | if no located word ends before it starts, no word does |
| Interpolation.FillTwice | citypods/asr.py:469-506 | located words keep their times, and a second fill changes nothing |
| Vtt.RoundIsNearest | citypods/asr.py:88 | rounding is to the nearest millisecond, ties to the even one |
| Vtt.StampRoundTrip | citypods/asr.py:80-92 | the printed stamp of a time under a hundred hours reads back as its milliseconds |
| Vtt.StampMeans | citypods/chapter_locator.py:143-152 | a stamp spells two digits each of hours, minutes and seconds and three of milliseconds, and stands for their sum |
| Vtt.ToVtt | citypods/asr.py:162-173 | the loop prints the specified file |
| Vtt.PrintedMeans | citypods/asr.py:162-173 | the file is the header, and for each segment with text a blank line, the two stamps with the arrow, and the trimmed text |
| Vtt.UnitsFromVtt | citypods/chapter_locator.py:200-224 | the loop returns the numbered units of the specified rows, none for missing data |
| Vtt.TimingMeans | citypods/chapter_locator.py:143-152 | a line is read as timing exactly if it is two stamps with an arrow and whitespace between them, and nothing or whitespace and anything after, and then as these two stamps |
| Vtt.TimingBack | citypods/chapter_locator.py:143-152 | a printed timing line is read back when both times are in range, and not at all otherwise |
| Vtt.RoundTrip | citypods/chapter_locator.py:200-224 | parsing a printed file yields, for any texts and in order, a row per segment with text and times in the first hundred hours, with the lines of its first paragraph and rounded times, then what its later paragraphs read as, and nothing else |
| Vtt.OneParagraph | citypods/chapter_locator.py:200-224 | a text of one paragraph yields nothing besides its own row |
| Vtt.OneLineBack | citypods/chapter_locator.py:200-224 | a text of one line comes back as it is, trimmed |
| Vtt.LinesBack | citypods/chapter_locator.py:200-224 | a text of several lines, none of them blank or padded, comes back with its line breaks, of whatever kind, turned into spaces |
| Vtt.AllComeBack | citypods/asr.py:162-173 | no segment's own row is lost exactly when every segment has text and its times are in range |
| Vtt.RoundingKeepsOrder | citypods/asr.py:80-92 | rounding keeps the order of times |
| Reconcile.ChooseCanonical | citypods/audit.py:2078-2093 | the only source probed ok, or else the one newest candidate, or none |
| Reconcile.CanonicalIsUnique | citypods/audit.py:2078-2093 | there is at most one canonical copy |
| Reconcile.CanonicalMeans | citypods/audit.py:2078-2093 | the canonical copy, read off the copies: the one probed ok; or of those probed ok, if any, and else of all, the one with the latest encode time |
| Reconcile.AgreeMeans | citypods/audit.py:2058-2076 | copies agree exactly if no two of them differ in one of the six audio fields, the integrity or the four planning fields |
| Reconcile.DueMeans | citypods/audit.py:2098-2121 | a finding is due exactly where copies differ; it names the chosen copy, and is an error only if there is one and nothing is to be repaired |
| Reconcile.Stores.Reconcile | citypods/audit.py:2002-2149 | a meeting is reported exactly if two of its counting copies differ in a shared audio field, the integrity or a planning field; the pass makes exactly the due findings, rewrites exactly the followers of resolved meetings when asked to, and touches exactly their sources |
| Reconcile.PassConverges | citypods/audit.py:2122-2147 | after a pass all counting copies of a meeting have equal audio fields, integrity and planning fields, unless it was unresolved; canonical copies, agreeing and unresolved meetings are unchanged |
| Reconcile.SecondPassIsIdle | citypods/audit.py:2002-2149 | a second pass reports exactly the unresolved meetings, follows nobody and changes nothing |
| Reconcile.PassKeeps | citypods/audit.py:2122-2147 | suppressed rows are unchanged, no record loses what is its own, and a changed one takes over the shared fields of a chosen copy and loses its retry history |
| Reconcile.FollowersAdopt | citypods/audit.py:2122-2147 | in a meeting whose copies differ every copy but the chosen one does so |
| Reconcile.FollowersAreCopies | citypods/audit.py:2122-2149 | and these are exactly the copies whose sources are touched |

## Left out

- Network, subprocess, storage, speech, diarization and model calls. Servers, endpoints and histories are arbitrary inputs instead.
- Float rounding. Times are exact; only the rounding to milliseconds in the time stamp is modelled.
- Unicode: whitespace trimming, line breaks other than those listed, digits and case are those of ASCII; UTF-8 encoding is not modelled.
- URL parsing, `Content-Range` header syntax, HTTP sessions, wall clocks, temporary file sizes and sleep times.
- Hashes, fingerprints, record keys and free-text messages: they are compared, never computed.
- Regular-expression judgements on agenda lines and references, and text normalisation: functions of the agenda that the proofs leave arbitrary.
- Remapping of transcript cues, which clamp ends that fall in removed audio; chapters without a start.
- The live-probe reconciliation inside `check_timeline_integrity`, and source segments whose end is open.
- Assigning aligned words to sections in `_whisperx_segments`; it would add only that no word is lost.
- The order of findings in the reconciliation report; findings are a set.
- YamlEdit.EditListMeaning: of siblings with one key the model's reader looks at the first; a mapping that gives a key twice is not YAML, and PyYAML keeps the last.
- YAML beyond block mappings and lists of one-line entries: flow collections, block scalars, anchors and multi-line scalars; and the extra line breaks of YAML 1.1 inside double quotes.
- HostLimiter.Slots.Enter: permits live in the state of the protocol; the class records acquires and releases as events, so a real semaphore's blocking is a step of that protocol.
- RangeDownload.StreamResponse: asks for a file just opened empty, as both its callers pass.
- AgendaItems.Recover: the labels for the recovery method and the displayed reference are carried, not checked.
