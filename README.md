# Headline rotation for rejected Snapchat ads

The bot in `260694.py` runs a loop. In each pass it does four things:

1. It lists the ad account's ads and keeps those that are ACTIVE but were REJECTED in review. It keys them by creative id.
2. It fetches each of their creatives. It fills in the creative's optional fields with fixed defaults and its three mandatory fields (`top_snap_media_id`, `web_view_url`, `profile_id`) from configuration. It drops a creative whose mandatory field is still empty.
3. For every prepared creative, it picks a fresh headline and tries the update. The headline comes from a process-wide pool loaded from a corpus of lines. The pick avoids headlines already used for that creative and its current headline. It is removed from the pool and cut to 40 characters.
4. It appends one row per attempt to an `updates` table. That table is also where the "already used" headlines are read from.

The model replaces the network, SQLite, file and clock calls with plain values:

- The listing is a `Listing`.
- The answer to each creative request is given by a function `fetch`.
- `respond(i)` is the answer for the `i`-th iteration of the update loop. It is consulted only when that iteration sends a request; an incomplete creative sends none, but its iteration still uses index `i`.
- The random draw of the `i`-th selection is `draw(i)`. `random.choice(xs)` is `xs[draw % |xs|]`.
- The corpus file is the sequence of its lines.
- Configuration values are an `Env`.

Modules:

- `Wrappers`: `Option`.
- `Sequences`: list comprehension with a condition, and `list.remove`.
- `Text`: `str.strip`, slicing and `str.join`.
- `Ads`: the eligibility filter and the dict keyed by creative id. The dict keeps its keys in first-insertion order, and a later ad overwrites an earlier one.
- `Creatives`: defaulting, the mandatory-field gate and the preparation loop.
- `Outcomes`: the `updates` table as a `Ledger` class with an append-only `records` field, and the used-headline query.
- `Headlines`: truncation, corpus loading, the selection rule, and the `Selector` class holding the `pool` field.
- `Updates`: the field check, the update request and the verdict on its answer.
- `Bot`: one pass of `run_bot`.

Where the design and the code differ, the model follows the code:

- The headline is drawn, and the pool consumed, before the mandatory fields are checked (`260694.py:242` against `249-254`).
- The ledger stores the truncated headline (`260694.py:119`, `318`). So a corpus line longer than 40 characters is never recognised as used, and can be handed to the same creative again (`Headlines.LongPickRepeats`).
- Selection from a corpus without a non-blank line raises at lines 116 and 124, and the exception ends the pass (`260694.py:323`). The model does not forbid this case with a precondition. It treats it as an outcome: `Generate` returns `None`, and the pass stops.
- Some answers raise `IndexError`, which no handler in between catches:
  - A creative answer with an empty `"creatives"` list aborts the whole preparation, and no creative is returned (`260694.py:200`, `234-236`).
  - A failed update answer with an empty `"creatives"` list ends the pass (`260694.py:287`, `323`).

## Model

| member | source | states |
|---|---|---|
| Sequences.Filter | 260694.py:106 | the result holds exactly the elements satisfying the condition, every element of it passes, and it is no longer than the input (order and multiplicity: `Sequences.FilterConcat`, `Sequences.FilterSingle`) |
| Sequences.FilterConcat | 260694.py:106 | filtering keeps order and multiplicity: the filter of two lists one after the other is the two filters one after the other |
| Sequences.FilterSingle | 260694.py:219 | a one-element list keeps its element exactly when it passes |
| Sequences.FilterNone | 260694.py:219 | a condition no element meets leaves nothing |
| Sequences.FilterSnoc | 260694.py:161-171 | proof helper for the filter loop: filtering a list grown by one element only adds that element, if it passes |
| Sequences.FirstIndex | 260694.py:117 | the index of the first occurrence: it holds the element and no earlier position does |
| Sequences.RemoveFirst | 260694.py:117 | `list.remove` drops exactly the first occurrence, leaving the list one shorter |
| Sequences.RemoveFirstMultiset | 260694.py:117 | removal takes out exactly one copy of the element and nothing else |
| Sequences.SplitAt | 260694.py:117 | leaving out one position removes exactly that element from the multiset |
| Text.IsSpace | 260694.py:96 | definition: the characters Python's `str.isspace` accepts, which `str.strip` removes |
| Text.TrimStart | 260694.py:96 | definition: `lstrip`, dropping leading whitespace |
| Text.TrimEnd | 260694.py:96 | definition: `rstrip`, dropping trailing whitespace |
| Text.Strip | 260694.py:96 | definition: `line.strip()`, as used when the corpus is loaded and reloaded (lines 96 and 110) |
| Text.TrimStartCuts | 260694.py:96 | `lstrip` keeps a suffix; everything it cut is whitespace, and the rest does not start with whitespace |
| Text.TrimEndCuts | 260694.py:96 | `rstrip` keeps a prefix; everything it cut is whitespace, and the rest does not end with whitespace |
| Text.StripEnds | 260694.py:96 | `strip` gives "" exactly for a whitespace-only line, and otherwise a string with no whitespace at either end |
| Text.StripIdempotent | 260694.py:96 | stripping an already stripped line changes nothing |
| Text.Prefix | 260694.py:208 | `s[:n]` is the prefix of length min(\|s\|, n) and never fails |
| Text.Join | 260694.py:252 | definition: `sep.join(xs)`, the items with the separator between consecutive ones |
| Text.JoinContainsEach | 260694.py:252 | every item joined with `", ".join` occurs in the joined string |
| Ads.Put | 260694.py:175 | a dict assignment keeps an existing key in its place with the new value, and appends a new key |
| Ads.ByCreative | 260694.py:175 | the dict comprehension has one key per creative id of the kept ads, each mapped to the last ad that referenced it |
| Ads.ByCreativeExtends | 260694.py:175 | keys keep their first-insertion order: the key order built from a list extends the key order built from any prefix of it |
| Ads.IsEligible | 260694.py:166-170 | definition: an ad takes part when its creative id is non-empty, its status is ACTIVE and its review status ("N/A" when absent) is REJECTED |
| Ads.EligibleKeys | 260694.py:161-175 | a creative id is a key exactly when some listed ad with that id has a non-empty creative id, is ACTIVE and is REJECTED (a missing review status is "N/A") |
| Ads.ActiveAds | 260694.py:161-175 | the filter loop yields the dict built from the eligible ads in listing order, with exactly the eligible creative ids as keys |
| Creatives.Or | 260694.py:206-214 | definition: Python's `value or default` on strings |
| Creatives.Defaulted | 260694.py:206-215 | each optional field keeps its value or takes its fixed default ("Creative_" + id[:8], LEARN_MORE, MIDDLE, WEB_VIEW, SNAP_AD, true, true); a mandatory field keeps its value or else takes the configuration value, so it is empty only if both lack it |
| Creatives.Missing | 260694.py:218-219 | the missing fields are exactly the mandatory fields whose value is empty |
| Creatives.MissingInUpdateOrder | 260694.py:249-250 | the update step lists the missing fields in the order web_view_url, top_snap_media_id, profile_id, each at most once |
| Creatives.MissingNothingIffComplete | 260694.py:218-220 | nothing is missing, in either checking order, exactly when all three mandatory fields are non-empty |
| Creatives.PrepareOne | 260694.py:196-230 | one answer yields a creative exactly when it carries a creative with a non-empty id whose defaulted form is complete, and the creative is that defaulted form |
| Creatives.Kept | 260694.py:191-224 | the prepared creatives are at most one per key, each complete and with a non-empty id |
| Creatives.PrepareStep | 260694.py:192-224 | proof helper for the preparation loop: handling one more key adds only what that key's answer yields, and aborts exactly when that answer has an empty list |
| Creatives.Aborts | 260694.py:196-200 | definition: some key's answer has an empty "creatives" list, so indexing it raises |
| Creatives.AbortsIffSomeEmpty | 260694.py:200 | preparation aborts exactly when some key's answer has an empty "creatives" list |
| Creatives.Prepared | 260694.py:186-236 | definition: what preparation returns, nothing when it aborts (the handler at 234-236) and otherwise the kept creatives |
| Creatives.PrepareCreatives | 260694.py:186-236 | the loop returns the kept creatives of the keys in dict order, or nothing if one answer aborts; every creative returned is complete |
| Outcomes.UsedHeadlines | 260694.py:100-103 | a headline is used for a creative exactly when some row for that creative, of any status, stored it |
| Outcomes.Ledger.Used | 260694.py:100-103 | definition: the used-headline query for a creative, read from the ledger's rows |
| Outcomes.UsedAfterAppend | 260694.py:74-85 | appending a row adds its headline to the used headlines of its own creative and of no other |
| Outcomes.Ledger.constructor | 260694.py:37-44 | a fresh database's table is empty (an existing database file keeps its rows, and a pass accepts a ledger with any earlier rows) |
| Outcomes.Ledger.Append | 260694.py:74-85 | `log_update` adds exactly one row at the end and leaves the earlier rows unchanged |
| Headlines.Truncate | 260694.py:118-119 | the result has at most 40 characters; a longer pick becomes its first 37 characters plus "..." (exactly 40); a shorter one is unchanged |
| Headlines.Loaded | 260694.py:94-96 | the loaded pool has no blank entry and no more entries than the file has lines |
| Headlines.LoadedMembership | 260694.py:96 | a headline is loaded exactly when it is non-blank and some line strips to it |
| Headlines.LoadedConcat | 260694.py:96 | loading keeps file order |
| Headlines.LoadedIsStripped | 260694.py:96 | every loaded headline is already stripped |
| Headlines.Select | 260694.py:94-119 | definition of the selection rule: load the pool when empty, pick among the available headlines, else reload and pick among the headlines other than the current one, else among all; remove the first copy of the pick and truncate it; `Exhausted` when there is nothing to pick |
| Headlines.Available | 260694.py:106 | the available headlines are exactly the pool's headlines that are neither used for the creative nor its current headline |
| Headlines.Without | 260694.py:111 | the fallback holds exactly the reloaded headlines other than the current one |
| Headlines.Choice | 260694.py:116 | the random pick is one of the candidates |
| Headlines.RemovalKeepsPool | 260694.py:117 | removing one copy of a pooled headline takes exactly that copy from the multiset and keeps the pool within the corpus |
| Headlines.ExhaustedIffBlankCorpus | 260694.py:107-124 | with a pool drawn from the corpus, selection fails exactly when the corpus has no non-blank line |
| Headlines.PickIsAvailable | 260694.py:106-116 | if the pool (loaded when empty) has an unused headline other than the current one, the pick is one of those; otherwise the pick comes from the reloaded corpus, and it is the current headline only if every corpus headline is |
| Headlines.PoolLosesThePick | 260694.py:109-117 | the pool after a pick is the pool it was drawn from with exactly the first copy of the pick removed: one shorter, one copy fewer, still within the corpus |
| Headlines.HeadlineFits | 260694.py:118-119 | the headline handed out has at most 40 characters, and equals the pick when the pick fits |
| Headlines.NoRepeatWhenAvailable | 260694.py:99-119 | when an unused headline is available and the pick fits, the headline handed out is neither used for the creative nor its current headline |
| Headlines.LongPickRepeats | 260694.py:102-119 | a pick longer than 40 characters is handed out again even though its truncated form is already used for the creative |
| Headlines.Selector.constructor | 260694.py:29 | the pool starts empty and within the corpus |
| Headlines.Selector.Generate | 260694.py:90-124 | the pool stays within the corpus; the result is `None` exactly for a blank corpus; otherwise the headline and the new pool are those of the selection rule |
| Updates.Names | 260694.py:252 | one name per missing field, in order |
| Updates.BuildPayload | 260694.py:256-278 | definition: the update request carries the creative's own fields with the new headline |
| Updates.MissingMessage | 260694.py:252 | definition: "Missing required fields: " followed by the missing fields' names joined with ", " |
| Updates.MissingMessageNamesEach | 260694.py:252 | the "Missing required fields" message names every missing field |
| Updates.Raises | 260694.py:287 | definition: a failed answer with an empty "creatives" list, whose indexing raises and ends the pass through the handler at line 323 |
| Updates.Verdict | 260694.py:279-297 | success exactly for an answer with request status SUCCESS, and then no error; a rejected answer fails with the creative's sub-request reason, or else "Unexpected response: " and the answer; a transport failure fails with the error text, followed by " \| Response: " and the response text when there is one; the outcome carries the chosen headline; nothing is returned exactly when a failed answer has an empty "creatives" list |
| Updates.Transact | 260694.py:249-297 | no request is sent exactly when a mandatory field is empty, and then the attempt fails with the missing-fields message in the order web_view_url, top_snap_media_id, profile_id; a request carries the creative's fields with the new headline; success exactly when a complete creative's request is answered SUCCESS; once the request is sent, the outcome (including its error text) is the verdict on the answer |
| Updates.UpdateCreativeHeadline | 260694.py:239-297 | the headline is chosen and the pool consumed first, then the gate and the verdict apply; a blank corpus gives no result and an empty pool; the pool stays within the corpus |
| Bot.OldHeadline | 260694.py:316 | definition: the headline an attempt replaces is the creative's headline, else its name |
| Bot.RecordOf | 260694.py:318 | definition: the row `log_update` writes: creative id, replaced headline, and the outcome's headline, status and error |
| Bot.Attempt | 260694.py:313-319 | a stopped iteration writes no row; one that goes on appends exactly one row, naming the creative and the headline it replaced, with a headline of at most 40 characters; it stops exactly for a blank corpus or an answer that raises |
| Bot.AttemptIsUpdate | 260694.py:313-319 | proof helper for the update loop: one iteration of the loop is the update step followed by one append of its outcome, or stops when the update step gives no result |
| Bot.Sweep | 260694.py:313-321 | definition of a pass: the iterations in creative order, the `k`-th with the `k`-th answer and draw, ending early at the first iteration that stops |
| Bot.SweepStep | 260694.py:313-321 | proof helper: a pass is its first iteration followed by the rest of the pass |
| Bot.SweepContinues | 260694.py:313-321 | with a non-blank corpus and an answer that does not raise, the first iteration appends a row and the pass goes on |
| Bot.SweepOnlyAppends | 260694.py:313-321 | a pass keeps every earlier row and appends at most one row per creative |
| Bot.RowsForAt | 260694.py:313-318 | the i-th appended row belongs to the i-th creative |
| Bot.SweepRowsInOrder | 260694.py:313-318 | the rows a pass appends follow the creatives in order, each naming its creative, the headline it replaced (headline, else name) and a new headline of at most 40 characters |
| Bot.SweepKeepsPool | 260694.py:313-321 | a pass keeps the pool within the corpus |
| Bot.SweepBlankCorpus | 260694.py:313-317 | with a blank corpus a pass writes no row |
| Bot.SweepRowPerCreative | 260694.py:313-321 | with a non-blank corpus and no answer that raises, every creative gets exactly one row |
| Bot.Candidates | 260694.py:306 | definition: what `get_rejected_creatives` hands to the loop: nothing for a failed listing (lines 176-180), otherwise the creatives prepared from the eligible ads' keys in dict order (186-236) |
| Bot.CandidatesPassGate | 260694.py:218-254 | every creative a pass works on is complete, so its attempt never fails for missing fields |
| Bot.RunCycle | 260694.py:312-322 | the loop leaves the pool and the ledger as the pass specification says, keeps the pool within the corpus, and counts the rows it appended |
| Bot.RunBot | 260694.py:300-322 | one pass leaves the pool and the ledger as the pass specification says for the creatives prepared from the eligible ads |

## Left out

- HTTP is not modelled: the session, its retry adapter and token refresh (`refresh_access_token`). The answers to the listing, creative and update requests are inputs. A failed listing request gives no ads.
- A transport error while fetching a single creative is the `FetchFailed` answer. It skips that creative.
- An update answer whose body is not JSON is not modelled.
- `init_db` is not modelled: table creation and the recreation of a corrupt database file. The ledger starts as a `Ledger` object.
- SQLite errors are not modelled. A failed insert in `log_update` would lose a row, and the model always appends it.
- Reading `headline.txt` is not modelled. The corpus is given as its lines, and it is fixed for the life of a `Selector`.
- Headlines.Selector.Generate: the recovery branch at line 124 after a file or SQLite error is not modelled. It picks without removing or truncating. Only its outcome for a blank corpus (a raise) is modelled.
- `os.getenv` values are the fields of `Env`.
- The timestamp column of each row (lines 79-82) is not modelled; a `Record` has no timestamp.
- `time.sleep`, the `while True` daemon loop and all logging are left out.
- `json.dumps` of the answer is an opaque string carried in the answer (`json`).
- A key present with a JSON `null` value cannot be represented for `headline`, `shareable`, `block_preload` and `sub_request_error_reason`; the model has only "absent" and "present with a value". The source differs from the absent case there: a null `headline` makes the replaced headline `None` rather than the name (line 316), so the name is not excluded at line 106 and the row stores NULL; a null `sub_request_error_reason` gives a FAILED outcome with no error rather than "Unexpected response: …" (287); a null `shareable` or `block_preload` puts `None` into the request (211, 215). A missing `"ad"` object is an ad with every field absent.
- A JSON `null` where the code expects an object cannot be represented. In the source, a null `"ad"` (line 163), `"web_view_properties"` (207, 215) or `"profile_properties"` (214), or a null first element of a creative answer's `"creatives"` or a null `"creative"` (200), raises `AttributeError`. The handler at 234-236 then makes preparation return nothing. A null first element of an update answer's `"creatives"` (287) ends the pass.
- Sequences.RemoveFirst requires the element to be present. Python raises otherwise, but every call site removes a pick drawn from that list.
- Bot.OldHeadline: the "Unknown" fallback of `old_headline` is not modelled. Every prepared creative has a non-empty name.
- Random choice is a caller-supplied draw, `draw(i)`, reduced modulo the number of candidates. The model says nothing about the distribution.
- db_connector.py is not part of this model.
