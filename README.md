# dday.it feed to Telegram: reconciliation and diff highlighting in Dafny

The program polls the dday.it RSS feed once at start-up (main.py:342) and
then at minutes 0, 9, 18, …, 54 of every hour (main.py:345). It posts each new
article to a Telegram channel as a photo with an HTML caption, and it edits
the caption when an article it already posted is updated. A SQLite table of
`Article` rows remembers what was posted. Each row's `telegram_message_id`
lets a later cycle edit the post instead of sending it again.

This project models the decision logic of `main.py` and proves properties of
that model. The model has six modules:

- `Wrappers` (wrappers.dfy): the `Option` type.
- `Seqs` (seqs.dfy): regroupings of sequence concatenation that the larger
  proofs name explicitly.
- `Text` (text.dfy): models Python's `str.strip()` and the one-character
  `str.replace` used by `telegram_escape`.
- `Publisher` (publisher.dfy): models `send_message`.
  - The caption is built with a loop over the tags.
  - The request is either `editMessageCaption` or `sendPhoto`.
  - The HTTP reply becomes a message id, the old id on a failed edit, or a
    raised `RequestException`.
- `Diff` (diff.dfy): models `get_diff_removals` and `get_diff`.
  - The character matching of `difflib.ndiff` is an input: an edit script of
    kept, added and deleted characters.
  - Deleted positions are computed with the source's `i + offset` bookkeeping.
  - Positions are grouped into maximal runs of consecutive integers.
  - The `<b><u>`…`</u></b>` tags are spliced in with a running offset of 14
    per group.
- `Engine` (engine.dfy): models `check`, `first_run` and `process_new_article`.
  - The table is an `ArticleStore` object. Its `rows` field is a sequence in
    insertion order, and `get_or_none(link=…)` returns the first row with that
    link.
  - Each feed entry comes with an `Io` value, which says what the network
    answered while that entry was being handled:
    - the scraped tags, or `None` when `fetch_article_details` raised;
    - the Bot API reply.
  - The methods `FirstRun`, `ProcessNewArticle`, `CheckEntry`, `Cycle` and
    `Check` update `rows` in place. Each is proved equal to a specification
    function on values: `FirstRunRows`, `ProcessSpec`, `CheckStep`,
    `Run(CheckStep, …)` and `CheckSpec` respectively. The lemmas are stated
    about those functions.

What the code does, and the model with it:

- There is no link canonicalisation. Matching is the exact
  `entry.links[0].href` string (main.py:69, main.py:106).
- Some exceptions are not caught inside `check`. They end the whole cycle,
  and every row saved before that stays saved. The model marks such a step
  `aborted`, and the remaining entries are not looked at. This covers:
  - an exception from `fetch_article_details` (main.py:95), which lies
    outside any `try`;
  - the `IntegrityError` that `Article.create` raises when the returned
    message id already belongs to a row — `telegram_message_id` is `unique`
    (main.py:44).
- An update stores the raw `entry.title` (main.py:124), while a create stores
  the stripped title (main.py:98, main.py:138).
- A message id of `0` is treated like "no id", as `not article.telegram_message_id`
  treats it (main.py:110). The predicates `Publisher.Truthy` and
  `Publisher.IsEdit` are the definitions of Python's truth test at
  main.py:110, main.py:209 and main.py:232; their consequences are proved in
  `MessageRequest`, `Decide` and `RepairStep`.
- On the edit path, `send_message` sends a new photo instead of an edit when
  `entry.updated` is empty (main.py:209). The id that send returns is thrown
  away (main.py:118).
- A non-200 reply to a call without a truthy message id raises only for 4xx
  and 5xx statuses, because that is when `raise_for_status` raises
  (main.py:237-239). Any other non-200 status falls through and the body's
  message id is read. A non-200 reply to a call with a truthy id returns that
  id (main.py:232-235).
- The two non-ASCII literals of the caption are taken exactly as the file
  holds them (main.py:200, main.py:207). They are the Windows-1252 reading of
  the UTF-8 bytes of an em dash and of a newspaper emoji.
- `ndiff` over two strings yields only `' '`, `'+'` and `'-'` lines. Its `'?'`
  hint lines come only from comparing similar multi-character lines, and
  single characters never qualify, so the edit script has no fourth kind of
  step.

The two splice loops of `get_diff` are the same loop on different data. They
are one method, `MarkGroups`, called twice. `RenderWrapsGroup` states the
offset bookkeeping with the group's boundaries passed as named arguments.

## Model

| member | source | states |
|---|---|---|
| Text.TrimStartSpec | main.py:82 | `lstrip` drops a prefix made only of whitespace; what remains is a suffix of the input and does not start with whitespace |
| Text.TrimEndSpec | main.py:82 | `rstrip` drops a suffix made only of whitespace; what remains is a prefix of the input and does not end with whitespace |
| Text.Strip | main.py:98 | `strip()` never lengthens the title and leaves whitespace at neither end |
| Text.StripSpec | main.py:98 | `strip()` keeps the contiguous middle of the title that starts after the leading whitespace; everything it drops before and after that middle is whitespace |
| Text.StripIdempotent | main.py:98 | stripping twice is stripping once |
| Text.StripFixesTrimmed | main.py:98 | a string with no whitespace at either end is its own strip |
| Text.Replace | main.py:317 | `replace(c, rep)` leaves no `c` when `rep` has none, adds no characters outside the input and `rep`, is the identity when `c` is absent, and never shrinks the input when `rep` is not empty |
| Text.ReplaceConcat | main.py:317 | one-character replacement distributes over concatenation |
| Text.TelegramEscape | main.py:316-317 | the output has no `<` and no `>`, is the input itself when the input has no `&`, `<` or `>`, and is never shorter than the input |
| Text.TelegramEscapeConcat | main.py:316-317 | escaping distributes over concatenation |
| Text.TelegramEscapeChar | main.py:316-317 | each character escapes to its own entity, or to itself |
| Text.TelegramEscapeIsSinglePass | main.py:316-317 | the three chained replacements equal one left-to-right pass over the characters, so no `&` of an entity is escaped twice |
| Text.TelegramEscapeLength | main.py:316-317 | the output is 4 characters longer per `&` and 3 longer per `<` or `>` |
| Publisher.Hashtags | main.py:197-199 | the hashtag prefix is two characters longer per tag than the tag texts together; a non-empty prefix opens with `#` and closes with a space |
| Publisher.Caption | main.py:196-211 | the caption opens with the hashtag line (if any) and the escaped title in `<strong>`, and closes with the link line, or on an edit with the `EDIT:` line |
| Publisher.MessageRequest | main.py:209-229 | the call is `editMessageCaption` exactly when the id is truthy and the stamp is not empty, then addressed to that id; otherwise it is `sendPhoto` of the message's image |
| Publisher.Decide | main.py:231-241 | a reply raises exactly on a transport error, or on a 4xx/5xx for a call without a truthy id; a non-200 reply to a call with a truthy id returns that old id; any other reply returns the body's id, and a 200 always does |
| Publisher.SendNeverSoftFails | main.py:236-241 | a call without a message id either raises or returns the body's id |
| Publisher.SendMessage | main.py:195-241 | the loop over the tags builds the caption of `MessageRequest`, and the outcome is `Decide`'s |
| Publisher.EditCaptionExtendsSendCaption | main.py:209-218 | an edit goes to the stored message id, and its caption is the caption of a fresh send followed by the `EDIT:` line |
| Publisher.NotEditSendsPhoto | main.py:220-229 | without a truthy id and a non-empty stamp the call is a `sendPhoto` of the message image with the plain caption |
| Diff.Deleted | main.py:288-297 | there is one deletion flag per character of the first string |
| Diff.Removed | main.py:288-297 | `removed` never has more entries than the first string has characters |
| Diff.RemovedInRange | main.py:288-297 | every collected index is a position of the first string |
| Diff.RemovedIncreasing | main.py:288-297 | the collected indices are strictly ascending |
| Diff.RemovedMembers | main.py:288-297 | a position is collected exactly when the script deletes the character there |
| Diff.RemovedAreDeletedPositions | main.py:288-297 | the collected indices are exactly the deleted positions, ascending |
| Diff.RemovedEmpty | main.py:288-297 | nothing is collected exactly when the script has no `-` step |
| Diff.RemovedIndices | main.py:288-297 | the bookkeeping loop's `i + offset` collects the deleted positions of the first string, ascending, each once |
| Diff.Runs | main.py:299-313 | there are no groups exactly when there are no indices, and the last group ends with the last index |
| Diff.RunsFlatten | main.py:299-313 | the groups, concatenated, are the index list |
| Diff.RunsAreRuns | main.py:299-313 | every group is a non-empty run of consecutive integers |
| Diff.RunsSeparated | main.py:299-313 | for ascending indices, each group starts more than 1 after the previous group ends |
| Diff.GroupRuns | main.py:299-313 | the grouping loop returns the maximal runs: they concatenate to the input, each is a run, and for ascending input adjacent runs are more than 1 apart |
| Diff.GetDiffRemovals | main.py:285-313 | the groups concatenate to exactly the deleted positions of `first`, ascending; each group is a run, adjacent groups are apart; there are no groups exactly when the script deletes nothing; the groups mark slices of `first` |
| Diff.RunsSpan | main.py:299-313 | the groups of ascending positions in a string mark ascending, non-overlapping slices of it |
| Diff.Wrap | main.py:272-273 | wrapping a slice in `<b><u>`…`</u></b>` adds exactly 14 characters |
| Diff.Marked | main.py:268-273 | the text marked through the last group is 14 characters longer per group than the unmarked text it covers |
| Diff.Render | main.py:268-273 | the marked string is 14 characters longer per group, and with no groups it is the string itself |
| Diff.MarkGroups | main.py:268-273 | the splice loop with its running offset of 14 per group produces `Render` of the groups |
| Diff.RenderWrapsGroup | main.py:270-273 | in the result, group `k`'s characters and the plain characters before them stand `14 * k` places to the right of their original positions, with the group wrapped in the tags |
| Diff.RenderUnmark | main.py:268-273 | removing the inserted tags from the result gives back the original string |
| Diff.Highlight | main.py:264-282 | each string of the result is 14 characters longer per removed run |
| Diff.GetDiff | main.py:264-282 | each string comes back with the runs its own script deletes wrapped in the tags |
| Diff.HighlightUnchanged | main.py:264-282 | a string comes back unchanged exactly when its script deletes nothing |
| Engine.Lookup | main.py:106 | the index `get_or_none` yields is a row of the table |
| Engine.LookupFindsFirst | main.py:106 | the lookup yields the first row with the link, and nothing exactly when no row has it |
| Engine.LookupIs | main.py:69 | the first row with the link is the one the lookup returns |
| Engine.Reversed | main.py:68 | `reversed` has the same length and puts entry `n - 1 - i` at position `i` |
| Engine.MessageOf | main.py:97-103 | the message carries the entry's link and the scraped tags, and a title that is the stripped entry title: no longer, with whitespace at neither end |
| Engine.Seed | main.py:80-89 | a seeded row has the entry's link and `updated`, a stripped title and no message id |
| Engine.Created | main.py:137-145 | a created row has the entry's link and `updated`, a stripped title and the message id the send returned |
| Engine.Seeds | main.py:79-90 | seeding gives one row per entry, in order, each the entry's `Seed` row |
| Engine.FirstRunRows | main.py:77-91 | one seed row per entry, the oldest entry's row first: row `i` is the `Seed` row of entry `n - 1 - i` |
| Engine.ArticleStore.FirstRun | main.py:77-91 | appends the seed rows of the reversed feed to the table and keeps message ids unique |
| Engine.ArticleStore.ProcessNewArticle | main.py:94-145 | the new table, the requests sent and whether an exception escapes are `ProcessSpec`'s, and message ids stay unique |
| Engine.ProcessSpec | main.py:94-145 | `process_new_article` makes at most one Bot API call and adds at most one row; when an exception escapes it the table is as it was, and a failed page fetch escapes before anything is sent |
| Engine.IsNewer | main.py:71 | an entry whose link no row has is new; otherwise it is newer exactly when its `updated` is strictly greater than that of the first row with its link |
| Engine.CheckStep | main.py:69-72 | one iteration of the loop makes at most one Bot API call and adds at most one row, and leaves the table as it was when an exception escapes |
| Engine.CheckSpec | main.py:59-74 | a whole `check` makes at most one Bot API call per feed entry |
| Engine.ArticleStore.CheckEntry | main.py:69-72 | the pass computes the test of main.py:71 on the table and calls `process_new_article` only when it holds; the new table, the requests and whether an exception escapes are `CheckStep`'s |
| Engine.ArticleStore.Check | main.py:59-74 | the new table, the requests sent and whether the cycle ended early are `CheckSpec`'s: a first run on an empty table, the loop otherwise |
| Engine.ArticleStore.Cycle | main.py:68-72 | the loop over the reversed feed is `Run` with `CheckStep`; an escaping exception ends it |
| Engine.FirstRunShape | main.py:64-66 | on an empty table `check` sends nothing and stores one row per entry, oldest entry first, each without a message id |
| Engine.FirstRunChronological | main.py:79 | a feed listed newest first is seeded in ascending publication order |
| Engine.SkipStep | main.py:71-72 | an entry that is not newer than the first row with its link leaves the table alone and sends nothing |
| Engine.RepairStep | main.py:110-115 | a matched row whose id is `None` or `0` has only its `updated` set to the entry's; nothing is sent, and no other row changes |
| Engine.EditStep | main.py:117-127 | a matched row with an id gets exactly one call, an edit of that id when the entry has an update stamp; a raised call leaves the table unchanged; any HTTP reply, even a failed edit, sets the row's title and `updated` to the entry's and keeps its link and id, and no other row changes |
| Engine.CreateStep | main.py:129-145 | an unmatched entry is sent once as a new photo; a raised send stores nothing; otherwise exactly one row is appended, holding the id the reply gave, unless that id is already taken, when the insert raises and the cycle ends with the table unchanged |
| Engine.FailedPublishIsRetried | main.py:117-136 | after an edit or send that raised (a transport error, or a 4xx/5xx reply to a send), the table is unchanged, so the entry is still newer than its row in the next cycle, which makes the same call |
| Engine.ProcessKeepsUniqueIds | main.py:94-145 | every path of `process_new_article` keeps the message ids unique |
| Engine.StepKeepsUniqueIds | main.py:68-72 | one iteration of `check` keeps the message ids unique |
| Engine.StepPersists | main.py:68-72 | one iteration only appends rows; it never changes a row's link, id, publication time, description or image, and never lowers its `updated` |
| Engine.PersistsTrans | main.py:68-72 | what `Persists` keeps is kept across successive iterations |
| Engine.Run | main.py:68-72 | the loop collects the steps' requests in order: the requests of all but the last entry are a prefix of the whole run's; it stops at the first aborting step, proved in `AbortSticks` |
| Engine.AbortSticks | main.py:68-72 | once an exception escapes, the later entries change nothing |
| Engine.RunRelates | main.py:68-72 | a relation that is reflexive, transitive and holds across each step, holds across the whole loop |
| Engine.RunSendBound | main.py:68-72 | steps of at most one call each make at most one call per entry |
| Engine.CheckKeepsUniqueIds | main.py:59-74 | a whole `check` keeps the message ids unique |
| Engine.CheckPersists | main.py:59-74 | a whole `check` only appends rows, never clears or changes a message id, and never lowers `updated` |

## Left out

- Feed parsing (`feedparser.parse`, `time.mktime`, `time.time`) is not modelled. Entries arrive as records with integer timestamps and the raw `updated` text. An entry missing a link, title or image link is outside the model.
- `strip_description` (main.py:319-323) is not modelled. It uses regular expressions with greedy `.*` and Unicode `\s`, and the entry carries its result.
- HTTP and HTML are not modelled: the requests of `send_message`, `fetch_article_details` and `send_log`, and the BeautifulSoup tag scraping. Tags are a given list, and a failed page fetch is `None`.
- `download_image` is not modelled. It is network and file I/O, and nothing in the core calls it.
- `send_log` is not modelled. Its call is commented out (main.py:123), and the `get_diff` it would use is modelled.
- `clean()` is not modelled. It deletes image files and runs one SQL query that keeps the 200 newest rows.
- The scheduler, logging, environment variables and database setup are not modelled (main.py:21-34, main.py:337-351). Logging has no effect on the state.
- Engine.ArticleStore.ProcessNewArticle: a reply body that is not JSON or lacks `result.message_id` is not modelled. A reply always carries an id.
- Engine.FirstRunChronological: it assumes a newest-first feed. The code only promises reversed feed order, so the publication order of the seeded rows is stated under that assumption.
- Diff.RenderUnmark: it requires a string without `<`. `send_log` passes escaped titles, which have none. A string that holds the tag text itself cannot be told apart from the inserted markup.
- Diff.GetDiffRemovals: `ndiff`'s matching is an input, so the model proves no minimality of the edit script.
- Rows are values in the table's sequence. Assigning fields of a fetched `Article` and then calling `save()` is one replacement of that row, so no two Python objects alias the same row.
