# User-profile data preparation, modelled in Dafny

This project models the logic that prepares social-media user histories for
profile generation. It covers two Python files.

- `dataset/profile_generate.py` walks a user's nested history record: a list
  of articles, each with its text, image and video URLs, and comment groups;
  each group has a parent comment and the user's replies. From that record it
  - collects the distinct image and video URLs;
  - builds two bounded text digests (the "content summary" and the "text
    summary");
  - computes an offline analysis (counts, media flag and samples, topic
    keywords);
  - assembles the chat request: model choice, a text-only or a multimodal
    message;
  - cuts the JSON document out of the service's reply (markdown fences,
    `strip`).
- `dataset/data_process.py` selects rows from a table of comment rows: the
  rows of one user, the per-user row counts in decreasing order, and the rows
  of the most frequent users. Each of the three raises an error when the
  user-id column is missing.

Files and modules:

| file | module | contents |
|---|---|---|
| `history.dfy` | `History` | record datatypes; `Gather`, the in-order traversal every consumer performs |
| `media_urls.dfy` | `MediaUrls` | URL collection |
| `summaries.dfy` | `Summaries` | the two bounded digests |
| `analysis.dfy` | `ManualAnalysis` | the offline analysis |
| `messages.dfy` | `Messages` | model choice, prompt values, message parts, the request |
| `text.dfy` | `Text` | Python's `in`, `find`, `rfind`, slicing and `strip` on strings |
| `reply.dfy` | `ReplyText` | fence extraction from the reply |
| `data_process.dfy` | `DataProcess` | table selection and counting |

The Python loops are Dafny methods with loop invariants. Each method is proved
equal to a recursive specification function, and the properties the code
promises are lemmas about those functions. `data_process.py` consists of
single pandas expressions, so it is modelled with functions and lemmas only.

In the tables below, a "plain fence" is three backticks (`ReplyText.FENCE`) and a "json fence" is three backticks followed by `json` (`ReplyText.JSON_FENCE`).

## Model

| member | source | states |
|---|---|---|
| MediaUrls.CollectUrls | dataset/profile_generate.py:505-528 | the URLs of one kind in traversal order (each article's own URLs, then its groups in order, replies in order), filtered to non-empty "http" strings and de-duplicated at first occurrence; no duplicates; a URL is returned iff it occurs in the record and starts with "http" |
| MediaUrls.CollectImageUrls | dataset/profile_generate.py:501-528 | the distinct "http" image URLs of the record in first-seen order, exactly those occurring in it |
| MediaUrls.CollectVideoUrls | dataset/profile_generate.py:531-558 | the distinct "http" video URLs of the record in first-seen order, exactly those occurring in it |
| MediaUrls.UniqueHttpContents | dataset/profile_generate.py:521-526 | the de-duplicating pass yields no duplicates, and keeps a URL iff it is in the input and non-empty starting with "http" |
| MediaUrls.UniqueHttpFirstSeenOrder | dataset/profile_generate.py:521-526 | the kept URLs are ordered by the position of their first occurrence in the input |
| MediaUrls.UniqueHttpLength | dataset/profile_generate.py:521-526 | the pass never returns more URLs than it is given |
| Summaries.CappedReplies | dataset/profile_generate.py:479-488 | the replies of one group up to the per-article cap: the comment counter equals the comment lines written and never passes the cap; below the cap every reply with text is listed, at the cap the listing stops right after a reply with text |
| Summaries.CappedCommentLines | dataset/profile_generate.py:474-491 | the capped comment listing of an article equals the uncapped listing (the first 3 replies of each group with non-empty text, each naming its parent; with a heading per group in the content summary's loop at lines 117-136) cut right after its cap-th comment line |
| Summaries.TakeCommentsCount | dataset/profile_generate.py:486-491 | the cut keeps a prefix of the listing holding min(cap, all) comment lines |
| Summaries.CommentLinesCount | dataset/profile_generate.py:479-481 | the uncapped listing has one comment line per reply with text among the first 3 of each group, at most 3 per group, and no separator |
| Summaries.CappedListing | dataset/profile_generate.py:474-491 | an article's capped listing holds exactly min(cap, eligible replies) comment lines and at most 3 per group |
| Summaries.BuildTextContentSummary | dataset/profile_generate.py:455-498 | the lines written are, for the first min(n, 2) articles, the numbered heading and full text when the text is non-empty, the comments banner and the listing capped at 8 when there are comment groups, then an empty line |
| Summaries.BuildContentSummary | dataset/profile_generate.py:92-143 | the lines written are, for the first min(n, 3) articles, the heading with the article id and the first 200 characters followed by "..." when the text is non-empty, the heading with the group count and the listing capped at 10 when there are comment groups, then an empty line |
| Summaries.TextSectionCounts | dataset/profile_generate.py:466-493 | each text-summary section has min(8, eligible replies) comment lines (none without comment groups), and exactly one separator; the counter restarts for each article |
| Summaries.ContentSectionCounts | dataset/profile_generate.py:109-138 | each content-summary section has min(10, eligible replies) comment lines and one separator, and its excerpt is at most 200 characters of the article text, a prefix of it |
| Summaries.TextSummaryFirstArticles | dataset/profile_generate.py:495-496 | the text summary depends only on the first 2 articles |
| Summaries.ContentSummaryFirstArticles | dataset/profile_generate.py:140-141 | the content summary depends only on the first 3 articles |
| Summaries.SummarySectionCounts | dataset/profile_generate.py:461-496 | the text summary has min(n, 2) article sections and the content summary min(n, 3) |
| ManualAnalysis.AnalyzeUserContent | dataset/profile_generate.py:213-289 | article count = number of articles; total comments = sum of all group sizes; image/video totals = number of all image/video URLs of articles and replies; URL samples = first 2 per article and first 1 per reply, in traversal order; text samples = 100-character excerpts of non-empty article texts; media flag iff the totals are non-zero iff some article or reply carries media; keywords = those of the fixed list found in the space-joined texts |
| ManualAnalysis.TallyArticles | dataset/profile_generate.py:243-281 | the single pass over the record accumulates exactly the tally of the record (each article, then its groups, then their replies) |
| ManualAnalysis.TallyArticle | dataset/profile_generate.py:245-259 | one article adds its text and excerpt when non-empty, its media counts, its first two URLs of each kind and sets the flag when it has media |
| ManualAnalysis.TallyGroups | dataset/profile_generate.py:263-265 | each group adds its reply count, then its replies, in order |
| ManualAnalysis.TallyReplies | dataset/profile_generate.py:267-281 | the replies of a group are tallied in order |
| ManualAnalysis.TallyReply | dataset/profile_generate.py:268-281 | one reply adds its text when non-empty, its media counts, its first URL of each kind and sets the flag when it has media |
| ManualAnalysis.ItemTallyFields | dataset/profile_generate.py:268-281 | what a reply contributes, field by field |
| ManualAnalysis.ArticleTallyFields | dataset/profile_generate.py:245-259 | what an article contributes, field by field |
| ManualAnalysis.RecordMedia | dataset/profile_generate.py:250-281 | some media URL is counted iff some article or some reply has a non-empty image or video list |
| ManualAnalysis.RecordUrlSamples | dataset/profile_generate.py:255-278 | the URL samples are URLs of the record of that kind, at most as many as all of them and at most 2 per article plus 1 per reply |
| ManualAnalysis.RecordContentSamples | dataset/profile_generate.py:245-248 | at most one text sample per article, each the first 100 characters of a non-empty article text followed by "..." |
| ManualAnalysis.ArticleTextCollected | dataset/profile_generate.py:245-247 | every non-empty article text is among the texts searched for keywords |
| ManualAnalysis.KeywordsIn | dataset/profile_generate.py:286 | a keyword is reported iff it is in the list and occurs in the text; never more than the list |
| ManualAnalysis.KeywordsInOrder | dataset/profile_generate.py:286 | the reported keywords keep the order of the list, without repetition |
| ManualAnalysis.JoinedContains | dataset/profile_generate.py:284-286 | a keyword without spaces occurs in the space-joined text iff it occurs in one of the texts |
| ManualAnalysis.KeywordsReported | dataset/profile_generate.py:284-287 | for space-free keywords: reported iff found in some text, in list order, without repetition |
| ManualAnalysis.RecordKeywordsReported | dataset/profile_generate.py:284-287 | the fixed keywords reported for a record are those found in some non-empty article or reply text, in list order |
| Messages.SelectModelProperties | dataset/profile_generate.py:27-30 | "qwen-max" and "qwen-vl-max" are switched to match the mode, other names pass unchanged, choosing twice changes nothing |
| Messages.PrepareRequest | dataset/profile_generate.py:26-52 | a record without articles yields the "not enough history" error with its uid, and only such a record; otherwise the request uses the chosen model and the multimodal or text-only message as the mode says |
| Messages.BuildMultimodalMessages | dataset/profile_generate.py:292-380 | a single user message whose parts are the prompt, then a part per "http" URL among the first 3 distinct image URLs, then per "http" URL among the first 2 distinct video URLs |
| Messages.MultimodalPartsLayout | dataset/profile_generate.py:355-371 | the message has 1 + min(3, distinct images) + min(2, distinct videos) parts, the text part first, every shown URL starts with "http", and the "http" filter of the part loops drops nothing |
| Messages.MediaPartsOfHttpUrls | dataset/profile_generate.py:358-371 | URLs that all start with "http" become one part each, in order |
| Messages.BuildTextOnlyMessages | dataset/profile_generate.py:383-452 | a single user message whose content is the prompt filled with the uid, the text summary and the distinct image and video counts |
| Messages.PromptsAgree | dataset/profile_generate.py:395-412 | both modes fill the prompt with the same values; the counts never exceed the number of URLs in the record |
| Text.Find | dataset/profile_generate.py:67-68 | `find` returns the first occurrence at or after the start, or -1 when there is none |
| Text.RFind | dataset/profile_generate.py:72 | `rfind` returns the last occurrence, or -1 when there is none |
| Text.SliceBound | dataset/profile_generate.py:69 | a slice bound inside the text is kept, a negative one counts from the end, one past the end reads as the end, and one before the start reads as 0 |
| Text.PySliceInPythonTerms | dataset/profile_generate.py:69-73 | bounds inside the text select the piece between them, an upper bound of -1 stops before the last character, crossed bounds or a start at or past the end give "", and an upper bound past the end reads as the end |
| Text.StripProperties | dataset/profile_generate.py:61 | `strip` leaves a piece of the input, with only whitespace cut on either side and none left at either end; stripping again changes nothing |
| ReplyText.ExtractJsonAsWritten | dataset/profile_generate.py:66-73 | the extraction as written never lengthens the text and leaves fence-free text unchanged |
| ReplyText.ExtractJson | dataset/profile_generate.py:66-73 | the corrected extraction never lengthens the text and leaves fence-free text unchanged |
| ReplyText.JsonFenceRoundTrip | dataset/profile_generate.py:66-69 | a body without backticks inside a closed json fence is returned exactly, by both versions |
| ReplyText.UnclosedJsonFence | dataset/profile_generate.py:66-69 | with an unclosed json fence the code as written drops the last character of the body; the corrected version returns it whole |
| ReplyText.SinglePlainFenceBody | dataset/profile_generate.py:70-73 | with a single plain fence the code as written returns ""; the corrected version returns the text after the fence |
| ReplyText.PlainFenceRoundTrip | dataset/profile_generate.py:70-73 | a body without backticks between two plain fences, followed by text without backticks, is returned exactly, by both versions |
| ReplyText.UnclosedJsonFenceExample | dataset/profile_generate.py:66-69 | the json fence followed by "{}" gives "{" as written and "{}" corrected |
| ReplyText.SinglePlainFenceExample | dataset/profile_generate.py:70-73 | a plain fence followed by "{}" gives "" as written and "{}" corrected |
| ReplyText.CleanUnfenced | dataset/profile_generate.py:61-75 | a reply without fences reaches the JSON parser only stripped, both as written and corrected |
| ReplyText.CleanJsonFenced | dataset/profile_generate.py:61-75 | a stripped reply with a closed json fence reaches the parser as the stripped body, both as written and corrected |
| ReplyText.CleanUnclosedJsonFence | dataset/profile_generate.py:61-75 | a stripped reply whose json fence is never closed reaches the parser as the stripped body without its last character; the corrected cleaning hands over the stripped body |
| DataProcess.SelectUserData | dataset/data_process.py:38-53 | fails with the missing-column error iff the column is absent; otherwise a table with the same columns |
| DataProcess.SelectUserDataRows | dataset/data_process.py:53 | the selected rows are exactly the input rows whose id equals the user id |
| DataProcess.RowsWithUidInMembers | dataset/data_process.py:74 | a row is kept iff it is an input row whose id is present and among the given ids |
| DataProcess.RowsWithUidInOrder | dataset/data_process.py:53 | the kept rows sit at increasing input positions, and every matching position is kept: all matching rows, in original order |
| DataProcess.CountUsersFrequency | dataset/data_process.py:22-35 | fails with the missing-column error iff the column is absent |
| DataProcess.ValueCountsEntries | dataset/data_process.py:35 | each id present appears exactly once with its number of rows, which is positive; no other id appears; missing ids are not counted |
| DataProcess.ValueCountsOrder | dataset/data_process.py:35 | counts are non-increasing, sum to the number of rows with an id, and are a reordering of the per-id counts |
| DataProcess.SumOfCounts | dataset/data_process.py:35 | the per-id counts add up to the rows whose id is not missing |
| DataProcess.DistinctUidsContents | dataset/data_process.py:35 | the distinct ids are exactly the ids present, without repetition |
| DataProcess.CountUidPositive | dataset/data_process.py:35 | an id has a positive count iff some row carries it |
| DataProcess.SortByCountSorted | dataset/data_process.py:35 | the sort by count yields non-increasing counts |
| DataProcess.SortByCountMultiset | dataset/data_process.py:35 | the sort by count only reorders the entries |
| DataProcess.Head | dataset/data_process.py:71 | `head(n)` is a prefix: n entries (or all, when fewer) for n >= 0, all but the last -n for n < 0 |
| DataProcess.SaveUserData | dataset/data_process.py:56-77 | fails with the missing-column error iff the column is absent; otherwise a table with the same columns |
| DataProcess.TopUsersMostFrequent | dataset/data_process.py:70-71 | for n >= 0 the top users are the first min(n, distinct ids) entries of the frequency ordering, each with at least as many rows as any user left out |
| DataProcess.SaveUserDataRows | dataset/data_process.py:74 | the kept rows are exactly the input rows whose id is among the top users |

## Left out

- The prompt wording and the line wording of both summaries are left out. They are fixed Chinese templates. A `Prompt` holds the values filled in, and a summary is a list of structured `Line` values. The newline join of the summary is not modelled.
- The OpenAI-compatible client, the network call and its options are left out. So are `json.loads` of the cleaned reply and the error records built from parse or API failures: these are foreign calls and a remote service. `Messages.PrepareRequest` stops where the call would be made, and `ReplyText.CleanReplyAsWritten` is the text handed to the parser (`ReplyText.CleanReplyCorrected` is the same with the corrected extraction).
- `agent/llm/llm_api.py` is not part of this model. It only forwards to the chat-completion API.
- `process_user_histories`, `test_content_summary` and both `__main__` blocks are left out: they are file and console I/O.
- The generator wrappers that only pick a mode and call `generate_user_profile` are left out.
- `load_data` and the `to_csv` write of `save_user_data` are left out: they are file I/O. A table is modelled as its column list and its rows; a NaN cell is `None`.
- DataProcess.ValueCounts: pandas does not specify the order among users with equal counts. The model orders ties by first appearance, and the lemmas state only what holds for any tie order.
- Record values that are not strings or lists (for example a `None` where a list is expected) are not modelled. Absent keys read as `""` or `[]`, as the code's `.get` defaults do.
- The article caps (`if i >= 2: break`, `if i >= 3: break`) are modelled as the loop bound `min(len(articles), cap)`. Both forms process the same articles.

## Findings

| source | as written | input that shows it | evidently intended | confidence | as-written member | corrected member |
|---|---|---|---|---|---|---|
| dataset/profile_generate.py:66-69 | when the json fence is never closed, `find` returns -1 and the slice `[start:-1]` drops the last character of the document | the reply JSON_FENCE + "{}" (three backticks, then json{}) gives "{", so the JSON parse fails | the text after the opening fence up to the end (proved in ReplyText.UnclosedJsonFence) | medium; not executed | ReplyText.UnclosedJsonFenceExample | ReplyText.ExtractJson |
| dataset/profile_generate.py:70-73 | with a single plain fence, `rfind` finds that same fence, so the slice bounds cross and the result is empty | the reply FENCE + "{}" (three backticks, then {}) gives "", so the JSON parse fails | the text after the fence up to the end (proved in ReplyText.SinglePlainFenceBody) | medium; not executed | ReplyText.SinglePlainFenceExample | ReplyText.ExtractJson |
