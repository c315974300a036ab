# MarkMe: the Markdown renderer and the document collection

MarkMe is a browser Markdown editor. Pages are written in Markdown, rendered to HTML and kept in the browser's local storage. Every saved page expires thirty days after its last save unless it is extended. This project models two parts of it and proves properties of the model.

**The renderer.** `renderMarkdown` (src/lib/markdown.ts) returns the empty string for empty input. Otherwise it runs twenty-one global regular-expression replacements in a fixed order, then hands the result to an HTML sanitiser. The model has these parts:
- **Regex module:** the part of JavaScript regular expressions those passes use.
  - `^` and `$` under the `m` flag.
  - `.` does not match line terminators.
  - The full `\s` class.
  - The lazy `.*?` capture.
  - The greedy link label that backtracks to the longest label that still lets the rest match.
- **Scan:** one scanner with the semantics of `String.prototype.replace` with the `g` flag. It takes the leftmost match, writes its replacement, resumes after it, and copies every character at which no match starts.
- **Markdown module:** the twenty-one passes as patterns, grouped into the seven stages of the source (headers, emphasis, links and images, lists, blockquotes, code, line breaks), and the renderer as their composition.
- **Fact modules:** one per stage. They prove what each stage does to the inputs it is meant for. They also prove the consequences of the pass order:
  - links are rewritten before images, so a plain image comes out as `!` and an anchor;
  - fenced code is matched after the header pass, so fence contents are not kept literally.

**The document collection.** src/lib/storage.ts keeps the documents as one list in local storage. The model has these parts:
- a data model;
- pure functions for the rules: the expiry filter, search by id, the update-or-append save, delete, extend, and the example document;
- the class `Storage.DocStore`, whose `docs` field stands for the stored list. Its methods change it as the source's functions do. The field `docsWrites` counts how many times the list is written back, so the "write back only when something was dropped" rule can be stated.

The clock and the generated id are method parameters: `now` is a timestamp in milliseconds, and `newId` is the id a new document would get.

Files:
- wrappers.dfy: `Option`.
- regex.dfy: character classes, matchers, `Scan`, `ReplaceAll`, `ReplaceEach`.
- scanning.dfy: general lemmas about the scanner.
- markdown.dfy: the passes, the stages, `Render`, the line-break stage.
- The stage facts:
  - header_facts.dfy
  - emphasis_facts.dfy
  - link_facts.dfy
  - list_facts.dfy
  - quote_facts.dfy
  - code_facts.dfy
- render_facts.dfy: one input followed through every stage of `Render`.
- storage.dfy: the document collection.

## Model

| member | source | states |
|---|---|---|
| Regex.MatchLineStart | src/lib/markdown.ts:11-14 | `^marker(.*$)` under `m` matches exactly at a line start where the marker begins. The capture runs to the next line terminator or the end, holds no line terminator, and is wrapped in the open and close tags. |
| Regex.MatchNumberedLine | src/lib/markdown.ts:31 | `^([0-9]+)\. (.*$)` matches only at a line start on a digit. The digit run must be followed by `. `, the number is dropped, and the rest of the line is captured as with `.*$`. |
| Regex.MatchLazy | src/lib/markdown.ts:17-20 | A match of `d(.*?)d` starts with the delimiter and ends with it. The capture lies between the two delimiters and is wrapped in the tags. |
| Regex.FindSpec | src/lib/markdown.ts:17-20 | The lazy search returns the first occurrence of the closing delimiter at or after the start, and never crosses a line terminator when `.` is in force. A miss means there is no such occurrence. |
| Regex.MatchEnclosed | src/lib/markdown.ts:45 | `` `([^`]+)` `` matches from a backtick to the next backtick, with a non-empty capture free of backticks. |
| Regex.EnclosedMatches | src/lib/markdown.ts:45 | Conversely, a backtick, a non-empty run free of backticks and a backtick always match, up to that second backtick, and the run is wrapped in `<code>` tags. |
| Regex.LinkTryLongest | src/lib/markdown.ts:23 | The backtracking label search returns the longest label end at which `](url)` fits. When it finds none, none fits. |
| Regex.LinkPartsSpec | src/lib/markdown.ts:23 | A link match has these parts: a non-empty label free of `[`, `](`, a non-empty url free of `)`, and `)`. No longer label fits. When there is no match, no label end fits. |
| Regex.MatchGap | src/lib/markdown.ts:34-35 | `left\s*right` matches the left tag, white space only, then the right tag, and writes the replacement. |
| Scanning.ScanNoMatch | src/lib/markdown.ts:11-51 | A global replace over text where no match starts anywhere leaves it unchanged. |
| Scanning.ScanLines | src/lib/markdown.ts:11-14 | A pass whose matches stay on one line acts on each line separately. |
| Scanning.GapJoins | src/lib/markdown.ts:34-35 | A close tag, white space and an open tag are replaced as a whole, and the scan resumes after them. |
| Markdown.Breaks | src/lib/markdown.ts:48-51 | After the two line-break passes no `\n` is left. The final pass changes its input only by deleting white space between two `<br>` tags. |
| Markdown.NewlinesGone | src/lib/markdown.ts:48 | The `\n` pass leaves no `\n`. |
| Markdown.BrRunCollapses | src/lib/markdown.ts:51 | The `<br>\s*<br>` pass relates its input and output by `Collapsed`: the output is the input with the white space between some pairs of `<br>` removed, and nothing else changed. |
| Markdown.CollapsedLacks | src/lib/markdown.ts:51 | A character found neither in the input nor in `<br>` is not in the collapsed output. |
| Markdown.Render | src/lib/markdown.ts:5-51 | Empty input gives the empty string. Any other input gives HTML with no `\n` left. |
| HeaderFacts.HeaderLine | src/lib/markdown.ts:11-14 | A line of exactly k `#` (1 to 4), a space and the rest becomes `<hk>rest</hk>` after all four header passes. |
| HeaderFacts.ManyHashes | src/lib/markdown.ts:11-14 | A line starting with five or more `#` is unchanged by all four header passes. |
| HeaderFacts.UnmarkedLine | src/lib/markdown.ts:11-14 | A line that does not start with `#` is unchanged by the header passes. |
| HeaderFacts.HeadersByLine | src/lib/markdown.ts:11-14 | The header stage acts on each line separately. |
| EmphasisFacts.BoldThenItalic | src/lib/markdown.ts:17-20 | `**x**y*z*`, with plain parts and a non-empty `z`, becomes `<strong>x</strong>y<em>z</em>`. |
| EmphasisFacts.BoldAndItalicExample | src/lib/markdown.ts:17-20 | `**bold** and *italic*` becomes `<strong>bold</strong> and <em>italic</em>`. |
| EmphasisFacts.ItalicLeavesOneStar | src/lib/markdown.ts:18 | After the `*` pass, any two `*` on the output are separated by a line terminator. |
| EmphasisFacts.ItalicULeavesOneUnderscore | src/lib/markdown.ts:20 | After the `_` pass, any two `_` on the output are separated by a line terminator. |
| LinkFacts.LinkWhole | src/lib/markdown.ts:23 | `[label](url)` becomes `<a href="url">label</a>`. The label must be non-empty and free of `[`; the url must be non-empty and free of `)` and `]`. |
| LinkFacts.LinkRendered | src/lib/markdown.ts:23-26 | A link whose label is non-empty and free of `[`, and whose url is non-empty and free of `)`, `]` and `[`, goes through both the link and the image pass as one anchor. |
| LinkFacts.LongestLabelExample | src/lib/markdown.ts:23 | The label backtracks only as far as it must: `[a](b](c)` becomes an anchor with label `a](b` and url `c`. |
| LinkFacts.NoArrowNoAnchor | src/lib/markdown.ts:23 | Text in which `](` occurs nowhere is unchanged by the link pass. |
| LinkFacts.NoCloseExample | src/lib/markdown.ts:23 | `[no-close(url)` is unchanged by the link pass and contains no `<`, so no `<a`. |
| LinkFacts.ImageShadowed | src/lib/markdown.ts:23-26 | `![alt](url)` becomes `!<a href="url">alt</a>`, because the link pass runs first. The alt text must be non-empty and free of `[`, and the url non-empty and free of `)`, `]` and `[`. |
| LinkFacts.ImageExample | src/lib/markdown.ts:23-26 | `![alt](url)` becomes `!<a href="url">alt</a>`. |
| ListFacts.StarItem | src/lib/markdown.ts:29-31 | A `* a` line becomes a one-item unordered list after the three item passes. |
| ListFacts.DashItem | src/lib/markdown.ts:29-31 | A `- a` line becomes a one-item unordered list after the three item passes. |
| ListFacts.NumberItem | src/lib/markdown.ts:29-31 | A `d. x` line becomes a one-item ordered list, and the number is dropped. |
| ListFacts.TwoBulletsOneList | src/lib/markdown.ts:29-35 | Two consecutive unordered item lines, each starting with `* ` or `- `, become one list of two items. |
| ListFacts.TwoBulletsExample | src/lib/markdown.ts:29-35 | `* a\n* b` and `* a\n- b` both become `<ul><li>a</li><li>b</li></ul>`. |
| ListFacts.NumberedList | src/lib/markdown.ts:29-35 | A single numbered line becomes a single ordered list without its number, through the whole list stage. |
| ListFacts.NumberedExample | src/lib/markdown.ts:29-35 | `3. x` becomes `<ol><li>x</li></ol>`. |
| ListFacts.BulletThenNumber | src/lib/markdown.ts:29-35 | An unordered item line directly followed by a numbered one stays as two separate lists. |
| QuoteFacts.TwoQuotedLines | src/lib/markdown.ts:38-39 | `> a\n> c` becomes one blockquote `<blockquote>a<br>c</blockquote>`. |
| QuoteFacts.TwoQuotedLinesExample | src/lib/markdown.ts:38-39 | `> a\n> b` becomes `<blockquote>a<br>b</blockquote>`. |
| CodeFacts.FenceWhole | src/lib/markdown.ts:42-45 | A fenced block with no backtick inside becomes `<pre><code>…</code></pre>`, and the inline pass leaves it alone. |
| CodeFacts.InlineWhole | src/lib/markdown.ts:42-45 | A single-backtick span becomes `<code>…</code>`, and the fence pass leaves it alone. |
| CodeFacts.HeadersOfFenced | src/lib/markdown.ts:11-14 | The header stage turns the `# r` line between two fence lines into `<h1>r</h1>` and leaves the fence lines alone. |
| RenderFacts.EmphasisIdle | src/lib/markdown.ts:17-20 | Text with no `*` and no `_` is unchanged by the emphasis stage. |
| RenderFacts.LinksIdle | src/lib/markdown.ts:23-26 | Text with no `[` is unchanged by the link and image passes. |
| RenderFacts.FenceRendered | src/lib/markdown.ts:5-51 | The whole renderer turns "```\n# r\n```" into `<pre><code><br><h1>r</h1><br></code></pre>`. The header pass runs first, so fence contents are not kept as written. `r` is one line with no `*`, `_`, `[`, `<` or backtick. |
| Storage.Keep | src/lib/storage.ts:24-30 | The filter returns no more documents than it was given. |
| Storage.KeepMembers | src/lib/storage.ts:24-30 | The filter keeps exactly the documents that pass the criterion, in both directions. |
| Storage.KeepAppend | src/lib/storage.ts:24-30 | The filter keeps the original order: filtering a concatenation filters each part. |
| Storage.KeepDrops | src/lib/storage.ts:24-35 | The filter shortens the list exactly when some document fails it. When it keeps the length, it keeps the list unchanged. This is the write-back condition. |
| Storage.KeepIdempotent | src/lib/storage.ts:24-30 | Filtering twice is filtering once. |
| Storage.UnexpiredAllLive | src/lib/storage.ts:24-30 | Every document left by the expiry filter has no expiry, or one strictly after `now`. |
| Storage.AllLiveUnexpired | src/lib/storage.ts:24-30 | A list that is all live passes the expiry filter unchanged. |
| Storage.FindById | src/lib/storage.ts:43 | The search by id returns the first index whose id equals the key, or nothing when no index has it. |
| Storage.Lookup | src/lib/storage.ts:43 | The result is a document with the id exactly when one exists. It is the first document in the list with that id. |
| Storage.SaveUpdates | src/lib/storage.ts:58-70 | Saving with a known id keeps the length and replaces only that index. The new record is the old fields overlaid by the patch, with `updatedAt = now` and an expiry thirty days after `now`. |
| Storage.SaveAppends | src/lib/storage.ts:71-85 | Saving with an unknown id appends one record and keeps the others. Missing fields default to `now`, `now`, `[]`, thirty days, and the generated id. |
| Storage.NewRecordPatchWins | src/lib/storage.ts:73-82 | Every key the patch holds overrides the generated default, because the patch is spread last. This includes an `undefined` id. |
| Storage.SaveThenLookup | src/lib/storage.ts:41-87 | A document saved with an id is read back as the saved record after the expiry filter, when any expiry the patch gives is in the future. Other documents in the list may have expired. |
| Storage.SaveTwice | src/lib/storage.ts:47-87 | Saving the same patch twice at one time equals saving it once. The patch must carry an id and no update time or expiry. |
| Storage.SaveKeepsLive | src/lib/storage.ts:47-87 | A save keeps an all-live list all live, when a given expiry lies in the future. |
| Storage.UndefinedIdLost | src/lib/storage.ts:73-82 | A new document saved with an `undefined` id is stored without an id. A second such save overwrites it. |
| Storage.IntendedNewRecord | src/lib/storage.ts:73-82 | The corrected new record keeps the given id, or else the generated one, and otherwise equals the source's record. |
| Storage.IntendedKeepsIds | src/lib/storage.ts:47-87 | With the corrected record every document keeps an id through any save. A save without an id appends. |
| Storage.IntendedKeepsBoth | src/lib/storage.ts:47-87 | With the corrected record, two new documents saved without ids are both kept. |
| Storage.ExtendChangesOne | src/lib/storage.ts:103-117 | Extending changes only the expiry of the first record with the id, to thirty days after `now`. No record with the id means no change. |
| Storage.ExtendThenLookup | src/lib/storage.ts:103-117 | An extended record is found again, after the expiry filter, at any time before its new expiry. Other documents in the list may expire earlier. |
| Storage.DeleteRemovesAll | src/lib/storage.ts:90-99 | Deleting removes every record with the id and keeps the others. The result is shorter exactly when some record had the id; otherwise it is unchanged. |
| Storage.DeleteThenLookup | src/lib/storage.ts:90-99 | After a delete, the id is not found. |
| Storage.ExampleSaved | src/lib/storage.ts:170-227 | Saving the example patch into an empty list gives only the example record: id `example`, tags `sample` and `personal`, both times `now`, expiry thirty days later. |
| Storage.DocStore.GetDocuments | src/lib/storage.ts:18-38 | Returns the unexpired documents in order and leaves them stored, with one write exactly when one was dropped. |
| Storage.DocStore.GetDocument | src/lib/storage.ts:41-44 | Returns the first unexpired document with the id, or nothing, after the expiry filter's write-back. |
| Storage.DocStore.SaveDocument | src/lib/storage.ts:47-87 | Upserts over the unexpired list, returns the written record, and writes once more. |
| Storage.DocStore.DeleteDocument | src/lib/storage.ts:90-100 | Removes every unexpired record with the id. Returns true exactly when one existed, and writes only then. |
| Storage.DocStore.ExtendDocumentExpiration | src/lib/storage.ts:103-117 | Gives the first unexpired record with the id thirty days from `now`. Returns true exactly when one existed, and writes only then. |
| Storage.DocStore.InitializeDefaultContent | src/lib/storage.ts:214-227 | When no unexpired document is left, the store holds only the example record. Otherwise only the expiry filter runs. |
| Storage.DocStore.CleanupExpiredDocuments | src/lib/storage.ts:230-232 | Runs the expiry filter for its write-back. |
| Storage.DocStore.GetProfile | src/lib/storage.ts:127-133 | Returns the stored profile, or `MarkMe User` with the default bio and no avatar. |
| Storage.DocStore.SaveProfile | src/lib/storage.ts:136-138 | Stores the profile, and `GetProfile` then returns it. |
| Storage.DocStore.GetSettings | src/lib/storage.ts:149-157 | Returns the stored settings, or theme `system`, size `medium`, font `fira-code` and auto-save on. |
| Storage.DocStore.SaveSettings | src/lib/storage.ts:160-162 | Stores the settings, and `GetSettings` then returns them. |

## Definitions

These functions define the passes and the document rules. Their contracts are stated by the lemmas and methods in the right-hand column.

| definition | source | contract carried by |
|---|---|---|
| Regex.Scan | src/lib/markdown.ts:11-51 | `Scanning.ScanSkip`, `Scanning.ScanTake`, `Scanning.ScanPass`, `Scanning.ScanNoMatch`, `Scanning.ScanLines` |
| Regex.ReplaceAll | src/lib/markdown.ts:11-51 | The same lemmas, with the scan starting at a line start. |
| Regex.ReplaceEach | src/lib/markdown.ts:11-51 | `Scanning.EachTwo`, `Scanning.EachAppend`, `Scanning.EachLines` |
| Regex.MatchAt | src/lib/markdown.ts:11-51 | Its own ensures, and the rows for each matcher in the Model table. |
| Regex.Find | src/lib/markdown.ts:17-20 | `Regex.FindSpec`, `Scanning.FindFirst` |
| Regex.LinkParts | src/lib/markdown.ts:23 | `Regex.LinkPartsSpec`, `Regex.LinkTryLongest` |
| Markdown.Headers | src/lib/markdown.ts:11-14 | `HeaderFacts.HeaderLine`, `HeaderFacts.ManyHashes`, `HeaderFacts.UnmarkedLine`, `HeaderFacts.HeadersByLine` |
| Markdown.Emphasis | src/lib/markdown.ts:17-20 | `EmphasisFacts.BoldThenItalic`, `EmphasisFacts.ItalicLeavesOneStar`, `RenderFacts.EmphasisIdle` |
| Markdown.LinksImages | src/lib/markdown.ts:23-26 | `LinkFacts.LinkRendered`, `LinkFacts.ImageShadowed`, `RenderFacts.LinksIdle` |
| Markdown.Lists | src/lib/markdown.ts:29-35 | `ListFacts.TwoBulletsOneList`, `ListFacts.NumberedList`, `ListFacts.BulletThenNumber` |
| Markdown.Quotes | src/lib/markdown.ts:38-39 | `QuoteFacts.TwoQuotedLines` |
| Markdown.Code | src/lib/markdown.ts:42-45 | `CodeFacts.FenceWhole`, `CodeFacts.InlineWhole` |
| Storage.Live | src/lib/storage.ts:24-30 | `Storage.UnexpiredAllLive`, `Storage.AllLiveUnexpired`, `Storage.SaveKeepsLive` |
| Storage.Unexpired | src/lib/storage.ts:24-30 | `Storage.KeepMembers`, `Storage.KeepDrops`, `Storage.KeepIdempotent`, `Storage.UnexpiredAllLive` |
| Storage.Overlay | src/lib/storage.ts:62-67 | `Storage.SaveUpdates` |
| Storage.NewRecord | src/lib/storage.ts:73-82 | `Storage.SaveAppends`, `Storage.NewRecordPatchWins`, `Storage.UndefinedIdLost` |
| Storage.Upsert | src/lib/storage.ts:58-86 | `Storage.SaveUpdates`, `Storage.SaveAppends` |
| Storage.Saved | src/lib/storage.ts:58-86 | `Storage.SaveUpdates`, `Storage.SaveAppends`, `Storage.SaveThenLookup`, `Storage.SaveTwice`, `Storage.SaveKeepsLive` |
| Storage.SavedRecord | src/lib/storage.ts:58-86 | `Storage.SaveUpdates`, `Storage.SaveAppends`, `Storage.SaveThenLookup`, `Storage.DocStore.SaveDocument` |
| Storage.WithoutId | src/lib/storage.ts:93 | `Storage.DeleteRemovesAll`, `Storage.DeleteThenLookup` |
| Storage.Extended | src/lib/storage.ts:105-111 | `Storage.ExtendChangesOne`, `Storage.ExtendThenLookup` |
| Storage.IntendedSaved | src/lib/storage.ts:58-86 | `Storage.IntendedKeepsIds`, `Storage.IntendedKeepsBoth` |
| Storage.Key | src/lib/storage.ts:43-58 | `===` on an id, where a missing or `undefined` id reads as no id: `Storage.SaveThenLookup`, `Storage.SaveUpdates`, `Storage.SaveAppends`, `Storage.UndefinedIdLost` |
| Storage.SpreadId | src/lib/storage.ts:62-82 | The id left after `...doc` is spread: `Storage.SaveUpdates`, `Storage.NewRecordPatchWins`, `Storage.UndefinedIdLost`, `Storage.IntendedNewRecord` |
| Storage.ExamplePatch | src/lib/storage.ts:170-225 | `Storage.ExampleSaved`, `Storage.DocStore.InitializeDefaultContent` |

## Left out

- The sanitiser `DOMPurify.sanitize` (src/lib/markdown.ts:54) is a foreign library. `Markdown.Render` is the string handed to it.
- Local storage and JSON serialisation are left out. The document list is the `docs` field, and the profile and settings are optional fields. What JSON does to a value (dropping `undefined`, for one) is modelled only for a new document's id.
- Dates are integer millisecond timestamps, and "thirty days later" is a fixed offset. Not modelled:
  - ISO strings;
  - an invalid date that compares as NaN;
  - a falsy empty `expiresAt`;
  - `setDate` calendar and daylight-saving arithmetic;
  - the small gap between the two clock readings in `initializeDefaultContent` and `saveDocument`.
- `generateId` reads the clock and a random source. Its result is the `newId` parameter.
- The editor pages, navigation, dialogs, downloads and the hourly clean-up timer are user interface and timers.
- Storage.Patch: a patch key explicitly set to `undefined` is modelled only for `id`. For every other key, a present key has a value.
- LinkFacts.LinkRendered: also requires that the url hold no `[`. After the link pass the url sits inside the anchor, and a `[` there could start an image match. The lemma does not rule out that such a match completes.
- LinkFacts.ImageShadowed: requires `LinkFriendly(alt, url)`, so the alt text is non-empty and free of `[`, and the url is non-empty and free of `)` and `]`. It also requires a url free of `[`, for the reason given for `LinkRendered`.
- RenderFacts.FenceRendered: covers one shape of input, a fence around a single header line whose text no stage before the code stage touches. Other fence contents are not followed through every stage.
- LinkFacts.LinkWhole: requires that the url hold no `]`. Such a url could let a longer label fit. `LongestLabelExample` shows that case.
- QuoteFacts.TwoQuotedLines, ListFacts.TwoBulletsOneList, ListFacts.BulletThenNumber, ListFacts.NumberedList: these require that the item texts hold no `<`. The merge passes look for tags, so a `<` in the text could start one.
- Markdown.Breaks: `Collapsed` does not say which `<br>` pairs are collapsed, only that nothing else changes.

## Findings

| source | as written | input that shows it | evidently intended | confidence | as-written member | corrected member |
|---|---|---|---|---|---|---|
| src/lib/storage.ts:73-82 | `...doc` is spread after the generated id. For a new page the editor passes `id: undefined` (src/pages/EditorPage.tsx:49-54), so the stored record has no id. | Save two new pages into an empty list, both with `id: undefined`. The second save finds the id-less first record and overwrites it, so one record is left. | A new record keeps the generated id unless the caller gives one, so both pages are kept. | not executed | Storage.UndefinedIdLost | Storage.IntendedNewRecord |

`Storage.DocStore` follows the code as written. `Storage.IntendedSaved` and `Storage.IntendedKeepsBoth` state the corrected behaviour.
