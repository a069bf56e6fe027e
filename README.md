# Bookmark client decision logic, modelled in Dafny

This project models the sequential decision logic of a bookmarking
application's clients:

- the web dashboard's **new item card** (`EditorCard.tsx`), which trims the
  submitted text, splits it into lines, and classifies it as a text note, a
  single link, or several links. Several links leave a pending choice, which
  the user resolves in one of three ways: import as one text bookmark, import
  as separate bookmarks, or close the dialog. The card is `EditorCard.Editor`,
  a class whose fields are the text field, the pending
  `MultiUrlImportState`, the log of create requests issued, and the log of
  notices (toasts) raised. Its object invariant says that a pending choice
  always holds what classifying its own text produced.
- the command-line client's **`bookmarks` command** (`bookmarks.ts`):
  - `collect`, the accumulator for repeated flags;
  - `normalizeBookmark`, which replaces tags by their names and crops long
    link HTML;
  - the requests built by `add`, and its one printed line per settled
    request;
  - the payload of `update`;
  - the cursor loop of `list`. The service is modelled as the finite sequence
    of pages it answers.
- the dashboard's **link card** (`LinkCard.tsx`):
  - the polling policy (`refetchInterval`);
  - the guard that the bookmark is a link;
  - the title fallback chain;
  - the three-way image choice;
  - the host shown in the footer.

Things the source gets from outside are parameters of the model:
- the runtime's URL parser (`new URL`, the basic URL parser of the WHATWG
  URL Standard) is a function `UrlParser` from strings to an optional `Url`
  with `protocol`, `host` and `href`;
- the three bookmark helpers of the link card (`isBookmarkStillLoading`,
  `isBookmarkStillCrawling`, `getBookmarkLinkImageUrl`) are function
  parameters;
- the text read from standard input is a parameter;
- the settled result of each create call is an input;
- the page size constant `MAX_NUM_BOOKMARKS_PER_PAGE` is a parameter `limit`.

Every lemma therefore holds for any parser and any helpers. The one property
of the URL parser used anywhere is that a line made only of spaces and C0
control characters (the empty line included) does not parse: the URL Standard
strips those characters, leaving an empty input with no base URL. It is a
hypothesis of `BlankLineIsTextNote` and `EmptyTextIsTextNote` only.

Two points of the code that the model follows:
- `bookmarks add` never sets an exit code. A rejected create only prints its
  `Error: …` line (bookmarks.ts:70-76), and `BookmarksCli.Add` models that.
- "Import as separate Bookmarks" calls `mutate` once per URL, in URL order
  (EditorCard.tsx:210-212), so the request log records that order. Completion
  order is left out.

Files: `wrappers.dfy` (Option, Result), `js_strings.dfy` (`trim` and
`split`), `bookmark_types.dfy` (records), `editor_card.dfy`,
`bookmarks_cli.dfy`, `link_card.dfy`.

## Model

| member | source | states |
|---|---|---|
| `JsStrings.Trim` | apps/web/components/dashboard/bookmarks/EditorCard.tsx:110 | the trimmed text is the slice of the input between its leading and trailing whitespace, everything after it is whitespace, and it neither starts nor ends with whitespace |
| `JsStrings.TrimIdempotent` | apps/web/components/dashboard/bookmarks/EditorCard.tsx:110 | trimming the trimmed text changes nothing |
| `JsStrings.Split` | apps/web/components/dashboard/bookmarks/EditorCard.tsx:89 | splitting on newline gives at least one line, no line contains a newline, and there is exactly one line iff the text has no newline |
| `JsStrings.JoinSplit` | apps/web/components/dashboard/bookmarks/EditorCard.tsx:89 | joining the lines with newlines restores the text |
| `JsStrings.SplitJoin` | apps/web/components/dashboard/bookmarks/EditorCard.tsx:89 | splitting a newline-join of newline-free lines gives back exactly those lines |
| `JsStrings.SplitWithoutSeparator` | apps/web/components/dashboard/bookmarks/EditorCard.tsx:89-102 | text without a newline is its own only line, so the single-link create carries the line that parsed |
| `EditorCard.ParseLines` | apps/web/components/dashboard/bookmarks/EditorCard.tsx:90-98 | the URL list exists iff every line parses with protocol http: or https:; it then has one URL per line, in line order |
| `EditorCard.SeparateRequests` | apps/web/components/dashboard/bookmarks/EditorCard.tsx:210-212 | one link create per URL, in order, with the URL's serialisation |
| `EditorCard.Classify` | apps/web/components/dashboard/bookmarks/EditorCard.tsx:89-107 | the three-way decision of the import: a single link only for text without a newline; a pending choice only for text with a newline, holding one URL per line and at least two |
| `EditorCard.ClassifyTextNote` | apps/web/components/dashboard/bookmarks/EditorCard.tsx:91-96 | the text is a note iff some line fails to parse or has a protocol other than http:/https: |
| `EditorCard.ClassifySingleLink` | apps/web/components/dashboard/bookmarks/EditorCard.tsx:100-103 | the text is a single link iff it has no newline and parses as an http(s) URL |
| `EditorCard.ClassifyMultipleUrls` | apps/web/components/dashboard/bookmarks/EditorCard.tsx:89-107 | the text asks the user iff it has a newline and every line is an http(s) URL; the pending URLs are the parsed lines, at least two, one per line, in order |
| `EditorCard.BlankLineIsTextNote` | apps/web/components/dashboard/bookmarks/EditorCard.tsx:89-93 | with a parser that rejects every line made only of spaces and C0 control characters (the empty line included), text with such a line is a note |
| `EditorCard.EmptyTextIsTextNote` | apps/web/components/dashboard/bookmarks/EditorCard.tsx:89-93 | with such a parser, empty text is a note |
| `EditorCard.TwoUrlsAskTheUser` | apps/web/components/dashboard/bookmarks/EditorCard.tsx:89-107 | two http(s) lines give a pending choice holding both parsed URLs in order |
| `EditorCard.Editor.constructor` | apps/web/components/dashboard/bookmarks/EditorCard.tsx:46-58 | the card starts with an empty text field, no pending choice, no requests and no notices |
| `EditorCard.Editor.SetInput` | apps/web/components/dashboard/bookmarks/EditorCard.tsx:151-171 | editing the text field changes only the field |
| `EditorCard.Editor.TryToImportUrls` | apps/web/components/dashboard/bookmarks/EditorCard.tsx:88-107 | throws, changing nothing, exactly for a note; a single link appends one link create whose URL is the original text; several links append nothing and set the pending choice to the parsed URLs and the text |
| `EditorCard.Editor.Submit` | apps/web/components/dashboard/bookmarks/EditorCard.tsx:109-117 | for the trimmed field: a note appends one text create of the whole trimmed text, a single link appends one link create of that text, several links append nothing and set the pending choice; the pending choice is otherwise unchanged |
| `EditorCard.Editor.OnOpenChange` | apps/web/components/dashboard/bookmarks/EditorCard.tsx:185-189 | closing the dialog clears the pending choice and issues no create |
| `EditorCard.Editor.ImportAsText` | apps/web/components/dashboard/bookmarks/EditorCard.tsx:196-199 | appends exactly one text create holding the stored text, then clears the pending choice |
| `EditorCard.Editor.ImportAsSeparate` | apps/web/components/dashboard/bookmarks/EditorCard.tsx:209-213 | appends one link create per stored URL, in order, with the serialised URL, that is one create per line of the stored text and at least two, then clears the pending choice |
| `EditorCard.AppendSeparate` | apps/web/components/dashboard/bookmarks/EditorCard.tsx:210-212 | the loop appends to the log exactly the link creates of the URLs, in order |
| `EditorCard.Editor.OnSuccess` | apps/web/components/dashboard/bookmarks/EditorCard.tsx:64-82 | a successful create resets the text field to empty and raises the "already exists" notice exactly when the service says so |
| `EditorCard.Editor.OnError` | apps/web/components/dashboard/bookmarks/EditorCard.tsx:83-85 | a failed create raises one error notice and leaves the text field unchanged |
| `BookmarksCli.Collect` | apps/cli/src/commands/bookmarks.ts:13-16 | the value is appended at the end, earlier values are unchanged, and the length grows by one |
| `BookmarksCli.CollectAllInOrder` | apps/cli/src/commands/bookmarks.ts:36-47 | collecting the occurrences of a repeated flag yields them in the order given |
| `BookmarksCli.CropHtml` | apps/cli/src/commands/bookmarks.ts:24-29 | HTML longer than ten characters becomes its first ten characters followed by "... <CROPPED>"; absent HTML and HTML of at most ten characters are unchanged |
| `BookmarksCli.CropContent` | apps/cli/src/commands/bookmarks.ts:24-29 | only link content is cropped; text and asset content are unchanged |
| `BookmarksCli.CropIdempotent` | apps/cli/src/commands/bookmarks.ts:25-27 | cropping cropped content gives it back unchanged |
| `BookmarksCli.TagNames` | apps/cli/src/commands/bookmarks.ts:21 | the tag names keep the tags' order and count |
| `BookmarksCli.NormalizeBookmark` | apps/cli/src/commands/bookmarks.ts:18-31 | tags become their names in order, content is cropped, and every other field is as it was |
| `BookmarksCli.NormalizeTwice` | apps/cli/src/commands/bookmarks.ts:19-27 | after the shallow copy's in-place crop has reached the caller's content, normalising that bookmark again prints the same |
| `BookmarksCli.NormalizeAll` | apps/cli/src/commands/bookmarks.ts:139 | the printed listing normalises every aggregated bookmark, in order |
| `BookmarksCli.AddRequests` | apps/cli/src/commands/bookmarks.ts:52-66 | all --link creates in flag order, then all --note creates in flag order, then one text create of standard input exactly when --stdin is set |
| `BookmarksCli.ReportLine` | apps/cli/src/commands/bookmarks.ts:71-75 | a fulfilled create prints its normalised bookmark, a rejected one "Error: " followed by the reason |
| `BookmarksCli.ReportResults` | apps/cli/src/commands/bookmarks.ts:70-76 | one printed line per settled result, in the same order, each the normalised bookmark or the error |
| `BookmarksCli.Add` | apps/cli/src/commands/bookmarks.ts:49-77 | the add action issues the requests above and prints exactly one line per request, in request order, whatever other requests did |
| `BookmarksCli.UpdatePayload` | apps/cli/src/commands/bookmarks.ts:101-106 | the update is sent for the bookmark given on the command line, with archived, favourited and title taken from --archive, --favourite and --title |
| `BookmarksCli.UpdatePayloadForwards` | apps/cli/src/commands/bookmarks.ts:92-106 | two option sets send the same update iff they agree on title, archive and favourite; --note is never forwarded |
| `BookmarksCli.BaseListRequest` | apps/cli/src/commands/bookmarks.ts:122-126 | archived is false unless --include-archived, in which case it is unset; the list id is passed through, the limit is the page size, and there is no cursor |
| `BookmarksCli.LastPageIndex` | apps/cli/src/commands/bookmarks.ts:131 | the page where the loop stops is the first page without a cursor |
| `BookmarksCli.ConcatAppend` | apps/cli/src/commands/bookmarks.ts:136 | aggregating consecutive runs of pages concatenates their aggregates |
| `BookmarksCli.ConcatLength` | apps/cli/src/commands/bookmarks.ts:136 | the aggregate holds as many bookmarks as the pages together |
| `BookmarksCli.ListAll` | apps/cli/src/commands/bookmarks.ts:122-137 | one request per page up to the first page without a cursor; the first has no cursor, each later one repeats the filter with the previous page's cursor; the result is every page's bookmarks in response order |
| `BookmarksCli.TwoPagesScenario` | apps/cli/src/commands/bookmarks.ts:128-137 | pages of 20 and 5 bookmarks give 25 bookmarks from 2 requests |
| `LinkCard.RefetchInterval` | apps/web/components/dashboard/bookmarks/LinkCard.tsx:95-105 | polls, every 1000 ms, exactly when there is data and it is still loading; otherwise false |
| `LinkCard.AsLinkBookmark` | apps/web/components/dashboard/bookmarks/LinkCard.tsx:109-113 | a bookmark whose content is not a link is the "Invalid bookmark type" error; a link is narrowed to its link content |
| `LinkCard.LinkTitle` | apps/web/components/dashboard/bookmarks/LinkCard.tsx:16-24 | the user title if present, else the crawled title, else the URL's host; only absence falls through; a URL that does not parse is an error |
| `LinkCard.UserTitleWins` | apps/web/components/dashboard/bookmarks/LinkCard.tsx:21 | a present user title, the empty one included, is shown whatever the link's title and host |
| `LinkCard.LinkImage` | apps/web/components/dashboard/bookmarks/LinkCard.tsx:45-59 | while crawling, the optimised "/blur.avif" placeholder even if an image exists; then the image URL, unoptimised exactly when it is not a local asset; then the blank pixel, unoptimised |
| `LinkCard.ImageOptimisedExactly` | apps/web/components/dashboard/bookmarks/LinkCard.tsx:48-58 | the image is optimised iff it is the placeholder or a local asset |
| `LinkCard.LinkUrl` | apps/web/components/dashboard/bookmarks/LinkCard.tsx:68-80 | the footer shows the host of the parsed link URL; a URL that does not parse is an error |
| `LinkCard.RenderLinkCard` | apps/web/components/dashboard/bookmarks/LinkCard.tsx:109-126 | a non-link bookmark throws the type error first; a link whose URL does not parse throws the URL error; otherwise the card shows the title, footer and image of `LinkTitle`, `LinkUrl` and `LinkImage`, linking to the bookmark's URL |
| `LinkCard.TitleFallsBackToFooter` | apps/web/components/dashboard/bookmarks/LinkCard.tsx:16-80 | with no user title and no crawled title, a card that renders shows the URL's host as both its title and its footer |

## Left out

- Rendering, hooks and styling: form and schema wiring, toast contents, the dialog component, images and links, the keyboard focus shortcut, demo-mode labels, the layout switch. A toast is recorded only by its kind.
- The form's validation error handler: the schema accepts every string, so it is never reached.
- URL parsing is a parameter, not a reimplementation of the WHATWG URL Standard's basic URL parser (section 4.4).
- The link card's three helper predicates are parameters: their source is not part of this model.
- The remote calls and the service's "already exists" rule: create requests are entries appended to a log, and responses are inputs.
- Concurrency and timing: parallel create calls, `Promise.allSettled`'s waiting, the polling timer, and disabling the field while a request is pending. Requests are an ordered log; `OnSuccess` and `OnError` are not tied to a particular request.
- Option parsing, reading standard input, and console, colour and `console.dir` formatting; the `get` and `delete` commands are single calls whose printing is `NormalizeBookmark` or a fixed message.
- `MAX_NUM_BOOKMARKS_PER_PAGE` is defined in a shared types file that is not part of this model; it is the parameter `limit`.
- TagSelector.tsx (a locale-dependent sort plus rendering) and HaluoIcon.tsx (image rendering).
- Bookmark records carry only the fields the client reads or passes through.
- CropHtml: lengths and the ten-character prefix count Dafny characters, while the source counts UTF-16 code units; the two agree for text without characters outside the Basic Multilingual Plane.
- JsStrings.Trim: a Dafny `char` is a Unicode scalar value, not a UTF-16 code unit; `trim` and `split("\n")` still agree with the source's code units, because every character they test is in the Basic Multilingual Plane.
- BookmarksCli.Collect: modelled on values; the source pushes into and returns the same array.
- BookmarksCli.NormalizeBookmark: modelled on values; the in-place crop of the caller's content through the shallow copy is stated only through its consequence, in `NormalizeTwice`.
- BookmarksCli.ListAll: every present cursor continues the loop. A cursor value that JavaScript treats as false would stop it; since the cursor type is opaque here, that case is not modelled. A service that never stops returning cursors (the source would loop forever) is excluded by requiring that the pages end without a cursor.
