# SEO article generator: a verified model of its page logic

The application is a single interactive page. It takes a context, a topic,
keywords and instructions from the user. The context comes from an uploaded
PDF, from text typed in, or from the transcript of a YouTube video. The page
places the four inputs into a fixed prompt and sends it to a text-generation
service, then renders the returned article line by line with three figures
under it.

This project models the page's own logic in Dafny:

- `VideoId`: finding the 11-character video identifier in a URL. The search
  over `v=`, `youtu.be/` and `embed/` is written as an explicit leftmost scan.
- `Transcript`: joining the fetched transcript snippets with newlines. Also the
  preview of the first five lines, which skips blank lines. Also the remote
  branch in two forms. As intended, it goes from URL to identifier to fetch
  to text (`LoadTranscript`). As the page runs it, it stops at the identifier
  search with an error and leaves the context empty
  (`LoadTranscriptAsWritten`; see Findings).
- `Prompt`: refusing an empty topic, warning about empty keywords, and
  defaulting empty instructions. Also the template's slots, with an inverse
  parser that reads the four inputs back.
- `Render`: the line classifier (title, header, subheader, spacer, markdown)
  and the word, character and keyword figures.
- `App`: choosing the context from the three sources, concatenating a PDF's
  pages, and the generate button from validation to rendered page.
- `Text`: the Python string operations the page relies on. These are
  `str.isspace` over its full Unicode set, `strip()`, splitting on one
  character, joining, whitespace splitting and concatenation.
- `Wrappers`: an `Option` type.

The transcript service and the generation service are function parameters,
`fetch` and `reply`. Each is total, so every answer either service may give is
covered. The PDF reader's result is given as input: the text of each page, or
a reason the file is unreadable.

Two behaviours of the code are worth spelling out:

- The keyword figure counts every line of the keyword input, blank lines
  included: `"x\n\ny"` gives 3 (`Render.StatsExamples`).
- The preview looks at a window of the first five raw lines and drops the
  blank ones inside it. For lines `Bonjour, "", le monde, !, fin, extra` it
  shows lines 1, 3, 4 and 5 (`Transcript.PreviewExample`). The sixth line is
  never shown, although only four entries appear.

## Model

| member | source | states |
|---|---|---|
| VideoId.IdAfterMarker | app.py:101 | A marker matches at the start exactly when it is a prefix followed by 11 identifier characters, and the result is those 11 characters right after the marker. |
| VideoId.MatchHere | app.py:101 | An anchored match is 11 identifier characters. Which marker it follows is stated by `MatchHereMeaning`. |
| VideoId.MatchHereMeaning | app.py:101 | Two directions. An anchored match means some marker is followed by exactly the 11 returned identifier characters. No match means no marker at that position is followed by 11 identifier characters. |
| VideoId.FindFrom | app.py:101 | The scan returns the first position at or after `i` where the pattern matches, with no match before it. None means no position from `i` on matches. |
| VideoId.ExtractVideoId | app.py:101-105 | The result is 11 identifier characters. It is the match at some position with no match at any earlier position. None holds exactly when no position matches. |
| VideoId.LeftmostDecides | app.py:101-105 | Any matching position with no match before it decides the identifier. This is the regex search's leftmost rule. |
| VideoId.SkipPrefix | app.py:101 | A prefix with no matching position does not change the result. |
| VideoId.MarkerFirst | app.py:101-105 | Text that starts with any of the three markers followed by an identifier yields that identifier, whatever follows. |
| VideoId.WatchUrl | app.py:97-105 | `https://www.youtube.com/watch?v=<id>` yields `<id>`, for every valid identifier. |
| VideoId.ShortUrl | app.py:101-105 | `https://youtu.be/<id>` yields `<id>`. |
| VideoId.ShortCandidateSkipped | app.py:101 | `v=` followed by fewer than 11 identifier characters is passed over, and the later `v=<id>` is found. |
| Transcript.TranscriptText | app.py:108 | The joined text has one newline between consecutive snippets, so its length is the snippets' total plus one less than their number. No snippets give the empty text. |
| Transcript.TranscriptLines | app.py:108-113 | Cutting the joined text at newlines gives the snippets back when none of them holds a newline. |
| Transcript.PreviewFrom | app.py:115-117 | At most one entry per line of the window. |
| Transcript.PreviewFromShows | app.py:115-117 | Every entry is a line of the window, stripped, non-blank and tagged with its position. |
| Transcript.PreviewFromIncreasing | app.py:115 | Positions start at the first line's number and strictly increase. |
| Transcript.PreviewComplete | app.py:115-117 | Every line that is not blank after stripping is shown. It is the entry right after those of the non-blank lines before it. |
| Transcript.Preview | app.py:113-117 | At most five entries, numbered 1 to 5 in increasing order. Each is the stripped, non-blank line at its number. |
| Transcript.PreviewShowsAll | app.py:113-117 | Every non-blank line among the first five lines of the text appears in the preview with its number. |
| Transcript.PreviewExample | app.py:111-117 | The six-line example shows lines 1, 3, 4 and 5. |
| Transcript.LoadTranscript | app.py:99-126 | Corrected behaviour (see Findings). An empty URL does nothing. A URL without an identifier is refused and nothing is fetched. Otherwise the service is asked for that identifier in French, then English. A failure keeps its kind. A success yields the joined text and its preview. |
| Transcript.RemoteContext | app.py:73-120 | Only a loaded transcript gives a non-empty context, and then the context is the transcript text. |
| Transcript.LoadTranscriptAsWritten | app.py:99-126 | As written: an empty URL does nothing. Every other URL ends in the generic error handler with the unbound-name error, before any identifier or fetch. It is never an invalid URL, a fetch failure or a load, and the context stays empty. |
| Transcript.RemoteBranchAsWrittenLosesTranscript | app.py:101-126 | On the watch URL of `abcdefghijk`, with a service holding the transcript `Bonjour`, the intended branch loads `Bonjour` as the context. The branch as written aborts and leaves the context empty. |
| Prompt.EffectiveInstructions | app.py:160-161 | The instructions used are never empty. They are the user's own when given, and the default sentence otherwise. |
| Prompt.Assemble | app.py:163-220 | The prompt starts with the fixed opening. Its length is the fixed template's plus the four inputs'. Its inverse is `ParsePrompt` (`RoundTrip`). |
| Prompt.Prepare | app.py:155-220 | Refused exactly when the topic is empty. Warns exactly when the keywords are empty. Otherwise the prompt holds the inputs, and parsing it gives back the context, topic, keywords and effective instructions. |
| Prompt.RoundTrip | app.py:163-220 | Parsing an assembled prompt gives back the four inputs verbatim and in order, when context, topic and keywords hold no `<`. |
| Prompt.AssembleInjective | app.py:163-220 | Different inputs of that kind give different prompts. |
| Render.Classify | app.py:229-239 | A line is a title, header or subheader exactly when it starts with `# `, `## ` or `### `, with the rest of the line stripped as text. It is a spacer exactly when it has no marker and is blank. Otherwise it is shown unchanged. |
| Render.HeadingRoundTrip | app.py:230-235 | A heading written with its level's marker is read back as that level, with its text stripped. |
| Render.ClassifyExamples | app.py:230-239 | `## Section` is a header. Empty and whitespace-only lines are spacers. `#### x` and `#x` are plain markdown. `# ` is an empty title. |
| Render.RenderArticle | app.py:228-239 | One element per line of the reply: one more than its number of newlines. Each element classifies the line at the same index. |
| Render.RenderAppend | app.py:228-239 | Lines render independently: the rendering of two texts joined by a newline is the concatenation of their renderings. |
| Render.WordCount | app.py:243 | The word figure is the number of maximal runs of non-whitespace characters. |
| Render.KeywordCount | app.py:251 | 0 for empty keywords. Otherwise one per line, blank lines included: the number of newlines plus one. |
| Render.Stats | app.py:243-251 | The three figures are the word runs, the reply's length and the keyword count. |
| Render.StatsExamples | app.py:243-251 | `a b c` has 3 words and 5 characters. `x\n\ny` counts 3 keywords. Empty keywords count 0. |
| Text.IsSpace | app.py:116 | Space, tab, newline and carriage return are whitespace. ASCII letters and digits are not. Nothing above U+3000 is. |
| Text.Strip | app.py:116-117 | Stripping never lengthens a line. What it removes and keeps is stated by `StripEnds` and `StripInfix`. |
| Text.StripEnds | app.py:116 | A stripped line is empty exactly when the line is all whitespace. Otherwise it neither starts nor ends with whitespace. |
| Text.StripInfix | app.py:117 | The stripped line is the infix of the line after its leading whitespace, and only whitespace surrounds it. |
| Text.StripIdempotent | app.py:117 | Stripping twice is stripping once. |
| Text.Split | app.py:113 | Cutting at a separator gives one more piece than there are separators, and no piece holds the separator. |
| Text.Join | app.py:108 | Joining gives the pieces' total length plus one separator between each consecutive pair. |
| Text.JoinSplit | app.py:108-113 | Joining the pieces of a cut with the separator gives the text back. |
| Text.SplitJoin | app.py:108-113 | Cutting a join gives the pieces back when none holds the separator. |
| Text.SplitAppend | app.py:228 | Cutting two texts joined by a separator gives the pieces of each, in order. |
| Text.Words | app.py:243 | Whitespace splitting gives non-empty words without whitespace. |
| Text.WordsCountRuns | app.py:243 | The number of words is the number of maximal non-whitespace runs. |
| Text.WordsKeepContent | app.py:243 | The words hold exactly the non-whitespace characters of the text, in order. |
| Text.Concat | app.py:23-25 | The concatenation is as long as the pieces together. |
| Text.ConcatAppend | app.py:23-25 | Concatenation distributes over appending lists of pieces. |
| App.ExtractPdfText | app.py:19-26 | The page loop builds the concatenation of the page texts in order, with no separator. |
| App.PdfContext | app.py:73-87 | Corrected PDF context: the pages' text for a readable file. It is empty when nothing is uploaded or the file cannot be read. |
| App.SelectContext | app.py:73-126 | Corrected behaviour for both findings. Typed text is used as is. A PDF gives `PdfContext`. A YouTube URL gives the loaded transcript text, or empty when nothing was loaded. |
| App.PdfContextAsWritten | app.py:19-29 | As written: an unreadable file gives no string at all (None) where text was expected. |
| App.Interpolated | app.py:167 | A string is written as itself. The text `None` appears exactly for a missing value or for the string `None` itself. |
| App.UnreadablePdfPromptSaysNone | app.py:27-29 | As written, an unreadable PDF makes the prompt's transcript slot read `None`. |
| App.UnreadablePdfSlotEmpty | app.py:73-87 | With the corrected context, the transcript slot of that prompt is empty. |
| App.Generate | app.py:153-251 | An empty topic stops before any prompt exists. Otherwise the prompt is the one `Prepare` builds, and its slots parse back to the inputs. A page is shown exactly when the reply is present and non-empty. It holds the rendered lines and the three figures of that reply. |

## Left out

- The page layout, widgets, messages, spinners, the footer and the Markdown rendering of each element are not modelled. A `Markdown` element carries the raw line.
- Editable text areas are not modelled. The extracted PDF text and the fetched transcript are shown in editable boxes. The model takes the unedited value; a user edit is the same as typing the context by hand.
- The default topic shown in the field is not modelled. The topic, keywords and instructions are parameters.
- The generation service and its client configuration are not modelled. They are the `reply` parameter, which gives None for a failed call.
- The PDF library is not modelled. Its per-page text, or the reason it fails, is the input `PdfExtraction`.
- The transcript client and its network access are not modelled. They are the `fetch` parameter. Its exceptions become `FetchError`; the error message texts are not modelled.
- The prompt's fixed prose is not modelled word for word. The writer's mission and the numbered directives are stand-in constants that take no input. The structure around the four slots is kept: tags, newlines, order, and the sentences before each slot.
- The `\w` class in the identifier pattern is limited to ASCII. `IsIdChar` accepts letters, digits, `_` and `-`. The Unicode word characters that Python's `\w` also accepts are not modelled.
- The unbound-name error's message text is not modelled across Python versions. `UnboundNameMessage` uses the wording of Python 3.11 and later.
- The unused imports (PDF writing, dates, temporary files, text wrapping) are not modelled.
- Prompt.RoundTrip: proved only when context, topic and keywords hold no `<`. Such text could contain a copy of a closing tag, and then the slots cannot be read back unambiguously.
- Prompt.Prepare: the parse-back clause holds only under the same condition.
- App.Generate: the parse-back clause holds only under the same condition.

## Findings

| source | as written | input that shows it | evidently intended | confidence | as-written member | corrected member |
|---|---|---|---|---|---|---|
| app.py:27-29 | A PDF that cannot be read makes the extraction return `None`. `context` keeps that `None` instead of the empty string it started as (line 73). Generation is not blocked, so the prompt's transcript slot gets the word `None`. | An unreadable PDF upload with topic `t` and any keywords without `<`. | An empty context, as when nothing is uploaded. | medium; not executed | App.UnreadablePdfPromptSaysNone | App.UnreadablePdfSlotEmpty |
| app.py:101 | The generation step runs `import re` inside `main` (line 227). That makes `re` a local name of the whole function. At the identifier search (line 101) it is still unbound, so every non-empty URL raises an unbound-name error. The generic handler (line 125) reports it. No identifier is extracted, nothing is fetched, and the context stays empty. | The URL `https://www.youtube.com/watch?v=abcdefghijk`, with a transcript `Bonjour` available. | The identifier `abcdefghijk` is extracted, its transcript fetched, and `Bonjour` becomes the context. | high; not executed | Transcript.LoadTranscriptAsWritten | Transcript.LoadTranscript |
