/**
 * The page's main flow: choosing the context from one of three sources, then,
 * when the generate button is pressed, validating the inputs, building the
 * prompt, asking the generation service and rendering its reply.
 */
module App {
  import opened Wrappers
  import opened Text
  import Transcript
  import opened Prompt
  import Render

  /** What reading an uploaded PDF gives: the extracted text of each page in order, or the reason it failed. */
  datatype PdfExtraction = Pages(texts: seq<string>) | Unreadable(reason: string)

  /** The three input modes; a PDF upload may still be missing (`None`). */
  datatype Source =
    | PdfUpload(file: Option<PdfExtraction>)
    | ManualEntry(text: string)
    | YouTubeUrl(url: string)

  /** The text of a readable PDF, built page by page: the page texts in order, no separator added. */
  method ExtractPdfText(pages: seq<string>) returns (text: string)
    ensures text == Concat(pages)
  {
    text := "";
    var i := 0;
    while i < |pages|
      invariant 0 <= i <= |pages|
      invariant text == Concat(pages[..i])
    {
      ConcatAppend(pages[..i], [pages[i]]);
      assert pages[..i + 1] == pages[..i] + [pages[i]];
      assert Concat([pages[i]]) == pages[i] + Concat([]);
      text := text + pages[i];
      i := i + 1;
    }
    assert pages[..i] == pages;
  }

  /**
   * The context an uploaded PDF gives: the pages' text in order; empty when no
   * file is uploaded yet or when the file cannot be read.
   */
  function PdfContext(file: Option<PdfExtraction>): (ctx: string)
    ensures file.None? ==> ctx == []
    ensures file.Some? && file.value.Unreadable? ==> ctx == []
    ensures file.Some? && file.value.Pages? ==> ctx == Concat(file.value.texts)
    ensures file.Some? && file.value.Pages? ==> |ctx| == TotalLength(file.value.texts)
  {
    match file
    case Some(Pages(texts)) => Concat(texts)
    case _ => []
  }

  /**
   * The context the input step leaves for the prompt, with both findings
   * corrected: the text typed in; the pages' text of an uploaded PDF; the
   * joined transcript of a YouTube video. Nothing uploaded, an unreadable PDF,
   * an empty URL, a URL without an identifier and a failed fetch all leave it
   * empty. As written, the PDF branch differs (`PdfContextAsWritten`) and the
   * YouTube branch always leaves the context empty
   * (`Transcript.LoadTranscriptAsWritten`).
   */
  method SelectContext(source: Source, fetch: (string, seq<string>) -> Transcript.FetchResult)
    returns (context: string)
    ensures source.ManualEntry? ==> context == source.text
    ensures source.PdfUpload? ==> context == PdfContext(source.file)
    ensures source.YouTubeUrl? ==>
              context == Transcript.RemoteContext(Transcript.LoadTranscript(source.url, fetch))
    ensures source.YouTubeUrl? && !Transcript.LoadTranscript(source.url, fetch).Loaded? ==> context == []
    ensures source.YouTubeUrl? && Transcript.LoadTranscript(source.url, fetch).Loaded? ==>
              context == Transcript.LoadTranscript(source.url, fetch).text
  {
    context := "";
    match source
    case PdfUpload(file) =>
      if file.Some? {
        match file.value
        case Pages(texts) =>
          context := ExtractPdfText(texts);
        case Unreadable(_) =>
      }
    case ManualEntry(text) =>
      context := text;
    case YouTubeUrl(url) =>
      var outcome := Transcript.LoadTranscript(url, fetch);
      if outcome.Loaded? {
        context := outcome.text;
      }
  }

  // ---------------------------------------------------------------------------
  // The PDF branch as written

  /**
   * The PDF branch as the page writes it: a failed extraction returns Python's
   * `None`, and `context` keeps that `None` rather than an empty string.
   */
  function PdfContextAsWritten(file: Option<PdfExtraction>): (ctx: Option<string>)
    ensures file.None? ==> ctx == Some([])
    ensures file.Some? && file.value.Unreadable? ==> ctx.None?
    ensures file.Some? && file.value.Pages? ==> ctx == Some(Concat(file.value.texts))
  {
    match file
    case None => Some([])
    case Some(Pages(texts)) => Some(Concat(texts))
    case Some(Unreadable(_)) => None
  }

  /** What an f-string writes for a value that is a string or `None`. */
  function Interpolated(v: Option<string>): (r: string)
    ensures v.Some? ==> r == v.value
    ensures r == "None" <==> v.None? || v == Some("None")
  {
    if v.None? then "None" else v.value
  }

  /**
   * As written, an unreadable PDF puts the word `None` into the prompt's
   * transcript slot, where an empty context was intended.
   */
  lemma UnreadablePdfPromptSaysNone(reason: string, topic: string, keywords: string, instructions: string)
    requires '<' !in topic && '<' !in keywords
    ensures var f := Fields(Interpolated(PdfContextAsWritten(Some(Unreadable(reason)))), topic, keywords, instructions);
            ParsePrompt(Assemble(f)).Some? && ParsePrompt(Assemble(f)).value.context == "None"
  {
    var f := Fields(Interpolated(PdfContextAsWritten(Some(Unreadable(reason)))), topic, keywords, instructions);
    assert f.context == "None";
    RoundTrip(f);
  }

  /** With the corrected branch, an unreadable PDF leaves the transcript slot empty. */
  lemma UnreadablePdfSlotEmpty(reason: string, topic: string, keywords: string, instructions: string)
    requires '<' !in topic && '<' !in keywords
    ensures var f := Fields(PdfContext(Some(Unreadable(reason))), topic, keywords, instructions);
            ParsePrompt(Assemble(f)).Some? && ParsePrompt(Assemble(f)).value.context == []
  {
    RoundTrip(Fields(PdfContext(Some(Unreadable(reason))), topic, keywords, instructions));
  }

  // ---------------------------------------------------------------------------
  // Generation

  /** What is shown for a non-empty reply: the rendered lines and the three figures. */
  datatype Page = Page(directives: seq<Render.Directive>, stats: Render.Statistics)

  /** A press of the generate button: refused, or a prompt sent and what came of it. */
  datatype Run =
    | TopicMissing
    | Sent(prompt: string, noKeywordsWarning: bool, page: Option<Page>)

  /**
   * The generate button, where `reply` stands for the generation service
   * (None when the call fails). An empty topic refuses the request before any
   * prompt exists, so the service is not asked. Otherwise the prompt holds the
   * context, topic, keywords and the instructions (or the default sentence) in
   * their slots; a non-empty reply is rendered line by line with its figures,
   * and an empty or failed reply shows nothing.
   */
  method Generate(context: string, topic: string, keywords: string, instructions: string,
                  reply: string -> Option<string>)
    returns (run: Run)
    ensures run.TopicMissing? <==> topic == []
    ensures run.Sent? ==> Prepare(context, topic, keywords, instructions) == Ready(run.prompt, run.noKeywordsWarning)
    ensures run.Sent? && Unambiguous(Fields(context, topic, keywords, instructions)) ==>
              ParsePrompt(run.prompt) == Some(Fields(context, topic, keywords, EffectiveInstructions(instructions)))
    ensures run.Sent? ==> (run.page.Some? <==> reply(run.prompt).Some? && reply(run.prompt).value != [])
    ensures run.Sent? && run.page.Some? ==>
              run.page.value.directives == Render.RenderArticle(reply(run.prompt).value)
              && run.page.value.stats == Render.Stats(reply(run.prompt).value, keywords)
  {
    if topic == [] {
      return TopicMissing;
    }
    var noKeywords := keywords == [];
    var effective := instructions;
    if effective == [] {
      effective := DefaultInstructions;
    }
    var fields := Fields(context, topic, keywords, effective);
    var prompt := Assemble(fields);
    if Unambiguous(fields) {
      RoundTrip(fields);
    }
    var article := reply(prompt);
    var page := None;
    if article.Some? && article.value != [] {
      page := Some(Page(Render.RenderArticle(article.value), Render.Stats(article.value, keywords)));
    }
    run := Sent(prompt, noKeywords, page);
  }
}
