/**
 * The remote-transcript branch of the input step: the snippets of a fetched
 * transcript are joined into one text, a preview of its first lines is shown,
 * and the text becomes the article's context.
 */
module Transcript {
  import opened Wrappers
  import opened Text
  import VideoId

  /** Number of raw lines the preview looks at. */
  const PreviewWindow: nat := 5

  /** Languages asked of the transcript service, in order of preference. */
  const PreferredLanguages: seq<string> := ["fr", "en"]

  /**
   * The transcript text: the snippets in order,
   * exactly one newline between consecutive ones.
   */
  function TranscriptText(snippets: seq<string>): (text: string)
    ensures |snippets| > 0 ==> |text| == TotalLength(snippets) + |snippets| - 1
    ensures snippets == [] ==> text == []
  {
    Join(snippets, '\n')
  }

  /** When no snippet holds a newline, the transcript's lines are exactly the snippets. */
  lemma TranscriptLines(snippets: seq<string>)
    requires |snippets| > 0
    requires forall i :: 0 <= i < |snippets| ==> '\n' !in snippets[i]
    ensures Split(TranscriptText(snippets), '\n') == snippets
  {
    SplitJoin(snippets, '\n');
  }

  /** One shown preview line: its 1-based position among the raw lines and its stripped text. */
  datatype PreviewLine = PreviewLine(index: nat, text: string)

  /**
   * Entry `e` shows a line of `lines`, whose first line has position `first`:
   * its position is within `lines`, and its text is that line stripped, which
   * is not empty.
   */
  predicate Shows(lines: seq<string>, first: nat, e: PreviewLine) {
    first <= e.index < first + |lines| && e.text == Strip(lines[e.index - first]) && e.text != []
  }

  /** Entries numbered in strictly increasing order. */
  predicate Increasing(r: seq<PreviewLine>) {
    forall t, u :: 0 <= t < u < |r| ==> r[t].index < r[u].index
  }

  /** An entry for the lines after the first is an entry for all of them, after the first position. */
  lemma ShowsShift(lines: seq<string>, first: nat, e: PreviewLine)
    requires lines != [] && Shows(lines[1..], first + 1, e)
    ensures Shows(lines, first, e) && first < e.index
  {
    assert lines[1..][e.index - (first + 1)] == lines[e.index - first];
  }

  /**
   * The shown entries for `lines`, the first of which has position `first`:
   * the non-blank lines, stripped, tagged with their position, in order.
   */
  function PreviewFrom(lines: seq<string>, first: nat): (r: seq<PreviewLine>)
    ensures |r| <= |lines|
  {
    if lines == [] then []
    else
      var s := Strip(lines[0]);
      (if s != [] then [PreviewLine(first, s)] else []) + PreviewFrom(lines[1..], first + 1)
  }

  /** Every entry shows a non-blank line of `lines`, stripped, at its position. */
  lemma {:induction false} PreviewFromShows(lines: seq<string>, first: nat)
    ensures forall t :: 0 <= t < |PreviewFrom(lines, first)| ==> Shows(lines, first, PreviewFrom(lines, first)[t])
  {
    if lines != [] {
      var s := Strip(lines[0]);
      var head := if s != [] then [PreviewLine(first, s)] else [];
      var rest := PreviewFrom(lines[1..], first + 1);
      var r := PreviewFrom(lines, first);
      assert r == head + rest;
      PreviewFromShows(lines[1..], first + 1);
      forall t | 0 <= t < |r|
        ensures Shows(lines, first, r[t])
      {
        if t < |head| {
          assert r[t] == PreviewLine(first, s);
        } else {
          assert r[t] == rest[t - |head|];
          ShowsShift(lines, first, rest[t - |head|]);
        }
      }
    }
  }

  /** The entries' positions start at `first` or later and strictly increase. */
  lemma {:induction false} PreviewFromIncreasing(lines: seq<string>, first: nat)
    ensures forall t :: 0 <= t < |PreviewFrom(lines, first)| ==> first <= PreviewFrom(lines, first)[t].index
    ensures Increasing(PreviewFrom(lines, first))
  {
    if lines != [] {
      var s := Strip(lines[0]);
      var head := if s != [] then [PreviewLine(first, s)] else [];
      var rest := PreviewFrom(lines[1..], first + 1);
      var r := PreviewFrom(lines, first);
      assert r == head + rest;
      PreviewFromIncreasing(lines[1..], first + 1);
      forall t | 0 <= t < |r|
        ensures first <= r[t].index
      {
        if |head| <= t {
          assert r[t] == rest[t - |head|];
        }
      }
      forall t, u | 0 <= t < u < |r|
        ensures r[t].index < r[u].index
      {
        assert r[u] == rest[u - |head|];
        if |head| <= t {
          assert r[t] == rest[t - |head|];
        }
      }
    }
  }

  /** Number of the first `j` lines that are not blank after stripping. */
  function ShownBefore(lines: seq<string>, j: nat): nat
    requires j <= |lines|
  {
    if j == 0 then 0
    else (if Strip(lines[0]) != [] then 1 else 0) + ShownBefore(lines[1..], j - 1)
  }

  /**
   * No line that is blank after stripping is left out: line `j` is shown, as
   * the entry that follows those of the non-blank lines before it.
   */
  lemma {:induction false} PreviewComplete(lines: seq<string>, first: nat, j: nat)
    requires j < |lines| && Strip(lines[j]) != []
    ensures ShownBefore(lines, j) < |PreviewFrom(lines, first)|
    ensures PreviewFrom(lines, first)[ShownBefore(lines, j)] == PreviewLine(first + j, Strip(lines[j]))
  {
    var s := Strip(lines[0]);
    var head := if s != [] then [PreviewLine(first, s)] else [];
    var rest := PreviewFrom(lines[1..], first + 1);
    assert PreviewFrom(lines, first) == head + rest;
    if j > 0 {
      PreviewComplete(lines[1..], first + 1, j - 1);
      assert lines[1..][j - 1] == lines[j];
      assert (head + rest)[|head| + ShownBefore(lines[1..], j - 1)] == rest[ShownBefore(lines[1..], j - 1)];
    }
  }

  /**
   * The preview printed under the transcript: of the first five lines of the
   * text cut at every newline, those that are not blank after stripping, each
   * stripped and numbered by its 1-based position. At most five entries,
   * numbered in strictly increasing order, each the stripped non-blank line
   * at its position.
   */
  function Preview(text: string): (r: seq<PreviewLine>)
    ensures |r| <= PreviewWindow
    ensures forall t :: 0 <= t < |r| ==> Shows(Split(text, '\n'), 1, r[t]) && r[t].index <= PreviewWindow
    ensures Increasing(r)
  {
    var lines := Split(text, '\n');
    var window := lines[..if |lines| < PreviewWindow then |lines| else PreviewWindow];
    var r := PreviewFrom(window, 1);
    PreviewFromShows(window, 1);
    PreviewFromIncreasing(window, 1);
    assert forall t :: 0 <= t < |r| ==> Shows(lines, 1, r[t]) by {
      forall t | 0 <= t < |r| ensures Shows(lines, 1, r[t]) {
        assert window[r[t].index - 1] == lines[r[t].index - 1];
      }
    }
    r
  }

  /** Every line among the first five that is not blank after stripping is shown. */
  lemma PreviewShowsAll(text: string, j: nat)
    requires j < PreviewWindow && j < |Split(text, '\n')| && Strip(Split(text, '\n')[j]) != []
    ensures exists t :: 0 <= t < |Preview(text)| && Preview(text)[t] == PreviewLine(j + 1, Strip(Split(text, '\n')[j]))
  {
    var lines := Split(text, '\n');
    var window := lines[..if |lines| < PreviewWindow then |lines| else PreviewWindow];
    assert window[j] == lines[j];
    assert Preview(text) == PreviewFrom(window, 1);
    PreviewComplete(window, 1, j);
  }

  /** The example transcript: its second line is empty and it has six lines. */
  const ExampleSnippets: seq<string> := ["Bonjour", "", "le monde", "!", "fin", "extra"]

  lemma ExampleLines()
    ensures Split(TranscriptText(ExampleSnippets), '\n') == ExampleSnippets
  {
    assert forall i :: 0 <= i < |ExampleSnippets| ==> '\n' !in ExampleSnippets[i];
    TranscriptLines(ExampleSnippets);
  }

  lemma ExampleWindow()
    ensures PreviewFrom(ExampleSnippets[..5], 1)
         == [PreviewLine(1, "Bonjour"), PreviewLine(3, "le monde"), PreviewLine(4, "!"), PreviewLine(5, "fin")]
  {
    var w := ExampleSnippets[..5];
    assert w == ["Bonjour", "", "le monde", "!", "fin"];
    assert Strip(w[0]) == "Bonjour";
    assert Strip(w[1]) == "";
    assert Strip(w[2]) == "le monde";
    assert Strip(w[3]) == "!";
    assert Strip(w[4]) == "fin";
    assert PreviewFrom(w[4..], 5) == [PreviewLine(5, "fin")];
    assert PreviewFrom(w[3..], 4) == [PreviewLine(4, "!")] + PreviewFrom(w[4..], 5);
    assert PreviewFrom(w[2..], 3) == [PreviewLine(3, "le monde")] + PreviewFrom(w[3..], 4);
    assert PreviewFrom(w[1..], 2) == PreviewFrom(w[2..], 3);
    assert PreviewFrom(w, 1) == [PreviewLine(1, "Bonjour")] + PreviewFrom(w[1..], 2);
  }

  /** Lines 1, 3, 4 and 5 are shown; the blank line 2 is skipped and line 6 is outside the window. */
  lemma PreviewExample()
    ensures Preview(TranscriptText(ExampleSnippets))
         == [PreviewLine(1, "Bonjour"), PreviewLine(3, "le monde"), PreviewLine(4, "!"), PreviewLine(5, "fin")]
  {
    ExampleLines();
    ExampleWindow();
  }

  // ---------------------------------------------------------------------------
  // The remote-transcript branch

  /** The failures of the transcript service the page tells apart. */
  datatype FetchError =
    | TranscriptsDisabled
    | NoTranscriptFound
    | OtherFetchError(message: string)

  /** What the transcript service answers for an identifier and a language preference. */
  datatype FetchResult = Fetched(snippets: seq<string>) | FetchFailed(error: FetchError)

  /** What the remote branch ends with. */
  datatype RemoteOutcome =
    | NoUrl                                            // nothing entered: nothing happens
    | InvalidUrl                                       // no identifier found: error, no fetch
    | Failed(videoId: string, error: FetchError)       // the fetch for videoId failed
    | Aborted(error: FetchError)                       // failed before any identifier was extracted
    | Loaded(videoId: string, text: string, preview: seq<PreviewLine>)

  /**
   * The remote branch for `url` as intended (as written, it never gets past
   * the identifier search: see `LoadTranscriptAsWritten`), where `fetch`
   * stands for the transcript service: an empty URL does nothing; without an identifier the URL is
   * refused and nothing is fetched; otherwise the service is asked for that
   * identifier in French, then English, and its answer is either reported as
   * an error or joined into the transcript text with its preview.
   */
  function LoadTranscript(url: string, fetch: (string, seq<string>) -> FetchResult): (r: RemoteOutcome)
    ensures r.NoUrl? <==> url == []
    ensures !r.Aborted?
    ensures r.InvalidUrl? <==> url != [] && VideoId.ExtractVideoId(url).None?
    ensures (r.Failed? || r.Loaded?) ==> VideoId.ExtractVideoId(url) == Some(r.videoId)
    ensures r.Failed? ==> fetch(r.videoId, PreferredLanguages) == FetchFailed(r.error)
    ensures r.Loaded? ==> exists snippets :: fetch(r.videoId, PreferredLanguages) == Fetched(snippets)
                                             && r.text == TranscriptText(snippets)
    ensures r.Loaded? ==> r.preview == Preview(r.text)
  {
    if url == [] then NoUrl
    else
      match VideoId.ExtractVideoId(url)
      case None => InvalidUrl
      case Some(id) =>
        match fetch(id, PreferredLanguages)
        case FetchFailed(e) => Failed(id, e)
        case Fetched(snippets) =>
          var text := TranscriptText(snippets);
          Loaded(id, text, Preview(text))
  }

  /** The context the branch leaves behind: the transcript text when loaded, empty otherwise. */
  function RemoteContext(r: RemoteOutcome): (context: string)
    ensures context != [] ==> r.Loaded?
    ensures r.Loaded? ==> context == r.text
  {
    if r.Loaded? then r.text else []
  }

  // ---------------------------------------------------------------------------
  // The remote branch as written

  /**
   * The message of the unbound-name error the remote branch raises as written
   * (the wording of Python 3.11 and later).
   */
  const UnboundNameMessage: string := "cannot access local variable 're' where it is not associated with a value"

  /**
   * The remote branch as the page runs it. The generation step imports the
   * regular-expression module inside the same function, which makes that name
   * local to the whole function. At the identifier search it is still unbound,
   * so every non-empty URL raises an unbound-name error that the generic
   * handler reports: no identifier is extracted, nothing is fetched, and the
   * context stays empty, whatever the transcript service would answer.
   */
  function LoadTranscriptAsWritten(url: string): (r: RemoteOutcome)
    ensures r.NoUrl? <==> url == []
    ensures url != [] ==> r.Aborted? && r.error == OtherFetchError(UnboundNameMessage)
    ensures !r.InvalidUrl? && !r.Failed? && !r.Loaded?
    ensures RemoteContext(r) == []
  {
    if url == [] then NoUrl else Aborted(OtherFetchError(UnboundNameMessage))
  }

  /** The identifier of the example watch-page URL. */
  const ExampleId: string := "abcdefghijk"

  /**
   * On the watch-page URL of `ExampleId`, with a service that has the
   * one-snippet transcript `Bonjour`, the intended branch loads that text as
   * the context while the branch as written aborts and leaves it empty.
   */
  lemma RemoteBranchAsWrittenLosesTranscript(fetch: (string, seq<string>) -> FetchResult)
    requires fetch(ExampleId, PreferredLanguages) == Fetched(["Bonjour"])
    ensures var url := "https://www.youtube.com/watch?v=" + ExampleId;
            && LoadTranscript(url, fetch) == Loaded(ExampleId, "Bonjour", Preview("Bonjour"))
            && RemoteContext(LoadTranscript(url, fetch)) == "Bonjour"
            && LoadTranscriptAsWritten(url) == Aborted(OtherFetchError(UnboundNameMessage))
            && RemoteContext(LoadTranscriptAsWritten(url)) == []
  {
    assert VideoId.AllIdChars(ExampleId) by {
      forall i | 0 <= i < |ExampleId| ensures VideoId.IsIdChar(ExampleId[i]) {
        assert 'a' <= ExampleId[i] <= 'z';
      }
    }
    VideoId.WatchUrl(ExampleId);
    assert TranscriptText(["Bonjour"]) == "Bonjour";
  }
}
