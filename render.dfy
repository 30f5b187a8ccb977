/**
 * Rendering of the generated article: each line of the reply becomes one
 * display element according to its leading marker, and three counts are shown
 * beside it.
 */
module Render {
  import opened Text

  /** One display element: a level-1, -2 or -3 heading, a blank spacer, or a line of markdown shown as is. */
  datatype Directive =
    | Title(text: string)
    | Header(text: string)
    | Subheader(text: string)
    | Spacer
    | Markdown(text: string)

  const TitleMarker: string := "# "
  const HeaderMarker: string := "## "
  const SubheaderMarker: string := "### "

  /**
   * The element for one line. The tests are tried in the order `# `, `## `,
   * `### `, blank; the three markers exclude one another, so a line is a
   * heading of a level exactly when it starts with that level's marker. A
   * heading's text is the rest of the line, stripped. A line that is no
   * heading is a spacer exactly when it is blank, and is otherwise shown
   * unchanged.
   */
  function Classify(line: string): (d: Directive)
    ensures d.Title? <==> TitleMarker <= line
    ensures d.Header? <==> HeaderMarker <= line
    ensures d.Subheader? <==> SubheaderMarker <= line
    ensures d.Spacer? <==> !(TitleMarker <= line) && !(HeaderMarker <= line) && !(SubheaderMarker <= line) && AllSpace(line)
    ensures d.Title? ==> d.text == Strip(line[|TitleMarker|..])
    ensures d.Header? ==> d.text == Strip(line[|HeaderMarker|..])
    ensures d.Subheader? ==> d.text == Strip(line[|SubheaderMarker|..])
    ensures d.Markdown? ==> d.text == line
  {
    StripEnds(line);
    if TitleMarker <= line then
      assert !(HeaderMarker <= line) && !(SubheaderMarker <= line) by { assert line[1] == ' '; }
      Title(Strip(line[2..]))
    else if HeaderMarker <= line then
      assert !(SubheaderMarker <= line) by { assert line[2] == ' '; }
      Header(Strip(line[3..]))
    else if SubheaderMarker <= line then Subheader(Strip(line[4..]))
    else if Strip(line) == [] then Spacer
    else Markdown(line)
  }

  /** The markdown line a writer emits for a heading of level 1, 2 or 3. */
  function HeadingLine(level: nat, text: string): string
    requires 1 <= level <= 3
  {
    (if level == 1 then TitleMarker else if level == 2 then HeaderMarker else SubheaderMarker) + text
  }

  /** A heading written with its marker is read back as a heading of that level, with its text stripped. */
  lemma HeadingRoundTrip(level: nat, text: string)
    requires 1 <= level <= 3
    ensures level == 1 ==> Classify(HeadingLine(level, text)) == Title(Strip(text))
    ensures level == 2 ==> Classify(HeadingLine(level, text)) == Header(Strip(text))
    ensures level == 3 ==> Classify(HeadingLine(level, text)) == Subheader(Strip(text))
  {
    var line := HeadingLine(level, text);
    if level == 1 {
      assert TitleMarker <= line && line[|TitleMarker|..] == text;
    } else if level == 2 {
      assert HeaderMarker <= line && line[|HeaderMarker|..] == text;
    } else {
      assert SubheaderMarker <= line && line[|SubheaderMarker|..] == text;
    }
  }

  /** The examples of a heading, a spacer, and lines whose markers do not qualify. */
  lemma ClassifyExamples()
    ensures Classify("## Section") == Header("Section")
    ensures Classify("") == Spacer
    ensures Classify("  \t") == Spacer
    ensures Classify("#### x") == Markdown("#### x")
    ensures Classify("#x") == Markdown("#x")
    ensures Classify("# ") == Title("")
  {
    HeadingRoundTrip(2, "Section");
    assert HeadingLine(2, "Section") == "## Section";
    assert Strip("Section") == "Section";
    var b := "  \t";
    assert AllSpace(b);
    assert !(TitleMarker <= b) && !(HeaderMarker <= b) && !(SubheaderMarker <= b) by { assert b[0] != '#'; }
    var l := "#### x";
    assert !(TitleMarker <= l) by { assert l[1] != TitleMarker[1]; }
    assert !(HeaderMarker <= l) by { assert l[2] != HeaderMarker[2]; }
    assert !(SubheaderMarker <= l) by { assert l[3] != SubheaderMarker[3]; }
    assert !AllSpace(l) by { assert !IsSpace(l[0]); }
    var m := "#x";
    assert !(TitleMarker <= m) by { assert m[1] != TitleMarker[1]; }
    assert !AllSpace(m) by { assert !IsSpace(m[0]); }
    assert "# "[2..] == "";
  }

  /** The reply cut at every newline, each line classified: one element per line, in order. */
  function RenderArticle(article: string): (ds: seq<Directive>)
    ensures |ds| == Occurrences(article, '\n') + 1
    ensures forall i :: 0 <= i < |ds| ==> ds[i] == Classify(Split(article, '\n')[i])
  {
    var lines := Split(article, '\n');
    seq(|lines|, i requires 0 <= i < |lines| => Classify(lines[i]))
  }

  /** Lines are rendered independently: rendering two texts joined by a newline renders each. */
  lemma RenderAppend(a: string, b: string)
    ensures RenderArticle(a + "\n" + b) == RenderArticle(a) + RenderArticle(b)
  {
    assert a + "\n" + b == a + ['\n'] + b;
    SplitAppend(a, b, '\n');
    var lines := Split(a + "\n" + b, '\n');
    var la, lb := Split(a, '\n'), Split(b, '\n');
    assert lines == la + lb;
    var r, ra, rb := RenderArticle(a + "\n" + b), RenderArticle(a), RenderArticle(b);
    assert |r| == |ra| + |rb|;
    forall i | 0 <= i < |r|
      ensures r[i] == (ra + rb)[i]
    {
      if i < |ra| {
        assert lines[i] == la[i];
      } else {
        assert lines[i] == lb[i - |ra|];
      }
    }
  }

  // ---------------------------------------------------------------------------
  // Statistics

  /** The word figure: the number of maximal runs of non-whitespace characters. */
  function WordCount(article: string): (n: nat)
    ensures n == CountRuns(article, true)
  {
    WordsCountRuns(article);
    |Words(article)|
  }

  /**
   * The keyword figure: no keywords for empty input,
   * otherwise one per line, blank lines included.
   */
  function KeywordCount(keywords: string): (n: nat)
    ensures keywords == [] ==> n == 0
    ensures keywords != [] ==> n == Occurrences(keywords, '\n') + 1
  {
    if keywords == [] then 0 else |Split(keywords, '\n')|
  }

  /** The three figures shown under the article. */
  datatype Statistics = Statistics(words: nat, characters: nat, keywords: nat)

  function Stats(article: string, keywords: string): (s: Statistics)
    ensures s.words == CountRuns(article, true)
    ensures s.characters == |article|
    ensures s.keywords == KeywordCount(keywords)
  {
    Statistics(WordCount(article), |article|, KeywordCount(keywords))
  }

  lemma StatsExamples()
    ensures WordCount("a b c") == 3
    ensures |"a b c"| == 5
    ensures KeywordCount("x\n\ny") == 3
    ensures KeywordCount("") == 0
  {
    assert "a b c" == "a" + " " + "b" + " " + "c";
    assert Occurrences("y", '\n') == 0;
    assert Occurrences("\ny", '\n') == 1;
    assert Occurrences("\n\ny", '\n') == 2;
    assert Occurrences("x\n\ny", '\n') == 2;
    assert CountRuns("c", true) == 1;
    assert CountRuns(" c", false) == 1;
    assert CountRuns("b c", true) == 2;
    assert CountRuns(" b c", false) == 2;
    assert CountRuns("a b c", true) == 3;
  }
}
