/**
 * Validation of the generation request and assembly of the prompt sent to the
 * text-generation service: four user inputs placed into fixed slots of a
 * constant template.
 */
module Prompt {
  import opened Wrappers

  /** The instructions used when the user gave none. */
  const DefaultInstructions: string := "Aucune consigne particulière"

  /**
   * Stand-ins for the template's two blocks of fixed prose (the writer's role
   * and mission, and the numbered authoring, SEO, tone and formatting
   * directives). Their wording is not modelled; they are constants that do
   * not depend on the request.
   */
  const Mission: string := "[mission statement]"
  const Directives: string := "[authoring directives]"

  /** The fixed text before the context, ending with the opening transcript tag. */
  const Opening: string := "\n" + Mission + "\nVoici la transcription vidéo à utiliser comme référence :\n<transcript>\n"
  /** Between the context and the topic. */
  const AfterContext: string := "\n</transcript>\n" + "Le sujet principal de l'article est :\n<article_topic>\n"
  /** Between the topic and the keywords. */
  const AfterTopic: string := "\n</article_topic>\n" + "Et voici les mots-clés cibles à incorporer :\n<target_keywords>\n"
  /** Between the keywords and the instructions. */
  const AfterKeywords: string := "\n</target_keywords>\n" + Directives + "\n\nInstructions particulières de l'utilisateur :\n"
  /** After the instructions. */
  const Closing: string := "\n"

  /** The four inputs the template interpolates. */
  datatype Fields = Fields(context: string, topic: string, keywords: string, instructions: string)

  /** Why a generation request is refused. */
  datatype RequestError = MissingTopic

  /**
   * The instructions actually used: the user's text when there is one, the
   * default sentence otherwise; never empty.
   */
  function EffectiveInstructions(instructions: string): (r: string)
    ensures r != []
    ensures instructions != [] ==> r == instructions
    ensures instructions == [] ==> r == DefaultInstructions
  {
    if instructions == [] then DefaultInstructions else instructions
  }

  /** The prompt: the template with context, topic, keywords and instructions in their slots, in that order. */
  function Assemble(f: Fields): (p: string)
    ensures Opening <= p
    ensures |p| == |Opening| + |AfterContext| + |AfterTopic| + |AfterKeywords| + |Closing|
                   + |f.context| + |f.topic| + |f.keywords| + |f.instructions|
  {
    Opening + f.context + AfterContext + f.topic + AfterTopic + f.keywords + AfterKeywords + f.instructions + Closing
  }

  /** The outcome of pressing the generate button, before the service is called. */
  datatype Prepared =
    | Refused(error: RequestError)
    | Ready(prompt: string, noKeywordsWarning: bool)

  /**
   * Validation then assembly: an empty topic refuses the request and no prompt
   * exists; empty keywords only raise a warning; empty instructions are
   * replaced by the default; every other input is used unchanged.
   */
  function Prepare(context: string, topic: string, keywords: string, instructions: string): (r: Prepared)
    ensures r.Refused? <==> topic == []
    ensures r.Ready? ==> r.noKeywordsWarning == (keywords == [])
    ensures r.Ready? ==> r.prompt == Assemble(Fields(context, topic, keywords, EffectiveInstructions(instructions)))
    ensures r.Ready? && Unambiguous(Fields(context, topic, keywords, instructions)) ==>
              ParsePrompt(r.prompt) == Some(Fields(context, topic, keywords, EffectiveInstructions(instructions)))
  {
    if topic == [] then Refused(MissingTopic)
    else
      var f := Fields(context, topic, keywords, EffectiveInstructions(instructions));
      assert Unambiguous(f) ==> ParsePrompt(Assemble(f)) == Some(f) by {
        if Unambiguous(f) {
          RoundTrip(f);
        }
      }
      Ready(Assemble(f), keywords == [])
  }

  // ---------------------------------------------------------------------------
  // Reading the slots back

  /** Position of the first occurrence of `pat` in `s`. */
  function IndexOf(s: string, pat: string): (r: Option<nat>)
    ensures r.Some? ==> r.value + |pat| <= |s| && s[r.value..r.value + |pat|] == pat
    ensures r.Some? ==> forall j :: 0 <= j < r.value ==> !(pat <= s[j..])
    decreases |s|
  {
    if pat <= s then Some(0)
    else if s == [] then None
    else match IndexOf(s[1..], pat)
      case None => None
      case Some(k) =>
        assert forall j :: 1 <= j < k + 1 ==> s[j..] == s[1..][j - 1..];
        Some(k + 1)
  }

  /** The text of `s` before the first `pat`, and the text after it. */
  function Cut(s: string, pat: string): Option<(string, string)> {
    match IndexOf(s, pat)
    case None => None
    case Some(i) => Some((s[..i], s[i + |pat|..]))
  }

  /**
   * The inverse of `Assemble`: read the four slots back from a prompt, each
   * ending at the first occurrence of the fixed text that follows it.
   */
  function ParsePrompt(p: string): Option<Fields> {
    if !(Opening <= p) then None
    else match Cut(p[|Opening|..], AfterContext)
      case None => None
      case Some((context, p1)) =>
        match Cut(p1, AfterTopic)
        case None => None
        case Some((topic, p2)) =>
          match Cut(p2, AfterKeywords)
          case None => None
          case Some((keywords, p3)) =>
            if |p3| >= |Closing| && p3[|p3| - |Closing|..] == Closing
            then Some(Fields(context, topic, keywords, p3[..|p3| - |Closing|]))
            else None
  }

  /** Inputs that cannot be confused with the template's closing tags: no `<` in the first three. */
  predicate Unambiguous(f: Fields) {
    '<' !in f.context && '<' !in f.topic && '<' !in f.keywords
  }

  /** A text without `<` followed by a fragment that starts with a newline and `<`: the fragment is first found right after the text. */
  lemma {:induction false} FirstOccurrence(x: string, pat: string, rest: string)
    requires '<' !in x && |pat| >= 2 && pat[0] == '\n' && pat[1] == '<'
    ensures IndexOf(x + pat + rest, pat) == Some(|x|)
  {
    var s := x + pat + rest;
    if x == [] {
      assert s == pat + rest;
    } else {
      assert !(pat <= s) by {
        if |x| >= 2 { assert s[1] == x[1]; } else { assert s[1] == pat[0]; }
      }
      assert s[1..] == x[1..] + pat + rest;
      FirstOccurrence(x[1..], pat, rest);
    }
  }

  lemma CutAfter(x: string, pat: string, rest: string)
    requires '<' !in x && |pat| >= 2 && pat[0] == '\n' && pat[1] == '<'
    ensures Cut(x + pat + rest, pat) == Some((x, rest))
  {
    FirstOccurrence(x, pat, rest);
    var s := x + pat + rest;
    assert s[..|x|] == x;
    assert s[|x| + |pat|..] == rest;
  }

  /** The four fixed fragments that follow a slot start with a newline and `<`. */
  lemma FragmentsStartWithTag()
    ensures |AfterContext| >= 2 && AfterContext[0] == '\n' && AfterContext[1] == '<'
    ensures |AfterTopic| >= 2 && AfterTopic[0] == '\n' && AfterTopic[1] == '<'
    ensures |AfterKeywords| >= 2 && AfterKeywords[0] == '\n' && AfterKeywords[1] == '<'
  {
  }

  /** Reading back after the opening text. */
  lemma ParseBody(p: string, f: Fields)
    requires Unambiguous(f)
    requires Opening <= p
    requires p[|Opening|..] == f.context + AfterContext + (f.topic + AfterTopic + (f.keywords + AfterKeywords + (f.instructions + Closing)))
    ensures ParsePrompt(p) == Some(f)
  {
    var p3 := f.instructions + Closing;
    var p2 := f.keywords + AfterKeywords + p3;
    var p1 := f.topic + AfterTopic + p2;
    FragmentsStartWithTag();
    CutAfter(f.context, AfterContext, p1);
    CutAfter(f.topic, AfterTopic, p2);
    CutAfter(f.keywords, AfterKeywords, p3);
    assert p3[|p3| - |Closing|..] == Closing;
    assert p3[..|p3| - |Closing|] == f.instructions;
  }

  /** Regrouping the nine pieces of a prompt. */
  lemma Regroup(a: string, b: string, c: string, d: string, e: string, g: string, h: string, i: string, j: string)
    ensures a + b + c + d + e + g + h + i + j == a + (b + c + (d + e + (g + h + (i + j))))
  {
  }

  /** The prompt is the opening text followed by the four slots and the fixed text after each. */
  lemma AssembleBody(f: Fields)
    ensures Assemble(f) == Opening + (f.context + AfterContext + (f.topic + AfterTopic + (f.keywords + AfterKeywords + (f.instructions + Closing))))
  {
    Regroup(Opening, f.context, AfterContext, f.topic, AfterTopic, f.keywords, AfterKeywords, f.instructions, Closing);
  }

  lemma DropPrefix(a: string, b: string)
    ensures a <= a + b && (a + b)[|a|..] == b
  {
  }

  /** The prompt carries its inputs verbatim and in order: reading the slots back gives them again. */
  lemma RoundTrip(f: Fields)
    requires Unambiguous(f)
    ensures ParsePrompt(Assemble(f)) == Some(f)
  {
    var body := f.context + AfterContext + (f.topic + AfterTopic + (f.keywords + AfterKeywords + (f.instructions + Closing)));
    AssembleBody(f);
    DropPrefix(Opening, body);
    ParseBody(Opening + body, f);
  }

  /** Different unambiguous inputs give different prompts. */
  lemma AssembleInjective(f: Fields, g: Fields)
    requires Unambiguous(f) && Unambiguous(g)
    requires Assemble(f) == Assemble(g)
    ensures f == g
  {
    RoundTrip(f);
    RoundTrip(g);
  }
}
