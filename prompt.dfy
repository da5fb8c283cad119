/** The prompt builders `initialize_prompt`, `format_image_context` and
    `finalize_prompt`. The three handler files define them identically; this
    module models them once. */
module Prompt {
  import opened Common
  import opened PyStr

  const InstructionLine := "### Instruction:"
  /** Written in pieces so that a proof can see that it holds no newline. */
  const TaskLine := "Respond to this " + "Reddit post " + "with an award " + "winning top comment."
  const PostLine := "### Reddit Post:"
  const ContextLine := "### Image Context:"

  /** The fixed text before the post, line by line. */
  const Header := InstructionLine + "\n" + TaskLine + "\n\n" + PostLine + "\n"
  const HeaderLines := [InstructionLine, TaskLine, "", PostLine]
  /** The fixed text between the post and the image context. */
  const ContextHeading := "\n\n" + ContextLine + "\n"
  const ResponseMarker := "### Response:\n"

  const DescriptionLabel := "- Description:"
  const TextLabel := "-Text:"
  const CelebritiesLabel := "-Celebrities:"

  /** `title + '\n\n' + body if body else title`. */
  function PostSection(title: string, body: string): (r: string)
    ensures |title| <= |r| && r[..|title|] == title
    ensures r == title <==> body == ""
    ensures body != "" ==> EndsWith(r, body) && |r| >= |title| + 2 && r[|title|..|title| + 2] == "\n\n"
  {
    if body != "" then title + "\n\n" + body else title
  }

  /** `initialize_prompt(response)` for a post with this title and body. */
  function InitializePrompt(title: string, body: string): (p: string)
    ensures |p| == |Header| + |PostSection(title, body)| + |ContextHeading|
    ensures p[..|Header|] == Header
    ensures p[|Header|..|p| - |ContextHeading|] == PostSection(title, body)
    ensures p[|p| - |ContextHeading|..] == ContextHeading
  {
    Header + PostSection(title, body) + ContextHeading
  }

  /** `format_image_context(image_caption, celebrities, detected_texts)`: the
      description, then the text, then the celebrities, each after its label. */
  function FormatImageContext(caption: string, celebrities: string, texts: string): (r: string)
    ensures |DescriptionLabel + caption| <= |r| && r[..|DescriptionLabel + caption|] == DescriptionLabel + caption
    ensures EndsWith(r, CelebritiesLabel + celebrities + "\n\n")
    ensures |r| == |DescriptionLabel| + |TextLabel| + |CelebritiesLabel| + |caption| + |celebrities| + |texts| + 4
  {
    DescriptionLabel + caption + "\n" + TextLabel + texts + "\n" + CelebritiesLabel + celebrities + "\n\n"
  }

  /** `finalize_prompt(base_prompt, image_context)`. */
  function FinalizePrompt(base: string, context: string): (p: string)
    ensures |p| == |base| + |context| + |ResponseMarker|
    ensures p[..|base|] == base
    ensures p[|base|..|base| + |context|] == context
    ensures p[|p| - |ResponseMarker|..] == ResponseMarker
  {
    base + context + ResponseMarker
  }

  /** The final prompt both handlers send to the language model. */
  function AssemblePrompt(title: string, body: string, caption: string, celebrities: string, texts: string): (r: string)
    ensures var base := InitializePrompt(title, body);
      StripResponseMarker(r) == Some(base + FormatImageContext(caption, celebrities, texts))
      && ExtractPost(base) == Some(PostSection(title, body))
  {
    var base := InitializePrompt(title, body);
    StripFinalizePrompt(base, FormatImageContext(caption, celebrities, texts));
    ExtractPostOfInitializePrompt(title, body);
    FinalizePrompt(base, FormatImageContext(caption, celebrities, texts))
  }

  // ---------------------------------------------------------------------------
  // Reading a prompt back

  /** The post section of a prompt built by `InitializePrompt`, if `p` has that shape. */
  function ExtractPost(p: string): (r: Option<string>)
    ensures r.Some? ==> Header + r.value + ContextHeading == p
  {
    if |p| >= |Header| + |ContextHeading| && p[..|Header|] == Header && p[|p| - |ContextHeading|..] == ContextHeading then
      var post := p[|Header|..|p| - |ContextHeading|];
      assert p == p[..|Header|] + post + p[|p| - |ContextHeading|..];
      Some(post)
    else None
  }

  /** The base prompt of a final prompt, if it ends with the response marker. */
  function StripResponseMarker(p: string): (r: Option<string>)
    ensures r.Some? ==> r.value + ResponseMarker == p
  {
    if |p| >= |ResponseMarker| && p[|p| - |ResponseMarker|..] == ResponseMarker then
      var base := p[..|p| - |ResponseMarker|];
      assert p == base + p[|p| - |ResponseMarker|..];
      Some(base)
    else None
  }

  /** The three fields of an image context, if `ctx` is five lines of that shape. */
  function ParseImageContext(ctx: string): Option<(string, string, string)>
  {
    var lines := Split(ctx, '\n');
    if |lines| == 5 && lines[3] == "" && lines[4] == ""
       && |lines[0]| >= |DescriptionLabel| && lines[0][..|DescriptionLabel|] == DescriptionLabel
       && |lines[1]| >= |TextLabel| && lines[1][..|TextLabel|] == TextLabel
       && |lines[2]| >= |CelebritiesLabel| && lines[2][..|CelebritiesLabel|] == CelebritiesLabel
    then Some((lines[0][|DescriptionLabel|..], lines[2][|CelebritiesLabel|..], lines[1][|TextLabel|..]))
    else None
  }

  // ---------------------------------------------------------------------------
  // Lemmas

  lemma ExtractPostOfInitializePrompt(title: string, body: string)
    ensures ExtractPost(InitializePrompt(title, body)) == Some(PostSection(title, body))
  {
  }

  lemma StripFinalizePrompt(base: string, context: string)
    ensures StripResponseMarker(FinalizePrompt(base, context)) == Some(base + context)
  {
  }

  /** The post section starts with the title; the body follows it after one blank
      line exactly when the body is non-empty. */
  lemma PostSectionLines(title: string, body: string)
    ensures body == "" ==> Split(PostSection(title, body), '\n') == Split(title, '\n')
    ensures body != "" ==> Split(PostSection(title, body), '\n') == Split(title, '\n') + [""] + Split(body, '\n')
  {
    if body != "" {
      assert PostSection(title, body) == title + ['\n'] + (['\n'] + body);
      SplitConcat(title, '\n', ['\n'] + body);
      assert ['\n'] + body == [] + ['\n'] + body;
      SplitConcat([], '\n', body);
    }
  }

  /** The lines of a base prompt: the fixed header lines, the post's lines, a blank
      line, the image-context heading, and the start of the next line. */
  lemma InitializePromptLines(title: string, body: string)
    ensures Split(InitializePrompt(title, body), '\n')
         == HeaderLines + Split(PostSection(title, body), '\n') + ["", ContextLine, ""]
  {
    HeaderIsLines();
    assert '\n' !in ContextLine;
    FramedLines(Join("\n", HeaderLines), PostSection(title, body), ContextLine);
  }

  /** A text between a line ending and a blank line followed by one more line. */
  lemma FramedLines(h: string, post: string, m: string)
    requires '\n' !in m
    ensures Split((h + "\n") + post + ("\n\n" + m + "\n"), '\n') == Split(h, '\n') + Split(post, '\n') + ["", m, ""]
  {
    var tail := "\n" + m + "\n";
    calc {
      (h + "\n") + post + ("\n\n" + m + "\n");
      (h + ['\n']) + post + (['\n'] + tail);
      h + ['\n'] + (post + ['\n'] + tail);
    }
    SplitConcat(h, '\n', post + ['\n'] + tail);
    SplitConcat(post, '\n', tail);
    ContextTailLines(m);
  }

  lemma ContextTailLines(m: string)
    requires '\n' !in m
    ensures Split("\n" + m + "\n", '\n') == ["", m, ""]
  {
    assert "\n" + m + "\n" == "" + ['\n'] + (m + ['\n'] + "");
    SplitConcat("", '\n', m + ['\n'] + "");
    SplitConcat(m, '\n', "");
    SplitWithoutSeparator(m, '\n');
  }

  /** The header is its four lines, each ended by a newline. */
  lemma HeaderIsLines()
    ensures Header == Join("\n", HeaderLines) + "\n"
    ensures Split(Join("\n", HeaderLines), '\n') == HeaderLines
  {
    HeaderJoin();
    HeaderLinesHaveNoNewline();
    SplitJoin(HeaderLines, '\n');
  }

  lemma HeaderJoin()
    ensures Header == Join("\n", HeaderLines) + "\n"
  {
    var a, b, c, d := InstructionLine, TaskLine, "", PostLine;
    assert Join("\n", [c, d]) == c + "\n" + d by { assert [c, d][1..] == [d]; }
    assert Join("\n", [b, c, d]) == b + "\n" + Join("\n", [c, d]) by { assert [b, c, d][1..] == [c, d]; }
    assert Join("\n", [a, b, c, d]) == a + "\n" + Join("\n", [b, c, d]) by { assert [a, b, c, d][1..] == [b, c, d]; }
  }

  lemma HeaderLinesHaveNoNewline()
    ensures forall i :: 0 <= i < |HeaderLines| ==> '\n' !in HeaderLines[i]
  {
    TaskLineHasNoNewline();
    assert '\n' !in InstructionLine && '\n' !in PostLine;
  }

  lemma TaskLineHasNoNewline()
    ensures '\n' !in TaskLine
  {
    assert '\n' !in "Respond to this ";
    assert '\n' !in "Reddit post ";
    assert '\n' !in "with an award ";
    assert '\n' !in "winning top comment.";
  }

  /** With newline-free fields the image context is five lines: description, text,
      celebrities, and two empty ones. */
  lemma ImageContextLines(caption: string, celebrities: string, texts: string)
    requires '\n' !in caption && '\n' !in celebrities && '\n' !in texts
    ensures Split(FormatImageContext(caption, celebrities, texts), '\n')
         == [DescriptionLabel + caption, TextLabel + texts, CelebritiesLabel + celebrities, "", ""]
  {
    var l0, l1, l2 := DescriptionLabel + caption, TextLabel + texts, CelebritiesLabel + celebrities;
    assert '\n' !in DescriptionLabel && '\n' !in TextLabel && '\n' !in CelebritiesLabel;
    assert FormatImageContext(caption, celebrities, texts) == l0 + "\n" + l1 + "\n" + l2 + "\n\n";
    ThreeLines(l0, l1, l2);
  }

  lemma ThreeLines(a: string, b: string, c: string)
    requires '\n' !in a && '\n' !in b && '\n' !in c
    ensures Split(a + "\n" + b + "\n" + c + "\n\n", '\n') == [a, b, c, "", ""]
  {
    var t2 := c + ['\n'] + ['\n'];
    var t1 := b + ['\n'] + t2;
    calc {
      a + "\n" + b + "\n" + c + "\n\n";
      a + "\n" + b + "\n" + t2;
      a + "\n" + t1;
      a + ['\n'] + t1;
    }
    SplitConcat(a, '\n', t1);
    SplitConcat(b, '\n', t2);
    assert t2 == c + ['\n'] + ("" + ['\n'] + "");
    SplitConcat(c, '\n', "" + ['\n'] + "");
    SplitConcat("", '\n', "");
    SplitWithoutSeparator(a, '\n');
    SplitWithoutSeparator(b, '\n');
    SplitWithoutSeparator(c, '\n');
  }

  /** The image context can be read back into its three fields when none holds a newline. */
  lemma ParseFormatImageContext(caption: string, celebrities: string, texts: string)
    requires '\n' !in caption && '\n' !in celebrities && '\n' !in texts
    ensures ParseImageContext(FormatImageContext(caption, celebrities, texts)) == Some((caption, celebrities, texts))
  {
    ImageContextLines(caption, celebrities, texts);
    var l0, l1, l2 := DescriptionLabel + caption, TextLabel + texts, CelebritiesLabel + celebrities;
    assert l0[|DescriptionLabel|..] == caption;
    assert l1[|TextLabel|..] == texts;
    assert l2[|CelebritiesLabel|..] == celebrities;
  }

  /** A post without an image: the context block is the three labels with nothing after them. */
  lemma EmptyImageContext()
    ensures FormatImageContext("", "", "") == "- Description:\n-Text:\n-Celebrities:\n\n"
  {
  }

  /** The base prompt alone does not tell a body from a title holding a blank line:
      `("a", "b")` and `("a\n\nb", "")` give the same prompt. */
  lemma PostSectionAmbiguity()
    ensures InitializePrompt("a", "b") == InitializePrompt("a\n\nb", "")
  {
  }

  /** Every final prompt starts with the header and ends with the response marker,
      with the post section and the image context in between, in that order. */
  lemma AssemblePromptShape(title: string, body: string, caption: string, celebrities: string, texts: string)
    ensures AssemblePrompt(title, body, caption, celebrities, texts)
         == Header + PostSection(title, body) + ContextHeading + FormatImageContext(caption, celebrities, texts) + ResponseMarker
    ensures StripResponseMarker(AssemblePrompt(title, body, caption, celebrities, texts))
         == Some(InitializePrompt(title, body) + FormatImageContext(caption, celebrities, texts))
  {
  }

  /** The lines of a final prompt with newline-free image fields, before the
      response marker: the header lines, the post's lines, a blank line, the
      image-context heading, the three labelled fields and two blank lines. */
  lemma AssemblePromptLines(title: string, body: string, caption: string, celebrities: string, texts: string)
    requires '\n' !in caption && '\n' !in celebrities && '\n' !in texts
    ensures Split(InitializePrompt(title, body) + FormatImageContext(caption, celebrities, texts), '\n')
         == HeaderLines + Split(PostSection(title, body), '\n')
            + ["", ContextLine, DescriptionLabel + caption, TextLabel + texts, CelebritiesLabel + celebrities, "", ""]
  {
    var a := HeaderLines + Split(PostSection(title, body), '\n');
    var c := [DescriptionLabel + caption, TextLabel + texts, CelebritiesLabel + celebrities, "", ""];
    var base, ctx := InitializePrompt(title, body), FormatImageContext(caption, celebrities, texts);
    assert Split(base + ctx, '\n') == a + ["", ContextLine] + c by {
      InitializePromptLines(title, body);
      ImageContextLines(caption, celebrities, texts);
      LinesAfterBlankLine(base, ctx, a, ContextLine, c);
    }
    assert a + ["", ContextLine] + c == a + (["", ContextLine] + c);
  }

  /** A text whose last line is empty, followed by another text: the lines of the
      second continue on that last line. */
  lemma LinesAfterBlankLine(base: string, ctx: string, a: seq<string>, m: string, c: seq<string>)
    requires Split(base, '\n') == a + ["", m, ""]
    requires Split(ctx, '\n') == c
    ensures Split(base + ctx, '\n') == a + ["", m] + c
  {
    var p := Split(base, '\n');
    LastFieldIsSuffix(base, '\n');
    assert Last(p) == "";
    FirstFieldIsPrefix(base, '\n');
    SplitAfterSeparator(base, '\n', ctx);
    assert p[..|p| - 1] == a + ["", m];
  }

  /** A post with a one-line title and an empty body, such as a picture post: the
      title is the single line of the post section, followed at once by the image context. */
  lemma TitleOnlyPromptLines(title: string, caption: string, celebrities: string, texts: string)
    requires '\n' !in title && '\n' !in caption && '\n' !in celebrities && '\n' !in texts
    ensures StripResponseMarker(AssemblePrompt(title, "", caption, celebrities, texts)).Some?
    ensures Split(StripResponseMarker(AssemblePrompt(title, "", caption, celebrities, texts)).value, '\n')
         == HeaderLines + [title, "", ContextLine, DescriptionLabel + caption, TextLabel + texts, CelebritiesLabel + celebrities, "", ""]
  {
    AssemblePromptShape(title, "", caption, celebrities, texts);
    AssemblePromptLines(title, "", caption, celebrities, texts);
    PostSectionLines(title, "");
    SplitWithoutSeparator(title, '\n');
  }
}
