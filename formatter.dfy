/** Document formatting shared by the Documents, Chat and Search pages: one
    document in one of four styles, and the preview that concatenates the
    formatted documents after an instructions paragraph. */
module Formatter {
  import opened Text

  /** The built-in extension-to-language table of the markdown style. */
  const DefaultLangMap: map<string, string> :=
    map[".py" := "python", ".js" := "javascript", ".html" := "html", ".css" := "css",
        ".java" := "java", ".cpp" := "cpp", ".c" := "c", ".json" := "json",
        ".md" := "markdown", ".sh" := "bash", ".sql" := "sql", ".txt" := ""]

  /** What the empty preview shows. */
  const NoDocuments: string := "No documents selected."

  /** The fence language for an extension: looked up lower-cased, "" when absent. */
  function LangFor(ext: string, langMap: map<string, string>): (lang: string)
    ensures Lower(ext) in langMap ==> lang == langMap[Lower(ext)]
    ensures Lower(ext) !in langMap ==> lang == ""
  {
    var e := Lower(ext);
    if e in langMap then langMap[e] else ""
  }

  /** One document in the given style, with the markdown fence language already
      chosen. */
  function FormatWith(name: string, content: string, style: string, lang: string): string {
    if style == "xml" then "<document name=\"" + name + "\">\n" + content + "\n</document>"
    else if style == "markdown" then "```" + lang + " " + name + "\n" + content + "\n```"
    else if style == "simple" then "--- " + name + " ---\n" + content + "\n"
    else "# " + name + "\n" + content + "\n"
  }

  /** The text a formatted document starts with, before the content. */
  function Header(name: string, style: string, lang: string): string {
    if style == "xml" then "<document name=\"" + name + "\">\n"
    else if style == "markdown" then "```" + lang + " " + name + "\n"
    else if style == "simple" then "--- " + name + " ---\n"
    else "# " + name + "\n"
  }

  /** The text a formatted document ends with, after the content. */
  function Footer(style: string): string {
    if style == "xml" then "\n</document>"
    else if style == "markdown" then "\n```"
    else "\n"
  }

  /** Every style wraps the content verbatim between a header that depends only
      on the name (and fence language) and a footer that depends only on the
      style, so the content can be read back out of the formatted text. */
  lemma FormatFrames(name: string, content: string, style: string, lang: string)
    ensures FormatWith(name, content, style, lang) == Header(name, style, lang) + content + Footer(style)
    ensures var r := FormatWith(name, content, style, lang);
      |r| == |Header(name, style, lang)| + |content| + |Footer(style)|
      && r[|Header(name, style, lang)|..|r| - |Footer(style)|] == content
  {
    var h, f := Header(name, style, lang), Footer(style);
    var r := FormatWith(name, content, style, lang);
    assert r == h + content + f;
    assert r[|h|..|r| - |f|] == content;
  }

  /** Formatting is deterministic and loses nothing: two documents with the same
      name and style format alike exactly when their contents are equal. */
  lemma FormatInjective(name: string, c1: string, c2: string, style: string, lang: string)
    ensures FormatWith(name, c1, style, lang) == FormatWith(name, c2, style, lang) <==> c1 == c2
  {
    if FormatWith(name, c1, style, lang) == FormatWith(name, c2, style, lang) {
      FormatFrames(name, c1, style, lang);
      FormatFrames(name, c2, style, lang);
    }
  }

  /** `format_document` of the Chat page: the extension is `os.path.splitext`'s. */
  function ChatFormatDocument(name: string, content: string, style: string): (r: string)
    ensures r == Header(name, style, LangFor(SplitExt(name), DefaultLangMap)) + content + Footer(style)
    ensures style != "markdown" ==> r == FormatWith(name, content, style, "")
  {
    FormatFrames(name, content, style, LangFor(SplitExt(name), DefaultLangMap));
    FormatWith(name, content, style, LangFor(SplitExt(name), DefaultLangMap))
  }

  /** `format_document` of the Search page: the extension is `pathlib`'s suffix. */
  function SearchFormatDocument(name: string, content: string, style: string): (r: string)
    ensures r == Header(name, style, LangFor(PathSuffix(name), DefaultLangMap)) + content + Footer(style)
    ensures style != "markdown" ==> r == FormatWith(name, content, style, "")
  {
    FormatFrames(name, content, style, LangFor(PathSuffix(name), DefaultLangMap));
    FormatWith(name, content, style, LangFor(PathSuffix(name), DefaultLangMap))
  }

  /** `format_document` of the Documents page: `pathlib`'s suffix, and the
      language table read from the page configuration. */
  function DocumentsFormatDocument(name: string, content: string, style: string,
                                   langMap: map<string, string>): (r: string)
    ensures r == Header(name, style, LangFor(PathSuffix(name), langMap)) + content + Footer(style)
    ensures style != "markdown" ==> r == FormatWith(name, content, style, "")
  {
    FormatFrames(name, content, style, LangFor(PathSuffix(name), langMap));
    FormatWith(name, content, style, LangFor(PathSuffix(name), langMap))
  }

  /** The markdown fence carries the language of the extension, looked up
      case-insensitively: a ".PY" file is fenced as python. */
  lemma MarkdownExample()
    ensures SearchFormatDocument("src/app.PY", "x = 1", "markdown") == FormatWith("src/app.PY", "x = 1", "markdown", "python")
  {
    var p := "src/app.PY";
    assert p[3] == '/';
    assert LastIndex(p, '/') == 3;
    assert Basename(p) == "app.PY";
    var n := "app.PY";
    assert n[3] == '.';
    assert LastIndex(n, '.') == 3;
    assert PathSuffix(p) == ".PY";
    assert Lower(".PY") == ".py";
  }

  /** `os.path.splitext` skips the leading dots of a name: "..py" has no extension. */
  lemma SplitExtLeadingDots()
    ensures SplitExt("..py") == ""
  {
    var p := "..py";
    assert LastIndex(p, '/') == -1;
    assert p[1] == '.';
    assert LastIndex(p, '.') == 1;
    assert !exists i :: 0 <= i < 1 && p[i] != '.';
  }

  /** `pathlib` only refuses a dot in first or last position: "..py" has ".py". */
  lemma PathSuffixLeadingDots()
    ensures PathSuffix("..py") == ".py"
  {
    var p := "..py";
    assert LastIndex(p, '/') == -1;
    assert Basename(p) == p;
    assert p[1] == '.';
    assert LastIndex(p, '.') == 1;
  }

  /** The built-in table maps ".py" to python and has no entry for "". */
  lemma DefaultLangs()
    ensures LangFor(".py", DefaultLangMap) == "python"
    ensures LangFor("", DefaultLangMap) == ""
  {
    assert Lower(".py") == ".py";
    assert Lower("") == "";
  }

  /** A markdown fence grows with the length of its language. */
  lemma MarkdownLength(name: string, content: string, lang: string)
    ensures |FormatWith(name, content, "markdown", lang)| == |lang| + |name| + |content| + 9
  {
  }

  /** The three copies of `format_document` are not identical: for a name whose
      final component begins with two dots, `splitext` finds no extension while
      `pathlib` finds one, so the markdown fences differ. */
  lemma CopiesDifferOnLeadingDots()
    ensures LangFor(SplitExt("..py"), DefaultLangMap) == ""
    ensures LangFor(PathSuffix("..py"), DefaultLangMap) == "python"
    ensures ChatFormatDocument("..py", "x", "markdown") != SearchFormatDocument("..py", "x", "markdown")
  {
    SplitExtLeadingDots();
    PathSuffixLeadingDots();
    DefaultLangs();
    MarkdownLength("..py", "x", "");
    MarkdownLength("..py", "x", "python");
  }

  /** Outside the markdown style the three copies agree on every input. */
  lemma CopiesAgreeOutsideMarkdown(name: string, content: string, style: string, langMap: map<string, string>)
    requires style != "markdown"
    ensures ChatFormatDocument(name, content, style) == SearchFormatDocument(name, content, style)
    ensures SearchFormatDocument(name, content, style) == DocumentsFormatDocument(name, content, style, langMap)
  {
  }

  /** Each formatted block followed by a blank line, in order. */
  function Blocks(formatted: seq<string>): string {
    if formatted == [] then ""
    else Blocks(formatted[..|formatted| - 1]) + formatted[|formatted| - 1] + "\n\n"
  }

  /** The preview: a sentinel when nothing is selected, otherwise the
      instructions, a blank line, and every block. */
  function Preview(instructions: string, formatted: seq<string>): string {
    if formatted == [] then NoDocuments else instructions + "\n\n" + Blocks(formatted)
  }

  /** Formatting one more document appends one more block, followed by a
      blank line, to whatever text precedes the blocks. */
  lemma BlocksStep(head: string, formatted: seq<string>, i: nat)
    requires i < |formatted|
    ensures head + Blocks(formatted[..i + 1]) == (head + Blocks(formatted[..i])) + (formatted[i] + "\n\n")
  {
    var next := formatted[..i + 1];
    assert next[..|next| - 1] == formatted[..i];
  }

  /** Blocks of a concatenation is the concatenation of blocks. */
  lemma {:induction false} BlocksAppend(a: seq<string>, b: seq<string>)
    ensures Blocks(a + b) == Blocks(a) + Blocks(b)
    decreases |b|
  {
    if b != [] {
      var b' := b[..|b| - 1];
      assert (a + b)[..|a + b| - 1] == a + b';
      BlocksAppend(a, b');
    } else {
      assert a + b == a;
    }
  }

  /** The preview is never empty, starts with the instructions when something is
      selected, and the i-th block sits right after the blocks before it. */
  lemma PreviewShape(instructions: string, formatted: seq<string>, i: nat)
    requires i < |formatted|
    ensures var p := Preview(instructions, formatted);
      var before := |instructions| + 2 + |Blocks(formatted[..i])|;
      before + |formatted[i]| + 2 <= |p|
      && p[..|instructions| + 2] == instructions + "\n\n"
      && p[before..before + |formatted[i]| + 2] == formatted[i] + "\n\n"
  {
    assert formatted == formatted[..i] + [formatted[i]] + formatted[i + 1..];
    BlocksAppend(formatted[..i] + [formatted[i]], formatted[i + 1..]);
    BlocksAppend(formatted[..i], [formatted[i]]);
    assert Blocks([formatted[i]]) == formatted[i] + "\n\n" by {
      assert [formatted[i]][..0] == [];
    }
    var p := Preview(instructions, formatted);
    var pre := instructions + "\n\n";
    var b0 := Blocks(formatted[..i]);
    var b1 := formatted[i] + "\n\n";
    var b2 := Blocks(formatted[i + 1..]);
    assert p == pre + b0 + b1 + b2;
    assert p[|pre| + |b0|..|pre| + |b0| + |b1|] == b1;
  }
}
