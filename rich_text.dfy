/**
 * `renderMarkdownToHTML`: the small Markdown-to-HTML rewrite used to show
 * generated summaries. The markdown is HTML-escaped, headings and bullets
 * are rewritten line by line, the text is cut into paragraphs at blank
 * lines, each paragraph is wrapped, and the result is placed in a fixed
 * document with an embedded style sheet.
 *
 * The source's regular-expression passes use `(?m)^...(.*)$`, which matches
 * within one line; the model applies each pass to the '\n'-separated lines.
 */
module RichText {
  import opened Wrappers

  // ---------------------------------------------------------------------
  // Plain string helpers
  // ---------------------------------------------------------------------

  /** `replacingOccurrences(of:with:)` for a one-character pattern. */
  function ReplaceChar(s: string, c: char, rep: string): string
    decreases |s|
  {
    if |s| == 0 then "" else (if s[0] == c then rep else [s[0]]) + ReplaceChar(s[1..], c, rep)
  }

  lemma {:induction false} ReplaceCharAppend(a: string, b: string, c: char, rep: string)
    ensures ReplaceChar(a + b, c, rep) == ReplaceChar(a, c, rep) + ReplaceChar(b, c, rep)
    decreases |a|
  {
    if |a| > 0 {
      assert (a + b)[1..] == a[1..] + b;
      ReplaceCharAppend(a[1..], b, c, rep);
    } else {
      assert a + b == b;
    }
  }

  /** Replacing a character that does not occur changes nothing. */
  lemma {:induction false} ReplaceCharAbsent(s: string, c: char, rep: string)
    requires forall k :: 0 <= k < |s| ==> s[k] != c
    ensures ReplaceChar(s, c, rep) == s
    decreases |s|
  {
    if |s| > 0 {
      ReplaceCharAbsent(s[1..], c, rep);
      assert [s[0]] + s[1..] == s;
    }
  }

  /** The first position of `c` in `s`. */
  function IndexOfChar(s: string, c: char): (r: Option<nat>)
    ensures r.None? ==> forall k :: 0 <= k < |s| ==> s[k] != c
    ensures r.Some? ==> r.value < |s| && s[r.value] == c && forall k :: 0 <= k < r.value ==> s[k] != c
    decreases |s|
  {
    if |s| == 0 then None
    else if s[0] == c then Some(0)
    else match IndexOfChar(s[1..], c)
      case None => None
      case Some(k) => Some(k + 1)
  }

  predicate NoNewline(s: string) {
    forall k :: 0 <= k < |s| ==> s[k] != '\n'
  }

  // ---------------------------------------------------------------------
  // Escaping
  // ---------------------------------------------------------------------

  /** The three escaping passes, `&` first, then `<`, then `>`. */
  function Escape(s: string): string {
    ReplaceChar(ReplaceChar(ReplaceChar(s, '&', "&amp;"), '<', "&lt;"), '>', "&gt;")
  }

  /** The entity of one character, as a single simultaneous escape would give it. */
  function EscapeChar(c: char): string {
    if c == '&' then "&amp;" else if c == '<' then "&lt;" else if c == '>' then "&gt;" else [c]
  }

  /** Every character replaced by its entity at once. */
  function EscapeEach(s: string): string
    decreases |s|
  {
    if |s| == 0 then "" else EscapeChar(s[0]) + EscapeEach(s[1..])
  }

  lemma ReplaceOneChar(c: char, d: char, rep: string)
    ensures ReplaceChar([c], d, rep) == if c == d then rep else [c]
  {
    assert [c][1..] == [];
  }

  lemma EscapeOneChar(c: char)
    ensures Escape([c]) == EscapeChar(c)
  {
    var amp := ReplaceChar([c], '&', "&amp;");
    ReplaceOneChar(c, '&', "&amp;");
    var lt := ReplaceChar(amp, '<', "&lt;");
    if c == '&' {
      ReplaceCharAbsent(amp, '<', "&lt;");
      ReplaceCharAbsent(lt, '>', "&gt;");
    } else {
      assert amp == [c];
      ReplaceOneChar(c, '<', "&lt;");
      if c == '<' {
        ReplaceCharAbsent(lt, '>', "&gt;");
      } else {
        assert lt == [c];
        ReplaceOneChar(c, '>', "&gt;");
      }
    }
  }

  /**
   * Escaping `&` first means the entities made by the later passes are not
   * escaped again: the three passes equal one simultaneous escape of each
   * input character.
   */
  lemma {:induction false} EscapeIsSimultaneous(s: string)
    ensures Escape(s) == EscapeEach(s)
    decreases |s|
  {
    if |s| > 0 {
      var c, rest := s[0], s[1..];
      assert s == [c] + rest;
      ReplaceCharAppend([c], rest, '&', "&amp;");
      ReplaceCharAppend(ReplaceChar([c], '&', "&amp;"), ReplaceChar(rest, '&', "&amp;"), '<', "&lt;");
      ReplaceCharAppend(ReplaceChar(ReplaceChar([c], '&', "&amp;"), '<', "&lt;"),
                        ReplaceChar(ReplaceChar(rest, '&', "&amp;"), '<', "&lt;"), '>', "&gt;");
      EscapeOneChar(c);
      EscapeIsSimultaneous(rest);
    }
  }

  /** Reading entities back: the inverse of a simultaneous escape. */
  function Unescape(t: string): string
    decreases |t|
  {
    if |t| == 0 then ""
    else if "&amp;" <= t then "&" + Unescape(t[5..])
    else if "&lt;" <= t then "<" + Unescape(t[4..])
    else if "&gt;" <= t then ">" + Unescape(t[4..])
    else [t[0]] + Unescape(t[1..])
  }

  /** Escaping loses nothing: unescaping the escaped text gives the input back. */
  lemma {:induction false} EscapeRoundTrip(s: string)
    ensures Unescape(Escape(s)) == s
  {
    EscapeIsSimultaneous(s);
    UnescapeEach(s);
  }

  lemma {:induction false} UnescapeEach(s: string)
    ensures Unescape(EscapeEach(s)) == s
    decreases |s|
  {
    if |s| > 0 {
      var c, rest := s[0], s[1..];
      var t := EscapeEach(s);
      assert t == EscapeChar(c) + EscapeEach(rest);
      UnescapeEach(rest);
      if c == '&' {
        assert "&amp;" <= t;
        assert t[5..] == EscapeEach(rest);
      } else if c == '<' {
        assert t[..4] == "&lt;" && t[1] == 'l';
        assert !("&amp;" <= t) by { assert "&amp;"[1] == 'a'; }
        assert t[4..] == EscapeEach(rest);
      } else if c == '>' {
        assert t[..4] == "&gt;" && t[1] == 'g';
        assert !("&amp;" <= t) by { assert "&amp;"[1] == 'a'; }
        assert !("&lt;" <= t) by { assert "&lt;"[1] == 'l'; }
        assert t[4..] == EscapeEach(rest);
      } else {
        assert t[0] == c && t[1..] == EscapeEach(rest);
      }
      assert [c] + rest == s;
    }
  }

  /** The escaped text holds no angle bracket at all. */
  lemma {:induction false} EscapeNoBrackets(s: string)
    ensures forall k :: 0 <= k < |Escape(s)| ==> Escape(s)[k] != '<' && Escape(s)[k] != '>'
  {
    EscapeIsSimultaneous(s);
    EscapeEachNoBrackets(s);
  }

  lemma {:induction false} EscapeEachNoBrackets(s: string)
    ensures forall k :: 0 <= k < |EscapeEach(s)| ==> EscapeEach(s)[k] != '<' && EscapeEach(s)[k] != '>'
    decreases |s|
  {
    if |s| > 0 {
      EscapeEachNoBrackets(s[1..]);
      var head := EscapeChar(s[0]);
      assert forall k :: 0 <= k < |head| ==> head[k] != '<' && head[k] != '>';
      assert EscapeEach(s) == head + EscapeEach(s[1..]);
    }
  }

  // ---------------------------------------------------------------------
  // Line rules
  // ---------------------------------------------------------------------

  /** `rule` applied to every '\n'-separated line, the separators kept. */
  function MapLines(s: string, rule: string -> string): string
    decreases |s|
  {
    match IndexOfChar(s, '\n')
    case None => rule(s)
    case Some(k) => rule(s[..k]) + "\n" + MapLines(s[k + 1..], rule)
  }

  /** A line starting with `marker` becomes `open`, the rest of the line, `close`. */
  function LineRule(l: string, marker: string, open: string, close: string): string {
    if marker <= l then open + l[|marker|..] + close else l
  }

  function H3Rule(l: string): string { LineRule(l, "### ", H3Open, H3Close) }
  function H2Rule(l: string): string { LineRule(l, "## ", H2Open, H2Close) }
  function H1Rule(l: string): string { LineRule(l, "# ", H1Open, H1Close) }
  function DashRule(l: string): string { LineRule(l, "- ", LiOpen, LiClose) }
  function StarRule(l: string): string { LineRule(l, "* ", LiOpen, LiClose) }

  /** The five regular-expression passes, in the source's order. */
  function RewriteLines(s: string): string {
    var h3 := MapLines(s, H3Rule);
    var h2 := MapLines(h3, H2Rule);
    var h1 := MapLines(h2, H1Rule);
    var dash := MapLines(h1, DashRule);
    MapLines(dash, StarRule)
  }

  /** The five rules, applied to one line. */
  function LineRules(l: string): string {
    StarRule(DashRule(H1Rule(H2Rule(H3Rule(l)))))
  }

  /** Each pass is per line: a line without '\n' is rewritten on its own, and lines are independent. */
  lemma MapLinesPerLine(a: string, b: string, rule: string -> string)
    requires NoNewline(a)
    ensures MapLines(a, rule) == rule(a)
    ensures MapLines(a + "\n" + b, rule) == rule(a) + "\n" + MapLines(b, rule)
  {
    var s := a + "\n" + b;
    assert s[|a|] == '\n';
    assert IndexOfChar(s, '\n') == Some(|a|);
    assert s[..|a|] == a;
    assert s[|a| + 1..] == b;
  }

  /** The line rules never produce a line break. */
  lemma RulesKeepNoNewline(l: string)
    requires NoNewline(l)
    ensures NoNewline(H3Rule(l)) && NoNewline(H2Rule(l)) && NoNewline(H1Rule(l))
    ensures NoNewline(DashRule(l)) && NoNewline(StarRule(l))
  {
  }

  /** On a single line the five passes are the five rules in order. */
  lemma RewriteOneLine(l: string)
    requires NoNewline(l)
    ensures RewriteLines(l) == LineRules(l)
  {
    var l3 := H3Rule(l);
    MapLinesPerLine(l, "", H3Rule);
    RulesKeepNoNewline(l);
    var l2 := H2Rule(l3);
    MapLinesPerLine(l3, "", H2Rule);
    RulesKeepNoNewline(l3);
    var l1 := H1Rule(l2);
    MapLinesPerLine(l2, "", H1Rule);
    RulesKeepNoNewline(l2);
    var ld := DashRule(l1);
    MapLinesPerLine(l1, "", DashRule);
    RulesKeepNoNewline(l1);
    MapLinesPerLine(ld, "", StarRule);
  }

  lemma RuleApplies(marker: string, x: string, open: string, close: string)
    ensures LineRule(marker + x, marker, open, close) == open + x + close
  {
    assert (marker + x)[|marker|..] == x;
  }

  lemma RuleSkips(l: string, marker: string, open: string, close: string, i: nat)
    requires i < |marker| && i < |l| && l[i] != marker[i]
    ensures LineRule(l, marker, open, close) == l
  {
  }

  /**
   * What a line becomes: "### x", "## x" and "# x" become h3, h2 and h1
   * headings, and a heading is not rewritten again by a later pass.
   */
  lemma LineRulesHeadings(x: string)
    ensures LineRules("### " + x) == H3Open + x + H3Close
    ensures LineRules("## " + x) == H2Open + x + H2Close
    ensures LineRules("# " + x) == H1Open + x + H1Close
  {
    var h3, h2, h1 := H3Open + x + H3Close, H2Open + x + H2Close, H1Open + x + H1Close;
    RuleApplies("### ", x, H3Open, H3Close);
    RuleSkips(h3, "## ", H2Open, H2Close, 0);
    RuleSkips(h3, "# ", H1Open, H1Close, 0);
    RuleSkips(h3, "- ", LiOpen, LiClose, 0);
    RuleSkips(h3, "* ", LiOpen, LiClose, 0);

    RuleSkips("## " + x, "### ", H3Open, H3Close, 2);
    RuleApplies("## ", x, H2Open, H2Close);
    RuleSkips(h2, "# ", H1Open, H1Close, 0);
    RuleSkips(h2, "- ", LiOpen, LiClose, 0);
    RuleSkips(h2, "* ", LiOpen, LiClose, 0);

    RuleSkips("# " + x, "### ", H3Open, H3Close, 1);
    RuleSkips("# " + x, "## ", H2Open, H2Close, 1);
    RuleApplies("# ", x, H1Open, H1Close);
    RuleSkips(h1, "- ", LiOpen, LiClose, 0);
    RuleSkips(h1, "* ", LiOpen, LiClose, 0);
  }

  /** "- x" and "* x" become list items. */
  lemma LineRulesBullets(x: string)
    ensures LineRules("- " + x) == LiOpen + x + LiClose
    ensures LineRules("* " + x) == LiOpen + x + LiClose
  {
    var li := LiOpen + x + LiClose;
    RuleSkips("- " + x, "### ", H3Open, H3Close, 0);
    RuleSkips("- " + x, "## ", H2Open, H2Close, 0);
    RuleSkips("- " + x, "# ", H1Open, H1Close, 0);
    RuleApplies("- ", x, LiOpen, LiClose);
    RuleSkips(li, "* ", LiOpen, LiClose, 0);

    RuleSkips("* " + x, "### ", H3Open, H3Close, 0);
    RuleSkips("* " + x, "## ", H2Open, H2Close, 0);
    RuleSkips("* " + x, "# ", H1Open, H1Close, 0);
    RuleSkips("* " + x, "- ", LiOpen, LiClose, 0);
    RuleApplies("* ", x, LiOpen, LiClose);
  }

  /** A line starting with none of '#', '-' and '*' is left alone. */
  lemma LineRulesPlain(l: string)
    requires |l| > 0 && l[0] != '#' && l[0] != '-' && l[0] != '*'
    ensures LineRules(l) == l
  {
    RuleSkips(l, "### ", H3Open, H3Close, 0);
    RuleSkips(l, "## ", H2Open, H2Close, 0);
    RuleSkips(l, "# ", H1Open, H1Close, 0);
    RuleSkips(l, "- ", LiOpen, LiClose, 0);
    RuleSkips(l, "* ", LiOpen, LiClose, 0);
  }

  // ---------------------------------------------------------------------
  // Paragraphs
  // ---------------------------------------------------------------------

  /** The first position of "\n\n" in `s`. */
  function IndexOfBlank(s: string): (r: Option<nat>)
    ensures r.Some? ==> r.value + 1 < |s| && s[r.value] == '\n' && s[r.value + 1] == '\n'
    decreases |s|
  {
    if |s| < 2 then None
    else if s[0] == '\n' && s[1] == '\n' then Some(0)
    else match IndexOfBlank(s[1..])
      case None => None
      case Some(k) => Some(k + 1)
  }

  /** `components(separatedBy: "\n\n")`. */
  function SplitParagraphs(s: string): (ps: seq<string>)
    ensures |ps| >= 1
    decreases |s|
  {
    match IndexOfBlank(s)
    case None => [s]
    case Some(k) => [s[..k]] + SplitParagraphs(s[k + 2..])
  }

  /** `joined(separator:)`. */
  function JoinWith(ps: seq<string>, sep: string): string
    requires |ps| >= 1
    decreases |ps|
  {
    if |ps| == 1 then ps[0] else ps[0] + sep + JoinWith(ps[1..], sep)
  }

  lemma JoinFirst(p: string, ps: seq<string>, sep: string)
    requires |ps| >= 1
    ensures JoinWith([p] + ps, sep) == p + sep + JoinWith(ps, sep)
  {
    assert ([p] + ps)[1..] == ps;
  }

  lemma CutAtBlank(s: string, k: nat)
    requires k + 1 < |s| && s[k] == '\n' && s[k + 1] == '\n'
    ensures s == s[..k] + "\n\n" + s[k + 2..]
  {
    assert s[k..k + 2] == "\n\n";
    assert s == s[..k] + s[k..k + 2] + s[k + 2..];
  }

  /** Splitting at blank lines loses nothing: joining the paragraphs back gives the text. */
  lemma {:induction false} SplitParagraphsRoundTrip(s: string)
    ensures JoinWith(SplitParagraphs(s), "\n\n") == s
    decreases |s|
  {
    match IndexOfBlank(s)
    case None =>
    case Some(k) =>
      var rest := s[k + 2..];
      SplitParagraphsRoundTrip(rest);
      JoinFirst(s[..k], SplitParagraphs(rest), "\n\n");
      CutAtBlank(s, k);
  }

  /** Whether `t` occurs in `s`. */
  function Contains(s: string, t: string): bool
    decreases |s|
  {
    t <= s || (|s| > 0 && Contains(s[1..], t))
  }

  /** A paragraph holding a list item becomes a list, any other one a paragraph with `<br>` line breaks. */
  function WrapParagraph(p: string): string {
    if Contains(p, LiOpen) then UlOpen + p + UlClose
    else POpen + ReplaceChar(p, '\n', Br) + PClose
  }

  /** `joined()`. */
  function Concat(ps: seq<string>): string
    decreases |ps|
  {
    if |ps| == 0 then "" else ps[0] + Concat(ps[1..])
  }

  function MapWrap(ps: seq<string>): (ws: seq<string>)
    ensures |ws| == |ps| && forall k :: 0 <= k < |ps| ==> ws[k] == WrapParagraph(ps[k])
  {
    seq(|ps|, k requires 0 <= k < |ps| => WrapParagraph(ps[k]))
  }

  /** Line breaks inside an ordinary paragraph all become `<br>`. */
  lemma {:induction false} BreaksReplaced(p: string)
    ensures NoNewline(ReplaceChar(p, '\n', Br))
    decreases |p|
  {
    if |p| > 0 {
      BreaksReplaced(p[1..]);
      var head := if p[0] == '\n' then Br else [p[0]];
      assert ReplaceChar(p, '\n', Br) == head + ReplaceChar(p[1..], '\n', Br);
    }
  }

  // ---------------------------------------------------------------------
  // The document
  // ---------------------------------------------------------------------

  /** The body: escape, rewrite lines, wrap paragraphs, join. */
  function Body(markdown: string): string {
    Concat(MapWrap(SplitParagraphs(RewriteLines(Escape(markdown)))))
  }

  /** The embedded style sheet. */
  const Css: string :=
    "<style>" + "\n" +
    "    :root {" + "\n" +
    "        color-scheme: light dark;" + "\n" +
    "    }" + "\n" +
    "    body {" + "\n" +
    "        font-family: -apple-system, BlinkMacSystemFont, \"Segoe UI\", Roboto, Helvetica, Arial, sans-serif;" + "\n" +
    "        font-size: 13px;" + "\n" +
    "        line-height: 1.6;" + "\n" +
    "        padding: 15px;" + "\n" +
    "        color: canvastext;" + "\n" +
    "        background-color: transparent;" + "\n" +
    "    }" + "\n" +
    "    h1, h2, h3 {" + "\n" +
    "        margin-top: 1.2em;" + "\n" +
    "        margin-bottom: 0.5em;" + "\n" +
    "        font-weight: 700;" + "\n" +
    "        color: #007AFF;" + "\n" +
    "    }" + "\n" +
    "    h1 { font-size: 1.6em; border-bottom: 2px solid #007AFF; padding-bottom: 0.2em; }" + "\n" +
    "    h2 { font-size: 1.4em; border-bottom: 1px solid rgba(0,122,255,0.3); padding-bottom: 0.1em; }" + "\n" +
    "    h3 { font-size: 1.2em; }" + "\n" +
    "    ul { padding-left: 1.5em; margin-bottom: 1em; }" + "\n" +
    "    li { margin-bottom: 0.4em; }" + "\n" +
    "    p { margin-bottom: 1em; }" + "\n" +
    "    code {" + "\n" +
    "        background-color: rgba(27,31,35,0.05);" + "\n" +
    "        padding: 0.2em 0.4em;" + "\n" +
    "        border-radius: 3px;" + "\n" +
    "        font-family: SFMono-Regular, Consolas, Menlo, monospace;" + "\n" +
    "    }" + "\n" +
    "</style>"

  const DocumentStart: string := "<html><head><meta charset='utf-8'>" + Css + "</head><body>"
  const DocumentEnd: string := "</body></html>"

  /** `renderMarkdownToHTML(_:)`. */
  function RenderMarkdownToHtml(markdown: string): string {
    DocumentStart + Body(markdown) + DocumentEnd
  }

  /** Every document is the fixed start, the body, and the fixed end. */
  lemma DocumentShape(markdown: string)
    ensures var r := RenderMarkdownToHtml(markdown);
      |r| == |DocumentStart| + |Body(markdown)| + |DocumentEnd| &&
      r[..|DocumentStart|] == DocumentStart &&
      r[|DocumentStart|..|r| - |DocumentEnd|] == Body(markdown) &&
      r[|r| - |DocumentEnd|..] == "</body></html>"
  {
    var r := RenderMarkdownToHtml(markdown);
    assert r == DocumentStart + (Body(markdown) + DocumentEnd);
  }

  /** Two markdown texts give the same document exactly when they give the same body. */
  lemma RenderDependsOnlyOnBody(m1: string, m2: string)
    ensures RenderMarkdownToHtml(m1) == RenderMarkdownToHtml(m2) <==> Body(m1) == Body(m2)
  {
    DocumentShape(m1);
    DocumentShape(m2);
  }

  // ---------------------------------------------------------------------
  // No injected markup
  // ---------------------------------------------------------------------

  /** The tags the renderer inserts. */
  const H1Open: string := "<h1>"
  const H1Close: string := "</h1>"
  const H2Open: string := "<h2>"
  const H2Close: string := "</h2>"
  const H3Open: string := "<h3>"
  const H3Close: string := "</h3>"
  const LiOpen: string := "<li>"
  const LiClose: string := "</li>"
  const UlOpen: string := "<ul>"
  const UlClose: string := "</ul>"
  const POpen: string := "<p>"
  const PClose: string := "</p>"
  const Br: string := "<br>"

  const Tags: seq<string> :=
    [H1Open, H1Close, H2Open, H2Close, H3Open, H3Close, LiOpen, LiClose, UlOpen, UlClose, POpen, PClose, Br]

  /** Whether `s` starts with one of the inserted tags. */
  predicate StartsWithTag(s: string) {
    exists i :: 0 <= i < |Tags| && Tags[i] <= s
  }

  /** Every '<' in `s` begins an inserted tag. */
  predicate TagsOnly(s: string) {
    forall k :: 0 <= k < |s| && s[k] == '<' ==> StartsWithTag(s[k..])
  }

  predicate OneTag(t: string) {
    |t| > 0 && t[0] == '<' && NoNewline(t) && forall k :: 1 <= k < |t| ==> t[k] != '<'
  }

  lemma TagsShape()
    ensures forall i :: 0 <= i < |Tags| ==> OneTag(Tags[i])
  {
  }

  lemma TagTagsOnly(i: nat)
    requires i < |Tags|
    ensures TagsOnly(Tags[i])
  {
    TagsShape();
    assert Tags[i][0..] == Tags[i];
  }

  lemma TagsOnlyAppend(a: string, b: string)
    requires TagsOnly(a) && TagsOnly(b)
    ensures TagsOnly(a + b)
  {
    var s := a + b;
    forall k | 0 <= k < |s| && s[k] == '<'
      ensures StartsWithTag(s[k..])
    {
      if k < |a| {
        assert a[k] == '<';
        var i :| 0 <= i < |Tags| && Tags[i] <= a[k..];
        assert s[k..] == a[k..] + b;
        assert Tags[i] <= s[k..];
      } else {
        assert s[k..] == b[k - |a|..];
      }
    }
  }

  lemma TagsOnlySuffix(s: string, i: nat)
    requires TagsOnly(s) && i <= |s|
    ensures TagsOnly(s[i..])
  {
    forall k | 0 <= k < |s[i..]| && s[i..][k] == '<'
      ensures StartsWithTag(s[i..][k..])
    {
      assert s[i..][k..] == s[i + k..];
    }
  }

  /** A tag ends before any line break that follows its start. */
  lemma TagBeforeBreak(s: string, j: nat, k: nat)
    requires j < k < |s| && s[k] == '\n' && StartsWithTag(s[j..])
    ensures StartsWithTag(s[j..k])
  {
    var i :| 0 <= i < |Tags| && Tags[i] <= s[j..];
    TagsShape();
    var t := Tags[i];
    assert s[j..k][..|t|] == s[j..][..|t|];
    assert t <= s[j..k];
  }

  lemma TagsOnlyCut(s: string, i: nat)
    requires TagsOnly(s) && i < |s| && s[i] == '\n'
    ensures TagsOnly(s[..i])
  {
    forall k | 0 <= k < i && s[..i][k] == '<'
      ensures StartsWithTag(s[..i][k..])
    {
      TagBeforeBreak(s, k, i);
      assert s[..i][k..] == s[k..i];
    }
  }

  lemma TagsOnlyNoAngle(s: string)
    requires forall k :: 0 <= k < |s| ==> s[k] != '<'
    ensures TagsOnly(s)
  {
  }

  lemma LineRuleTagsOnly(l: string, marker: string, i: nat, j: nat)
    requires TagsOnly(l) && i < |Tags| && j < |Tags|
    ensures TagsOnly(LineRule(l, marker, Tags[i], Tags[j]))
  {
    if marker <= l {
      TagTagsOnly(i);
      TagTagsOnly(j);
      TagsOnlySuffix(l, |marker|);
      TagsOnlyAppend(Tags[i], l[|marker|..]);
      TagsOnlyAppend(Tags[i] + l[|marker|..], Tags[j]);
    }
  }

  /** The rules of the five passes, by number, so one lemma can cover them all. */
  function PassRule(n: nat): string -> string
    requires n < 5
  {
    if n == 0 then H3Rule else if n == 1 then H2Rule else if n == 2 then H1Rule else if n == 3 then DashRule else StarRule
  }

  lemma PassRuleTagsOnly(n: nat, l: string)
    requires n < 5 && TagsOnly(l)
    ensures TagsOnly(PassRule(n)(l))
  {
    if n == 0 { LineRuleTagsOnly(l, "### ", 4, 5); assert PassRule(n)(l) == LineRule(l, "### ", Tags[4], Tags[5]); }
    else if n == 1 { LineRuleTagsOnly(l, "## ", 2, 3); assert PassRule(n)(l) == LineRule(l, "## ", Tags[2], Tags[3]); }
    else if n == 2 { LineRuleTagsOnly(l, "# ", 0, 1); assert PassRule(n)(l) == LineRule(l, "# ", Tags[0], Tags[1]); }
    else if n == 3 { LineRuleTagsOnly(l, "- ", 6, 7); assert PassRule(n)(l) == LineRule(l, "- ", Tags[6], Tags[7]); }
    else { LineRuleTagsOnly(l, "* ", 6, 7); assert PassRule(n)(l) == LineRule(l, "* ", Tags[6], Tags[7]); }
  }

  lemma {:induction false} MapLinesTagsOnly(s: string, n: nat)
    requires n < 5 && TagsOnly(s)
    ensures TagsOnly(MapLines(s, PassRule(n)))
    decreases |s|
  {
    match IndexOfChar(s, '\n')
    case None =>
      PassRuleTagsOnly(n, s);
    case Some(k) =>
      TagsOnlyCut(s, k);
      TagsOnlySuffix(s, k + 1);
      PassRuleTagsOnly(n, s[..k]);
      MapLinesTagsOnly(s[k + 1..], n);
      TagsOnlyAppend(PassRule(n)(s[..k]), "\n");
      TagsOnlyAppend(PassRule(n)(s[..k]) + "\n", MapLines(s[k + 1..], PassRule(n)));
  }

  lemma RewriteLinesTagsOnly(s: string)
    requires TagsOnly(s)
    ensures TagsOnly(RewriteLines(s))
  {
    MapLinesTagsOnly(s, 0);
    var h3 := MapLines(s, H3Rule);
    MapLinesTagsOnly(h3, 1);
    var h2 := MapLines(h3, H2Rule);
    MapLinesTagsOnly(h2, 2);
    var h1 := MapLines(h2, H1Rule);
    MapLinesTagsOnly(h1, 3);
    var dash := MapLines(h1, DashRule);
    MapLinesTagsOnly(dash, 4);
  }

  lemma {:induction false} SplitParagraphsTagsOnly(s: string)
    requires TagsOnly(s)
    ensures forall k :: 0 <= k < |SplitParagraphs(s)| ==> TagsOnly(SplitParagraphs(s)[k])
    decreases |s|
  {
    match IndexOfBlank(s)
    case None =>
    case Some(k) =>
      TagsOnlyCut(s, k);
      TagsOnlySuffix(s, k + 2);
      SplitParagraphsTagsOnly(s[k + 2..]);
  }

  /** A prefix without line breaks is kept by the `<br>` replacement. */
  lemma {:induction false} PrefixKeptByBreaks(p: string, n: nat)
    requires n <= |p| && NoNewline(p[..n])
    ensures |ReplaceChar(p, '\n', Br)| >= n && ReplaceChar(p, '\n', Br)[..n] == p[..n]
    decreases n
  {
    if n > 0 {
      assert p[..n][0] == p[0];
      assert p[1..][..n - 1] == p[..n][1..];
      PrefixKeptByBreaks(p[1..], n - 1);
      assert ReplaceChar(p, '\n', Br) == [p[0]] + ReplaceChar(p[1..], '\n', Br);
    }
  }

  /** A text starting with a tag still starts with it once its line breaks are replaced. */
  lemma TagKeptByBreaks(p: string)
    requires StartsWithTag(p)
    ensures StartsWithTag(ReplaceChar(p, '\n', Br))
  {
    var i :| 0 <= i < |Tags| && Tags[i] <= p;
    TagsShape();
    var t := Tags[i];
    assert p[..|t|] == t;
    PrefixKeptByBreaks(p, |t|);
    assert t <= ReplaceChar(p, '\n', Br);
  }

  /** Replacing line breaks by `<br>` keeps every '<' at the start of a tag. */
  lemma {:induction false} BreaksTagsOnly(p: string)
    requires TagsOnly(p)
    ensures TagsOnly(ReplaceChar(p, '\n', Br))
    decreases |p|
  {
    if |p| > 0 {
      TagsOnlySuffix(p, 1);
      BreaksTagsOnly(p[1..]);
      var rest := ReplaceChar(p[1..], '\n', Br);
      var r := ReplaceChar(p, '\n', Br);
      if p[0] == '<' {
        assert r == [p[0]] + rest;
        assert p[0..] == p;
        TagKeptByBreaks(p);
        forall k | 0 <= k < |r| && r[k] == '<'
          ensures StartsWithTag(r[k..])
        {
          if k > 0 {
            assert r[k..] == rest[k - 1..];
          }
        }
      } else if p[0] == '\n' {
        TagTagsOnly(12);
        assert Tags[12] == Br;
        TagsOnlyAppend(Br, rest);
      } else {
        TagsOnlyNoAngle([p[0]]);
        TagsOnlyAppend([p[0]], rest);
      }
    }
  }

  lemma WrapTagsOnly(p: string)
    requires TagsOnly(p)
    ensures TagsOnly(WrapParagraph(p))
  {
    if Contains(p, LiOpen) {
      TagTagsOnly(8);
      TagTagsOnly(9);
      assert Tags[8] == UlOpen && Tags[9] == UlClose;
      TagsOnlyAppend(UlOpen, p);
      TagsOnlyAppend(UlOpen + p, UlClose);
    } else {
      TagTagsOnly(10);
      TagTagsOnly(11);
      assert Tags[10] == POpen && Tags[11] == PClose;
      BreaksTagsOnly(p);
      TagsOnlyAppend(POpen, ReplaceChar(p, '\n', Br));
      TagsOnlyAppend(POpen + ReplaceChar(p, '\n', Br), PClose);
    }
  }

  lemma {:induction false} ConcatTagsOnly(ps: seq<string>)
    requires forall k :: 0 <= k < |ps| ==> TagsOnly(ps[k])
    ensures TagsOnly(Concat(ps))
    decreases |ps|
  {
    if |ps| > 0 {
      ConcatTagsOnly(ps[1..]);
      TagsOnlyAppend(ps[0], Concat(ps[1..]));
    }
  }

  /**
   * No markup comes from the input: escaping runs before any tag is
   * inserted, so every '<' in the body begins one of the renderer's own
   * tags, whatever the markdown holds.
   */
  lemma BodyHasOnlyInsertedTags(markdown: string)
    ensures TagsOnly(Body(markdown))
  {
    EscapeNoBrackets(markdown);
    TagsOnlyNoAngle(Escape(markdown));
    RewriteLinesTagsOnly(Escape(markdown));
    var ps := SplitParagraphs(RewriteLines(Escape(markdown)));
    SplitParagraphsTagsOnly(RewriteLines(Escape(markdown)));
    forall k | 0 <= k < |ps|
      ensures TagsOnly(MapWrap(ps)[k])
    {
      WrapTagsOnly(ps[k]);
    }
    ConcatTagsOnly(MapWrap(ps));
  }
}
