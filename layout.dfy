/**
 * One pass of the chat panel's layout: the turns from newest to oldest, each
 * drawn upwards from the panel's bottom edge, as rows of text or images plus
 * the rectangles a click can hit. Font measurements and image loading are
 * inputs (`Display`); nothing is drawn, the rows are recorded as data.
 */
module Layout {
  import opened Wrappers
  import opened PyStr
  import opened Seqs
  import opened Markup
  import opened Chat

  // ---------------------------------------------------------------------------
  // Geometry of the 800x600 window

  const PanelLeft := 12
  const PanelTop := 12
  /** `WIDTH - 24` */
  const PanelWidth := 776
  /** `12 + (HEIGHT - 120)` */
  const PanelBottom := 492
  /** Labels, prose and images start at `panel_rect.left + 16`. */
  const TextX := PanelLeft + 16
  /** Code rows start at `panel_rect.left + 24`. */
  const CodeX := PanelLeft + 24
  /** A prose line is wrapped once it is wider than `panel_rect.width - 40`. */
  const WrapLimit := PanelWidth - 40
  /** The cursor starts at `panel_rect.bottom - 12`. */
  const StartY := PanelBottom - 12
  /** The pass stops after a turn leaves the cursor above `panel_rect.top + 10`. */
  const StopY := PanelTop + 10
  /** Only `chat[-40:]` is laid out. */
  const MaxTurns := 40

  // ---------------------------------------------------------------------------
  // Data

  /** What rendering a string in a font measures. */
  datatype Font = Font(width: string -> nat, height: string -> nat)

  /** Loading an image file: its drawn size (after any scaling), or a failure. */
  datatype ImageLoad = LoadFailed | Loaded(width: nat, height: nat)

  /** The three fonts (`font`, `big`, `mono`) and the image loader. */
  datatype Display = Display(body: Font, big: Font, mono: Font, load: string -> ImageLoad)

  /** A `pygame.Rect`. */
  datatype Rect = Rect(left: int, top: int, width: nat, height: nat)

  /** `rect.collidepoint((x, y))`: the right and bottom edges are outside. */
  predicate Collides(r: Rect, x: int, y: int)
  {
    r.left <= x < r.left + r.width && r.top <= y < r.top + r.height
  }

  /** An entry of `rendered_items`: `{'type': 'link', ...}` or `{'type': 'image', ...}`. */
  datatype Item = LinkItem(rect: Rect, url: string) | ImageItem(rect: Rect, path: string)

  function ItemRect(it: Item): Rect
  {
    match it
    case LinkItem(r, _) => r
    case ImageItem(r, _) => r
  }

  datatype Style = LabelText | BodyText | LinkText | CodeText

  /** One blit, at its top-left corner. */
  datatype Row = TextRow(style: Style, x: int, y: int, text: string) | ImageRow(x: int, y: int, path: string)

  /** The state of a layout pass: the cursor `y`, what has been drawn, and `rendered_items`. */
  datatype Frame = Frame(y: int, rows: seq<Row>, items: seq<Item>)

  /** `g` continues `f`: the cursor has not gone down and everything drawn so far is kept. */
  predicate Extends(f: Frame, g: Frame)
  {
    g.y <= f.y && f.rows <= g.rows && f.items <= g.items
  }

  /** A matched URL: a scheme followed by at least one character, and no whitespace. */
  predicate IsUrlText(u: string)
  {
    (StartsWith(u, "https://") || StartsWith(u, "http://"))
    && |u| > 7 && forall k :: 0 <= k < |u| ==> !IsSpace(u[k])
  }

  /** Every item added between `f` and `g` is a link to a URL. */
  predicate NewLinks(f: Frame, g: Frame)
    requires |f.items| <= |g.items|
  {
    forall k :: |f.items| <= k < |g.items| ==> g.items[k].LinkItem? && IsUrlText(g.items[k].url)
  }

  lemma NewLinksTrans(f: Frame, g: Frame, h: Frame)
    requires Extends(f, g) && Extends(g, h) && NewLinks(f, g) && NewLinks(g, h)
    ensures NewLinks(f, h)
  {
    forall k | |f.items| <= k < |h.items| ensures h.items[k].LinkItem? && IsUrlText(h.items[k].url) {
      if k < |g.items| { assert h.items[k] == g.items[k]; }
    }
  }

  /**
   * Each row is a text row drawn `gap` plus its text's height above the one
   * before it, the first one above `y0`: how `y -= height + gap` stacks rows.
   */
  predicate StepsUp(rows: seq<Row>, y0: int, font: Font, gap: nat)
  {
    (forall k :: 0 <= k < |rows| ==> rows[k].TextRow?)
    && (|rows| > 0 ==> rows[0].y == y0 - font.height(rows[0].text) - gap)
    && (forall k :: 0 < k < |rows| ==> rows[k].y == rows[k - 1].y - font.height(rows[k].text) - gap)
  }

  lemma StepsCons(row: Row, rows: seq<Row>, y0: int, font: Font, gap: nat)
    requires row.TextRow? && row.y == y0 - font.height(row.text) - gap
    requires StepsUp(rows, row.y, font, gap)
    ensures StepsUp([row] + rows, y0, font, gap)
  {
    var all := [row] + rows;
    forall k | 0 < k < |all| ensures all[k].TextRow? {
      assert all[k] == rows[k - 1];
    }
    forall k | 0 < k < |all| ensures all[k].y == all[k - 1].y - font.height(all[k].text) - gap {
      assert all[k] == rows[k - 1];
      if k > 1 { assert all[k - 1] == rows[k - 2]; } else { assert all[k - 1] == row; }
    }
  }

  // ---------------------------------------------------------------------------
  // One row at a time

  /** Moves the cursor up by the height of `text` plus `gap`, then draws `text` there. */
  function TextLine(f: Frame, font: Font, gap: nat, style: Style, x: int, text: string): (g: Frame)
    ensures g.y == f.y - font.height(text) - gap
    ensures g.rows == f.rows + [TextRow(style, x, g.y, text)] && g.items == f.items
  {
    var y := f.y - (font.height(text) + gap);
    Frame(y, f.rows + [TextRow(style, x, y, text)], f.items)
  }

  /** A prose line: `y -= height + 6`, drawn at the text margin. */
  function BodyLine(d: Display, f: Frame, text: string): Frame
  {
    TextLine(f, d.body, 6, BodyText, TextX, text)
  }

  /** A code line: `y -= height + 4` in the monospace font, drawn at the code margin. */
  function CodeLine(d: Display, f: Frame, text: string): Frame
  {
    TextLine(f, d.mono, 4, CodeText, CodeX, text)
  }

  // ---------------------------------------------------------------------------
  // Code parts

  /** The code rows, in the order they are drawn. */
  function CodeFrame(d: Display, f: Frame, lines: seq<string>): (g: Frame)
    decreases |lines|
    ensures Extends(f, g)
  {
    if lines == [] then f else CodeFrame(d, CodeLine(d, f, lines[0]), lines[1..])
  }

  /**
   * The code rows: one monospace row per line at the code margin, in the given
   * order, each strictly above the one before, and never a clickable item.
   */
  lemma {:induction false} CodeFrameRows(d: Display, f: Frame, lines: seq<string>)
    decreases |lines|
    ensures var g := CodeFrame(d, f, lines);
      var added := g.rows[|f.rows|..];
      g.items == f.items && |added| == |lines|
      && (forall k :: 0 <= k < |lines| ==> added[k] == TextRow(CodeText, CodeX, added[k].y, lines[k]))
      && (forall k :: 0 <= k < |lines| ==> added[k].y <= f.y - 4 * (k + 1))
      && (forall k :: 0 < k < |lines| ==> added[k].y < added[k - 1].y)
      && g.y <= f.y - 4 * |lines|
  {
    if lines != [] {
      var f1 := CodeLine(d, f, lines[0]);
      var g := CodeFrame(d, f1, lines[1..]);
      CodeFrameRows(d, f1, lines[1..]);
      var added := g.rows[|f.rows|..];
      var added1 := g.rows[|f1.rows|..];
      assert f1.rows <= g.rows;
      assert added[0] == f1.rows[|f.rows|];
      assert added[1..] == added1;
      forall k | 0 < k < |lines|
        ensures added[k] == TextRow(CodeText, CodeX, added[k].y, lines[k])
        ensures added[k].y <= f.y - 4 * (k + 1)
      {
        assert added[k] == added1[k - 1] && lines[k] == lines[1..][k - 1];
      }
      forall k | 0 < k < |lines| ensures added[k].y < added[k - 1].y {
        assert added[k] == added1[k - 1];
        if k > 1 { assert added[k - 1] == added1[k - 2]; }
      }
    }
  }

  /** Each code row lies its height plus 4 above the one before; the cursor ends at the last row. */
  lemma {:induction false} CodeFrameDrops(d: Display, f: Frame, lines: seq<string>)
    decreases |lines|
    ensures var g := CodeFrame(d, f, lines);
      var added := g.rows[|f.rows|..];
      |added| == |lines| && StepsUp(added, f.y, d.mono, 4)
      && g.y == if lines == [] then f.y else added[|lines| - 1].y
  {
    if lines != [] {
      var f1 := CodeLine(d, f, lines[0]);
      var g := CodeFrame(d, f1, lines[1..]);
      CodeFrameDrops(d, f1, lines[1..]);
      var added := g.rows[|f.rows|..];
      var added1 := g.rows[|f1.rows|..];
      assert f1.rows <= g.rows;
      assert added == [f1.rows[|f.rows|]] + added1;
      StepsCons(f1.rows[|f.rows|], added1, f.y, d.mono, 4);
    }
  }

  // ---------------------------------------------------------------------------
  // Prose parts

  /** The wrapped lines drawn while the word loop runs. */
  function FlushedFrame(d: Display, f: Frame, lines: seq<string>): (g: Frame)
    decreases |lines|
    ensures Extends(f, g)
  {
    if lines == [] then f else FlushedFrame(d, BodyLine(d, f, lines[0]), lines[1..])
  }

  /** Flushed lines are drawn in order at the text margin and never yield a link. */
  lemma {:induction false} FlushedFrameRows(d: Display, f: Frame, lines: seq<string>)
    decreases |lines|
    ensures var g := FlushedFrame(d, f, lines);
      var added := g.rows[|f.rows|..];
      g.items == f.items && |added| == |lines|
      && forall k :: 0 <= k < |lines| ==> added[k] == TextRow(BodyText, TextX, added[k].y, lines[k])
  {
    if lines != [] {
      var f1 := BodyLine(d, f, lines[0]);
      var g := FlushedFrame(d, f1, lines[1..]);
      FlushedFrameRows(d, f1, lines[1..]);
      var added := g.rows[|f.rows|..];
      var added1 := g.rows[|f1.rows|..];
      assert f1.rows <= g.rows;
      assert added[0] == f1.rows[|f.rows|];
      assert added[1..] == added1;
      forall k | 0 < k < |lines| ensures added[k] == TextRow(BodyText, TextX, added[k].y, lines[k]) {
        assert added[k] == added1[k - 1] && lines[k] == lines[1..][k - 1];
      }
    }
  }

  /** Each flushed line lies its height plus 6 above the one before; the cursor ends at the last row. */
  lemma {:induction false} FlushedFrameDrops(d: Display, f: Frame, lines: seq<string>)
    decreases |lines|
    ensures var g := FlushedFrame(d, f, lines);
      var added := g.rows[|f.rows|..];
      |added| == |lines| && StepsUp(added, f.y, d.body, 6)
      && g.y == if lines == [] then f.y else added[|lines| - 1].y
  {
    if lines != [] {
      var f1 := BodyLine(d, f, lines[0]);
      var g := FlushedFrame(d, f1, lines[1..]);
      FlushedFrameDrops(d, f1, lines[1..]);
      var added := g.rows[|f.rows|..];
      var added1 := g.rows[|f1.rows|..];
      assert f1.rows <= g.rows;
      assert added == [f1.rows[|f.rows|]] + added1;
      StepsCons(f1.rows[|f.rows|], added1, f.y, d.body, 6);
    }
  }

  /** The link item for the match `m` of `line`, as drawn at height `y`. */
  function LinkFor(d: Display, line: string, m: Span, y: int): Item
    requires m.start <= m.end <= |line|
  {
    var url := line[m.start..m.end];
    LinkItem(Rect(TextX + d.body.width(line[..m.start]), y, d.body.width(url), d.body.height(url)), url)
  }

  /**
   * One iteration of the `finditer` loop: the text before the match (from the
   * start of the line), the link, and the rest of the line when it is not blank
   * (`rest.strip()` is empty exactly when `rest` is all whitespace, see `Strip`).
   */
  function MatchStep(d: Display, f: Frame, line: string, m: Span): (g: Frame)
    requires m.start <= m.end <= |line|
    ensures g.y == f.y - d.body.height(line[..m.start]) - 6
    ensures f.rows <= g.rows && g.items == f.items + [LinkFor(d, line, m, g.y)]
  {
    var pre := line[..m.start];
    var url := line[m.start..m.end];
    var rest := line[m.end..];
    var y := f.y - (d.body.height(pre) + 6);
    var ux := TextX + d.body.width(pre);
    Frame(y, f.rows + Segments(d.body, y, pre, url, rest, !AllSpace(rest)),
      f.items + [LinkItem(Rect(ux, y, d.body.width(url), d.body.height(url)), url)])
  }

  /** The texts of text rows, read in order. */
  function RowTexts(rows: seq<Row>): string
  {
    if rows == [] then "" else (if rows[0].TextRow? then rows[0].text else "") + RowTexts(rows[1..])
  }

  /**
   * Text rows on one baseline `y`, the first at `x0` and each of the others
   * starting where the one before it ends in `font`.
   */
  predicate SideBySide(rows: seq<Row>, font: Font, x0: int, y: int)
  {
    (forall k :: 0 <= k < |rows| ==> rows[k].TextRow? && rows[k].y == y)
    && (|rows| > 0 ==> rows[0].x == x0)
    && (forall k :: 0 < k < |rows| ==> rows[k].x == rows[k - 1].x + font.width(rows[k - 1].text))
  }

  /**
   * One match draws the text before it at the margin, the URL where its link
   * item starts, and, exactly when `rest.strip()` is not empty, the rest of
   * the line: side by side on the new baseline, so that read left to right
   * the rows spell the line up to the end of the match, or the whole line.
   */
  lemma MatchStepRows(d: Display, f: Frame, line: string, m: Span)
    requires m.start <= m.end <= |line|
    ensures var g := MatchStep(d, f, line, m);
      f.rows <= g.rows && SpellsMatch(g.rows[|f.rows|..], d.body, g.y, line, m, Strip(line[m.end..]) != "")
  {
    var g := MatchStep(d, f, line, m);
    var rest := line[m.end..];
    var show := Strip(rest) != "";
    MatchStepSegments(d, f, line, m, rest);
    assert g.rows[|f.rows|..] == Segments(d.body, g.y, line[..m.start], line[m.start..m.end], rest, show);
    SegmentsSpell(d.body, g.y, line, m, show);
  }

  /** The URL's row is drawn exactly over the link item `MatchStep` adds. */
  lemma MatchStepLinkRow(d: Display, f: Frame, line: string, m: Span)
    requires m.start <= m.end <= |line|
    ensures var g := MatchStep(d, f, line, m);
      var link := LinkFor(d, line, m, g.y);
      |f.rows| + 1 < |g.rows| && g.items[|f.items|] == link
      && g.rows[|f.rows| + 1] == TextRow(LinkText, link.rect.left, link.rect.top, link.url)
  {
    var g := MatchStep(d, f, line, m);
    var rest := line[m.end..];
    MatchStepSegments(d, f, line, m, rest);
    var rows := Segments(d.body, g.y, line[..m.start], line[m.start..m.end], rest, Strip(rest) != "");
    assert g.rows[|f.rows| + 1] == rows[1];
  }

  /**
   * The rows drawn for the match `m` of `line` on the baseline `y`: the text
   * before it, the URL, and the rest exactly when `show`; side by side from
   * the margin, spelling the line up to the end of the match, or the whole
   * line when the rest is drawn.
   */
  predicate SpellsMatch(rows: seq<Row>, font: Font, y: int, line: string, m: Span, show: bool)
    requires m.start <= m.end <= |line|
  {
    2 <= |rows| <= 3
    && (|rows| == 3 <==> show)
    && SideBySide(rows, font, TextX, y)
    && RowTexts(rows) == (if show then line else line[..m.end])
    && rows[0].style == BodyText && rows[1].style == LinkText && (show ==> rows[2].style == BodyText)
  }

  lemma SegmentsSpell(font: Font, y: int, line: string, m: Span, show: bool)
    requires m.start <= m.end <= |line|
    ensures SpellsMatch(Segments(font, y, line[..m.start], line[m.start..m.end], line[m.end..], show), font, y, line, m, show)
  {
    var pre := line[..m.start];
    var url := line[m.start..m.end];
    var rest := line[m.end..];
    SegmentsSideBySide(font, y, pre, url, rest, show);
    assert line[..m.end] == pre + url;
    assert show ==> line == pre + url + rest;
  }

  /** `MatchStep` draws its segments after the rows before it, the rest when `rest.strip()` is not empty. */
  lemma MatchStepSegments(d: Display, f: Frame, line: string, m: Span, rest: string)
    requires m.start <= m.end <= |line| && rest == line[m.end..]
    ensures var g := MatchStep(d, f, line, m);
      g.rows == f.rows + Segments(d.body, g.y, line[..m.start], line[m.start..m.end], rest, Strip(rest) != "")
  {
    StripNonEmpty(rest);
  }

  /** The text before a match, the URL, and the rest when it is shown, as `MatchStep` draws them. */
  function Segments(font: Font, y: int, pre: string, url: string, rest: string, show: bool): seq<Row>
  {
    var ux := TextX + font.width(pre);
    [TextRow(BodyText, TextX, y, pre), TextRow(LinkText, ux, y, url)]
      + (if show then [TextRow(BodyText, ux + font.width(url), y, rest)] else [])
  }

  lemma SegmentsSideBySide(font: Font, y: int, pre: string, url: string, rest: string, show: bool)
    ensures SideBySide(Segments(font, y, pre, url, rest, show), font, TextX, y)
    ensures RowTexts(Segments(font, y, pre, url, rest, show)) == pre + url + (if show then rest else "")
  {
    var rows := Segments(font, y, pre, url, rest, show);
    assert rows[1..][1..] == if show then [rows[2]] else [];
    if show {
      assert RowTexts(rows[2..]) == rest + RowTexts([]);
    }
  }

  /** Every span lies within `line`. */
  predicate InLine(line: string, ms: seq<Span>)
  {
    forall k :: 0 <= k < |ms| ==> ms[k].start <= ms[k].end <= |line|
  }

  /** The `finditer` loop over the matches `ms`. */
  function MatchFrame(d: Display, f: Frame, line: string, ms: seq<Span>): (g: Frame)
    requires InLine(line, ms)
    decreases |ms|
    ensures Extends(f, g)
  {
    if ms == [] then f
    else
      assert ms[0].start <= ms[0].end <= |line|;
      assert InLine(line, ms[1..]) by {
        forall k | 0 <= k < |ms| - 1 ensures ms[1..][k].start <= ms[1..][k].end <= |line| {
          assert ms[1..][k] == ms[k + 1];
        }
      }
      MatchFrame(d, MatchStep(d, f, line, ms[0]), line, ms[1..])
  }

  lemma SpanIsUrl(line: string, m: Span)
    requires IsUrlSpan(line, m)
    ensures IsUrlText(line[m.start..m.end])
  {
    var u := line[m.start..m.end];
    UrlSpanLength(line, m);
    if OccursAt(line, "https://", m.start) {
      assert u[..8] == line[m.start..m.start + 8];
    } else {
      assert u[..7] == line[m.start..m.start + 7];
    }
    forall k | 0 <= k < |u| ensures !IsSpace(u[k]) {
      assert u[k] == line[m.start + k];
    }
  }

  /**
   * Each match adds exactly one link item, at `x = left + 16 + width(line[:start])`,
   * whose URL is the matched text; the cursor drops once per match.
   */
  lemma {:induction false} MatchFrameLinks(d: Display, f: Frame, line: string, ms: seq<Span>)
    requires InLine(line, ms)
    decreases |ms|
    ensures var g := MatchFrame(d, f, line, ms);
      var added := g.items[|f.items|..];
      |added| == |ms|
      && (forall k :: 0 <= k < |ms| ==> added[k] == LinkFor(d, line, ms[k], added[k].rect.top))
  {
    if ms != [] {
      assert ms[0].start <= ms[0].end <= |line|;
      var f1 := MatchStep(d, f, line, ms[0]);
      var rest := ms[1..];
      assert InLine(line, rest) by {
        forall k | 0 <= k < |rest| ensures rest[k].start <= rest[k].end <= |line| {
          assert rest[k] == ms[k + 1];
        }
      }
      var g := MatchFrame(d, f1, line, rest);
      assert g == MatchFrame(d, f, line, ms);
      MatchFrameLinks(d, f1, line, rest);
      DropCons(f.items, LinkFor(d, line, ms[0], f1.y), g.items);
      LinksCons(d, line, ms, f.items, g.items);
    }
  }

  /** Adding the link of the first match in front of the links of the rest. */
  lemma LinksCons(d: Display, line: string, ms: seq<Span>, a: seq<Item>, c: seq<Item>)
    requires InLine(line, ms) && |ms| >= 1 && |a| < |c|
    requires c[|a|] == LinkFor(d, line, ms[0], c[|a|].rect.top)
    requires var rest := c[|a| + 1..];
      |rest| == |ms| - 1
      && forall k :: 0 <= k < |rest| ==> rest[k] == LinkFor(d, line, ms[k + 1], rest[k].rect.top)
    ensures var added := c[|a|..];
      |added| == |ms|
      && forall k :: 0 <= k < |ms| ==> added[k] == LinkFor(d, line, ms[k], added[k].rect.top)
  {
    var added := c[|a|..];
    var rest := c[|a| + 1..];
    forall k | 0 < k < |ms| ensures added[k] == LinkFor(d, line, ms[k], added[k].rect.top) {
      assert added[k] == rest[k - 1];
    }
  }

  /** The cursor drops at least one link line per match. */
  lemma {:induction false} MatchFrameDrops(d: Display, f: Frame, line: string, ms: seq<Span>)
    requires InLine(line, ms)
    decreases |ms|
    ensures MatchFrame(d, f, line, ms).y <= f.y - 6 * |ms|
  {
    if ms != [] {
      var f1 := MatchStep(d, f, line, ms[0]);
      var rest := ms[1..];
      assert InLine(line, rest) by {
        forall k | 0 <= k < |rest| ensures rest[k].start <= rest[k].end <= |line| {
          assert rest[k] == ms[k + 1];
        }
      }
      MatchFrameDrops(d, f1, line, rest);
    }
  }

  /** The link of each match lies the height of the text before it plus 6 above the previous one. */
  predicate LinkTops(d: Display, line: string, ms: seq<Span>, items: seq<Item>, y0: int)
    requires InLine(line, ms) && |items| == |ms|
  {
    (|ms| > 0 ==> ItemRect(items[0]).top == y0 - d.body.height(line[..ms[0].start]) - 6)
    && forall k :: 0 < k < |ms| ==>
      ItemRect(items[k]).top == ItemRect(items[k - 1]).top - d.body.height(line[..ms[k].start]) - 6
  }

  lemma TopsCons(d: Display, line: string, ms: seq<Span>, it: Item, rest: seq<Item>, y0: int)
    requires InLine(line, ms) && |ms| >= 1 && InLine(line, ms[1..]) && |rest| == |ms| - 1
    requires ItemRect(it).top == y0 - d.body.height(line[..ms[0].start]) - 6
    requires LinkTops(d, line, ms[1..], rest, ItemRect(it).top)
    ensures LinkTops(d, line, ms, [it] + rest, y0)
  {
    var all := [it] + rest;
    forall k | 0 < k < |ms|
      ensures ItemRect(all[k]).top == ItemRect(all[k - 1]).top - d.body.height(line[..ms[k].start]) - 6
    {
      assert all[k] == rest[k - 1] && ms[k] == ms[1..][k - 1];
      if k > 1 { assert all[k - 1] == rest[k - 2]; } else { assert all[k - 1] == it; }
    }
  }

  /** The links stack upwards from the cursor, and the cursor ends at the last one. */
  lemma {:induction false} MatchFrameTops(d: Display, f: Frame, line: string, ms: seq<Span>)
    requires InLine(line, ms)
    decreases |ms|
    ensures var g := MatchFrame(d, f, line, ms);
      var added := g.items[|f.items|..];
      |added| == |ms| && LinkTops(d, line, ms, added, f.y)
      && g.y == if ms == [] then f.y else ItemRect(added[|ms| - 1]).top
  {
    if ms != [] {
      var f1 := MatchStep(d, f, line, ms[0]);
      var rest := ms[1..];
      assert InLine(line, rest) by {
        forall k | 0 <= k < |rest| ensures rest[k].start <= rest[k].end <= |line| {
          assert rest[k] == ms[k + 1];
        }
      }
      var g := MatchFrame(d, f1, line, rest);
      MatchFrameTops(d, f1, line, rest);
      var it := LinkFor(d, line, ms[0], f1.y);
      DropCons(f.items, it, g.items);
      TopsCons(d, line, ms, it, g.items[|f1.items|..], f.y);
    }
  }

  /** Items built from URL spans are links to URLs. */
  lemma LinksToUrls(f: Frame, g: Frame, d: Display, line: string, ms: seq<Span>)
    requires Extends(f, g) && InLine(line, ms)
    requires forall k :: 0 <= k < |ms| ==> IsUrlSpan(line, ms[k])
    requires var added := g.items[|f.items|..];
      |added| == |ms| && forall k :: 0 <= k < |ms| ==> added[k] == LinkFor(d, line, ms[k], added[k].rect.top)
    ensures NewLinks(f, g)
  {
    var added := g.items[|f.items|..];
    forall k | |f.items| <= k < |g.items| ensures g.items[k].LinkItem? && IsUrlText(g.items[k].url) {
      var j := k - |f.items|;
      assert g.items[k] == added[j];
      SpanIsUrl(line, ms[j]);
    }
  }

  /**
   * The last line of a prose part: the links inside it, then (the `for`'s
   * `else`, which always runs) the whole line once more.
   */
  function LastLineFrame(d: Display, f: Frame, line: string): (g: Frame)
    ensures Extends(f, g)
  {
    if line == "" then f
    else BodyLine(d, MatchFrame(d, f, line, UrlMatches(line, 0)), line)
  }

  /**
   * A non-empty last line yields one link per match, its cursor drops
   * `matches + 1` times, and the row drawn last is the whole line.
   */
  lemma LastLineLinks(d: Display, f: Frame, line: string)
    ensures var g := LastLineFrame(d, f, line);
      line == "" ==> g == f
    ensures var g := LastLineFrame(d, f, line);
      var ms := UrlMatches(line, 0);
      line != "" ==>
        var added := g.items[|f.items|..];
        |added| == |ms|
        && (forall k :: 0 <= k < |ms| ==> added[k] == LinkFor(d, line, ms[k], added[k].rect.top))
        && NewLinks(f, g)
        && g.y <= f.y - 6 * (|ms| + 1)
        && g.rows[|g.rows| - 1] == TextRow(BodyText, TextX, g.y, line)
  {
    if line != "" {
      var ms := UrlMatches(line, 0);
      var m := MatchFrame(d, f, line, ms);
      MatchFrameLinks(d, f, line, ms);
      MatchFrameDrops(d, f, line, ms);
      LinksToUrls(f, m, d, line, ms);
    }
  }

  /** The wrap of a prose part: `part.split(' ')` against the panel width. */
  function ProseWrap(d: Display, part: string): Wrapped
  {
    Wrap(d.body.width, WrapLimit, "", Split(part, ' '))
  }

  /** A prose part: the lines flushed during the word loop, then its last line. */
  function ProseFrame(d: Display, f: Frame, part: string): (g: Frame)
    ensures Extends(f, g)
  {
    var w := ProseWrap(d, part);
    LastLineFrame(d, FlushedFrame(d, f, w.flushed), w.last)
  }

  /** Only the last wrapped line of a prose part is searched for links. */
  lemma ProseLinksFromLastLine(d: Display, f: Frame, part: string)
    ensures var w := ProseWrap(d, part);
      var g := ProseFrame(d, f, part);
      var added := g.items[|f.items|..];
      var ms := if w.last == "" then [] else UrlMatches(w.last, 0);
      |added| == |ms| && NewLinks(f, g)
      && forall k :: 0 <= k < |ms| ==> added[k] == LinkFor(d, w.last, ms[k], added[k].rect.top)
  {
    var w := ProseWrap(d, part);
    FlushedFrameRows(d, f, w.flushed);
    LastLineLinks(d, FlushedFrame(d, f, w.flushed), w.last);
  }

  // ---------------------------------------------------------------------------
  // Messages

  /** One part of a message: code when it is fenced at both ends, prose otherwise. */
  function PartFrame(d: Display, f: Frame, part: string): (g: Frame)
    ensures Extends(f, g)
  {
    if IsFencePart(part) then CodeFrame(d, f, Reverse(CodeLines(part))) else ProseFrame(d, f, part)
  }

  function PartsFrame(d: Display, f: Frame, parts: seq<string>): (g: Frame)
    decreases |parts|
    ensures Extends(f, g)
  {
    if parts == [] then f else PartsFrame(d, PartFrame(d, f, parts[0]), parts[1..])
  }

  /** A text message: its parts around the code fences, in order. */
  function TextFrame(d: Display, f: Frame, s: string): (g: Frame)
    ensures Extends(f, g)
  {
    PartsFrame(d, f, SplitFences(s))
  }

  /** A code part draws its lines bottom-up, so that they read top to bottom in source order. */
  lemma CodePartRows(d: Display, f: Frame, part: string)
    requires IsFencePart(part)
    ensures var g := PartFrame(d, f, part);
      var lines := CodeLines(part);
      var added := g.rows[|f.rows|..];
      g.items == f.items && |added| == |lines|
      && (forall k :: 0 <= k < |lines| ==> added[k] == TextRow(CodeText, CodeX, added[k].y, lines[|lines| - 1 - k]))
      && (forall k :: 0 < k < |lines| ==> added[k].y < added[k - 1].y)
  {
    ReversedCodeRows(d, f, CodeLines(part));
  }

  /** The fenced block `"```\n" + a + "\n" + b + "\n```"` draws `b`, `a` and `''`, each above the last. */
  lemma FencedTwoLinesRows(d: Display, f: Frame, a: string, b: string)
    requires NoLineBreak(a) && NoLineBreak(b)
    ensures var g := PartFrame(d, f, Fence + "\n" + a + "\n" + b + "\n" + Fence);
      var added := g.rows[|f.rows|..];
      g.items == f.items && |added| == 3
      && added[0] == TextRow(CodeText, CodeX, added[0].y, b)
      && added[1] == TextRow(CodeText, CodeX, added[1].y, a)
      && added[2] == TextRow(CodeText, CodeX, added[2].y, "")
      && added[2].y < added[1].y < added[0].y
  {
    var part := Fence + "\n" + a + "\n" + b + "\n" + Fence;
    FencedTwoLines(a, b);
    CodePartRows(d, f, part);
  }

  lemma ReversedCodeRows(d: Display, f: Frame, lines: seq<string>)
    ensures var g := CodeFrame(d, f, Reverse(lines));
      var added := g.rows[|f.rows|..];
      g.items == f.items && |added| == |lines|
      && (forall k :: 0 <= k < |lines| ==> added[k] == TextRow(CodeText, CodeX, added[k].y, lines[|lines| - 1 - k]))
      && (forall k :: 0 < k < |lines| ==> added[k].y < added[k - 1].y)
  {
    var rl := Reverse(lines);
    CodeFrameRows(d, f, rl);
    var added := CodeFrame(d, f, rl).rows[|f.rows|..];
    forall k | 0 <= k < |lines| ensures added[k] == TextRow(CodeText, CodeX, added[k].y, lines[|lines| - 1 - k]) {
      assert added[k] == TextRow(CodeText, CodeX, added[k].y, rl[k]);
      assert rl[k] == lines[|lines| - 1 - k];
    }
  }

  lemma PartLinks(d: Display, f: Frame, part: string)
    ensures NewLinks(f, PartFrame(d, f, part))
  {
    if IsFencePart(part) {
      CodeFrameRows(d, f, Reverse(CodeLines(part)));
    } else {
      ProseLinksFromLastLine(d, f, part);
    }
  }

  lemma {:induction false} PartsLinks(d: Display, f: Frame, parts: seq<string>)
    decreases |parts|
    ensures NewLinks(f, PartsFrame(d, f, parts))
  {
    if parts != [] {
      var f1 := PartFrame(d, f, parts[0]);
      PartLinks(d, f, parts[0]);
      PartsLinks(d, f1, parts[1..]);
      NewLinksTrans(f, f1, PartsFrame(d, f1, parts[1..]));
    }
  }

  /** Every clickable item a text message adds is a link to a matched URL. */
  lemma TextLinks(d: Display, f: Frame, s: string)
    ensures NewLinks(f, TextFrame(d, f, s))
  {
    PartsLinks(d, f, SplitFences(s));
  }

  // ---------------------------------------------------------------------------
  // Turns

  /** `str({'_image_query': q})`, how a directive that reached the history is shown. */
  function DirectiveText(q: string): string
  {
    "{'_image_query': " + Repr(q) + "}"
  }

  /** The speaker label: `y -= height + 6`, draw it, then `y -= 6`. */
  function LabelFrame(d: Display, f: Frame, s: Speaker): (g: Frame)
    ensures g.y <= f.y - 12 && g.items == f.items
    ensures g.rows == f.rows + [TextRow(LabelText, TextX, g.y + 6, SpeakerName(s) + ":")]
  {
    var l := TextLine(f, d.big, 6, LabelText, TextX, SpeakerName(s) + ":");
    Frame(l.y - 6, l.rows, l.items)
  }

  /** One turn: its label, then its image, its caption or its text. */
  function TurnFrame(d: Display, f: Frame, t: Turn): (g: Frame)
    ensures Extends(f, g) && g.y < f.y
  {
    var l := LabelFrame(d, f, t.speaker);
    match t.content
    case ImageFound(caption, path) =>
      (match d.load(path)
       case Loaded(w, h) =>
         var y := l.y - h;
         Frame(y - 12, l.rows + [ImageRow(TextX, y, path)], l.items + [ImageItem(Rect(TextX, y, w, h), path)])
       case LoadFailed => BodyLine(d, l, caption))
    case Str(text) => TextFrame(d, l, text)
    case ImageDirective(q) => TextFrame(d, l, DirectiveText(q))
  }

  /**
   * A turn adds exactly one image item when it is a found image that loads,
   * covering the drawn image; otherwise everything it adds is a link.
   */
  lemma TurnItems(d: Display, f: Frame, t: Turn)
    ensures var g := TurnFrame(d, f, t);
      t.content.ImageFound? && d.load(t.content.path).Loaded? ==>
        var im := d.load(t.content.path);
        g.items == f.items + [ImageItem(Rect(TextX, g.y + 12, im.width, im.height), t.content.path)]
    ensures var g := TurnFrame(d, f, t);
      !(t.content.ImageFound? && d.load(t.content.path).Loaded?) ==> NewLinks(f, g)
  {
    var l := LabelFrame(d, f, t.speaker);
    match t.content
    case ImageFound(_, _) =>
    case Str(text) => TextLinks(d, l, text);
    case ImageDirective(q) => TextLinks(d, l, DirectiveText(q));
  }

  // ---------------------------------------------------------------------------
  // The turn loop, for any way of laying out one turn

  /** A way of laying out one turn that only ever appends and moves the cursor up. */
  ghost predicate Grows(step: (Frame, Turn) -> Frame)
  {
    forall f: Frame, t: Turn :: Extends(f, step(f, t))
  }

  /** The loop with its stop rule: a turn that leaves `y` above the limit is the last one. */
  function StopLoop(step: (Frame, Turn) -> Frame, f: Frame, turns: seq<Turn>): (g: Frame)
    requires Grows(step)
    decreases |turns|
    ensures Extends(f, g)
  {
    if turns == [] then f
    else
      var g := step(f, turns[0]);
      if g.y < StopY then g else StopLoop(step, g, turns[1..])
  }

  /** The turns laid out one after another, with no stop rule. */
  function FullLoop(step: (Frame, Turn) -> Frame, f: Frame, turns: seq<Turn>): Frame
    decreases |turns|
  {
    if turns == [] then f else FullLoop(step, step(f, turns[0]), turns[1..])
  }

  /** How many turns the stop rule lets through. */
  function Taken(step: (Frame, Turn) -> Frame, f: Frame, turns: seq<Turn>): (n: nat)
    decreases |turns|
    ensures n <= |turns|
    ensures turns != [] ==> n >= 1
  {
    if turns == [] then 0
    else if step(f, turns[0]).y < StopY then 1
    else 1 + Taken(step, step(f, turns[0]), turns[1..])
  }

  /** Laying out a non-empty prefix is laying out its first turn, then the rest of it. */
  lemma FullLoopPrefix(step: (Frame, Turn) -> Frame, f: Frame, turns: seq<Turn>, j: nat)
    requires 1 <= j <= |turns|
    ensures FullLoop(step, f, turns[..j]) == FullLoop(step, step(f, turns[0]), turns[1..][..j - 1])
  {
    assert turns[..j][0] == turns[0] && turns[..j][1..] == turns[1..][..j - 1];
  }

  /** The stopping loop is the first `Taken` turns laid out in full. */
  lemma {:induction false} StopLoopIsPrefix(step: (Frame, Turn) -> Frame, f: Frame, turns: seq<Turn>)
    requires Grows(step)
    decreases |turns|
    ensures StopLoop(step, f, turns) == FullLoop(step, f, turns[..Taken(step, f, turns)])
  {
    if turns != [] {
      var g := step(f, turns[0]);
      var n := Taken(step, f, turns);
      FullLoopPrefix(step, f, turns, n);
      if g.y >= StopY {
        StopLoopIsPrefix(step, g, turns[1..]);
      } else {
        assert turns[1..][..n - 1] == [];
      }
    }
  }

  /** Every turn before the last one taken leaves the cursor at or below the limit. */
  lemma {:induction false} StopLoopBefore(step: (Frame, Turn) -> Frame, f: Frame, turns: seq<Turn>)
    decreases |turns|
    ensures var n := Taken(step, f, turns);
      forall j :: 1 <= j < n ==> FullLoop(step, f, turns[..j]).y >= StopY
  {
    if turns != [] {
      var g := step(f, turns[0]);
      var rest := turns[1..];
      var n := Taken(step, f, turns);
      if g.y >= StopY {
        StopLoopBefore(step, g, rest);
        forall j | 1 <= j < n ensures FullLoop(step, f, turns[..j]).y >= StopY {
          FullLoopPrefix(step, f, turns, j);
          if j == 1 {
            assert rest[..0] == [];
          }
        }
      }
    }
  }

  /** When the loop stopped early, the last turn it took crossed the limit. */
  lemma {:induction false} StopLoopCrossed(step: (Frame, Turn) -> Frame, f: Frame, turns: seq<Turn>)
    decreases |turns|
    ensures var n := Taken(step, f, turns);
      n < |turns| ==> FullLoop(step, f, turns[..n]).y < StopY
  {
    if turns != [] {
      var g := step(f, turns[0]);
      var n := Taken(step, f, turns);
      FullLoopPrefix(step, f, turns, n);
      if g.y >= StopY {
        StopLoopCrossed(step, g, turns[1..]);
      } else {
        assert turns[1..][..n - 1] == [];
      }
    }
  }

  // ---------------------------------------------------------------------------
  // The turn loop of the window

  /** `TurnFrame` as a step of the turn loop. */
  function TurnStep(d: Display): (step: (Frame, Turn) -> Frame)
    ensures Grows(step)
  {
    (f: Frame, t: Turn) => TurnFrame(d, f, t)
  }

  /** The window's turn loop, `break` included. */
  function TurnsFrame(d: Display, f: Frame, turns: seq<Turn>): (g: Frame)
    ensures Extends(f, g)
  {
    StopLoop(TurnStep(d), f, turns)
  }

  lemma TurnsStep(d: Display, f: Frame, turns: seq<Turn>)
    requires turns != []
    ensures var g := TurnFrame(d, f, turns[0]);
      TurnsFrame(d, f, turns) == if g.y < StopY then g else TurnsFrame(d, g, turns[1..])
  {
    assert TurnStep(d)(f, turns[0]) == TurnFrame(d, f, turns[0]);
  }

  /** The window's turns laid out one after another, with no stop rule. */
  function AllTurns(d: Display, f: Frame, turns: seq<Turn>): Frame
  {
    FullLoop(TurnStep(d), f, turns)
  }

  /** How many of the window's turns the stop rule lets through. */
  function LaidOut(d: Display, f: Frame, turns: seq<Turn>): nat
  {
    Taken(TurnStep(d), f, turns)
  }

  /**
   * The stop rule: the pass is the first `n` turns laid out in full; every turn
   * before the `n`-th leaves the cursor at or below the limit, and unless all
   * turns were taken, the `n`-th is the one that crossed it.
   */
  lemma StopRule(d: Display, f: Frame, turns: seq<Turn>)
    ensures var n := LaidOut(d, f, turns);
      1 <= n <= |turns| || turns == []
    ensures var n := LaidOut(d, f, turns);
      TurnsFrame(d, f, turns) == AllTurns(d, f, turns[..n])
      && (forall j :: 1 <= j < n ==> AllTurns(d, f, turns[..j]).y >= StopY)
      && (n < |turns| ==> AllTurns(d, f, turns[..n]).y < StopY)
  {
    StopLoopIsPrefix(TurnStep(d), f, turns);
    StopLoopBefore(TurnStep(d), f, turns);
    StopLoopCrossed(TurnStep(d), f, turns);
  }

  /** The turns of one pass: the last 40 of the history, newest first. */
  function Window(chat: seq<Turn>): (w: seq<Turn>)
    ensures |w| == if |chat| <= MaxTurns then |chat| else MaxTurns
    ensures forall k :: 0 <= k < |w| ==> w[k] == chat[|chat| - 1 - k]
  {
    Reverse(LastN(chat, MaxTurns))
  }

  /** One whole pass: `rendered_items` starts empty and the cursor at the panel's bottom. */
  function LayoutFrame(d: Display, chat: seq<Turn>): Frame
  {
    TurnsFrame(d, Frame(StartY, [], []), Window(chat))
  }

  /** Every item is a link to a URL or the image of a found-image turn of `turns`. */
  predicate ItemsFrom(items: seq<Item>, turns: seq<Turn>)
  {
    forall k :: 0 <= k < |items| ==>
      (items[k].LinkItem? && IsUrlText(items[k].url))
      || (items[k].ImageItem?
          && exists j :: 0 <= j < |turns| && turns[j].content.ImageFound? && turns[j].content.path == items[k].path)
  }

  lemma TurnItemsFrom(d: Display, f: Frame, t: Turn, ctx: seq<Turn>)
    requires t in ctx && ItemsFrom(f.items, ctx)
    ensures ItemsFrom(TurnFrame(d, f, t).items, ctx)
  {
    var g := TurnFrame(d, f, t);
    TurnItems(d, f, t);
    var j :| 0 <= j < |ctx| && ctx[j] == t;
    forall k | 0 <= k < |g.items|
      ensures (g.items[k].LinkItem? && IsUrlText(g.items[k].url))
        || (g.items[k].ImageItem?
            && exists i :: 0 <= i < |ctx| && ctx[i].content.ImageFound? && ctx[i].content.path == g.items[k].path)
    {
      if k < |f.items| {
        assert g.items[k] == f.items[k];
      } else if t.content.ImageFound? && d.load(t.content.path).Loaded? {
        assert g.items[k].path == ctx[j].content.path;
      }
    }
  }

  lemma {:induction false} TurnsItemsFrom(d: Display, f: Frame, turns: seq<Turn>, ctx: seq<Turn>)
    requires ItemsFrom(f.items, ctx)
    requires forall j :: 0 <= j < |turns| ==> turns[j] in ctx
    decreases |turns|
    ensures ItemsFrom(TurnsFrame(d, f, turns).items, ctx)
  {
    if turns != [] {
      var g := TurnFrame(d, f, turns[0]);
      TurnsStep(d, f, turns);
      TurnItemsFrom(d, f, turns[0], ctx);
      if g.y >= StopY {
        var rest := turns[1..];
        assert forall j :: 0 <= j < |rest| ==> rest[j] == turns[j + 1];
        TurnsItemsFrom(d, g, rest, ctx);
      }
    }
  }

  /**
   * `rendered_items` after a pass holds only what this pass added: links to
   * URLs, and images of found-image turns inside the window.
   */
  lemma LayoutItemsFromWindow(d: Display, chat: seq<Turn>)
    ensures ItemsFrom(LayoutFrame(d, chat).items, Window(chat))
  {
    var w := Window(chat);
    TurnsItemsFrom(d, Frame(StartY, [], []), w, w);
  }

  // ---------------------------------------------------------------------------
  // The loops of the layout pass

  method LayoutCode(d: Display, f: Frame, lines: seq<string>) returns (g: Frame)
    ensures g == CodeFrame(d, f, lines)
  {
    g := f;
    var i := 0;
    while i < |lines|
      invariant 0 <= i <= |lines|
      invariant CodeFrame(d, g, lines[i..]) == CodeFrame(d, f, lines)
    {
      assert lines[i..][1..] == lines[i + 1..];
      g := CodeLine(d, g, lines[i]);
      i := i + 1;
    }
  }

  method LayoutLastLine(d: Display, f: Frame, line: string) returns (g: Frame)
    ensures g == LastLineFrame(d, f, line)
  {
    g := f;
    if line != "" {
      var ms := UrlMatches(line, 0);
      var i := 0;
      while i < |ms|
        invariant 0 <= i <= |ms|
        invariant MatchFrame(d, g, line, ms[i..]) == MatchFrame(d, f, line, ms)
      {
        assert ms[i..][1..] == ms[i + 1..];
        g := MatchStep(d, g, line, ms[i]);
        i := i + 1;
      }
      g := BodyLine(d, g, line);
    }
  }

  /** What is left of a prose part once `line` is open and `words` remain. */
  function ProseRest(d: Display, g: Frame, line: string, words: seq<string>): Frame
  {
    var w := Wrap(d.body.width, WrapLimit, line, words);
    LastLineFrame(d, FlushedFrame(d, g, w.flushed), w.last)
  }

  /** One pass of the word loop. */
  lemma ProseRestStep(d: Display, g: Frame, line: string, words: seq<string>)
    requires words != []
    ensures var w := words[0];
      var test := Strip(line + " " + w);
      ProseRest(d, g, line, words)
      == if d.body.width(test) > WrapLimit && line != "" then ProseRest(d, BodyLine(d, g, line), w, words[1..])
         else ProseRest(d, g, test, words[1..])
  {
    var w := words[0];
    var test := Strip(line + " " + w);
    if d.body.width(test) > WrapLimit && line != "" {
      var rest := Wrap(d.body.width, WrapLimit, w, words[1..]);
      assert Wrap(d.body.width, WrapLimit, line, words) == Wrapped([line] + rest.flushed, rest.last);
      FlushedCons(d, g, line, rest.flushed);
    } else {
      assert Wrap(d.body.width, WrapLimit, line, words) == Wrap(d.body.width, WrapLimit, test, words[1..]);
    }
  }

  lemma FlushedCons(d: Display, f: Frame, line: string, lines: seq<string>)
    ensures FlushedFrame(d, f, [line] + lines) == FlushedFrame(d, BodyLine(d, f, line), lines)
  {
    assert ([line] + lines)[1..] == lines;
  }

  /** The word loop, then the last line. */
  method LayoutProse(d: Display, f: Frame, part: string) returns (g: Frame)
    ensures g == ProseFrame(d, f, part)
  {
    var words := Split(part, ' ');
    var line := "";
    g := f;
    var i := 0;
    while i < |words|
      invariant 0 <= i <= |words|
      invariant ProseRest(d, g, line, words[i..]) == ProseFrame(d, f, part)
    {
      var w := words[i];
      ProseRestStep(d, g, line, words[i..]);
      assert words[i..][0] == w && words[i..][1..] == words[i + 1..];
      var test := Strip(line + " " + w);
      if d.body.width(test) > WrapLimit && line != "" {
        g := BodyLine(d, g, line);
        line := w;
      } else {
        line := test;
      }
      i := i + 1;
    }
    g := LayoutLastLine(d, g, line);
  }

  method LayoutText(d: Display, f: Frame, s: string) returns (g: Frame)
    ensures g == TextFrame(d, f, s)
  {
    var parts := SplitFences(s);
    g := f;
    var i := 0;
    while i < |parts|
      invariant 0 <= i <= |parts|
      invariant PartsFrame(d, g, parts[i..]) == TextFrame(d, f, s)
    {
      assert parts[i..][1..] == parts[i + 1..];
      var part := parts[i];
      if IsFencePart(part) {
        g := LayoutCode(d, g, Reverse(CodeLines(part)));
      } else {
        g := LayoutProse(d, g, part);
      }
      i := i + 1;
    }
  }

  method LayoutTurn(d: Display, f: Frame, t: Turn) returns (g: Frame)
    ensures g == TurnFrame(d, f, t)
  {
    g := LabelFrame(d, f, t.speaker);
    match t.content
    case ImageFound(caption, path) =>
      match d.load(path) {
        case Loaded(w, h) =>
          var y := g.y - h;
          g := Frame(y - 12, g.rows + [ImageRow(TextX, y, path)], g.items + [ImageItem(Rect(TextX, y, w, h), path)]);
        case LoadFailed =>
          g := BodyLine(d, g, caption);
      }
    case Str(text) =>
      g := LayoutText(d, g, text);
    case ImageDirective(q) =>
      g := LayoutText(d, g, DirectiveText(q));
  }

  /** The turn loop of one pass, leaving it with `break` once the cursor has crossed the limit. */
  method LayoutChat(d: Display, chat: seq<Turn>) returns (g: Frame)
    ensures g == LayoutFrame(d, chat)
  {
    var turns := Window(chat);
    g := Frame(StartY, [], []);
    var i := 0;
    while i < |turns|
      invariant 0 <= i <= |turns|
      invariant TurnsFrame(d, g, turns[i..]) == LayoutFrame(d, chat)
    {
      var before := g;
      g := LayoutTurn(d, g, turns[i]);
      TurnsStep(d, before, turns[i..]);
      assert turns[i..][0] == turns[i] && turns[i..][1..] == turns[i + 1..];
      if g.y < StopY {
        break;
      }
      i := i + 1;
    }
  }
}
