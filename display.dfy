/**
 * The header arithmetic of src/display.rs: the border and content lines
 * drawn around the title and the working directory.
 */
module Display {

  /** Spaces between the frame and the widest content line, on each side. */
  const PADDING: nat := 10

  const TITLE: string := "TERM-NAVIGATOR"

  /** `s` written `n` times in a row (Rust's str::repeat). */
  function Repeat(s: string, n: nat): (r: string)
    ensures |r| == n * |s|
    ensures |s| == 1 ==> forall k :: 0 <= k < |r| ==> r[k] == s[0]
  {
    if n == 0 then [] else s + Repeat(s, n - 1)
  }

  /** filler_line: the border symbol, the filler written `totalLen` times, the border symbol. */
  function FillerLine(totalLen: nat, border: char, filler: string): (r: string)
    ensures |r| == totalLen * |filler| + 2
    ensures r[0] == border && r[|r| - 1] == border
    ensures r[1..|r| - 1] == Repeat(filler, totalLen)
  {
    [border] + Repeat(filler, totalLen) + [border]
  }

  /** With a one-character filler the line is `totalLen + 2` wide and uniform inside. */
  lemma FillerLineUniform(totalLen: nat, border: char, filler: string)
    requires |filler| == 1
    ensures var r := FillerLine(totalLen, border, filler);
      |r| == totalLen + 2 && forall k :: 1 <= k < |r| - 1 ==> r[k] == filler[0]
  {
    var r := FillerLine(totalLen, border, filler);
    forall k | 1 <= k < |r| - 1
      ensures r[k] == filler[0]
    {
      assert r[k] == r[1..|r| - 1][k - 1];
    }
  }

  /** Width of the space run on each side of `content` in a line of base width `baseLen`. */
  function SideWidth(baseLen: nat, content: string): nat
    requires |content| <= baseLen
  {
    PADDING + (baseLen - |content|) / 2
  }

  /**
   * content_line: `content` between two equal runs of spaces, inside '|'. The
   * source subtracts the content's length from `baseLen` as a usize, so a
   * content longer than `baseLen` would panic: that is the precondition.
   */
  function ContentLine(baseLen: nat, content: string): (r: string)
    requires |content| <= baseLen
    ensures var w := SideWidth(baseLen, content);
      |r| == 2 * w + |content| + 2 && r[0] == '|' && r[|r| - 1] == '|' &&
      r[1 + w..1 + w + |content|] == content &&
      (forall k :: 1 <= k < 1 + w ==> r[k] == ' ') &&
      (forall k :: 1 + w + |content| <= k < |r| - 1 ==> r[k] == ' ')
  {
    var spaces := Repeat(" ", SideWidth(baseLen, content));
    var r := "|" + spaces + content + spaces + "|";
    assert r[1 + |spaces|..1 + |spaces| + |content|] == content;
    r
  }

  /**
   * A content line is as wide as a filler line of `baseLen + 2 * PADDING`,
   * less one character when `baseLen - |content|` is odd.
   */
  lemma ContentLineWidth(baseLen: nat, content: string)
    requires |content| <= baseLen
    ensures |ContentLine(baseLen, content)| ==
            (baseLen + 2 * PADDING) + 2 - (baseLen - |content|) % 2
  {
    var d := baseLen - |content|;
    assert 2 * (d / 2) == d - d % 2;
  }

  /** The lines display_header draws, except the styled current-directory line. */
  datatype Header = Header(border: string, title: string, spaces: string, originLine: string, equals: string)

  /** The text of the origin line. */
  function OriginText(origin: string): string {
    "Working Directory << " + origin + " >>"
  }

  /** display_header's lines: base width from the origin text, total width `base + 2 * PADDING`. */
  function HeaderLines(origin: string): (h: Header)
    ensures h.originLine == "|" + Repeat(" ", PADDING) + OriginText(origin) + Repeat(" ", PADDING) + "|"
    ensures var w := SideWidth(|OriginText(origin)|, TITLE);
      w == PADDING + (|origin| + 10) / 2 && |h.title| == 2 * w + |TITLE| + 2 &&
      h.title[1 + w..1 + w + |TITLE|] == TITLE
    ensures |h.border| > 0 && |h.spaces| > 0 && |h.equals| > 0
    ensures h.border[0] == '*' && h.spaces[0] == '|' && h.equals[0] == '='
  {
    var origDirStr := OriginText(origin);
    var baseLen := |origDirStr|;
    var totalLen := baseLen + 2 * PADDING;
    Header(FillerLine(totalLen, '*', "-"),
           ContentLine(baseLen, TITLE),
           FillerLine(totalLen, '|', " "),
           ContentLine(baseLen, origDirStr),
           FillerLine(totalLen, '=', "="))
  }

  /**
   * Every header line is `|origin| + 46` wide, except the title line, which is
   * one short when the origin's length is odd; the origin line sits between
   * exactly PADDING spaces on each side.
   */
  lemma HeaderWidths(origin: string)
    ensures var h := HeaderLines(origin);
      var width := |origin| + 24 + 2 * PADDING + 2;
      |h.border| == width && |h.spaces| == width && |h.equals| == width &&
      |h.originLine| == width && SideWidth(|OriginText(origin)|, OriginText(origin)) == PADDING &&
      |h.title| == width - |origin| % 2
  {
    var base := |OriginText(origin)|;
    assert base == |origin| + 24;
    ContentLineWidth(base, TITLE);
    ContentLineWidth(base, OriginText(origin));
  }
}
