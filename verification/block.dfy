/** Styled, positioned segments of the bar (src/block.rs). */
module Blocks {

  import opened Optional
  import opened Colors

  /** Which of the bar's three horizontal groups a block belongs to. */
  datatype BlockPosition = Left | Center | Right

  /** One segment of the bar. The icon and text are plain strings; `text` may
      itself be the text of a button. */
  datatype Block = Block(
    align: BlockPosition,
    bgColor: Option<Color>,
    fgColor: Option<Color>,
    icon: string,
    text: string)

  // ---------------------------------------------------------------------------
  // Positions

  /** Every position, in the order the bar writes its groups. */
  const Positions: seq<BlockPosition> := [Left, Center, Right]

  /** The position's alignment token. */
  function PositionText(p: BlockPosition): (s: string)
    ensures |s| == 4 && s[..2] == "%{" && s[3] == '}'
  {
    match p
    case Left => "%{l}"
    case Center => "%{c}"
    case Right => "%{r}"
  }

  /** The inverse of `PositionText`. */
  function ParsePosition(s: string): Option<BlockPosition> {
    if s == "%{l}" then Some(Left)
    else if s == "%{c}" then Some(Center)
    else if s == "%{r}" then Some(Right)
    else None
  }

  /** Parsing an alignment token gives its position back, and whatever parses
      is the token of what it parses to. */
  lemma PositionTextRoundTrip(p: BlockPosition, s: string)
    ensures ParsePosition(PositionText(p)) == Some(p)
    ensures ParsePosition(s) == Some(p) ==> PositionText(p) == s
  {
  }

  /** `Positions` lists each position exactly once, Left first and Right last. */
  lemma PositionsEnumerate(p: BlockPosition)
    ensures multiset(Positions)[p] == 1
    ensures Positions[0] == Left && Positions[1] == Center && Positions[2] == Right
  {
  }

  lemma PositionScenario()
    ensures PositionText(Left) == "%{l}"
    ensures PositionText(Center) == "%{c}"
    ensures PositionText(Right) == "%{r}"
  {
  }

  // ---------------------------------------------------------------------------
  // Blocks

  /** The visible content: the text alone when there is no icon, otherwise the
      icon, one space and the text. */
  function Content(b: Block): (s: string)
    ensures |b.text| <= |s|
    ensures s == b.text <==> b.icon == ""
    ensures b.icon != "" ==> |s| == |b.icon| + 1 + |b.text|
    ensures s[|s| - |b.text|..] == b.text
    ensures b.icon != "" ==> s[..|b.icon| + 1] == b.icon + " "
  {
    if b.icon == "" then b.text else b.icon + " " + b.text
  }

  /** The value inside a colour scope: the colour's escape value when present,
      `-` (inherit) when absent. Background and foreground share this rule. */
  function ColorToken(c: Option<Color>): (s: string)
    ensures s == "-" <==> c.None?
    ensures c.Some? ==> s == ToText(c.value)
  {
    match c
    case None => "-"
    case Some(color) => ToText(color)
  }

  /** A colour value never holds the `}` that ends its scope. */
  lemma ColorTokenHasNoBrace(c: Option<Color>)
    ensures forall k :: 0 <= k < |ColorToken(c)| ==> ColorToken(c)[k] != '}'
  {
    if c.Some? {
      var s := ToText(c.value);
      ToTextDigits(c.value);
      assert forall k :: 1 <= k < |s| ==> s[k] == s[1..][k - 1];
    }
  }

  /** A present colour's value reads back as that colour exactly when every
      channel is at least 16. */
  lemma ColorTokenDecodes(c: Color)
    ensures DecodeColor(ColorToken(Some(c))) == Some(c) <==> IsWide(c)
  {
    DecodeToText(c);
  }

  // ---------------------------------------------------------------------------
  // The block's text

  /** The three values a block's text carries. */
  datatype Segment = Segment(background: string, foreground: string, content: string)

  /** The escape layout: open the background scope, open the foreground scope,
      the content, then close the foreground scope before the background one. */
  function SegmentText(g: Segment): (s: string)
    ensures |s| == |g.background| + |g.foreground| + |g.content| + 18
  {
    "%{B" + g.background + "}" + "%{F" + g.foreground + "}" + g.content + "%{F-}%{B-}"
  }

  /** The block's text: its background value, foreground value and content laid
      out by `SegmentText`. */
  function BlockText(b: Block): (s: string)
    ensures |s| >= 20
    ensures s[..3] == "%{B" && s[|s| - 10..] == "%{F-}%{B-}"
  {
    SegmentText(Segment(ColorToken(b.bgColor), ColorToken(b.fgColor), Content(b)))
  }

  /** The alignment plays no part in a block's own text. */
  lemma BlockTextIgnoresAlign(b: Block, p: BlockPosition)
    ensures BlockText(b.(align := p)) == BlockText(b)
  {
  }

  // ---------------------------------------------------------------------------
  // Reading a block's text back

  /** Splits `s` at its first `ch` into the part before and the part after it;
      `None` when `s` holds no `ch`. */
  function SplitFirst(s: string, ch: char): (r: Option<(string, string)>)
    ensures r.Some? ==> s == r.value.0 + [ch] + r.value.1
    ensures r.Some? ==> forall k :: 0 <= k < |r.value.0| ==> r.value.0[k] != ch
    ensures r.None? ==> forall k :: 0 <= k < |s| ==> s[k] != ch
  {
    if s == [] then None
    else if s[0] == ch then Some(([], s[1..]))
    else
      match SplitFirst(s[1..], ch)
      case None => None
      case Some((before, after)) => Some(([s[0]] + before, after))
  }

  /** Splitting `x + [ch] + y`, where `x` holds no `ch`, gives `x` and `y` back. */
  lemma {:induction false} SplitFirstAfter(x: string, ch: char, y: string)
    requires forall k :: 0 <= k < |x| ==> x[k] != ch
    ensures SplitFirst(x + [ch] + y, ch) == Some((x, y))
  {
    var s := x + [ch] + y;
    if x == [] {
      assert s[1..] == y;
    } else {
      assert s[0] == x[0] != ch;
      assert s[1..] == x[1..] + [ch] + y;
      SplitFirstAfter(x[1..], ch, y);
      assert [x[0]] + x[1..] == x;
    }
  }

  /** Splits `%{B<bg>}%{F<fg>}<content>%{F-}%{B-}` into its three values, taking
      each colour value up to its first `}`. */
  function ParseBlockText(s: string): Option<Segment> {
    if |s| >= 3 && s[..3] == "%{B" then
      match SplitFirst(s[3..], '}')
      case None => None
      case Some((background, r)) =>
        if |r| >= 3 && r[..3] == "%{F" then
          match SplitFirst(r[3..], '}')
          case None => None
          case Some((foreground, t)) =>
            if |t| >= 10 && t[|t| - 10..] == "%{F-}%{B-}" then
              Some(Segment(background, foreground, t[..|t| - 10]))
            else
              None
        else
          None
    else
      None
  }

  /** Regrouping the eight pieces of a segment's text. */
  lemma Regroup(a: string, b: string, c: string, d: string, e: string, f: string, g: string, h: string)
    ensures a + ((b + c) + (d + ((e + f) + (g + h)))) == a + b + c + d + e + f + g + h
  {
  }

  /** A segment whose colour values hold no `}` is split back exactly. */
  lemma {:induction false} SegmentRoundTrip(g: Segment)
    requires forall k :: 0 <= k < |g.background| ==> g.background[k] != '}'
    requires forall k :: 0 <= k < |g.foreground| ==> g.foreground[k] != '}'
    ensures ParseBlockText(SegmentText(g)) == Some(g)
  {
    var t := g.content + "%{F-}%{B-}";
    var r := "%{F" + ((g.foreground + "}") + t);
    Regroup("%{B", g.background, "}", "%{F", g.foreground, "}", g.content, "%{F-}%{B-}");
    var s := SegmentText(g);
    assert s == "%{B" + ((g.background + "}") + r);
    assert s[3..] == (g.background + "}") + r;
    SplitFirstAfter(g.background, '}', r);
    assert r[3..] == (g.foreground + "}") + t;
    SplitFirstAfter(g.foreground, '}', t);
    assert t[..|t| - 10] == g.content;
  }

  /** A block's text splits back into its background value, foreground value
      and content: the colour values never hold `}`, so the scopes are
      unambiguous. */
  lemma BlockTextRoundTrip(b: Block)
    ensures ParseBlockText(BlockText(b))
         == Some(Segment(ColorToken(b.bgColor), ColorToken(b.fgColor), Content(b)))
  {
    ColorTokenHasNoBrace(b.bgColor);
    ColorTokenHasNoBrace(b.fgColor);
    SegmentRoundTrip(Segment(ColorToken(b.bgColor), ColorToken(b.fgColor), Content(b)));
  }

  /** Whatever the parser accepts is exactly the text of the segment it returns. */
  lemma {:induction false} ParseBlockTextSound(s: string)
    ensures ParseBlockText(s).Some? ==> SegmentText(ParseBlockText(s).value) == s
  {
    if ParseBlockText(s).Some? {
      var g := ParseBlockText(s).value;
      var r := SplitFirst(s[3..], '}').value.1;
      var t := SplitFirst(r[3..], '}').value.1;
      assert s == "%{B" + s[3..];
      assert s[3..] == (g.background + "}") + r;
      assert r == "%{F" + r[3..];
      assert r[3..] == (g.foreground + "}") + t;
      assert t == g.content + "%{F-}%{B-}";
      Regroup("%{B", g.background, "}", "%{F", g.foreground, "}", g.content, "%{F-}%{B-}");
    }
  }

  /** Two blocks with the same text have the same colour values and content. */
  lemma BlockTextDeterminesSegment(b: Block, c: Block)
    requires BlockText(b) == BlockText(c)
    ensures ColorToken(b.bgColor) == ColorToken(c.bgColor)
    ensures ColorToken(b.fgColor) == ColorToken(c.fgColor)
    ensures Content(b) == Content(c)
  {
    BlockTextRoundTrip(b);
    BlockTextRoundTrip(c);
  }

  // ---------------------------------------------------------------------------
  // Scenarios

  lemma ScenarioColors()
    ensures ColorToken(Some(Rgb(0x18, 0x18, 0x18))) == "#ff181818"
    ensures ColorToken(Some(Rgb(0xe8, 0xe8, 0xe8))) == "#ffe8e8e8"
  {
  }

  /** The escape layout of fixed values, without any block around them. */
  lemma SegmentScenarioAllColors()
    ensures SegmentText(Segment("#ff181818", "#ffe8e8e8", "i test"))
         == "%{B#ff181818}%{F#ffe8e8e8}i test%{F-}%{B-}"
  {
  }

  lemma SegmentScenarioBackgroundOnly()
    ensures SegmentText(Segment("#ff181818", "-", "i test"))
         == "%{B#ff181818}%{F-}i test%{F-}%{B-}"
  {
  }

  lemma SegmentScenarioForegroundOnly()
    ensures SegmentText(Segment("-", "#ffe8e8e8", "i test"))
         == "%{B-}%{F#ffe8e8e8}i test%{F-}%{B-}"
  {
  }

  lemma SegmentScenarioNoColors()
    ensures SegmentText(Segment("-", "-", "i test"))
         == "%{B-}%{F-}i test%{F-}%{B-}"
  {
  }

  lemma SegmentScenarioIconText()
    ensures SegmentText(Segment("#ff181818", "#ffe8e8e8", "icon text"))
         == "%{B#ff181818}%{F#ffe8e8e8}icon text%{F-}%{B-}"
  {
  }

  lemma BlockScenarioAllColors()
    ensures BlockText(Block(Left, Some(Rgb(0x18, 0x18, 0x18)), Some(Rgb(0xe8, 0xe8, 0xe8)), "i", "test"))
         == "%{B#ff181818}%{F#ffe8e8e8}i test%{F-}%{B-}"
  {
    ScenarioColors();
    SegmentScenarioAllColors();
    var b := Block(Left, Some(Rgb(0x18, 0x18, 0x18)), Some(Rgb(0xe8, 0xe8, 0xe8)), "i", "test");
    assert BlockText(b) == SegmentText(Segment("#ff181818", "#ffe8e8e8", "i test"));
  }

  lemma BlockScenarioBackgroundOnly()
    ensures BlockText(Block(Left, Some(Rgb(0x18, 0x18, 0x18)), None, "i", "test"))
         == "%{B#ff181818}%{F-}i test%{F-}%{B-}"
  {
    ScenarioColors();
    SegmentScenarioBackgroundOnly();
    var b := Block(Left, Some(Rgb(0x18, 0x18, 0x18)), None, "i", "test");
    assert BlockText(b) == SegmentText(Segment("#ff181818", "-", "i test"));
  }

  lemma BlockScenarioForegroundOnly()
    ensures BlockText(Block(Left, None, Some(Rgb(0xe8, 0xe8, 0xe8)), "i", "test"))
         == "%{B-}%{F#ffe8e8e8}i test%{F-}%{B-}"
  {
    ScenarioColors();
    SegmentScenarioForegroundOnly();
    var b := Block(Left, None, Some(Rgb(0xe8, 0xe8, 0xe8)), "i", "test");
    assert BlockText(b) == SegmentText(Segment("-", "#ffe8e8e8", "i test"));
  }

  lemma BlockScenarioNoColors()
    ensures BlockText(Block(Left, None, None, "i", "test"))
         == "%{B-}%{F-}i test%{F-}%{B-}"
  {
    SegmentScenarioNoColors();
    var b := Block(Left, None, None, "i", "test");
    assert BlockText(b) == SegmentText(Segment("-", "-", "i test"));
  }

  /** The block the bar's own scenario uses. */
  lemma IconTextScenario()
    ensures BlockText(Block(Left, Some(Rgb(0x18, 0x18, 0x18)), Some(Rgb(0xe8, 0xe8, 0xe8)), "icon", "text"))
         == "%{B#ff181818}%{F#ffe8e8e8}icon text%{F-}%{B-}"
  {
    ScenarioColors();
    SegmentScenarioIconText();
    var b := Block(Left, Some(Rgb(0x18, 0x18, 0x18)), Some(Rgb(0xe8, 0xe8, 0xe8)), "icon", "text");
    assert BlockText(b) == SegmentText(Segment("#ff181818", "#ffe8e8e8", "icon text"));
  }
}
