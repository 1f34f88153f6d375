# lemonbar escape-text serialiser, modelled in Dafny

The lemonbar crate turns a status-bar description into the `%{...}` escape
text that the lemonbar renderer reads. It has three parts:

- **blocks**: content with an optional icon, optional background and
  foreground colours, and an alignment;
- **buttons**: clickable regions made of click actions;
- **the bar**: the blocks grouped into the Left, Center and Right sections.

Every `Display` implementation in the crate is a pure, total function from
immutable values to a string, and this model writes each one as a Dafny
function:

- `Colors` models `src/color.rs`: the colour and its `#...` value.
- `Buttons` models `src/button.rs`: mouse buttons, click actions and buttons.
- `Blocks` models `src/block.rs`: positions, block content, colour scopes and
  the block's text.
- `Bars` models `src/lib.rs`: the bar's text.

Two helper modules sit beside them. `Optional` is the option type.
`Sequences` holds one associativity lemma.

The two formatters that contain loops are also written as methods with loop
invariants. They are `Buttons.FormatButton` and `Bars.FormatBar`, and each is
proved equal to its functional definition.

The crate never parses its own output. The model adds inverse parsers for
the serialisers:

- `ParseMouseButton`
- `ParseOpenTag`
- `ParsePosition`
- `DecodeColor`
- `ParseBlockText`

Round-trip lemmas against these parsers state what each serialised form
recovers:

- a trigger's digit gives back the trigger;
- an open tag gives back its trigger and command;
- a position token gives back the position;
- a block's text gives back its background value, foreground value and
  content.

Some information is not recoverable:

- A block's text does not record its alignment (`Blocks.BlockTextIgnoresAlign`).
- A block's text does not record where the icon ends and the text begins.
  The icon `a b` with the text `c` and the icon `a` with the text `b c` give
  the same content.
- A colour's value reads back as the colour only when every channel is at
  least 16 (`Colors.DecodeToText`). Below that, two colours can share a value
  (`Colors.ShortChannelsCollide`).

Colours follow the code rather than the documentation. The doc comment at
`src/color.rs:3` promises `#aarrggbb`, but the code at `src/color.rs:23`
writes each channel with `{:x}`, which does not pad. A channel below 16
therefore gives one digit. The model's `Colors.ToText` is what the code
writes, and blocks and the bar use it. The eight-digit form and its round
trip are proved only when every channel is at least 16 (`Colors.IsWide`).
The padded form the documentation describes is modelled separately as
`Colors.ToTextPadded` (see Findings).

## Model

| member | source | states |
|---|---|---|
| Colors.Rgba | src/color.rs:9-11 | the four arguments are stored verbatim as red, green, blue and alpha |
| Colors.Rgb | src/color.rs:14-16 | an RGB colour is the RGBA colour with alpha 255 |
| Colors.LowerHex | src/color.rs:23 | `{:x}` of a byte is one digit below 16 and two digits from 16 up |
| Colors.LowerHexDigits | src/color.rs:23 | `{:x}` writes only lower-case hex digits, never a leading zero, and the digits spell the byte back |
| Colors.ToText | src/color.rs:19-24 | the colour's value is `#` and then 4 to 8 digits; it has the full nine characters exactly when every channel is at least 16 |
| Colors.ToTextChannels | src/color.rs:21-23 | after the `#` come the `{:x}` digits of alpha, red, green and blue, in that order, for every colour |
| Colors.ToTextDigits | src/color.rs:23 | everything after the `#` is a hex digit |
| Colors.DecodeToText | src/color.rs:21-23 | the written value reads back as the same colour (alpha, red, green, blue in that order) if and only if every channel is at least 16 |
| Colors.ToTextIsPaddedWhenWide | src/color.rs:3-23 | when every channel is at least 16, the written value is the documented `#aarrggbb` value |
| Colors.RgbIsOpaque | src/color.rs:14-16 | an RGB colour's value starts with the alpha digits `ff` |
| Colors.ShortChannelsCollide | src/color.rs:23 | two different colours with a channel below 16 are written identically, as `#1112233` |
| Colors.TransparentBlackIsShort | src/color.rs:23 | transparent black is written as `#0000`, five characters instead of nine |
| Colors.PaddedHex | src/color.rs:3 | the padded form of a byte is exactly two hex digits that spell the byte |
| Colors.ToTextPadded | src/color.rs:3 | the documented value is nine characters: `#` and eight hex digits |
| Colors.DecodeColor | src/color.rs:3 | a `#aarrggbb` string is accepted exactly when it is `#` followed by eight lower-case hex digits |
| Colors.DecodePadded | src/color.rs:3 | the documented value reads back as the colour for every colour |
| Colors.PaddedInjective | src/color.rs:3 | two colours have the same documented value if and only if they are equal |
| Colors.RgbaScenario | src/color.rs:32-34 | `rgba(24, 24, 24, 0x88)` is written `#88181818` |
| Colors.RgbScenario | src/color.rs:39-41 | `rgb(24, 24, 24)` is written `#ff181818` |
| Buttons.Code | src/button.rs:51-57 | every trigger's code is between 1 and 5 |
| Buttons.CodeInjective | src/button.rs:51-57 | two triggers have the same code if and only if they are the same trigger |
| Buttons.Decimal | src/button.rs:59 | `{}` of a number is a non-empty string of decimal digits that spell the number, with a leading `0` only for zero; it is one digit exactly when the number is below 10 |
| Buttons.MouseButtonText | src/button.rs:49-60 | each trigger is written as one digit from 1 to 5 whose value is its code |
| Buttons.MouseButtonTextRoundTrip | src/button.rs:51-57 | a trigger's digit parses back to that trigger, and only that trigger's digit parses to it |
| Buttons.MouseButtonTextInjective | src/button.rs:51-57 | two triggers are written the same if and only if they are the same trigger |
| Buttons.MouseButtonScenario | src/button.rs:99-103 | Left, Middle, Right, ScrollUp and ScrollDown are written 1, 2, 3, 4, 5 |
| Buttons.OpenTag | src/button.rs:43-47 | an open tag is `%{A`, the trigger's digit, `:`, the command verbatim and `:}`; it is seven characters longer than the command |
| Buttons.OpenTagRoundTrip | src/button.rs:45 | an open tag reads back as its action, and any tag that reads as an action is that action's open tag |
| Buttons.ClickActionScenario | src/button.rs:94 | `(Left, "echo")` is written `%{A1:echo:}` |
| Buttons.CloseTags | src/button.rs:35-37 | n close tags are 4n characters, each group of four being `%{A}` |
| Buttons.OpenTags | src/button.rs:27-29 | the open tags add seven characters per action to the commands |
| Buttons.ButtonText | src/button.rs:25-40 | a button with no actions is its text; otherwise it starts with every action's open tag in list order, then the text, then one close tag per action; its length is the commands plus 11 per action plus the text |
| Buttons.OpenTagsAppend | src/button.rs:27-29 | the open tags of two action lists in sequence are the two lists' open tags in sequence |
| Buttons.OpenTagPosition | src/button.rs:27-29 | action i's open tag comes right after the open tags of actions 0 to i-1 and right before those of the later actions |
| Buttons.CloseTagsIgnoreTriggers | src/button.rs:35-37 | buttons with the same number of actions end in the same closing part, whatever their triggers and commands |
| Buttons.FormatButton | src/button.rs:25-40 | the two loops (open tags, then the text, then close tags) produce the button's text |
| Buttons.ButtonScenario | src/button.rs:84 | `[(Left, "reboot"), (Right, "halt")]` with text `test` is written `%{A1:reboot:}%{A3:halt:}test%{A}%{A}` |
| Blocks.PositionText | src/block.rs:61-71 | each alignment token is four characters of the form `%{?}` |
| Blocks.PositionTextRoundTrip | src/block.rs:63-67 | each token reads back as its position, and only that position's token reads as it |
| Blocks.PositionsEnumerate | src/block.rs:33-35 | the positions are iterated Left, Center, Right, each exactly once |
| Blocks.PositionScenario | src/block.rs:134-136 | Left, Center and Right are written `%{l}`, `%{c}`, `%{r}` |
| Blocks.Content | src/block.rs:41-45 | the content is exactly the text when the icon is empty; otherwise it is the icon, one space and the text; the content always ends with the text |
| Blocks.ColorToken | src/block.rs:47-55 | a scope's value is `-` exactly when the colour is absent; a present colour is written as that colour's own value, by the same rule for background and foreground |
| Blocks.ColorTokenHasNoBrace | src/block.rs:47-55 | a scope's value never holds `}` |
| Blocks.ColorTokenDecodes | src/block.rs:47-55 | a present colour's scope value reads back as the colour if and only if every channel is at least 16 |
| Blocks.SegmentText | src/block.rs:57 | the escape layout is 18 characters longer than its three values |
| Blocks.BlockText | src/block.rs:39-58 | a block's text starts by opening the background scope and always ends `%{F-}%{B-}` |
| Blocks.BlockTextIgnoresAlign | src/block.rs:39-58 | two blocks differing only in alignment have the same text |
| Blocks.SegmentRoundTrip | src/block.rs:57 | the layout splits back into background, foreground and content whenever neither colour value holds `}` |
| Blocks.BlockTextRoundTrip | src/block.rs:39-58 | a block's text splits back into its background value, foreground value and content, so the nested scopes are unambiguous |
| Blocks.ParseBlockTextSound | src/block.rs:57 | every text the splitter accepts is the layout of the values it returns |
| Blocks.BlockTextDeterminesSegment | src/block.rs:39-58 | blocks with the same text have the same colour values and content |
| Blocks.ScenarioColors | src/block.rs:84-85 | `rgb(0x18, 0x18, 0x18)` and `rgb(0xe8, 0xe8, 0xe8)` in a scope are `#ff181818` and `#ffe8e8e8` |
| Blocks.SegmentScenarioAllColors | src/block.rs:90 | the layout of both colours around `i test` |
| Blocks.SegmentScenarioBackgroundOnly | src/block.rs:103 | the layout of the background colour, `-` and `i test` |
| Blocks.SegmentScenarioForegroundOnly | src/block.rs:116 | the layout of `-`, the foreground colour and `i test` |
| Blocks.SegmentScenarioNoColors | src/block.rs:129 | the layout of `-`, `-` and `i test` |
| Blocks.SegmentScenarioIconText | src/lib.rs:49 | the layout of both colours around `icon text` |
| Blocks.BlockScenarioAllColors | src/block.rs:81-90 | the block with both colours is written `%{B#ff181818}%{F#ffe8e8e8}i test%{F-}%{B-}` |
| Blocks.BlockScenarioBackgroundOnly | src/block.rs:94-103 | the block with only a background is written `%{B#ff181818}%{F-}i test%{F-}%{B-}` |
| Blocks.BlockScenarioForegroundOnly | src/block.rs:107-116 | the block with only a foreground is written `%{B-}%{F#ffe8e8e8}i test%{F-}%{B-}` |
| Blocks.BlockScenarioNoColors | src/block.rs:120-129 | the block with no colours is written `%{B-}%{F-}i test%{F-}%{B-}` |
| Blocks.IconTextScenario | src/lib.rs:37-43 | the test's block, with colours built as opaque RGB colours, is written `%{B#ff181818}%{F#ffe8e8e8}icon text%{F-}%{B-}` |
| Bars.Filter | src/lib.rs:18 | a group never holds more blocks than the bar |
| Bars.FilterAppend | src/lib.rs:18 | filtering two lists in sequence is filtering each and joining the results |
| Bars.MatchIndices | src/lib.rs:18 | the matching indices are in range and strictly increasing, and an index is listed if and only if its block has the alignment |
| Bars.FilterIsStable | src/lib.rs:18 | the k-th block of a group is the block at the k-th matching index, so a group keeps input order |
| Bars.FilterPartition | src/lib.rs:17-25 | the three groups together hold every block exactly once, as counts and as multisets |
| Bars.GroupsAppend | src/lib.rs:17-25 | the groups for two lists of positions are the two lists' groups in sequence |
| Bars.GroupsShape | src/lib.rs:17-25 | the groups for the positions in iteration order are `%{l}` then the Left blocks, `%{c}` then the Center blocks, `%{r}` then the Right blocks |
| Bars.BarText | src/lib.rs:13-28 | the bar is `%{l}` then the Left blocks, `%{c}` then the Center blocks, `%{r}` then the Right blocks |
| Bars.EmptyBar | src/lib.rs:17-25 | a bar with no blocks is written `%{l}%{c}%{r}` |
| Bars.Concat | src/lib.rs:22-24 | the concatenated blocks are as long as their texts together |
| Bars.TotalLengthFilterStep | src/lib.rs:18-24 | the first block adds its text's length to its own group and nothing to the others |
| Bars.TotalLengthPartition | src/lib.rs:17-25 | the three groups' text lengths add up to the length of all block texts |
| Bars.BarTextLength | src/lib.rs:17-25 | the bar's text is 12 characters plus every block's text, each counted once |
| Bars.SameGroupsSameText | src/lib.rs:17-25 | two block lists with the same three groups give the same bar text |
| Bars.FilterThree | src/lib.rs:18 | filtering three lists in sequence is filtering each and joining the results |
| Bars.FilterPairSwap | src/lib.rs:18 | two blocks of different alignments filter the same in either order |
| Bars.SwapKeepsGroup | src/lib.rs:18 | exchanging neighbouring blocks of different alignments changes no group |
| Bars.SwapDifferentAlignments | src/lib.rs:17-25 | exchanging neighbouring blocks of different alignments leaves the bar's text unchanged |
| Bars.ConcatAppend | src/lib.rs:22-24 | the text of two block lists in sequence is the two texts in sequence |
| Bars.GroupStep | src/lib.rs:18-24 | scanning one more block adds its text to the group exactly when it has the group's alignment |
| Bars.GroupsStep | src/lib.rs:17-25 | finishing one more position adds that position's group |
| Bars.FormatBar | src/lib.rs:13-28 | the nested loops (each position's token, then its matching blocks) produce the bar's text |
| Bars.SingleLeftBlock | src/lib.rs:17-25 | a bar of one Left block is `%{l}`, the block's text, `%{c}` and `%{r}` |
| Bars.BarScenario | src/lib.rs:49 | the test's bar is written `%{l}%{B#ff181818}%{F#ffe8e8e8}icon text%{F-}%{B-}%{c}%{r}` |

## Left out

- The `fmt::Formatter`, the `write!`/`try!` plumbing and the `fmt::Result` error path (src/button.rs:28-39, src/lib.rs:27) are not modelled. Each `Display` is a total function to a string, because nothing in the logic can fail.
- `Cow<'a, str>` and lifetimes (src/block.rs:25-27, 48-49) are left out. Icons, text and colour values are plain strings.
- The test at src/lib.rs:37-43 comes from an older revision. It builds `block::Color(0xff, ...)` with alpha first and uses `String` icons, which do not fit the current `Color(red, green, blue, alpha)`. Its expected string is kept in `Bars.BarScenario`, with the colours built by `Colors.Rgb`.
- Process setup, running commands to produce block text, and piping the bar to lemonbar are I/O outside these files.
- Commands are copied verbatim, and a `:` or `}` inside a command is not sanitised, as in the code. `Buttons.OpenTagRoundTrip` reads back one whole tag. It does not claim that a stream of tags holding such commands can be split.
- The renderer's behaviour is out of scope. The bar writes each alignment token once, in order (`Bars.BarText`). The model does not claim that the whole output holds each token only once, because a block's text is copied verbatim and may itself hold tokens.
- `Bars.Filter` only states its length bound in its own contract. Its stability and partition are stated by `Bars.FilterIsStable` and `Bars.FilterPartition`.

## Findings

| source | as written | input that shows it | evidently intended | confidence | as-written member | corrected member |
|---|---|---|---|---|---|---|
| src/color.rs:3, src/color.rs:23 | `#{:x}{:x}{:x}{:x}` does not pad a channel, so a channel below 16 gives one digit | `Rgba(0x11, 0x22, 0x33, 0x1)` and `Rgba(0x1, 0x22, 0x33, 0x11)` are both written `#1112233`; `Rgba(0, 0, 0, 0)` is written `#0000` | `{:02x}`, giving the documented `#aarrggbb` | high, not executed | Colors.ShortChannelsCollide | Colors.DecodePadded |

Blocks and the bar keep the as-written `Colors.ToText`, because that is what
`src/block.rs:48` and `src/block.rs:53` call. `Colors.ToTextIsPaddedWhenWide`
proves that the two forms agree whenever every channel is at least 16, which
covers every colour in the crate's tests.
