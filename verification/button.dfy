/** Clickable regions: mouse buttons, click actions and buttons (src/button.rs). */
module Buttons {

  import opened Optional
  import opened Sequences

  /** The mouse button or scroll direction that triggers an action. */
  datatype MouseButton = Left | Middle | Right | ScrollUp | ScrollDown

  /** One (trigger, command) binding. */
  datatype ClickAction = ClickAction(button: MouseButton, command: string)

  /** Text wrapped in zero or more click regions; the first action is the outermost. */
  datatype Button = Button(actions: seq<ClickAction>, text: string)

  // ---------------------------------------------------------------------------
  // Mouse buttons

  /** The renderer's number for each trigger. */
  function Code(m: MouseButton): (c: nat)
    ensures 1 <= c <= 5
  {
    match m
    case Left => 1
    case Middle => 2
    case Right => 3
    case ScrollUp => 4
    case ScrollDown => 5
  }

  /** Different triggers have different codes. */
  lemma CodeInjective(m: MouseButton, n: MouseButton)
    ensures Code(m) == Code(n) <==> m == n
  {
  }

  /** The decimal digit for a value below 10. */
  function DecimalDigit(d: nat): (ch: char)
    requires d < 10
    ensures '0' <= ch <= '9'
    ensures ch as int - '0' as int == d
  {
    ('0' as int + d) as char
  }

  /** The value of a string of decimal digits, most significant first. */
  function DecimalValue(s: string): nat
    requires forall i :: 0 <= i < |s| ==> '0' <= s[i] <= '9'
  {
    if s == [] then 0 else DecimalValue(s[..|s| - 1]) * 10 + (s[|s| - 1] as int - '0' as int)
  }

  /** A natural number in decimal without leading zeros, as Rust's `{}` writes it. */
  function Decimal(n: nat): (s: string)
    ensures |s| >= 1
    ensures forall i :: 0 <= i < |s| ==> '0' <= s[i] <= '9'
    ensures n < 10 <==> |s| == 1
    ensures DecimalValue(s) == n
    ensures s[0] == '0' <==> n == 0
  {
    if n < 10 then
      var s := [DecimalDigit(n)];
      assert s[..0] == [];
      s
    else
      var front := Decimal(n / 10);
      var s := front + [DecimalDigit(n % 10)];
      assert s[..|s| - 1] == front;
      s
  }

  /** The trigger as written inside an open tag. */
  function MouseButtonText(m: MouseButton): (s: string)
    ensures |s| == 1 && '1' <= s[0] <= '5'
    ensures s[0] as int - '0' as int == Code(m)
  {
    Decimal(Code(m))
  }

  /** The inverse of `MouseButtonText`: the trigger whose code is the one digit `s`. */
  function ParseMouseButton(s: string): Option<MouseButton> {
    if s == "1" then Some(Left)
    else if s == "2" then Some(Middle)
    else if s == "3" then Some(Right)
    else if s == "4" then Some(ScrollUp)
    else if s == "5" then Some(ScrollDown)
    else None
  }

  /** Parsing a trigger's text gives the trigger back, and whatever parses is
      the text of what it parses to. */
  lemma MouseButtonTextRoundTrip(m: MouseButton, s: string)
    ensures ParseMouseButton(MouseButtonText(m)) == Some(m)
    ensures ParseMouseButton(s) == Some(m) ==> MouseButtonText(m) == s
  {
  }

  /** Different triggers are written differently. */
  lemma MouseButtonTextInjective(m: MouseButton, n: MouseButton)
    ensures MouseButtonText(m) == MouseButtonText(n) <==> m == n
  {
    MouseButtonTextRoundTrip(m, MouseButtonText(n));
  }

  lemma MouseButtonScenario()
    ensures MouseButtonText(Left) == "1"
    ensures MouseButtonText(Middle) == "2"
    ensures MouseButtonText(Right) == "3"
    ensures MouseButtonText(ScrollUp) == "4"
    ensures MouseButtonText(ScrollDown) == "5"
  {
  }

  // ---------------------------------------------------------------------------
  // Click actions

  /** The open tag `%{A<code>:<command>:}`; the command is copied verbatim. */
  function OpenTag(a: ClickAction): (s: string)
    ensures |s| == |a.command| + 7
    ensures s[..3] == "%{A" && s[4] == ':' && s[|s| - 2..] == ":}"
    ensures s[3..4] == MouseButtonText(a.button)
    ensures s[5..|s| - 2] == a.command
  {
    "%{A" + MouseButtonText(a.button) + ":" + a.command + ":}"
  }

  /** Reads one whole open tag back. The command is everything between the
      second character after the code and the final `:}`, so a command that
      itself holds `:` or `}` is still recovered from a single tag. */
  function ParseOpenTag(s: string): Option<ClickAction> {
    if |s| >= 7 && s[..3] == "%{A" && s[4] == ':' && s[|s| - 2..] == ":}" then
      match ParseMouseButton(s[3..4])
      case None => None
      case Some(m) => Some(ClickAction(m, s[5..|s| - 2]))
    else
      None
  }

  /** The open tag determines its action, and every tag the parser accepts is
      the open tag of the action it returns. */
  lemma OpenTagRoundTrip(a: ClickAction, s: string)
    ensures ParseOpenTag(OpenTag(a)) == Some(a)
    ensures ParseOpenTag(s) == Some(a) ==> OpenTag(a) == s
  {
    MouseButtonTextRoundTrip(a.button, OpenTag(a)[3..4]);
    if ParseOpenTag(s) == Some(a) {
      MouseButtonTextRoundTrip(a.button, s[3..4]);
      var t := OpenTag(a);
      assert |t| == |s|;
      assert t == t[..3] + t[3..4] + t[4..5] + t[5..|t| - 2] + t[|t| - 2..];
      assert s == s[..3] + s[3..4] + s[4..5] + s[5..|s| - 2] + s[|s| - 2..];
    }
  }

  lemma ClickActionScenario()
    ensures OpenTag(ClickAction(Left, "echo")) == "%{A1:echo:}"
  {
  }

  // ---------------------------------------------------------------------------
  // Buttons

  /** Every action's open tag, in list order. */
  function OpenTags(actions: seq<ClickAction>): (s: string)
    ensures |s| == CommandLength(actions) + 7 * |actions|
  {
    if actions == [] then "" else OpenTag(actions[0]) + OpenTags(actions[1..])
  }

  /** The generic close tag; the renderer closes the most recently opened region. */
  const CloseTag: string := "%{A}"

  /** `n` close tags, one written after another: character `k` is character
      `k % 4` of a close tag. */
  function CloseTags(n: nat): (s: string)
    ensures |s| == 4 * n
    ensures forall k :: 0 <= k < |s| ==> s[k] == CloseTag[k % 4]
  {
    if n == 0 then "" else CloseTags(n - 1) + CloseTag
  }

  /** The total length of the commands of a list of actions. */
  function CommandLength(actions: seq<ClickAction>): nat {
    if actions == [] then 0 else |actions[0].command| + CommandLength(actions[1..])
  }

  /** The button: all open tags in list order, the text, one close tag per action. */
  function ButtonText(b: Button): (s: string)
    ensures b.actions == [] ==> s == b.text
    ensures |s| == CommandLength(b.actions) + 11 * |b.actions| + |b.text|
    ensures s[CommandLength(b.actions) + 7 * |b.actions|..|s| - 4 * |b.actions|] == b.text
    ensures s[..CommandLength(b.actions) + 7 * |b.actions|] == OpenTags(b.actions)
    ensures s[|s| - 4 * |b.actions|..] == CloseTags(|b.actions|)
  {
    OpenTags(b.actions) + b.text + CloseTags(|b.actions|)
  }

  /** Open tags of a concatenation are the concatenation of open tags. */
  lemma {:induction false} OpenTagsAppend(xs: seq<ClickAction>, ys: seq<ClickAction>)
    ensures OpenTags(xs + ys) == OpenTags(xs) + OpenTags(ys)
  {
    if xs == [] {
      assert xs + ys == ys;
    } else {
      assert (xs + ys)[0] == xs[0];
      assert (xs + ys)[1..] == xs[1..] + ys;
      OpenTagsAppend(xs[1..], ys);
      AppendAssoc(OpenTag(xs[0]), OpenTags(xs[1..]), OpenTags(ys));
    }
  }

  lemma OpenTagsSingle(a: ClickAction)
    ensures OpenTags([a]) == OpenTag(a)
  {
    assert [a][1..] == [];
  }

  /** Action `i`'s open tag sits right after the open tags of the actions before it:
      the tags appear in list order, one per action. */
  lemma {:induction false} OpenTagPosition(actions: seq<ClickAction>, i: nat)
    requires i < |actions|
    ensures OpenTags(actions) == OpenTags(actions[..i]) + OpenTag(actions[i]) + OpenTags(actions[i + 1..])
  {
    var before, a, after := actions[..i], actions[i], actions[i + 1..];
    assert actions == before + [a] + after;
    OpenTagsAppend(before + [a], after);
    OpenTagsAppend(before, [a]);
    OpenTagsSingle(a);
  }

  /** Only the number of actions, not their triggers or commands, decides the closing part. */
  lemma CloseTagsIgnoreTriggers(b: Button, c: Button)
    requires |b.actions| == |c.actions|
    ensures ButtonText(b)[|ButtonText(b)| - 4 * |b.actions|..] == ButtonText(c)[|ButtonText(c)| - 4 * |c.actions|..]
  {
  }

  /** One more action written adds its open tag. */
  lemma {:induction false} OpenTagsStep(actions: seq<ClickAction>, i: nat)
    requires i < |actions|
    ensures OpenTags(actions[..i + 1]) == OpenTags(actions[..i]) + OpenTag(actions[i])
  {
    var a := actions[i];
    OpenTagsAppend(actions[..i], [a]);
    OpenTagsSingle(a);
    assert actions[..i + 1] == actions[..i] + [a];
  }

  /** One more close tag written after the open tags and the text. */
  lemma {:induction false} CloseTagsStep(opening: string, text: string, i: nat)
    ensures opening + text + CloseTags(i) + CloseTag == opening + text + CloseTags(i + 1)
  {
    AppendAssoc(opening + text, CloseTags(i), CloseTag);
  }

  /** The formatter as the source writes it: one loop writing each action's open
      tag, then the text, then a loop writing one close tag per action. */
  method FormatButton(b: Button) returns (s: string)
    ensures s == ButtonText(b)
  {
    var opening := "";
    for i := 0 to |b.actions|
      invariant opening == OpenTags(b.actions[..i])
    {
      OpenTagsStep(b.actions, i);
      opening := opening + OpenTag(b.actions[i]);
    }
    assert b.actions[..|b.actions|] == b.actions;
    s := opening + b.text;
    assert s == opening + b.text + CloseTags(0);
    for i := 0 to |b.actions|
      invariant s == opening + b.text + CloseTags(i)
    {
      CloseTagsStep(opening, b.text, i);
      s := s + CloseTag;
    }
  }

  lemma ButtonScenarioOpenTags()
    ensures OpenTags([ClickAction(Left, "reboot"), ClickAction(Right, "halt")]) == "%{A1:reboot:}%{A3:halt:}"
  {
    var actions := [ClickAction(Left, "reboot"), ClickAction(Right, "halt")];
    assert actions[1..][1..] == [];
  }

  lemma ButtonScenarioCloseTags()
    ensures CloseTags(2) == "%{A}%{A}"
  {
    assert CloseTags(1) == "%{A}";
  }

  lemma ButtonScenario()
    ensures ButtonText(Button([ClickAction(Left, "reboot"), ClickAction(Right, "halt")], "test"))
         == "%{A1:reboot:}%{A3:halt:}test%{A}%{A}"
  {
    ButtonScenarioOpenTags();
    ButtonScenarioCloseTags();
  }
}
