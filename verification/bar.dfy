/** The whole bar: blocks grouped by alignment (src/lib.rs). */
module Bars {

  import opened Optional
  import opened Sequences
  import opened Colors
  import opened Blocks

  /** The blocks of one refresh, in the order they were supplied. */
  datatype Bar = Bar(blocks: seq<Block>)

  // ---------------------------------------------------------------------------
  // Grouping

  /** The blocks aligned at `p`, in input order: a filter, not a sort. */
  function Filter(blocks: seq<Block>, p: BlockPosition): (r: seq<Block>)
    ensures |r| <= |blocks|
  {
    if blocks == [] then []
    else (if blocks[0].align == p then [blocks[0]] else []) + Filter(blocks[1..], p)
  }

  /** The texts of the blocks, one after another. */
  function Concat(blocks: seq<Block>): (s: string)
    ensures |s| == TotalLength(blocks)
  {
    if blocks == [] then "" else BlockText(blocks[0]) + Concat(blocks[1..])
  }

  /** One group: the position's token, then each of its blocks. */
  function GroupText(blocks: seq<Block>, p: BlockPosition): string {
    PositionText(p) + Concat(Filter(blocks, p))
  }

  /** The groups for the positions `ps`, in that order. */
  function Groups(blocks: seq<Block>, ps: seq<BlockPosition>): string {
    if ps == [] then "" else GroupText(blocks, ps[0]) + Groups(blocks, ps[1..])
  }

  /** The bar's text: the groups for Left, Center and Right. It is the Left
      token and the Left blocks, the Center token and the Center blocks, then
      the Right token and the Right blocks. */
  function BarText(bar: Bar): (s: string)
    ensures s == "%{l}" + Concat(Filter(bar.blocks, Left))
               + "%{c}" + Concat(Filter(bar.blocks, Center))
               + "%{r}" + Concat(Filter(bar.blocks, Right))
  {
    GroupsShape(bar.blocks);
    Groups(bar.blocks, Positions)
  }

  // ---------------------------------------------------------------------------
  // The filter is a stable filter

  lemma {:induction false} FilterAppend(xs: seq<Block>, ys: seq<Block>, p: BlockPosition)
    ensures Filter(xs + ys, p) == Filter(xs, p) + Filter(ys, p)
  {
    if xs == [] {
      assert xs + ys == ys;
    } else {
      var head := if xs[0].align == p then [xs[0]] else [];
      assert (xs + ys)[0] == xs[0];
      assert (xs + ys)[1..] == xs[1..] + ys;
      FilterAppend(xs[1..], ys, p);
      AppendAssoc(head, Filter(xs[1..], p), Filter(ys, p));
    }
  }

  lemma {:induction false} FilterSingle(b: Block, p: BlockPosition)
    ensures Filter([b], p) == if b.align == p then [b] else []
  {
    assert [b][1..] == [];
  }

  /** The indices of the blocks aligned at `p`, ascending. */
  function MatchIndices(blocks: seq<Block>, p: BlockPosition): (r: seq<nat>)
    ensures forall k :: 0 <= k < |r| ==> r[k] < |blocks|
    ensures forall k, l :: 0 <= k < l < |r| ==> r[k] < r[l]
    ensures forall i :: 0 <= i < |blocks| ==> (blocks[i].align == p <==> i in r)
  {
    if blocks == [] then []
    else
      var n := |blocks| - 1;
      var front := MatchIndices(blocks[..n], p);
      assert forall i :: 0 <= i < n ==> blocks[..n][i] == blocks[i];
      front + (if blocks[n].align == p then [n] else [])
  }

  /** The filter keeps exactly the blocks aligned at `p`, in their input order:
      its `k`-th block is the block at the `k`-th matching index. */
  lemma {:induction false} FilterIsStable(blocks: seq<Block>, p: BlockPosition)
    ensures |Filter(blocks, p)| == |MatchIndices(blocks, p)|
    ensures forall k :: 0 <= k < |Filter(blocks, p)| ==> Filter(blocks, p)[k] == blocks[MatchIndices(blocks, p)[k]]
  {
    if blocks != [] {
      var n := |blocks| - 1;
      var front := blocks[..n];
      assert blocks == front + [blocks[n]];
      FilterAppend(front, [blocks[n]], p);
      FilterSingle(blocks[n], p);
      FilterIsStable(front, p);
    }
  }

  /** Every block lands in exactly one group. */
  lemma {:induction false} FilterPartition(blocks: seq<Block>)
    ensures |Filter(blocks, Left)| + |Filter(blocks, Center)| + |Filter(blocks, Right)| == |blocks|
    ensures multiset(Filter(blocks, Left)) + multiset(Filter(blocks, Center)) + multiset(Filter(blocks, Right))
         == multiset(blocks)
  {
    if blocks != [] {
      FilterPartition(blocks[1..]);
      assert blocks == [blocks[0]] + blocks[1..];
    }
  }

  // ---------------------------------------------------------------------------
  // Shape and length of the bar's text

  lemma {:induction false} GroupsAppend(blocks: seq<Block>, ps: seq<BlockPosition>, qs: seq<BlockPosition>)
    ensures Groups(blocks, ps + qs) == Groups(blocks, ps) + Groups(blocks, qs)
  {
    if ps == [] {
      assert ps + qs == qs;
    } else {
      assert (ps + qs)[0] == ps[0];
      assert (ps + qs)[1..] == ps[1..] + qs;
      GroupsAppend(blocks, ps[1..], qs);
      AppendAssoc(GroupText(blocks, ps[0]), Groups(blocks, ps[1..]), Groups(blocks, qs));
    }
  }

  /** The groups for Left, Center and Right, spelled out. */
  lemma {:induction false} GroupsShape(bs: seq<Block>)
    ensures Groups(bs, Positions)
         == "%{l}" + Concat(Filter(bs, Left))
          + "%{c}" + Concat(Filter(bs, Center))
          + "%{r}" + Concat(Filter(bs, Right))
  {
    assert Positions[1..] == [Center, Right];
    assert [Center, Right][1..] == [Right];
    assert [Right][1..] == [];
    assert Groups(bs, [Right]) == GroupText(bs, Right);
    assert Groups(bs, [Center, Right]) == GroupText(bs, Center) + GroupText(bs, Right);
    assert Groups(bs, Positions) == GroupText(bs, Left) + (GroupText(bs, Center) + GroupText(bs, Right));
    Reassociate(PositionText(Left), Concat(Filter(bs, Left)), PositionText(Center), Concat(Filter(bs, Center)),
      PositionText(Right), Concat(Filter(bs, Right)));
  }

  lemma Reassociate(a: string, b: string, c: string, d: string, e: string, f: string)
    ensures (a + b) + ((c + d) + (e + f)) == a + b + c + d + e + f
  {
  }

  /** A bar with no blocks still writes all three tokens. */
  lemma {:induction false} EmptyBar()
    ensures BarText(Bar([])) == "%{l}%{c}%{r}"
  {
  }

  /** The total length of the blocks' texts. */
  function TotalLength(blocks: seq<Block>): nat {
    if blocks == [] then 0 else |BlockText(blocks[0])| + TotalLength(blocks[1..])
  }

  /** The first block counts towards a group's length exactly when it is aligned there. */
  lemma {:induction false} TotalLengthFilterStep(blocks: seq<Block>, p: BlockPosition)
    requires blocks != []
    ensures TotalLength(Filter(blocks, p))
         == (if blocks[0].align == p then |BlockText(blocks[0])| else 0) + TotalLength(Filter(blocks[1..], p))
  {
    var b, rest := blocks[0], Filter(blocks[1..], p);
    if b.align == p {
      var f := Filter(blocks, p);
      assert f == [b] + rest;
      assert f[0] == b && f[1..] == rest;
    } else {
      assert Filter(blocks, p) == [] + rest;
      assert [] + rest == rest;
    }
  }

  lemma {:induction false} TotalLengthPartition(blocks: seq<Block>)
    ensures TotalLength(Filter(blocks, Left)) + TotalLength(Filter(blocks, Center)) + TotalLength(Filter(blocks, Right))
         == TotalLength(blocks)
  {
    if blocks != [] {
      TotalLengthPartition(blocks[1..]);
      TotalLengthFilterStep(blocks, Left);
      TotalLengthFilterStep(blocks, Center);
      TotalLengthFilterStep(blocks, Right);
    }
  }

  /** Every block is written exactly once: the text is the three four-character
      tokens plus every block's text. */
  lemma {:induction false} BarTextLength(bar: Bar)
    ensures |BarText(bar)| == 12 + TotalLength(bar.blocks)
  {
    TotalLengthPartition(bar.blocks);
  }

  // ---------------------------------------------------------------------------
  // Reordering

  /** Two block lists with the same groups give the same bar text. */
  lemma {:induction false} SameGroupsSameText(xs: seq<Block>, ys: seq<Block>)
    requires Filter(xs, Left) == Filter(ys, Left)
    requires Filter(xs, Center) == Filter(ys, Center)
    requires Filter(xs, Right) == Filter(ys, Right)
    ensures BarText(Bar(xs)) == BarText(Bar(ys))
  {
  }

  /** The filter of three consecutive pieces is the three pieces' filters. */
  lemma {:induction false} FilterThree(xs: seq<Block>, ys: seq<Block>, zs: seq<Block>, p: BlockPosition)
    ensures Filter(xs + ys + zs, p) == Filter(xs, p) + Filter(ys, p) + Filter(zs, p)
  {
    FilterAppend(xs + ys, zs, p);
    FilterAppend(xs, ys, p);
  }

  /** Two blocks of different alignments filter the same in either order. */
  lemma {:induction false} FilterPairSwap(x: Block, y: Block, p: BlockPosition)
    requires x.align != y.align
    ensures Filter([x, y], p) == Filter([y, x], p)
  {
    assert [x, y] == [x] + [y];
    assert [y, x] == [y] + [x];
    FilterAppend([x], [y], p);
    FilterAppend([y], [x], p);
    FilterSingle(x, p);
    FilterSingle(y, p);
  }

  /** Exchanging two neighbours of different alignments changes no group. */
  lemma {:induction false} SwapKeepsGroup(before: seq<Block>, x: Block, y: Block, after: seq<Block>, p: BlockPosition)
    requires x.align != y.align
    ensures Filter(before + [x, y] + after, p) == Filter(before + [y, x] + after, p)
  {
    FilterThree(before, [x, y], after, p);
    FilterThree(before, [y, x], after, p);
    FilterPairSwap(x, y, p);
  }

  /** Swapping two neighbouring blocks of different alignments leaves the bar's
      text unchanged: only the order within a group matters. */
  lemma {:induction false} SwapDifferentAlignments(before: seq<Block>, x: Block, y: Block, after: seq<Block>)
    requires x.align != y.align
    ensures BarText(Bar(before + [x, y] + after)) == BarText(Bar(before + [y, x] + after))
  {
    SwapKeepsGroup(before, x, y, after, Left);
    SwapKeepsGroup(before, x, y, after, Center);
    SwapKeepsGroup(before, x, y, after, Right);
    SameGroupsSameText(before + [x, y] + after, before + [y, x] + after);
  }

  // ---------------------------------------------------------------------------
  // The formatter as written

  lemma {:induction false} ConcatAppend(xs: seq<Block>, ys: seq<Block>)
    ensures Concat(xs + ys) == Concat(xs) + Concat(ys)
  {
    if xs == [] {
      assert xs + ys == ys;
    } else {
      assert (xs + ys)[0] == xs[0];
      assert (xs + ys)[1..] == xs[1..] + ys;
      ConcatAppend(xs[1..], ys);
      AppendAssoc(BlockText(xs[0]), Concat(xs[1..]), Concat(ys));
    }
  }

  lemma ConcatSingle(b: Block)
    ensures Concat([b]) == BlockText(b)
  {
    assert [b][1..] == [];
  }

  /** One more block scanned adds its text exactly when it is aligned at `p`. */
  lemma {:induction false} GroupStep(blocks: seq<Block>, i: nat, p: BlockPosition)
    requires i < |blocks|
    ensures Concat(Filter(blocks[..i + 1], p))
         == Concat(Filter(blocks[..i], p)) + (if blocks[i].align == p then BlockText(blocks[i]) else "")
  {
    var b := blocks[i];
    var front := Filter(blocks[..i], p);
    assert blocks[..i + 1] == blocks[..i] + [b];
    FilterAppend(blocks[..i], [b], p);
    FilterSingle(b, p);
    if b.align == p {
      ConcatAppend(front, [b]);
      ConcatSingle(b);
    } else {
      assert front + [] == front;
    }
  }

  /** One more position done adds that position's group. */
  lemma {:induction false} GroupsStep(blocks: seq<Block>, k: nat)
    requires k < |Positions|
    ensures Groups(blocks, Positions[..k + 1]) == Groups(blocks, Positions[..k]) + GroupText(blocks, Positions[k])
  {
    var p := Positions[k];
    GroupsAppend(blocks, Positions[..k], [p]);
    assert Positions[..k + 1] == Positions[..k] + [p];
    assert Groups(blocks, [p]) == GroupText(blocks, p) + Groups(blocks, []);
  }

  /** The source's loop: for each position in order, append its token, then
      append every block of the bar whose alignment matches. */
  method FormatBar(bar: Bar) returns (s: string)
    ensures s == BarText(bar)
  {
    var blocks := bar.blocks;
    s := "";
    for k := 0 to |Positions|
      invariant s == Groups(blocks, Positions[..k])
    {
      var p := Positions[k];
      var done := s;
      s := s + PositionText(p);
      for i := 0 to |blocks|
        invariant s == done + PositionText(p) + Concat(Filter(blocks[..i], p))
      {
        GroupStep(blocks, i, p);
        var piece := if blocks[i].align == p then BlockText(blocks[i]) else "";
        AppendAssoc(done + PositionText(p), Concat(Filter(blocks[..i], p)), piece);
        if blocks[i].align == p {
          s := s + BlockText(blocks[i]);
        }
      }
      assert blocks[..|blocks|] == blocks;
      AppendAssoc(done, PositionText(p), Concat(Filter(blocks, p)));
      GroupsStep(blocks, k);
    }
    assert Positions[..|Positions|] == Positions;
  }

  // ---------------------------------------------------------------------------
  // Scenario

  /** A bar holding one left-aligned block: the Left token, the block, and the
      two empty groups' tokens. */
  lemma {:induction false} SingleLeftBlock(b: Block)
    requires b.align == Left
    ensures BarText(Bar([b])) == "%{l}" + BlockText(b) + "%{c}" + "%{r}"
  {
    FilterSingle(b, Left);
    FilterSingle(b, Center);
    FilterSingle(b, Right);
    ConcatSingle(b);
    var t := "%{l}" + BlockText(b) + "%{c}";
    assert t + "" == t;
    assert t + "" + "%{r}" + "" == t + "%{r}";
  }

  /** One left block with both colours; the colours are built as opaque ones.
      The expected text is written as its Left token, the block's text and the
      two empty groups' tokens. */
  lemma {:induction false} BarScenario()
    ensures BarText(Bar([Block(Left, Some(Rgb(0x18, 0x18, 0x18)), Some(Rgb(0xe8, 0xe8, 0xe8)), "icon", "text")]))
         == "%{l}" + "%{B#ff181818}%{F#ffe8e8e8}icon text%{F-}%{B-}" + "%{c}" + "%{r}"
  {
    var b := Block(Left, Some(Rgb(0x18, 0x18, 0x18)), Some(Rgb(0xe8, 0xe8, 0xe8)), "icon", "text");
    IconTextScenario();
    SingleLeftBlock(b);
  }
}
