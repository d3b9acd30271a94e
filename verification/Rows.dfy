/** The blocks under one parent, and what happens to them when a path pushes, cuts or
    redistributes what they hold. */
module Rows {

  /** The path stands on entry slot of block at. */
  datatype Row<T> = Row(blocks: seq<seq<T>>, at: nat, slot: nat)

  predicate RowOK<T>(row: Row<T>) {
    row.at < |row.blocks| && row.slot <= |row.blocks[row.at]|
  }

  /** The last k entries of the block go to the front of the next one, and the path goes with
      its entry. */
  function GiveRight<T>(row: Row<T>, k: nat): (r: Row<T>)
    requires RowOK(row) && row.at + 1 < |row.blocks| && k <= |row.blocks[row.at]|
    ensures RowOK(r) && |r.blocks| == |row.blocks|
  {
    var cur, next := row.blocks[row.at], row.blocks[row.at + 1];
    var c := |cur| - k;
    var blocks := row.blocks[row.at := cur[..c]][row.at + 1 := cur[c..] + next];
    if row.slot < c then Row(blocks, row.at, row.slot) else Row(blocks, row.at + 1, row.slot - c)
  }

  /** The first k entries of the block go to the end of the one before. */
  function GiveLeft<T>(row: Row<T>, k: nat): (r: Row<T>)
    requires RowOK(row) && row.at > 0 && k <= |row.blocks[row.at]|
    ensures RowOK(r) && |r.blocks| == |row.blocks|
  {
    var prev, cur := row.blocks[row.at - 1], row.blocks[row.at];
    var blocks := row.blocks[row.at - 1 := prev + cur[..k]][row.at := cur[k..]];
    if row.slot < k then Row(blocks, row.at - 1, |prev| + row.slot) else Row(blocks, row.at, row.slot - k)
  }

  function Dropped<T>(blocks: seq<seq<T>>, at: nat): (r: seq<seq<T>>)
    requires at < |blocks|
    ensures |r| == |blocks| - 1
  {
    blocks[..at] + blocks[at + 1..]
  }

  lemma DroppedIs<T>(blocks: seq<seq<T>>, at: nat)
    requires at < |blocks|
    ensures var r := Dropped(blocks, at);
            |r| == |blocks| - 1 && r[..at] == blocks[..at] && r[at..] == blocks[at + 1..]
  {
  }

  lemma DroppedFor<T>(blocks: seq<seq<T>>, at: nat, x: seq<T>)
    requires at + 1 < |blocks|
    ensures var r := Dropped(blocks[at + 1 := x], at);
            |r| == |blocks| - 1 && r[..at] == blocks[..at] && r[at..] == [x] + blocks[at + 2..]
  {
  }

  lemma GivenLeft<T>(row: Row<T>, k: nat)
    requires RowOK(row) && k <= |row.blocks[row.at]| && (row.at == 0 ==> k == 0)
    ensures var r, cur, at := if k == 0 then row else GiveLeft(row, k), row.blocks[row.at], row.at;
            && |r.blocks| == |row.blocks|
            && r.blocks[at..] == [cur[k..]] + row.blocks[at + 1..]
            && (0 < at ==> r.blocks[..at] == row.blocks[..at - 1] + [row.blocks[at - 1] + cur[..k]])
            && r.at == (if row.slot < k then at - 1 else at)
            && r.slot == (if row.slot < k then |row.blocks[at - 1]| + row.slot else row.slot - k)
  {
    var cur, at := row.blocks[row.at], row.at;
    assert cur[0..] == cur;
    if 0 < at {
      assert row.blocks[at - 1] + cur[..0] == row.blocks[at - 1];
    }
  }

  function Min(a: nat, b: nat): nat {
    if a < b then a else b
  }

  /** push_nodes_for_insert: nodes of up to cap pointers, of which at least 8 stay when some go
      left, and a bit less than half when some go right. */
  function NodesPushed<T>(row: Row<T>, cap: nat): (r: Row<T>)
    requires RowOK(row) && forall i :: 0 <= i < |row.blocks| ==> |row.blocks[i]| <= cap
    ensures RowOK(r) && |r.blocks| == |row.blocks|
  {
    var n, a := |row.blocks[row.at]|, row.at;
    if a > 0 && |row.blocks[a - 1]| + 1 < cap && n > 8 then GiveLeft(row, Min(n - 8, cap - |row.blocks[a - 1]|))
    else if a + 1 < |row.blocks| && |row.blocks[a + 1]| + 1 < cap && n >= 4
    then GiveRight(row, Min(n / 2 + 1, cap - |row.blocks[a + 1]|))
    else row
  }

  /** The entries from mid on become a block of their own. */
  function CutAt<T>(row: Row<T>, mid: nat): (r: Row<T>)
    requires RowOK(row) && mid <= |row.blocks[row.at]|
    ensures RowOK(r) && |r.blocks| == |row.blocks| + 1
  {
    var cur := row.blocks[row.at];
    var blocks := row.blocks[..row.at] + [cur[..mid], cur[mid..]] + row.blocks[row.at + 1..];
    if row.slot < mid then Row(blocks, row.at, row.slot) else Row(blocks, row.at + 1, row.slot - mid)
  }

  /** A new empty block: in front when the path stands at the start of its own, else behind. */
  function WithEmpty<T>(row: Row<T>): (r: Row<T>)
    requires RowOK(row)
    ensures RowOK(r) && |r.blocks| == |row.blocks| + 1
  {
    var at := if row.slot == 0 then row.at else row.at + 1;
    Row(row.blocks[..at] + [[]] + row.blocks[at..], at, 0)
  }

  /** Block, left and right neighbour, as far as they are there, share their entries anew:
      x for the left one, up to y for the block, the rest for the right one.  An empty block
      goes. */
  function Share<T>(row: Row<T>, x: nat, y: nat): Row<T>
    requires RowOK(row) && x <= y <= |Three(row)|
  {
    var g := row.slot + if row.at > 0 then |row.blocks[row.at - 1]| else 0;
    if g < x then Row(ShareBlocks(row, x, y), if row.at > 0 then row.at - 1 else 0, g)
    else Row(ShareBlocks(row, x, y), row.at, g - x)
  }

  function ShareBlocks<T>(row: Row<T>, x: nat, y: nat): seq<seq<T>>
    requires RowOK(row) && x <= y <= |Three(row)|
  {
    var abc, a := Three(row), row.at;
    var left := if a > 0 then [abc[..x]] else [];
    var mid := if x < y then [abc[x..y]] else [];
    var right := if a + 1 < |row.blocks| && y < |abc| then [abc[y..]] else [];
    (if a > 0 then row.blocks[..a - 1] else []) + left + mid + right
      + (if a + 1 < |row.blocks| then row.blocks[a + 2..] else [])
  }

  lemma CutAround<T>(row: Row<T>, mid: nat)
    requires RowOK(row) && mid <= |row.blocks[row.at]|
    ensures var blocks := row.blocks[..row.at] + [row.blocks[row.at][..mid], row.blocks[row.at][mid..]]
              + row.blocks[row.at + 1..];
            CutAt(row, mid)
            == if row.slot < mid then Row(blocks, row.at, row.slot) else Row(blocks, row.at + 1, row.slot - mid)
  {
  }

  /** Where entry g of a block and the next one, taken together, is after they were shared anew. */
  lemma SharedLeft<T>(row: Row<T>, a': seq<T>, b': seq<T>, k: nat)
    requires RowOK(row) && row.at > 0 && k <= |row.blocks[row.at]|
    requires a' == row.blocks[row.at - 1] + row.blocks[row.at][..k] && b' == row.blocks[row.at][k..]
    ensures var blocks, g := row.blocks[row.at - 1 := a'][row.at := b'], |row.blocks[row.at - 1]| + row.slot;
            GiveLeft(row, k) == if g < |a'| then Row(blocks, row.at - 1, g) else Row(blocks, row.at, g - |a'|)
  {
  }

  lemma SharedRight<T>(row: Row<T>, a': seq<T>, b': seq<T>, k: nat)
    requires RowOK(row) && row.at + 1 < |row.blocks| && k <= |row.blocks[row.at]|
    requires a' == row.blocks[row.at][..|row.blocks[row.at]| - k]
    requires b' == row.blocks[row.at][|row.blocks[row.at]| - k..] + row.blocks[row.at + 1]
    ensures var blocks, g := row.blocks[row.at := a'][row.at + 1 := b'], row.slot;
            GiveRight(row, k) == if g < |a'| then Row(blocks, row.at, g) else Row(blocks, row.at + 1, g - |a'|)
  {
  }

  /** The entries of the block and of its two neighbours. */
  function Three<T>(row: Row<T>): seq<T>
    requires RowOK(row)
  {
    (if row.at > 0 then row.blocks[row.at - 1] else []) + row.blocks[row.at]
      + (if row.at + 1 < |row.blocks| then row.blocks[row.at + 1] else [])
  }

  function Only<T>(s: seq<T>): seq<seq<T>> {
    if s == [] then [] else [s]
  }

  /** Sharing anew, for a row that is taken apart around the path. */
  lemma ShareIs<T>(l: seq<seq<T>>, a: seq<T>, b: seq<T>, c: seq<T>, r: seq<seq<T>>, a': seq<T>, b': seq<T>, c': seq<T>,
      slot: nat)
    requires b != [] && slot <= |b| && (a == [] ==> l == []) && (c == [] ==> r == [])
    requires a' + b' + c' == a + b + c && (a == [] <==> a' == []) && (c == [] ==> c' == [])
    ensures var row := Row(l + Only(a) + [b] + Only(c) + r, |l| + |Only(a)|, slot);
            var blocks, g := l + Only(a') + Only(b') + Only(c') + r, |a| + slot;
            && RowOK(row) && Three(row) == a + b + c
            && Share(row, |a'|, |a'| + |b'|)
               == if g < |a'| then Row(blocks, |l|, g) else Row(blocks, |l| + |Only(a')|, g - |a'|)
  {
    var row := Row(l + Only(a) + [b] + Only(c) + r, |l| + |Only(a)|, slot);
    hide ShareBlocks, Three;
    Around(l, a, b, c, r);
    ThreeOf(row, a, b, c);
    ShareBlocksAre(row, l, r, a', b', c');
  }

  lemma ShareBlocksAre<T>(row: Row<T>, l: seq<seq<T>>, r: seq<seq<T>>, a': seq<T>, b': seq<T>, c': seq<T>)
    requires RowOK(row) && Three(row) == a' + b' + c'
    requires (row.at > 0 <==> a' != []) && (row.at + 1 >= |row.blocks| ==> c' == [])
    requires l == if row.at > 0 then row.blocks[..row.at - 1] else []
    requires r == if row.at + 1 < |row.blocks| then row.blocks[row.at + 2..] else []
    ensures ShareBlocks(row, |a'|, |a'| + |b'|) == l + Only(a') + Only(b') + Only(c') + r
  {
    hide Three;
    CutThree(a', b', c');
  }

  lemma ThreeOf<T>(row: Row<T>, a: seq<T>, b: seq<T>, c: seq<T>)
    requires RowOK(row) && row.blocks[row.at] == b
    requires if row.at > 0 then row.blocks[row.at - 1] == a else a == []
    requires if row.at + 1 < |row.blocks| then row.blocks[row.at + 1] == c else c == []
    ensures Three(row) == a + b + c
  {
  }

  lemma CutThree<T>(a: seq<T>, b: seq<T>, c: seq<T>)
    ensures var abc := a + b + c;
            abc[..|a|] == a && abc[|a|..|a| + |b|] == b && abc[|a| + |b|..] == c && |abc| == |a| + |b| + |c|
  {
  }

  lemma Around<T>(l: seq<seq<T>>, a: seq<T>, b: seq<T>, c: seq<T>, r: seq<seq<T>>)
    requires (a == [] ==> l == []) && (c == [] ==> r == [])
    ensures var blocks, at := l + Only(a) + [b] + Only(c) + r, |l| + |Only(a)|;
            && at < |blocks| && blocks[at] == b && (at > 0 <==> a != []) && (at + 1 < |blocks| <==> c != [])
            && (a != [] ==> blocks[at - 1] == a && blocks[..at - 1] == l)
            && (c != [] ==> blocks[at + 1] == c && blocks[at + 2..] == r)
  {
  }
}
