/** Sequences of equal-length blocks laid end to end: the layout of raw sample
    words, of interleaved colour channels and of image rows. */
module Sequences {

  /** Block `i` of `s` when every block is `k` elements long. */
  function Block<T>(s: seq<T>, k: nat, i: nat): (b: seq<T>)
    requires k * i + k <= |s|
    ensures |b| == k
  {
    s[k * i .. k * i + k]
  }

  lemma BlockInBounds(k: nat, i: nat, count: nat)
    requires i < count
    ensures k * i + k <= k * count
  {
    var d: nat := count - i - 1;
    assert k * count == k * (i + 1 + d);
    assert k * (i + 1 + d) == k * i + k + k * d;
  }

  /** The blocks laid out one after the other. */
  function Concat<T>(ws: seq<seq<T>>): seq<T> {
    if ws == [] then [] else Concat(ws[..|ws| - 1]) + ws[|ws| - 1]
  }

  lemma {:induction false} ConcatLength<T>(ws: seq<seq<T>>, k: nat)
    requires forall j :: 0 <= j < |ws| ==> |ws[j]| == k
    ensures |Concat(ws)| == k * |ws|
  {
    if ws != [] {
      ConcatLength(ws[..|ws| - 1], k);
      assert k * (|ws| - 1) + k == k * |ws|;
    }
  }

  /** Element `j` of block `i` of a concatenation is element `k * i + j`. */
  lemma {:induction false} ConcatElement<T>(ws: seq<seq<T>>, k: nat, i: nat, j: nat)
    requires forall m :: 0 <= m < |ws| ==> |ws[m]| == k
    requires i < |ws| && j < k
    ensures k * i + j < |Concat(ws)|
    ensures Concat(ws)[k * i + j] == ws[i][j]
  {
    var n := |ws|;
    var front := ws[..n - 1];
    var a, b := Concat(front), ws[n - 1];
    ConcatLength(front, k);
    assert Concat(ws) == a + b;
    if i < n - 1 {
      BlockInBounds(k, i, n - 1);
      ConcatElement(front, k, i, j);
      assert front[i] == ws[i];
    } else {
      assert k * i + j == |a| + j;
    }
  }

  /** ConcatElement for a concatenation and a block known by other names. */
  lemma ConcatElementOf<T>(ws: seq<seq<T>>, k: nat, i: nat, j: nat, c: seq<T>, w: seq<T>, at: int)
    requires forall m :: 0 <= m < |ws| ==> |ws[m]| == k
    requires i < |ws| && j < k && at == k * i + j
    requires c == Concat(ws) && w == ws[i]
    ensures 0 <= at < |c| && j < |w| && c[at] == w[j]
  {
    ConcatElement(ws, k, i, j);
  }

  /** In a concatenation of k-element blocks, block i sits at offset k * i. */
  lemma ConcatBlock<T>(ws: seq<seq<T>>, k: nat, i: nat)
    requires forall j :: 0 <= j < |ws| ==> |ws[j]| == k
    requires i < |ws|
    ensures k * i + k <= |Concat(ws)|
    ensures Block(Concat(ws), k, i) == ws[i]
  {
    ConcatLength(ws, k);
    BlockInBounds(k, i, |ws|);
    var block := Block(Concat(ws), k, i);
    forall j | 0 <= j < k
      ensures block[j] == ws[i][j]
    {
      BlockElement(ws, k, i, j, Concat(ws), k * i);
    }
  }

  lemma BlockElement<T>(ws: seq<seq<T>>, k: nat, i: nat, j: nat, c: seq<T>, lo: nat)
    requires forall m :: 0 <= m < |ws| ==> |ws[m]| == k
    requires i < |ws| && j < k && c == Concat(ws) && lo == k * i && lo + k <= |c|
    ensures Block(c, k, i)[j] == ws[i][j]
  {
    ConcatElement(ws, k, i, j);
    assert Block(c, k, i)[j] == c[lo + j];
  }
}
