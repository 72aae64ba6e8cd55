/** Optional values, standing for Python's `None`-or-value results. */
module Wrappers {
  datatype Option<+T> = None | Some(value: T)
}

/** Small facts about sequences shared by the pipeline modules. */
module Collections {
  /** No element occurs twice. */
  predicate NoDup<T(==)>(s: seq<T>)
  {
    forall i, j :: 0 <= i < j < |s| ==> s[i] != s[j]
  }

  /** Concatenating two duplicate-free, disjoint sequences gives a duplicate-free sequence. */
  lemma NoDupConcat<T>(a: seq<T>, b: seq<T>)
    requires NoDup(a) && NoDup(b)
    requires forall x :: x in a ==> x !in b
    ensures NoDup(a + b)
  {
    forall i, j | 0 <= i < j < |a + b|
      ensures (a + b)[i] != (a + b)[j]
    {
      if j < |a| {
      } else if i >= |a| {
        assert (a + b)[i] == b[i - |a|] && (a + b)[j] == b[j - |a|];
      } else {
        assert (a + b)[i] == a[i] && (a + b)[j] == b[j - |a|];
        assert b[j - |a|] in b;
      }
    }
  }

  /** Cutting a concatenation where its first part ends gives the parts back. */
  lemma ConcatCancel<T>(x1: seq<T>, y1: seq<T>, x2: seq<T>, y2: seq<T>)
    requires x1 + y1 == x2 + y2 && |x1| == |x2|
    ensures x1 == x2 && y1 == y2
  {
    assert x1 == (x1 + y1)[..|x1|] && x2 == (x2 + y2)[..|x2|];
    assert y1 == (x1 + y1)[|x1|..] && y2 == (x2 + y2)[|x2|..];
  }

  /** A prefix one element longer is the prefix with that element appended. */
  lemma TakeSnoc<T>(s: seq<T>, i: int)
    requires 0 <= i < |s|
    ensures s[..i + 1] == s[..i] + [s[i]] && s[..i + 1][..i] == s[..i]
  {
  }

  /** The blocks laid end to end, as a nested comprehension lists them. */
  function Flatten<T>(blocks: seq<seq<T>>): seq<T>
  {
    if blocks == [] then [] else blocks[0] + Flatten(blocks[1..])
  }

  /** Every block holds `w` elements. */
  predicate Uniform<T>(blocks: seq<seq<T>>, w: nat)
  {
    forall i :: 0 <= i < |blocks| ==> |blocks[i]| == w
  }

  /** Where block `k` of a run of blocks of `w` elements starts, added up one block at a time. */
  function BlockStart(k: nat, w: nat): nat
  {
    if k == 0 then 0 else w + BlockStart(k - 1, w)
  }

  lemma {:induction false} BlockStartIsProduct(k: nat, w: nat)
    ensures BlockStart(k, w) == k * w
  {
    if k > 0 {
      BlockStartIsProduct(k - 1, w);
      assert k * w == w + (k - 1) * w;
    }
  }

  /** `a + b` blocks end where `a` blocks and then `b` more end. */
  lemma {:induction false} BlockStartSplit(a: nat, b: nat, w: nat)
    ensures BlockStart(a + b, w) == BlockStart(a, w) + BlockStart(b, w)
  {
    if a > 0 {
      BlockStartSplit(a - 1, b, w);
    }
  }

  /** `k` runs of `n` blocks of `w` elements cover as much as `k` blocks of `n`·`w` elements. */
  lemma {:induction false} BlockStartNested(k: nat, n: nat, w: nat)
    ensures BlockStart(BlockStart(k, n), w) == BlockStart(k, BlockStart(n, w))
  {
    if k > 0 {
      BlockStartSplit(n, BlockStart(k - 1, n), w);
      BlockStartNested(k - 1, n, w);
    }
  }

  lemma {:induction false} FlattenLength<T>(blocks: seq<seq<T>>, w: nat)
    requires Uniform(blocks, w)
    ensures |Flatten(blocks)| == BlockStart(|blocks|, w)
  {
    if blocks != [] {
      assert Uniform(blocks[1..], w) by {
        forall i | 0 <= i < |blocks[1..]|
          ensures |blocks[1..][i]| == w
        {
          assert blocks[1..][i] == blocks[i + 1];
        }
      }
      FlattenLength(blocks[1..], w);
    }
  }

  /** Element `i` of block `k` sits `k` whole blocks in, at `i`. */
  lemma {:induction false} FlattenAt<T>(blocks: seq<seq<T>>, w: nat, k: nat, i: nat)
    requires Uniform(blocks, w) && k < |blocks| && i < w
    ensures BlockStart(k, w) + i < |Flatten(blocks)|
    ensures Flatten(blocks)[BlockStart(k, w) + i] == blocks[k][i]
  {
    FlattenLength(blocks, w);
    if k > 0 {
      assert Uniform(blocks[1..], w) by {
        forall j | 0 <= j < |blocks[1..]|
          ensures |blocks[1..][j]| == w
        {
          assert blocks[1..][j] == blocks[j + 1];
        }
      }
      FlattenAt(blocks[1..], w, k - 1, i);
      assert blocks[1..][k - 1] == blocks[k];
    }
  }

  /** An element is in the flattening exactly when it is in one of the blocks. */
  lemma {:induction false} InFlatten<T>(blocks: seq<seq<T>>, x: T)
    ensures x in Flatten(blocks) <==> exists k :: 0 <= k < |blocks| && x in blocks[k]
  {
    if blocks != [] {
      InFlatten(blocks[1..], x);
      if x in Flatten(blocks[1..]) {
        var k :| 0 <= k < |blocks[1..]| && x in blocks[1..][k];
        assert x in blocks[k + 1];
      }
      if exists k :: 0 <= k < |blocks| && x in blocks[k] {
        var k :| 0 <= k < |blocks| && x in blocks[k];
        if k > 0 {
          assert x in blocks[1..][k - 1];
        }
      }
    }
  }

  /** Duplicate-free blocks that share no element flatten to a duplicate-free sequence. */
  lemma {:induction false} FlattenNoDup<T>(blocks: seq<seq<T>>)
    requires forall k :: 0 <= k < |blocks| ==> NoDup(blocks[k])
    requires forall k, l, x :: 0 <= k < l < |blocks| && x in blocks[k] ==> x !in blocks[l]
    ensures NoDup(Flatten(blocks))
  {
    if blocks != [] {
      var rest := blocks[1..];
      assert forall k :: 0 <= k < |rest| ==> rest[k] == blocks[k + 1];
      FlattenNoDup(rest);
      forall x | x in blocks[0]
        ensures x !in Flatten(rest)
      {
        InFlatten(rest, x);
      }
      NoDupConcat(blocks[0], Flatten(rest));
    }
  }
}
