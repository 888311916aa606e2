/**
 The overlapping token chunker.  Tokens are abstract; the claims are about token lists,
 not about decoding a chunk whose edge cuts a character.
 */
module Chunker {
  import opened PythonSlices

  /** The windows: `size` tokens each, the next one starting size - overlap further. */
  function Chunks<T>(tokens: seq<T>, size: nat, overlap: nat): seq<seq<T>>
    requires overlap < size
    decreases |tokens|
  {
    if tokens == [] then []
    else if |tokens| <= size then [tokens]
    else [tokens[..size]] + Chunks(tokens[size - overlap..], size, overlap)
  }

  method Chunk<T>(tokens: seq<T>, size: nat, overlap: nat) returns (chunks: seq<seq<T>>)
    requires overlap < size || |tokens| <= size
    ensures overlap < size ==> chunks == Chunks(tokens, size, overlap)
    ensures |tokens| <= size ==> chunks == if tokens == [] then [] else [tokens]
  {
    chunks := [];
    var i := 0;
    while i < |tokens|
      invariant 0 <= i <= |tokens|
      invariant |tokens| <= size ==> i == 0 && chunks == []
      invariant overlap < size ==> chunks + Chunks(tokens[i..], size, overlap) == Chunks(tokens, size, overlap)
      decreases |tokens| - i
    {
      var end := if i + size < |tokens| then i + size else |tokens|;
      chunks := chunks + [tokens[i..end]];
      if end == |tokens| {
        assert tokens[i..] == tokens[i..end];
        return;
      }
      assert tokens[i..][..size] == tokens[i..end];
      assert tokens[i..][size - overlap..] == tokens[i + (size - overlap)..];
      i := i + (size - overlap);
    }
    assert tokens[i..] == [];
  }

  /** The text back from its chunks: each later chunk without its first `overlap` tokens. */
  function Rebuild<T>(chunks: seq<seq<T>>, overlap: nat): seq<T>
    requires forall k :: 1 <= k < |chunks| ==> overlap <= |chunks[k]|
  {
    if chunks == [] then []
    else if |chunks| == 1 then chunks[0]
    else Rebuild(chunks[..|chunks| - 1], overlap) + chunks[|chunks| - 1][overlap..]
  }

  /** Every chunk holds at most `size` tokens, and each later one more than `overlap`. */
  lemma {:induction false} ChunkSizes<T>(tokens: seq<T>, size: nat, overlap: nat)
    requires overlap < size
    ensures forall k :: 0 <= k < |Chunks(tokens, size, overlap)| ==> 1 <= |Chunks(tokens, size, overlap)[k]| <= size
    ensures forall k :: 1 <= k < |Chunks(tokens, size, overlap)| ==> overlap < |Chunks(tokens, size, overlap)[k]|
    ensures tokens != [] ==> |Chunks(tokens, size, overlap)| >= 1
    ensures tokens != [] ==> Chunks(tokens, size, overlap)[0] == (if |tokens| <= size then tokens else tokens[..size])
    decreases |tokens|
  {
    if |tokens| > size {
      ChunkSizes(tokens[size - overlap..], size, overlap);
    }
  }

  lemma {:induction false} RebuildCons<T>(head: seq<T>, chunks: seq<seq<T>>, overlap: nat)
    requires chunks != [] && forall k :: 0 <= k < |chunks| ==> overlap <= |chunks[k]|
    ensures overlap <= |Rebuild(chunks, overlap)|
    ensures Rebuild([head] + chunks, overlap) == head + Rebuild(chunks, overlap)[overlap..]
    decreases |chunks|
  {
    var all := [head] + chunks;
    assert all[..|all| - 1] == [head] + chunks[..|chunks| - 1];
    if |chunks| == 1 {
      assert all[..1] == [head];
    } else {
      RebuildCons(head, chunks[..|chunks| - 1], overlap);
    }
  }

  /** Reconstruction: the first chunk and the new tokens of the later ones are the text. */
  lemma {:induction false} Reconstruction<T>(tokens: seq<T>, size: nat, overlap: nat)
    requires overlap < size
    ensures forall k :: 1 <= k < |Chunks(tokens, size, overlap)| ==> overlap <= |Chunks(tokens, size, overlap)[k]|
    ensures Rebuild(Chunks(tokens, size, overlap), overlap) == tokens
    decreases |tokens|
  {
    ChunkSizes(tokens, size, overlap);
    if |tokens| > size {
      var rest := tokens[size - overlap..];
      ChunkSizes(rest, size, overlap);
      Reconstruction(rest, size, overlap);
      RebuildCons(tokens[..size], Chunks(rest, size, overlap), overlap);
      assert rest[overlap..] == tokens[size..];
      assert tokens == tokens[..size] + tokens[size..];
    }
  }

  /** Consecutive chunks share exactly `overlap` tokens: the tail of one is the head of the next. */
  lemma {:induction false} SharedOverlap<T>(tokens: seq<T>, size: nat, overlap: nat, k: nat)
    requires overlap < size && k + 1 < |Chunks(tokens, size, overlap)|
    ensures var c := Chunks(tokens, size, overlap);
            && |c[k]| == size && overlap < |c[k + 1]|
            && c[k][size - overlap..] == c[k + 1][..overlap]
    decreases |tokens|
  {
    var rest := tokens[size - overlap..];
    ChunkSizes(rest, size, overlap);
    if k == 0 {
      assert tokens[..size][size - overlap..] == rest[..overlap];
    } else {
      SharedOverlap(rest, size, overlap, k - 1);
    }
  }

  function CeilDiv(a: nat, b: nat): nat
    requires b > 0
  {
    (a + b - 1) / b
  }

  lemma CeilDivStep(a: nat, b: nat)
    requires 0 < b
    ensures CeilDiv(a + b, b) == CeilDiv(a, b) + 1
  {
    var q, r := (a + b - 1) / b, (a + b - 1) % b;
    assert (q + 1) * b == q * b + b;
    QuotientUnique(a + b + b - 1, b, q + 1, r);
  }

  lemma QuotientUnique(x: nat, b: nat, q: nat, r: nat)
    requires 0 < b && r < b && x == q * b + r
    ensures x / b == q
  {
    var p := x / b;
    assert x == p * b + x % b;
    assert (q - p) * b == x % b - r;
    assert q - p >= 1 ==> (q - p) * b >= b;
    assert q - p <= -1 ==> (q - p) * b + b <= 0;
  }

  /** The exact number of chunks. */
  lemma {:induction false} ChunkCount<T>(tokens: seq<T>, size: nat, overlap: nat)
    requires overlap < size
    ensures |Chunks(tokens, size, overlap)| ==
            if tokens == [] then 0
            else if |tokens| <= size then 1
            else 1 + CeilDiv(|tokens| - size, size - overlap)
    decreases |tokens|
  {
    if |tokens| > size {
      var stride := size - overlap;
      ChunkCount(tokens[stride..], size, overlap);
      if |tokens| - stride > size {
        CeilDivStep(|tokens| - stride - size, stride);
      } else {
        assert 1 <= |tokens| - size <= stride;
        OneStride(|tokens| - size, stride);
      }
    }
  }

  lemma OneStride(a: nat, b: nat)
    requires 1 <= a <= b
    ensures CeilDiv(a, b) == 1
  {
  }

  // ---- when the loop ends

  /** The loop about to test its condition, or finished. */
  datatype Progress<T> = At(i: int, chunks: seq<seq<T>>) | Ended(chunks: seq<seq<T>>)

  /** One test of the condition and one pass through the body. */
  function Iterate<T>(tokens: seq<T>, size: nat, overlap: nat, s: Progress<T>): Progress<T> {
    match s
    case Ended(_) => s
    case At(i, chunks) =>
      if i >= |tokens| then Ended(chunks)
      else
        var end := if i + size < |tokens| then i + size else |tokens|;
        var more := chunks + [Slice(tokens, i, end)];
        if end == |tokens| then Ended(more) else At(i + (size - overlap), more)
  }

  function After<T>(tokens: seq<T>, size: nat, overlap: nat, k: nat): Progress<T> {
    if k == 0 then At(0, []) else Iterate(tokens, size, overlap, After(tokens, size, overlap, k - 1))
  }

  lemma LastPass<T>(tokens: seq<T>, size: nat, overlap: nat, i: nat, chunks: seq<seq<T>>)
    requires overlap < size && i <= |tokens| <= i + size
    ensures Iterate(tokens, size, overlap, At(i, chunks)) == Ended(chunks + Chunks(tokens[i..], size, overlap))
  {
    if i < |tokens| {
      assert Slice(tokens, i, |tokens|) == tokens[i..];
    } else {
      assert chunks + [] == chunks;
    }
  }

  lemma MiddlePass<T>(tokens: seq<T>, size: nat, overlap: nat, i: nat, chunks: seq<seq<T>>)
    requires overlap < size && i + size < |tokens|
    ensures var s := Iterate(tokens, size, overlap, At(i, chunks));
            && s.At? && s.i == i + size - overlap
            && s.chunks + Chunks(tokens[s.i..], size, overlap) == chunks + Chunks(tokens[i..], size, overlap)
  {
    var rest := tokens[i..];
    assert Slice(tokens, i, i + size) == rest[..size];
    assert rest[size - overlap..] == tokens[i + size - overlap..];
    var later := Chunks(tokens[i + size - overlap..], size, overlap);
    assert chunks + [rest[..size]] + later == chunks + ([rest[..size]] + later);
  }

  /** With overlap < size the loop ends, with the chunks above. */
  lemma {:induction false} EndsFrom<T>(tokens: seq<T>, size: nat, overlap: nat, k: nat, i: nat, chunks: seq<seq<T>>)
    returns (e: nat)
    requires overlap < size && i <= |tokens| && After(tokens, size, overlap, k) == At(i, chunks)
    ensures After(tokens, size, overlap, e) == Ended(chunks + Chunks(tokens[i..], size, overlap))
    decreases |tokens| - i
  {
    if |tokens| <= i + size {
      LastPass(tokens, size, overlap, i, chunks);
      e := k + 1;
    } else {
      MiddlePass(tokens, size, overlap, i, chunks);
      var next := After(tokens, size, overlap, k + 1);
      e := EndsFrom(tokens, size, overlap, k + 1, next.i, next.chunks);
    }
  }

  /** With overlap >= size and more than one window of tokens no iteration is the last. */
  lemma {:induction false} NeverEnds<T>(tokens: seq<T>, size: nat, overlap: nat, k: nat)
    requires size <= overlap && size < |tokens|
    ensures After(tokens, size, overlap, k).At? && After(tokens, size, overlap, k).i <= 0
  {
    if k > 0 {
      NeverEnds(tokens, size, overlap, k - 1);
    }
  }

  /**
   The loop ends exactly when the overlap is smaller than the window or one window is enough;
   with a smaller overlap it ends with the chunks above.
   */
  lemma LoopEndsIff<T>(tokens: seq<T>, size: nat, overlap: nat)
    ensures (exists k: nat :: After(tokens, size, overlap, k).Ended?) <==> overlap < size || |tokens| <= size
    ensures overlap < size ==>
      exists k: nat :: After(tokens, size, overlap, k) == Ended(Chunks(tokens, size, overlap))
  {
    if overlap < size {
      assert tokens[0..] == tokens && [] + Chunks(tokens, size, overlap) == Chunks(tokens, size, overlap);
      var e := EndsFrom(tokens, size, overlap, 0, 0, []);
    } else if |tokens| <= size {
      assert After(tokens, size, overlap, 1).Ended?;
    } else {
      forall k: nat ensures After(tokens, size, overlap, k).At? {
        NeverEnds(tokens, size, overlap, k);
      }
    }
  }
}
