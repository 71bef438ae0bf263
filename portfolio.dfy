/**
 * The `chunkArray` helper of the portfolio section: split a list into
 * consecutive slices of `chunkSize` elements, the last one possibly shorter.
 */
module Portfolio {

  import opened Arith

  /** Concatenation of a list of lists, in order. */
  function Flatten<T>(ss: seq<seq<T>>): seq<T>
  {
    if ss == [] then [] else ss[0] + Flatten(ss[1..])
  }

  /**
   * The chunks of `s`, as a recursive definition: the first slice takes up to
   * `size` elements (JavaScript's `slice` clamps its end to the length) and the
   * rest of the list is chunked the same way. With `size <= 0` only the empty
   * list has chunks (`chunkArray`'s loop never ends on anything else).
   */
  function Chunks<T>(s: seq<T>, size: int): seq<seq<T>>
    requires size > 0 || |s| == 0
    decreases |s|
  {
    if |s| == 0 then []
    else
      var m := Min(size, |s|);
      [s[..m]] + Chunks(s[m..], size)
  }

  /** The number of chunks: the length divided by the chunk size, rounded up. */
  function CeilDiv(n: nat, k: nat): nat
    requires k > 0
  {
    (n + k - 1) / k
  }

  /** `c` chunk sizes laid end to end: where the `c`-th chunk starts. */
  function Offset(c: nat, size: int): int
  {
    if c == 0 then 0 else Offset(c - 1, size) + size
  }

  /** The start of the `c`-th chunk is a multiple of the chunk size. */
  lemma {:induction false} OffsetIsMultiple(c: nat, size: int)
    ensures Offset(c, size) == c * size
  {
    if c > 0 {
      OffsetIsMultiple(c - 1, size);
      MulSucc(c - 1, size);
    }
  }

  lemma FlattenCons<T>(x: seq<T>, rest: seq<seq<T>>)
    ensures Flatten([x] + rest) == x + Flatten(rest)
  {
    assert ([x] + rest)[0] == x;
    assert ([x] + rest)[1..] == rest;
  }

  lemma {:induction false} FlattenAppend<T>(ss: seq<seq<T>>, x: seq<T>)
    ensures Flatten(ss + [x]) == Flatten(ss) + x
    decreases |ss|
  {
    if ss == [] {
      assert [] + [x] == [x] + [];
      FlattenCons(x, []);
    } else {
      assert ss + [x] == [ss[0]] + (ss[1..] + [x]);
      FlattenCons(ss[0], ss[1..] + [x]);
      FlattenAppend(ss[1..], x);
      FlattenCons(ss[0], ss[1..]);
      assert [ss[0]] + ss[1..] == ss;
    }
  }

  /** Flattening the chunks gives back the input exactly. */
  lemma {:induction false} FlattenChunks<T>(s: seq<T>, size: int)
    requires size > 0 || |s| == 0
    ensures Flatten(Chunks(s, size)) == s
    decreases |s|
  {
    if |s| > 0 {
      var m := Min(size, |s|);
      FlattenCons(s[..m], Chunks(s[m..], size));
      FlattenChunks(s[m..], size);
      assert s[..m] + s[m..] == s;
    }
  }

  /**
   * Every chunk but the last has exactly `size` elements; the last one is
   * non-empty and has at most `size`.
   */
  lemma {:induction false} ChunkLengths<T>(s: seq<T>, size: int)
    requires size > 0
    ensures forall j :: 0 <= j < |Chunks(s, size)| - 1 ==> |Chunks(s, size)[j]| == size
    ensures |Chunks(s, size)| > 0 ==> 0 < |Chunks(s, size)[|Chunks(s, size)| - 1]| <= size
    decreases |s|
  {
    if |s| > 0 {
      var m := Min(size, |s|);
      var rest := Chunks(s[m..], size);
      ChunkLengths(s[m..], size);
      var r := Chunks(s, size);
      assert r == [s[..m]] + rest;
      if rest == [] {
        assert r == [s[..m]];
      } else {
        assert m == size;
        forall j | 0 <= j < |r| - 1 ensures |r[j]| == size {
          if j > 0 { assert r[j] == rest[j - 1]; }
        }
        assert r[|r| - 1] == rest[|rest| - 1];
      }
    }
  }

  /** There are ⌈|s| / size⌉ chunks; in particular none for an empty input. */
  lemma {:induction false} ChunkCount<T>(s: seq<T>, size: int)
    requires size > 0
    ensures |Chunks(s, size)| == CeilDiv(|s|, size)
    ensures |Chunks(s, size)| == 0 <==> |s| == 0
    decreases |s|
  {
    if |s| == 0 {
      DivModUnique(size - 1, size, 0, size - 1);
    } else if |s| <= size {
      assert Chunks(s[|s|..], size) == [];
      DivModUnique(|s| + size - 1, size, 1, |s| - 1);
    } else {
      ChunkCount(s[size..], size);
      DivStep(|s| + size - 1, size);
    }
  }

  /** One step of `chunkArray`'s loop: chunking from `i` peels off `s[i..i+size]`, clamped. */
  lemma ChunksFrom<T>(s: seq<T>, i: int, size: int)
    requires size > 0 && 0 <= i < |s|
    ensures Chunks(s[i..], size) == [s[i..Min(i + size, |s|)]] + Chunks(s[Min(i + size, |s|)..], size)
  {
    var t := s[i..];
    var m := Min(size, |t|);
    assert t[..m] == s[i..i + m];
    assert t[m..] == s[i + m..];
  }

  /**
   * The invariant of `chunkArray`'s loop after `|result|` iterations: `i` has
   * advanced by `size` each time, `result` flattens to the part of the input
   * before `i`, and the chunks of the rest complete `result` to all chunks.
   */
  ghost predicate LoopInvariant<T>(items: seq<T>, result: seq<seq<T>>, i: int, size: int)
    requires size > 0 || |items| == 0
  {
    && 0 <= i
    && i == Offset(|result|, size)
    && Flatten(result) == items[..Min(i, |items|)]
    && result + Chunks(items[Min(i, |items|)..], size) == Chunks(items, size)
  }

  /** One iteration of `chunkArray`'s loop keeps its invariant. */
  lemma StepKeepsInvariant<T>(items: seq<T>, result: seq<seq<T>>, i: int, size: int)
    requires size > 0 && 0 <= i < |items|
    requires LoopInvariant(items, result, i, size)
    ensures LoopInvariant(items, result + [items[i..Min(i + size, |items|)]], i + size, size)
  {
    var next := Min(i + size, |items|);
    var result' := result + [items[i..next]];
    ChunksFrom(items, i, size);
    FlattenAppend(result, items[i..next]);
    assert items[..i] + items[i..next] == items[..next];
    assert result' + Chunks(items[next..], size)
        == result + ([items[i..next]] + Chunks(items[next..], size));
    assert |result'| == |result| + 1;
  }

  /** When the loop stops, the result is all the chunks. */
  lemma ExitGivesChunks<T>(items: seq<T>, result: seq<seq<T>>, i: int, size: int)
    requires size > 0 || |items| == 0
    requires LoopInvariant(items, result, i, size) && i >= |items|
    ensures result == Chunks(items, size)
  {
    assert items[Min(i, |items|)..] == [];
    assert result + [] == result;
  }

  /**
   * The loop of `chunkArray`: `i` advances by `chunkSize` and each step pushes
   * the slice `array[i..i + chunkSize]` (clamped) onto the result.
   */
  method ChunkArray<T>(items: seq<T>, chunkSize: int) returns (result: seq<seq<T>>)
    requires chunkSize > 0 || |items| == 0
    ensures result == Chunks(items, chunkSize)
    ensures Flatten(result) == items
    ensures chunkSize > 0 ==> |result| == CeilDiv(|items|, chunkSize)
    ensures forall j :: 0 <= j < |result| - 1 ==> |result[j]| == chunkSize
    ensures |result| > 0 ==> 0 < |result[|result| - 1]| <= chunkSize
  {
    result := [];
    var i := 0;
    while i < |items|
      invariant LoopInvariant(items, result, i, chunkSize)
      decreases |items| - i
    {
      StepKeepsInvariant(items, result, i, chunkSize);
      result := result + [items[i..Min(i + chunkSize, |items|)]];
      i := i + chunkSize;
    }
    ExitGivesChunks(items, result, i, chunkSize);
    FlattenChunks(items, chunkSize);
    if chunkSize > 0 {
      ChunkCount(items, chunkSize);
      ChunkLengths(items, chunkSize);
    }
  }
}
