/** Overlapped chunking of a list of words. */
module Chunks {
  import opened Basics

  const MIN_WORDS := 20

  /** The slice of words from start, at most size long. */
  function Window<T>(words: seq<T>, start: nat, size: nat): (w: seq<T>)
    requires start <= |words|
    ensures |w| == Min(size, |words| - start)
  {
    words[start..Min(start + size, |words|)]
  }

  /** The windows from start on that are long enough to be kept. */
  function Windows<T>(words: seq<T>, start: nat, size: nat, overlap: nat): (chunks: seq<seq<T>>)
    requires overlap < size
    ensures forall i: nat | i < |chunks| :: MIN_WORDS <= |chunks[i]| <= size
    decreases |words| - start
  {
    if start >= |words| then []
    else
      var w := Window(words, start, size);
      (if |w| >= MIN_WORDS then [w] else []) + Windows(words, start + size - overlap, size, overlap)
  }

  /** `chunk_text` on the words of the text; the loop ends because it advances by size - overlap. */
  method ChunkText<T>(words: seq<T>, size: nat, overlap: nat) returns (chunks: seq<seq<T>>)
    requires overlap < size
    ensures chunks == Windows(words, 0, size, overlap)
    ensures forall i: nat | i < |chunks| :: MIN_WORDS <= |chunks[i]| <= size
  {
    chunks := [];
    var start: nat := 0;
    while start < |words|
      invariant chunks + Windows(words, start, size, overlap) == Windows(words, 0, size, overlap)
      decreases |words| - start
    {
      var w := Window(words, start, size);
      ghost var rest := Windows(words, start + size - overlap, size, overlap);
      assert chunks + ([w] + rest) == (chunks + [w]) + rest && chunks + ([] + rest) == chunks + rest;
      if |w| >= MIN_WORDS {
        chunks := chunks + [w];
      }
      start := start + size - overlap;
    }
  }

  // ---- putting the chunks together again

  function Drop<T>(chunk: seq<T>, overlap: nat): seq<T> {
    if |chunk| <= overlap then [] else chunk[overlap..]
  }

  function DropAll<T>(chunks: seq<seq<T>>, overlap: nat): seq<T> {
    if chunks == [] then [] else Drop(chunks[0], overlap) + DropAll(chunks[1..], overlap)
  }

  /** The first chunk, followed by every later one without the words it shares with the one before. */
  function Rejoin<T>(chunks: seq<seq<T>>, overlap: nat): seq<T>
    requires chunks != []
  {
    chunks[0] + DropAll(chunks[1..], overlap)
  }

  lemma {:induction false} NothingKept<T>(words: seq<T>, start: nat, size: nat, overlap: nat)
    requires overlap < size
    requires size < MIN_WORDS || |words| < start + MIN_WORDS
    ensures Windows(words, start, size, overlap) == []
    decreases |words| - start
  {
    if start < |words| {
      NothingKept(words, start + size - overlap, size, overlap);
    }
  }

  /** A window that is too short to be kept adds nothing: the one before it already reaches the end. */
  lemma {:induction false} WindowsRejoin<T>(words: seq<T>, start: nat, size: nat, overlap: nat)
    requires MIN_WORDS - 1 <= overlap < size && size >= MIN_WORDS
    ensures DropAll(Windows(words, start, size, overlap), overlap) == words[Min(start + overlap, |words|)..]
    decreases |words| - start
  {
    if start < |words| {
      var w, next := Window(words, start, size), start + size - overlap;
      var rest := Windows(words, next, size, overlap);
      WindowsRejoin(words, next, size, overlap);
      if |w| >= MIN_WORDS {
        DropJoins(words, start, size, overlap);
        DropFirst(w, rest, overlap);
      } else {
        assert Windows(words, start, size, overlap) == rest;
      }
    }
  }

  lemma DropFirst<T>(w: seq<T>, rest: seq<seq<T>>, overlap: nat)
    ensures DropAll([w] + rest, overlap) == Drop(w, overlap) + DropAll(rest, overlap)
  {
    assert ([w] + rest)[1..] == rest;
  }

  /** What a window adds to the one before it, joined with what comes after it. */
  lemma DropJoins<T>(words: seq<T>, start: nat, size: nat, overlap: nat)
    requires start < |words| && overlap < size
    ensures Drop(Window(words, start, size), overlap) + words[Min(start + size, |words|)..]
      == words[Min(start + overlap, |words|)..]
  {
    var middle, end := Min(start + overlap, |words|), Min(start + size, |words|);
    assert Drop(Window(words, start, size), overlap) == words[middle..end];
  }

  lemma ChunksRejoin<T>(words: seq<T>, size: nat, overlap: nat)
    requires MIN_WORDS - 1 <= overlap < size && size >= MIN_WORDS && |words| >= MIN_WORDS
    ensures Windows(words, 0, size, overlap) != [] && Rejoin(Windows(words, 0, size, overlap), overlap) == words
  {
    var w := Window(words, 0, size);
    WindowsRejoin(words, size - overlap, size, overlap);
    assert Windows(words, 0, size, overlap)[1..] == Windows(words, size - overlap, size, overlap);
    assert w + words[Min(size, |words|)..] == words;
  }

  /** `chunk_text` and the round trip, for the sizes it is used with and any that lose nothing. */
  method ChunkAndRejoin<T>(words: seq<T>, size: nat, overlap: nat) returns (chunks: seq<seq<T>>)
    requires 19 <= overlap < size
    ensures forall i: nat | i < |chunks| :: 20 <= |chunks[i]| <= size
    ensures |words| < 20 ==> chunks == []
    ensures |words| >= 20 ==> chunks != [] && Rejoin(chunks, overlap) == words
  {
    chunks := ChunkText(words, size, overlap);
    if |words| < MIN_WORDS {
      NothingKept(words, 0, size, overlap);
    } else {
      ChunksRejoin(words, size, overlap);
    }
  }

  // ---- exactly when nothing is lost

  /** Every list of enough words can be put together again from its chunks. */
  ghost predicate Lossless(size: nat, overlap: nat)
    requires overlap < size
  {
    forall words: seq<int> | |words| >= 20 ::
      Windows(words, 0, size, overlap) != [] && Rejoin(Windows(words, 0, size, overlap), overlap) == words
  }

  /** With a smaller overlap the last word of a list one longer than a chunk is lost. */
  lemma LastWordIsLost(words: seq<int>, size: nat, overlap: nat)
    requires overlap < size && overlap < MIN_WORDS - 1 && size >= MIN_WORDS && |words| == size + 1
    ensures Windows(words, 0, size, overlap) == [words[..size]]
    ensures Rejoin(Windows(words, 0, size, overlap), overlap) != words
  {
    NothingKept(words, size - overlap, size, overlap);
    assert Window(words, 0, size) == words[..size];
  }

  lemma SmallChunksLose(size: nat, overlap: nat)
    requires overlap < size < MIN_WORDS
    ensures !Lossless(size, overlap)
  {
    var words := seq(MIN_WORDS, _ => 0);
    NothingKept(words, 0, size, overlap);
  }

  lemma SmallOverlapLoses(size: nat, overlap: nat)
    requires overlap < MIN_WORDS - 1 < size
    ensures !Lossless(size, overlap)
  {
    var words := seq(size + 1, _ => 0);
    LastWordIsLost(words, size, overlap);
  }

  lemma EnoughIsLossless(size: nat, overlap: nat)
    requires MIN_WORDS - 1 <= overlap < size
    ensures Lossless(size, overlap)
  {
    forall words: seq<int> | |words| >= MIN_WORDS
      ensures Windows(words, 0, size, overlap) != [] && Rejoin(Windows(words, 0, size, overlap), overlap) == words
    {
      ChunksRejoin(words, size, overlap);
    }
  }

  lemma LosslessExactly(size: nat, overlap: nat)
    requires overlap < size
    ensures Lossless(size, overlap) <==> size >= 20 && overlap >= 19
  {
    if size < MIN_WORDS {
      SmallChunksLose(size, overlap);
    } else if overlap < MIN_WORDS - 1 {
      SmallOverlapLoses(size, overlap);
    } else {
      EnoughIsLossless(size, overlap);
    }
  }

  // ---- exactly when the loop ends

  /** Where the k-th round of the loop starts. */
  function StartOf(k: nat, size: nat, overlap: nat): int {
    if k == 0 then 0 else StartOf(k - 1, size, overlap) + size - overlap
  }

  lemma {:induction false} StartsMove(k: nat, size: nat, overlap: nat)
    ensures overlap >= size ==> StartOf(k, size, overlap) <= 0
    ensures overlap < size ==> StartOf(k, size, overlap) >= k
  {
    if k > 0 {
      StartsMove(k - 1, size, overlap);
    }
  }

  lemma {:induction false} StartsShift(k: nat, size: nat, overlap: nat)
    requires k > 0
    ensures StartOf(k, size, overlap) == StartOf(k - 1, size, overlap) + size - overlap
    ensures overlap < size ==> StartOf(k, size, overlap) >= size - overlap
  {
    if k > 1 {
      StartsShift(k - 1, size, overlap);
    }
  }

  /** Chunk k exists exactly when at least 20 words follow its start, and then it holds the words from there, as many
      as a chunk can take or as there are. */
  lemma {:induction false} ChunkAt<T>(words: seq<T>, start: nat, size: nat, overlap: nat, k: nat)
    requires overlap < size
    ensures StartOf(k, size, overlap) >= 0
    ensures var from, chunks := start + StartOf(k, size, overlap), Windows(words, start, size, overlap);
      && (k < |chunks| <==> size >= 20 && from + 20 <= |words|)
      && (k < |chunks| ==> chunks[k] == words[from..Min(from + size, |words|)])
    decreases |words| - start
  {
    StartsMove(k, size, overlap);
    if start < |words| {
      var w, next := Window(words, start, size), start + size - overlap;
      if |w| >= MIN_WORDS {
        if k > 0 {
          StartsShift(k, size, overlap);
          ChunkAt(words, next, size, overlap, k - 1);
        }
      } else {
        NothingKept(words, start, size, overlap);
      }
    }
  }

  /** Some round starts past the end exactly when there are no words or the overlap is smaller than a chunk. */
  lemma EndsExactly(words: nat, size: nat, overlap: nat)
    ensures (exists k: nat :: StartOf(k, size, overlap) >= words) <==> words == 0 || overlap < size
  {
    if words == 0 {
      assert StartOf(0, size, overlap) >= words;
    } else if overlap < size {
      StartsMove(words, size, overlap);
    } else {
      forall k: nat ensures StartOf(k, size, overlap) < words {
        StartsMove(k, size, overlap);
      }
    }
  }
}
