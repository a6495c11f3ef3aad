/**
 * `splitMessage` from src/lib/utils/utils.ts: cutting a long message into
 * chunks at a delimiter character so that each chunk fits a length limit.
 *
 * The source walks a cursor `last` through the content. While the rest does
 * not fit, it looks for the delimiter at or before `last + maxLength`, pushes
 * the slice up to and including it, and moves the cursor past it; the rest is
 * pushed once it fits. Three outcomes are possible and the model names each:
 * the chunks, the thrown "Unable to split content." error, and a loop that no
 * longer advances (the only delimiter in the window is the one just split on,
 * so an empty slice is pushed and the cursor stays put forever).
 */
module MessageSplit {
  import opened Strings

  /** `SplitMessageOptions`: the delimiter (`char`) and the length limit. */
  datatype SplitOptions = SplitOptions(delimiter: char, maxLength: nat)

  datatype SplitResult =
    | Split(chunks: seq<string>)
    /** `splitMessage` throws `Error('Unable to split content.')`. */
    | UnableToSplit
    /** The loop stops making progress and `splitMessage` never returns. */
    | Loops

  /** Puts `chunks` in front of the chunks of a successful split. */
  function Prepend(chunks: seq<string>, r: SplitResult): SplitResult {
    match r
    case Split(rest) => Split(chunks + rest)
    case _ => r
  }

  /** Where the loop cuts from cursor `last`: the last delimiter at or before `last + limit - 1`, or -1. */
  function CutIndex(content: string, delimiter: char, limit: nat, last: nat): (index: int)
    ensures -1 <= index < last + limit && index < |content|
    ensures 0 <= index ==> content[index] == delimiter
  {
    if last + limit == 0 then -1 else LastIndexOf(content, delimiter, last + limit - 1)
  }

  /**
   * The loop of `splitMessage` from cursor `last` on. A delimited chunk is
   * at most `limit` long: the delimiter is searched for at or before
   * `last + limit - 1`. The source uses `limit == maxLength + 1`.
   */
  function SplitFrom(content: string, delimiter: char, maxLength: nat, limit: nat, last: nat): SplitResult
    requires last <= |content|
    decreases |content| - last
  {
    if last == |content| then Split([])
    else if |content| - last <= maxLength then Split([content[last..]])
    else
      var index := CutIndex(content, delimiter, limit, last);
      if index == -1 then UnableToSplit
      else if index < last then Loops
      else Prepend([content[last..index + 1]], SplitFrom(content, delimiter, maxLength, limit, index + 1))
  }

  /** What `splitMessage(content, options)` does. */
  function MessageChunks(content: string, options: SplitOptions): SplitResult {
    if |content| <= options.maxLength then Split([content])
    else SplitFrom(content, options.delimiter, options.maxLength, options.maxLength + 1, 0)
  }

  /** A chunk cut at a delimiter: non-empty, at most `limit` long, ending with the delimiter. */
  predicate DelimitedChunk(chunk: string, delimiter: char, limit: nat) {
    1 <= |chunk| <= limit && chunk[|chunk| - 1] == delimiter
  }

  /**
   * Every chunk but the last is a delimited chunk; the last one is either
   * the remaining text, within `maxLength`, or itself a delimited chunk
   * (when a cut falls exactly at the end of the content).
   */
  predicate ChunkShape(chunks: seq<string>, delimiter: char, maxLength: nat, limit: nat) {
    forall i :: 0 <= i < |chunks| ==>
      DelimitedChunk(chunks[i], delimiter, limit) || (i == |chunks| - 1 && |chunks[i]| <= maxLength)
  }

  method SplitMessage(content: string, options: SplitOptions) returns (r: SplitResult)
    ensures r == MessageChunks(content, options)
    ensures |content| <= options.maxLength ==> r == Split([content])
  {
    if |content| <= options.maxLength {
      return Split([content]);
    }
    ghost var goal := MessageChunks(content, options);
    var last: nat := 0;
    var messages: seq<string> := [];
    while last < |content|
      invariant last <= |content|
      invariant goal == Prepend(messages, Loop(content, options, last))
      invariant last == 0 || content[last - 1] == options.delimiter
      decreases |content| - last
    {
      if |content| - last <= options.maxLength {
        messages := messages + [content[last..]];
        break;
      }
      var index := LastIndexOf(content, options.delimiter, options.maxLength + last);
      LoopStep(content, options, last, index);
      if index == -1 {
        return UnableToSplit;
      }
      if index < last {
        // The cursor stands right after a delimiter, so the search finds
        // that one: the slice pushed here is empty and `last` does not
        // move, and the source repeats this iteration forever.
        CutAfterCursor(content, options, last);
        assert index == last - 1;
        return Loops;
      }
      var chunk := content[last..index + 1];
      ghost var rest := Loop(content, options, index + 1);
      PrependAppend(messages, [chunk], rest);
      messages := messages + [chunk];
      last := index + 1;
    }
    r := Split(messages);
  }

  /** The loop of `splitMessage` itself, from cursor `last` on. */
  function Loop(content: string, options: SplitOptions, last: nat): SplitResult
    requires last <= |content|
  {
    SplitFrom(content, options.delimiter, options.maxLength, options.maxLength + 1, last)
  }

  /** One iteration of that loop, when the rest does not fit. */
  lemma LoopStep(content: string, options: SplitOptions, last: nat, index: int)
    requires last < |content| && |content| - last > options.maxLength
    requires index == LastIndexOf(content, options.delimiter, options.maxLength + last)
    ensures && (index == -1 ==> Loop(content, options, last) == UnableToSplit)
            && (0 <= index < last ==> Loop(content, options, last) == Loops)
            && (last <= index ==>
                  Loop(content, options, last) == Prepend([content[last..index + 1]], Loop(content, options, index + 1)))
  {
    CutIndexIsSearch(content, options.delimiter, options.maxLength, last);
    SplitFromStep(content, options.delimiter, options.maxLength, options.maxLength + 1, last);
  }

  /** With `limit == maxLength + 1`, the cut is the source's `lastIndexOf(char, maxLength + last)`. */
  lemma CutIndexIsSearch(content: string, delimiter: char, maxLength: nat, last: nat)
    ensures CutIndex(content, delimiter, maxLength + 1, last) == LastIndexOf(content, delimiter, maxLength + last)
  {
    assert last + (maxLength + 1) - 1 == maxLength + last;
  }

  lemma PrependSplit(chunks: seq<string>, r: SplitResult)
    ensures Prepend(chunks, r).Split? <==> r.Split?
    ensures r.Split? ==> Prepend(chunks, r).chunks == chunks + r.chunks
    ensures r == Loops ==> Prepend(chunks, r) == Loops
    ensures Prepend(chunks, r) == UnableToSplit <==> r == UnableToSplit
  {
  }

  lemma PrependAppend(first: seq<string>, second: seq<string>, r: SplitResult)
    ensures Prepend(first + second, r) == Prepend(first, Prepend(second, r))
  {
    if r.Split? {
      assert first + second + r.chunks == first + (second + r.chunks);
    }
  }

  /** The chunks from cursor `last` on concatenate to the rest of the content. */
  lemma {:induction false} SplitFromConcat(content: string, delimiter: char, maxLength: nat, limit: nat, last: nat)
    requires last <= |content|
    requires SplitFrom(content, delimiter, maxLength, limit, last).Split?
    ensures Concat(SplitFrom(content, delimiter, maxLength, limit, last).chunks) == content[last..]
    ensures last < |content| ==> |SplitFrom(content, delimiter, maxLength, limit, last).chunks| >= 1
    decreases |content| - last
  {
    if last == |content| {
      assert SplitFrom(content, delimiter, maxLength, limit, last) == Split([]);
    } else if |content| - last <= maxLength {
      assert SplitFrom(content, delimiter, maxLength, limit, last) == Split([content[last..]]);
      ConcatSingle(content[last..]);
    } else {
      var index := CutIndex(content, delimiter, limit, last);
      SplitFromCut(content, delimiter, maxLength, limit, last);
      var chunk := content[last..index + 1];
      var next := SplitFrom(content, delimiter, maxLength, limit, index + 1);
      SplitFromConcat(content, delimiter, maxLength, limit, index + 1);
      calc {
        Concat(SplitFrom(content, delimiter, maxLength, limit, last).chunks);
        Concat([chunk] + next.chunks);
        { ConcatCons(chunk, next.chunks); }
        chunk + Concat(next.chunks);
        chunk + content[index + 1..];
        { SliceCut(content, last, index + 1); }
        content[last..];
      }
    }
  }

  /** A delimited chunk in front of well-shaped chunks keeps the shape. */
  lemma ShapePrepend(chunk: string, rest: seq<string>, delimiter: char, maxLength: nat, limit: nat)
    requires DelimitedChunk(chunk, delimiter, limit)
    requires ChunkShape(rest, delimiter, maxLength, limit)
    ensures ChunkShape([chunk] + rest, delimiter, maxLength, limit)
  {
    var all := [chunk] + rest;
    forall i | 0 <= i < |all|
      ensures DelimitedChunk(all[i], delimiter, limit) || (i == |all| - 1 && |all[i]| <= maxLength)
    {
      if i > 0 { assert all[i] == rest[i - 1]; }
    }
  }

  /** A chunk cut at an advancing cut index is a delimited chunk. */
  lemma CutChunk(content: string, delimiter: char, limit: nat, last: nat)
    requires last <= CutIndex(content, delimiter, limit, last)
    ensures DelimitedChunk(content[last..CutIndex(content, delimiter, limit, last) + 1], delimiter, limit)
  {
    var index := CutIndex(content, delimiter, limit, last);
    var chunk := content[last..index + 1];
    assert chunk[|chunk| - 1] == content[index];
  }

  /** One step of `SplitFrom` when the rest does not fit: its three outcomes. */
  lemma SplitFromStep(content: string, delimiter: char, maxLength: nat, limit: nat, last: nat)
    requires last < |content| && |content| - last > maxLength
    ensures var index := CutIndex(content, delimiter, limit, last);
            && (index == -1 ==> SplitFrom(content, delimiter, maxLength, limit, last) == UnableToSplit)
            && (0 <= index < last ==> SplitFrom(content, delimiter, maxLength, limit, last) == Loops)
            && (last <= index ==>
                  SplitFrom(content, delimiter, maxLength, limit, last)
                  == Prepend([content[last..index + 1]], SplitFrom(content, delimiter, maxLength, limit, index + 1)))
  {
  }

  /** A successful split from a cursor whose rest does not fit starts with the chunk up to the cut. */
  lemma SplitFromCut(content: string, delimiter: char, maxLength: nat, limit: nat, last: nat)
    requires last < |content| && |content| - last > maxLength
    requires SplitFrom(content, delimiter, maxLength, limit, last).Split?
    ensures var index := CutIndex(content, delimiter, limit, last);
            && last <= index
            && SplitFrom(content, delimiter, maxLength, limit, index + 1).Split?
            && SplitFrom(content, delimiter, maxLength, limit, last).chunks
               == [content[last..index + 1]] + SplitFrom(content, delimiter, maxLength, limit, index + 1).chunks
  {
    SplitFromStep(content, delimiter, maxLength, limit, last);
    var index := CutIndex(content, delimiter, limit, last);
    PrependSplit([content[last..index + 1]], SplitFrom(content, delimiter, maxLength, limit, index + 1));
  }

  /** The chunks from cursor `last` on have the shape `ChunkShape` describes. */
  lemma {:induction false} SplitFromShape(content: string, delimiter: char, maxLength: nat, limit: nat, last: nat)
    requires last <= |content|
    requires SplitFrom(content, delimiter, maxLength, limit, last).Split?
    ensures ChunkShape(SplitFrom(content, delimiter, maxLength, limit, last).chunks, delimiter, maxLength, limit)
    decreases |content| - last
  {
    if last == |content| {
    } else if |content| - last <= maxLength {
    } else {
      var index := CutIndex(content, delimiter, limit, last);
      SplitFromCut(content, delimiter, maxLength, limit, last);
      var chunk := content[last..index + 1];
      var next := SplitFrom(content, delimiter, maxLength, limit, index + 1);
      CutChunk(content, delimiter, limit, last);
      SplitFromShape(content, delimiter, maxLength, limit, index + 1);
      ShapePrepend(chunk, next.chunks, delimiter, maxLength, limit);
      assert SplitFrom(content, delimiter, maxLength, limit, last).chunks == [chunk] + next.chunks;
    }
  }

  /** Round trip: the chunks of a successful split concatenate to the content. */
  lemma MessageChunksConcat(content: string, options: SplitOptions)
    requires MessageChunks(content, options).Split?
    ensures |MessageChunks(content, options).chunks| >= 1
    ensures Concat(MessageChunks(content, options).chunks) == content
  {
    if |content| > options.maxLength {
      SplitFromConcat(content, options.delimiter, options.maxLength, options.maxLength + 1, 0);
    }
  }

  /**
   * Every chunk but the last ends with the delimiter and is at most
   * `maxLength + 1` long; the last is within `maxLength` or is such a chunk.
   */
  lemma MessageChunksShape(content: string, options: SplitOptions)
    requires MessageChunks(content, options).Split?
    ensures ChunkShape(MessageChunks(content, options).chunks, options.delimiter, options.maxLength, options.maxLength + 1)
  {
    if |content| > options.maxLength {
      SplitFromShape(content, options.delimiter, options.maxLength, options.maxLength + 1, 0);
    }
  }

  /** Right after a cut at a delimiter the search always finds one, so nothing later throws. */
  lemma {:induction false} NoThrowAfterDelimiter(content: string, options: SplitOptions, last: nat)
    requires 0 < last <= |content| && content[last - 1] == options.delimiter
    ensures SplitFrom(content, options.delimiter, options.maxLength, options.maxLength + 1, last) != UnableToSplit
    decreases |content| - last
  {
    if last < |content| && |content| - last > options.maxLength {
      var index := LastIndexOf(content, options.delimiter, options.maxLength + last);
      LoopStep(content, options, last, index);
      CutAfterCursor(content, options, last);
      if index >= last {
        NoThrowAfterDelimiter(content, options, index + 1);
      }
    }
  }

  /**
   * From a cursor right after a cut, the search finds the delimiter just cut
   * at or a later one. So when the loop stalls there, the slice it pushes is
   * empty and the cursor stays where it is: the source repeats that
   * iteration forever.
   */
  lemma CutAfterCursor(content: string, options: SplitOptions, last: nat)
    requires 0 < last <= |content| && content[last - 1] == options.delimiter
    ensures var index := LastIndexOf(content, options.delimiter, options.maxLength + last);
            last - 1 <= index && (index < last ==> content[last..index + 1] == "")
  {
    LastIndexOfIsLast(content, options.delimiter, options.maxLength + last);
  }

  /** Without a delimiter among the first `maxLength + 1` characters, a content that does not fit throws. */
  lemma ThrowWithoutDelimiter(content: string, options: SplitOptions)
    requires |content| > options.maxLength
    requires forall j :: 0 <= j <= options.maxLength ==> content[j] != options.delimiter
    ensures MessageChunks(content, options) == UnableToSplit
  {
    var index := LastIndexOf(content, options.delimiter, options.maxLength);
    assert index == -1;
    LoopStep(content, options, 0, index);
    assert MessageChunks(content, options) == Loop(content, options, 0);
  }

  /** A delimiter at position `j <= maxLength` rules the throw out. */
  lemma NoThrowWithDelimiter(content: string, options: SplitOptions, j: nat)
    requires j <= options.maxLength && j < |content| && content[j] == options.delimiter
    ensures MessageChunks(content, options) != UnableToSplit
  {
    if |content| > options.maxLength {
      var index := LastIndexOf(content, options.delimiter, options.maxLength);
      LastIndexOfIsLast(content, options.delimiter, options.maxLength);
      assert index >= j;
      LoopStep(content, options, 0, index);
      NoThrowAfterDelimiter(content, options, index + 1);
      PrependSplit([content[0..index + 1]], Loop(content, options, index + 1));
      assert MessageChunks(content, options) == Loop(content, options, 0);
    }
  }

  /**
   * `splitMessage` throws exactly when the content does not fit and no
   * delimiter occurs in its first `maxLength + 1` characters.
   */
  lemma MessageChunksThrowIff(content: string, options: SplitOptions)
    ensures MessageChunks(content, options) == UnableToSplit
        <==> |content| > options.maxLength && forall j :: 0 <= j <= options.maxLength ==> content[j] != options.delimiter
  {
    if |content| <= options.maxLength {
    } else if forall j :: 0 <= j <= options.maxLength ==> content[j] != options.delimiter {
      ThrowWithoutDelimiter(content, options);
    } else {
      var j :| 0 <= j <= options.maxLength && content[j] == options.delimiter;
      NoThrowWithDelimiter(content, options, j);
    }
  }

  /** Some delimiter lies in the window `[k, k + limit - 1]` of the content. */
  predicate WindowHasDelimiter(content: string, delimiter: char, k: nat, limit: nat) {
    exists j :: k <= j < k + limit && j < |content| && content[j] == delimiter
  }

  /** Every window that the loop can search, from a cursor whose rest does not fit, holds a delimiter. */
  predicate WindowsDelimited(content: string, delimiter: char, maxLength: nat, limit: nat) {
    forall k: nat :: k + maxLength < |content| ==> WindowHasDelimiter(content, delimiter, k, limit)
  }

  /** The cut lands on the last delimiter in the window, so at or after any delimiter `j` there. */
  lemma CutReaches(content: string, delimiter: char, limit: nat, last: nat, j: nat)
    requires last <= j < last + limit && j < |content| && content[j] == delimiter
    ensures CutIndex(content, delimiter, limit, last) >= j
  {
    LastIndexOfIsLast(content, delimiter, last + limit - 1);
  }

  /** From a cursor whose rest does not fit, a delimited window makes the cut advance. */
  lemma WindowCut(content: string, delimiter: char, maxLength: nat, limit: nat, last: nat)
    requires last < |content| && |content| - last > maxLength
    requires WindowsDelimited(content, delimiter, maxLength, limit)
    ensures CutIndex(content, delimiter, limit, last) >= last
  {
    assert WindowHasDelimiter(content, delimiter, last, limit);
    var j :| last <= j < last + limit && j < |content| && content[j] == delimiter;
    CutReaches(content, delimiter, limit, last, j);
  }

  /** When every window holds a delimiter, the loop always advances and the split succeeds. */
  lemma {:induction false} SplitFromSucceeds(content: string, delimiter: char, maxLength: nat, limit: nat, last: nat)
    requires last <= |content|
    requires WindowsDelimited(content, delimiter, maxLength, limit)
    ensures SplitFrom(content, delimiter, maxLength, limit, last).Split?
    decreases |content| - last
  {
    if last < |content| && |content| - last > maxLength {
      var index := CutIndex(content, delimiter, limit, last);
      WindowCut(content, delimiter, maxLength, limit, last);
      SplitFromStep(content, delimiter, maxLength, limit, last);
      SplitFromSucceeds(content, delimiter, maxLength, limit, index + 1);
    }
  }

  /** `splitMessage` returns when every window `[k, k + maxLength]` it can search holds the delimiter. */
  lemma MessageChunksSucceed(content: string, options: SplitOptions)
    requires WindowsDelimited(content, options.delimiter, options.maxLength, options.maxLength + 1)
    ensures MessageChunks(content, options).Split?
  {
    if |content| > options.maxLength {
      SplitFromSucceeds(content, options.delimiter, options.maxLength, options.maxLength + 1, 0);
    }
  }

  /** `"a,bbbbbbb"` with limit 3: after the chunk `"a,"` the only delimiter in reach is the one just used. */
  lemma LoopsExample()
    ensures MessageChunks("a,bbbbbbb", SplitOptions(',', 3)) == Loops
  {
    var s := "a,bbbbbbb";
    assert LastIndexOf(s, ',', 3) == 1;
    assert LastIndexOf(s, ',', 5) == 1;
  }

  /** As written, a chunk can be one character longer than `maxLength`. */
  lemma OverlongChunkExample()
    ensures MessageChunks("aaa,b", SplitOptions(',', 3)) == Split(["aaa,", "b"])
    ensures |"aaa,"| > 3
  {
    var s := "aaa,b";
    assert LastIndexOf(s, ',', 3) == 3;
    assert s[0..4] == "aaa,";
    assert s[4..] == "b";
  }

  /**
   * The split as evidently intended: the delimiter is searched for at or
   * before `last + maxLength - 1`, so that no chunk outgrows `maxLength`,
   * and a loop that can no longer advance throws instead of spinning.
   */
  function CorrectedChunks(content: string, options: SplitOptions): (r: SplitResult)
    ensures r != Loops
  {
    if |content| <= options.maxLength then Split([content])
    else match SplitFrom(content, options.delimiter, options.maxLength, options.maxLength, 0)
      case Loops => UnableToSplit
      case other => other
  }

  /** Every chunk of the corrected split fits `maxLength`, and the chunks still concatenate to the content. */
  lemma CorrectedChunksFit(content: string, options: SplitOptions)
    requires CorrectedChunks(content, options).Split?
    ensures Concat(CorrectedChunks(content, options).chunks) == content
    ensures forall i :: 0 <= i < |CorrectedChunks(content, options).chunks| ==>
              |CorrectedChunks(content, options).chunks[i]| <= options.maxLength
  {
    if |content| > options.maxLength {
      var r := SplitFrom(content, options.delimiter, options.maxLength, options.maxLength, 0);
      assert CorrectedChunks(content, options) == r;
      var chunks := r.chunks;
      SplitFromConcat(content, options.delimiter, options.maxLength, options.maxLength, 0);
      SplitFromShape(content, options.delimiter, options.maxLength, options.maxLength, 0);
      forall i | 0 <= i < |chunks| ensures |chunks[i]| <= options.maxLength {
        assert DelimitedChunk(chunks[i], options.delimiter, options.maxLength) || |chunks[i]| <= options.maxLength;
      }
    }
  }

  /** The corrected split returns chunks whenever every window `[k, k + maxLength - 1]` holds the delimiter. */
  lemma CorrectedChunksSucceed(content: string, options: SplitOptions)
    requires WindowsDelimited(content, options.delimiter, options.maxLength, options.maxLength)
    ensures CorrectedChunks(content, options).Split?
  {
    if |content| > options.maxLength {
      SplitFromSucceeds(content, options.delimiter, options.maxLength, options.maxLength, 0);
    }
  }

  /** Where the source spins, the corrected split throws. */
  lemma CorrectedLoopsExample()
    ensures CorrectedChunks("a,bbbbbbb", SplitOptions(',', 3)) == UnableToSplit
  {
    var s := "a,bbbbbbb";
    assert LastIndexOf(s, ',', 2) == 1;
    assert LastIndexOf(s, ',', 4) == 1;
  }
}
