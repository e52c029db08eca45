/** The visuals stage: how many frames a video gets, and the placeholder
    frames (`make_placeholder_images`) that stand in when the external image
    provider returns nothing. */
module Frames {
  import opened Wrappers
  import opened Text

  const MinFrames := 3
  const MaxFrames := 10
  /** Seconds of video per frame when choosing the frame count. */
  const SecondsPerFrame := 6
  /** The shortest chunk of script text put on one placeholder frame. */
  const MinChunkLen := 80

  function Min(a: int, b: int): int {
    if a < b then a else b
  }

  function Max(a: int, b: int): int {
    if a < b then b else a
  }

  /** `math.ceil(d / 6)`. */
  function CeilSixth(d: int): (c: int)
    ensures 6 * (c - 1) < d <= 6 * c
  {
    -((-d) / SecondsPerFrame)
  }

  /** `max(3, min(10, math.ceil(duration / 6)))`: one frame per six seconds
      of requested video, but never fewer than three nor more than ten. */
  function FrameCount(duration: int): (n: int)
    ensures MinFrames <= n <= MaxFrames
    ensures 12 < duration <= 60 ==> 6 * (n - 1) < duration <= 6 * n
    ensures duration <= 12 ==> n == MinFrames
    ensures duration > 60 ==> n == MaxFrames
  {
    Max(MinFrames, Min(MaxFrames, CeilSixth(duration)))
  }

  /** A 45-second video gets `ceil(45 / 6) = 8` frames. */
  lemma FrameCountOf45()
    ensures FrameCount(45) == 8
  {
  }

  /** The stripped, non-blank lines: `[l.strip() for l in ls if l.strip()]`. */
  function NonBlankLines(ls: seq<string>): (r: seq<string>)
    ensures |r| <= |ls|
  {
    if ls == [] then []
    else
      var t := Strip(ls[0]);
      (if t != [] then [t] else []) + NonBlankLines(ls[1..])
  }

  /** Every kept line is non-empty and has no whitespace at either end. */
  lemma {:induction false} NonBlankLinesStripped(ls: seq<string>)
    ensures forall i :: 0 <= i < |NonBlankLines(ls)| ==>
      var l := NonBlankLines(ls)[i];
      l != [] && !IsSpace(l[0]) && !IsSpace(l[|l| - 1])
    decreases |ls|
  {
    if ls != [] {
      NonBlankLinesStripped(ls[1..]);
    }
  }

  /** No line is kept exactly when every line is blank. */
  lemma {:induction false} NonBlankLinesEmpty(ls: seq<string>)
    ensures NonBlankLines(ls) == [] <==> forall i :: 0 <= i < |ls| ==> Strip(ls[i]) == []
    decreases |ls|
  {
    if ls != [] {
      NonBlankLinesEmpty(ls[1..]);
      assert forall i :: 1 <= i < |ls| ==> ls[i] == ls[1..][i - 1];
    }
  }

  /** A single line is kept, stripped, exactly when it is not blank. */
  lemma NonBlankLinesSingle(l: string)
    ensures NonBlankLines([l]) == if Strip(l) == [] then [] else [Strip(l)]
  {
    assert [l][1..] == [];
  }

  /** The filter keeps the order of the lines: filtering two runs of lines
      one after the other is filtering each run and putting the results
      side by side. */
  lemma {:induction false} NonBlankLinesAppend(a: seq<string>, b: seq<string>)
    ensures NonBlankLines(a + b) == NonBlankLines(a) + NonBlankLines(b)
    decreases |a|
  {
    if a == [] {
      assert a + b == b;
    } else {
      var t := Strip(a[0]);
      var head := if t != [] then [t] else [];
      var ab := a + b;
      assert ab[0] == a[0] && ab[1..] == a[1..] + b;
      NonBlankLinesAppend(a[1..], b);
      calc {
        NonBlankLines(ab);
        head + NonBlankLines(ab[1..]);
        head + (NonBlankLines(a[1..]) + NonBlankLines(b));
        (head + NonBlankLines(a[1..])) + NonBlankLines(b);
      }
    }
  }

  /** `combined`: the non-blank lines of the script joined by single spaces;
      a script with no non-blank line is used as it is. */
  function Flatten(scriptText: string): (r: string)
    ensures NonBlankLines(SplitLines(scriptText)) == [] ==> r == scriptText
  {
    var lines := NonBlankLines(SplitLines(scriptText));
    var pieces := if lines == [] then [scriptText] else lines;
    assert lines == [] ==> Join(pieces, " ") == scriptText;
    Join(pieces, " ")
  }

  /** A script whose every line is blank is put on the frames untouched. */
  lemma FlattenBlank(s: string)
    requires forall i :: 0 <= i < |SplitLines(s)| ==> Strip(SplitLines(s)[i]) == []
    ensures Flatten(s) == s
  {
    NonBlankLinesEmpty(SplitLines(s));
  }

  /** A script that is one line with no whitespace at either end is put on
      the frames as it is. */
  lemma FlattenOneLine(s: string)
    requires s != [] && !IsSpace(s[0]) && !IsSpace(s[|s| - 1])
    requires forall i :: 0 <= i < |s| ==> !IsLineBreak(s[i])
    ensures Flatten(s) == s
  {
    SplitLinesNoBreak(s);
    StripUntouched(s);
    NonBlankLinesSingle(s);
  }

  /** `max(80, len(combined) // count)`. */
  function ChunkLen(length: nat, count: nat): (n: nat)
    requires count >= 1
    ensures n >= MinChunkLen
  {
    Max(MinChunkLen, length / count)
  }

  /** `[s[i:i+n] for i in range(0, len(s), n)]`: consecutive slices of `n`
      characters, the last one possibly shorter. */
  function Slices(s: string, n: nat): (r: seq<string>)
    requires n >= 1
    ensures forall i :: 0 <= i < |r| ==> 1 <= |r[i]| <= n
    decreases |s|
  {
    if s == [] then []
    else if |s| <= n then [s]
    else [s[..n]] + Slices(s[n..], n)
  }

  /** `k * n` as repeated addition, which keeps the slice lemmas linear. */
  function Times(k: nat, n: nat): nat {
    if k == 0 then 0 else n + Times(k - 1, n)
  }

  lemma {:induction false} TimesIsProduct(k: nat, n: nat)
    ensures Times(k, n) == k * n
  {
    if k > 0 {
      TimesIsProduct(k - 1, n);
    }
  }

  lemma ConcatCons(x: string, ls: seq<string>)
    ensures Concat([x] + ls) == x + Concat(ls)
  {
    assert ([x] + ls)[1..] == ls;
  }

  /** One more slice in front extends the covered prefix by `n` characters. */
  lemma PrefixCons(s: string, n: nat, rest: seq<string>, j: nat, t: nat)
    requires n < |s| && j <= |rest|
    requires Concat(rest[..j]) == s[n..][..Min(|s| - n, t)]
    ensures Concat(([s[..n]] + rest)[..j + 1]) == s[..Min(|s|, n + t)]
  {
    assert ([s[..n]] + rest)[..j + 1] == [s[..n]] + rest[..j];
    ConcatCons(s[..n], rest[..j]);
    var m := Min(|s| - n, t);
    assert s[..n] + s[n..][..m] == s[..n + m];
  }

  /** Taking the first `k` slices gives back the first `k * n` characters. */
  lemma {:induction false} SlicesPrefix(s: string, n: nat, k: nat)
    requires n >= 1 && k <= |Slices(s, n)|
    ensures Concat(Slices(s, n)[..k]) == s[..Min(|s|, Times(k, n))]
    decreases k
  {
    var r := Slices(s, n);
    if k == 0 {
      assert r[..0] == [];
    } else if |s| <= n {
      assert r[..k] == [s];
      ConcatCons(s, []);
    } else {
      var rest := Slices(s[n..], n);
      SlicesPrefix(s[n..], n, k - 1);
      assert r == [s[..n]] + rest;
      PrefixCons(s, n, rest, k - 1, Times(k - 1, n));
    }
  }

  /** The three shapes of `Slices`. */
  lemma SlicesUnfold(s: string, n: nat)
    requires n >= 1
    ensures s == [] ==> Slices(s, n) == []
    ensures s != [] && |s| <= n ==> Slices(s, n) == [s]
    ensures |s| > n ==> Slices(s, n) == [s[..n]] + Slices(s[n..], n)
  {
  }

  /** The slices concatenate back to the whole text. */
  lemma {:induction false} SlicesConcat(s: string, n: nat)
    requires n >= 1
    ensures Concat(Slices(s, n)) == s
    decreases |s|
  {
    SlicesUnfold(s, n);
    if s == [] {
    } else if |s| <= n {
      ConcatCons(s, []);
    } else {
      SlicesConcat(s[n..], n);
      ConcatCons(s[..n], Slices(s[n..], n));
      assert s[..n] + s[n..] == s;
    }
  }

  /** There are at most `k` slices exactly when `s` fits into `k` of them. */
  lemma {:induction false} SlicesCount(s: string, n: nat, k: nat)
    requires n >= 1
    ensures |Slices(s, n)| <= k <==> |s| <= Times(k, n)
    decreases k
  {
    SlicesUnfold(s, n);
    if k == 0 {
    } else if |s| <= n {
      assert Times(k, n) >= n;
    } else {
      assert Times(k, n) == n + Times(k - 1, n);
      SlicesCount(s[n..], n, k - 1);
    }
  }

  /** `chunks[:count]` when there are at least `count` of them, otherwise
      `chunks + [""] * (count - len(chunks))`. */
  function FitTo(raw: seq<string>, count: nat): (r: seq<string>)
    ensures |r| == count
    ensures forall i :: 0 <= i < count ==> r[i] == (if i < |raw| then raw[i] else "")
  {
    if |raw| >= count then raw[..count] else raw + seq(count - |raw|, _ => "")
  }

  /** The `count` chunks cut from the flattened text `combined`. */
  function ChunksOf(combined: string, count: nat): (chunks: seq<string>)
    requires count >= 1
    ensures |chunks| == count
    ensures forall i :: 0 <= i < count ==> |chunks[i]| <= ChunkLen(|combined|, count)
  {
    FitTo(Slices(combined, ChunkLen(|combined|, count)), count)
  }

  /** The texts of the `count` placeholder frames. */
  function PlaceholderChunks(scriptText: string, count: nat): (chunks: seq<string>)
    requires count >= 1
    ensures |chunks| == count
  {
    ChunksOf(Flatten(scriptText), count)
  }

  lemma {:induction false} ConcatAppendEmpty(ls: seq<string>, m: nat)
    ensures Concat(ls + seq(m, _ => "")) == Concat(ls)
  {
    if ls == [] {
      if m > 0 {
        var e := seq(m, _ => "");
        assert ls + e == e && e[1..] == [] + seq(m - 1, _ => "");
        ConcatAppendEmpty([], m - 1);
        assert Concat(e) == "" + Concat(e[1..]);
      } else {
        assert ls + seq(m, _ => "") == [];
      }
    } else {
      assert (ls + seq(m, _ => ""))[1..] == ls[1..] + seq(m, _ => "");
      ConcatAppendEmpty(ls[1..], m);
    }
  }

  /** The chunks hold, in order, the first `count * chunk_len` characters of
      `combined` (all of it when it is shorter), and every chunk that starts
      past the end of the text is blank. */
  lemma ChunksCover(combined: string, count: nat)
    requires count >= 1
    ensures Concat(ChunksOf(combined, count))
      == combined[..Min(|combined|, count * ChunkLen(|combined|, count))]
    ensures forall i: nat :: i < count && i * ChunkLen(|combined|, count) >= |combined| ==>
      ChunksOf(combined, count)[i] == ""
  {
    var n := ChunkLen(|combined|, count);
    var raw := Slices(combined, n);
    TimesIsProduct(count, n);
    if |raw| >= count {
      SlicesPrefix(combined, n, count);
    } else {
      assert raw[..|raw|] == raw;
      SlicesPrefix(combined, n, |raw|);
      ConcatAppendEmpty(raw, count - |raw|);
      SlicesCount(combined, n, |raw|);
      SlicesCount(combined, n, count);
    }
    forall i: nat | i < count && i * n >= |combined|
      ensures ChunksOf(combined, count)[i] == ""
    {
      TimesIsProduct(i, n);
      SlicesCount(combined, n, i);
    }
  }

  /** No text is lost exactly when `combined` fits into `count` chunks; that
      is always so when it is at most `80 * count` characters long. */
  lemma ChunksComplete(combined: string, count: nat)
    requires count >= 1
    ensures Concat(ChunksOf(combined, count)) == combined
      <==> |combined| <= count * ChunkLen(|combined|, count)
    ensures |combined| <= MinChunkLen * count ==> Concat(ChunksOf(combined, count)) == combined
  {
    ChunksCover(combined, count);
    var n := ChunkLen(|combined|, count);
    var cap := count * n;
    assert combined[..|combined|] == combined;
    if Concat(ChunksOf(combined, count)) == combined {
      assert |combined[..Min(|combined|, cap)]| == |combined|;
    }
    MulMonotone(count, MinChunkLen, n);
  }

  lemma DivBounds(a: nat, k: nat, m: nat)
    requires k >= 1 && a >= m * k
    ensures a / k >= m
    ensures k * (a / k) == a - a % k
  {
    var q, r := a / k, a % k;
    assert a == k * q + r && r < k;
    if q < m {
      MulMonotone(k, q + 1, m);
    }
  }

  lemma MulMonotone(k: nat, a: nat, b: nat)
    requires a <= b
    ensures k * a <= k * b
  {
  }

  /** When `combined` is at least `80 * count` long, the chunk length is
      `len // count` and its last `len % count` characters appear on no frame. */
  lemma ChunksDropTail(combined: string, count: nat)
    requires count >= 1
    requires |combined| >= MinChunkLen * count
    ensures |Concat(ChunksOf(combined, count))| == |combined| - |combined| % count
  {
    ChunksCover(combined, count);
    var q := |combined| / count;
    DivBounds(|combined|, count, MinChunkLen);
    assert ChunkLen(|combined|, count) == q;
    assert Min(|combined|, count * q) == count * q;
  }

  /** `f"AutoVideoBot • {idx+1}/{len(chunks)}"`: the footer of frame `idx`. */
  function Footer(idx: nat, total: nat): string {
    "AutoVideoBot • " + NatToString(idx + 1) + "/" + NatToString(total)
  }

  /** Frames of one video carry pairwise different footers. */
  lemma FooterDistinct(i: nat, j: nat, total: nat)
    requires Footer(i, total) == Footer(j, total)
    ensures i == j
  {
    var p := "AutoVideoBot • ";
    var t := "/" + NatToString(total);
    var a, b := NatToString(i + 1), NatToString(j + 1);
    assert Footer(i, total) == (p + a) + t && Footer(j, total) == (p + b) + t;
    assert |p + a| == |p + b|;
    assert p + a == (Footer(i, total))[..|p + a|];
    assert a == (p + a)[|p|..] && b == (p + b)[|p|..];
    NatToStringInjective(i + 1, j + 1);
  }

  /** `render` succeeds on every chunk with its footer. */
  ghost predicate RendersAll(chunks: seq<string>, render: (nat, string, string) -> Option<string>) {
    forall i :: 0 <= i < |chunks| ==> render(i, chunks[i], Footer(i, |chunks|)).Some?
  }

  /** A renderer that never fails renders every chunk. */
  lemma RendersAllTotal(chunks: seq<string>, render: (nat, string, string) -> Option<string>)
    requires forall i: nat, chunk: string, footer: string :: render(i, chunk, footer).Some?
    ensures RendersAll(chunks, render)
  {
  }

  /** Every placeholder frame of the script renders. */
  ghost predicate AllRendered(scriptText: string, count: nat, render: (nat, string, string) -> Option<string>)
    requires count >= 1
  {
    RendersAll(PlaceholderChunks(scriptText, count), render)
  }

  /** The drawing loop of `make_placeholder_images`: one frame per chunk, in
      order. `render` draws chunk `idx` with its footer and saves it, giving
      the saved path, or None when drawing raises; the first failure aborts
      the stage. */
  method RenderFrames(chunks: seq<string>, render: (nat, string, string) -> Option<string>)
    returns (frames: Option<seq<string>>)
    ensures frames.Some? <==> RendersAll(chunks, render)
    ensures frames.Some? ==> |frames.value| == |chunks|
    ensures frames.Some? ==> forall i :: 0 <= i < |chunks| ==>
      render(i, chunks[i], Footer(i, |chunks|)) == Some(frames.value[i])
  {
    var paths: seq<string> := [];
    for idx := 0 to |chunks|
      invariant |paths| == idx
      invariant forall i :: 0 <= i < idx ==> render(i, chunks[i], Footer(i, |chunks|)) == Some(paths[i])
    {
      var saved := render(idx, chunks[idx], Footer(idx, |chunks|));
      if saved.None? {
        return None;
      }
      paths := paths + [saved.value];
    }
    return Some(paths);
  }

  /** `make_placeholder_images`: cuts the script into `count` chunks and
      draws one frame per chunk, in order, footed "idx+1/count". */
  method MakePlaceholderImages(scriptText: string, count: nat, render: (nat, string, string) -> Option<string>)
    returns (frames: Option<seq<string>>)
    requires count >= 1
    ensures frames.Some? <==> AllRendered(scriptText, count, render)
    ensures frames.Some? ==> |frames.value| == count
    ensures frames.Some? ==> forall i :: 0 <= i < count ==>
      render(i, PlaceholderChunks(scriptText, count)[i], Footer(i, count)) == Some(frames.value[i])
  {
    var chunks := PlaceholderChunks(scriptText, count);
    frames := RenderFrames(chunks, render);
  }
}
