/** The attention budget (oracle-core/src/embed/mod.rs:155-187, 434-473), in `usize` arithmetic that saturates. */
module AttentionBudget {
  import opened Numbers

  const USIZE_MAX: nat := 0xFFFF_FFFF_FFFF_FFFF

  function SatMul(a: nat, b: nat): nat {
    if a * b > USIZE_MAX then USIZE_MAX else a * b
  }

  function PerRow(seqLen: nat): (r: nat)
    ensures 0 < r <= USIZE_MAX
  {
    SatMul(Max(seqLen, 1), Max(seqLen, 1))
  }

  function AttentionCost(batch: nat, seqLen: nat): nat {
    SatMul(batch, PerRow(seqLen))
  }

  /** rows x length^2, without a machine word's limit. */
  function TrueCost(batch: nat, seqLen: nat): nat {
    batch * (Max(seqLen, 1) * Max(seqLen, 1))
  }

  function MaxBatch(seqLen: nat, budget: nat): nat {
    Max(budget / PerRow(seqLen), 1)
  }

  lemma MulLe(a: nat, b: nat, x: nat)
    requires a <= b
    ensures a * x <= b * x && x * a <= x * b
  {
  }

  /** Saturation hides an overrun from the check exactly when the budget is the largest word. */
  lemma CostFitsIff(batch: nat, seqLen: nat, budget: nat)
    requires budget <= USIZE_MAX
    ensures AttentionCost(batch, seqLen) <= budget <==> TrueCost(batch, seqLen) <= budget || budget == USIZE_MAX
  {
    var square := Max(seqLen, 1) * Max(seqLen, 1);
    if square > USIZE_MAX && batch > 0 {
      MulLe(1, batch, square);
      MulLe(1, batch, USIZE_MAX);
    }
  }

  /** Two rows of 2^32 tokens pass the check of the largest budget, which they exceed. */
  lemma SaturationHidesOverrun()
    ensures AttentionCost(2, 0x1_0000_0000) <= USIZE_MAX < TrueCost(2, 0x1_0000_0000)
  {
  }

  /** For two rows or more, the documented meaning holds for every length and budget: `MaxBatch` is the largest number
      of rows that fits. */
  lemma MaxBatchIff(batch: nat, seqLen: nat, budget: nat)
    requires budget <= USIZE_MAX && batch >= 2
    ensures batch <= MaxBatch(seqLen, budget) <==> TrueCost(batch, seqLen) <= budget
  {
    var square, per := Max(seqLen, 1) * Max(seqLen, 1), PerRow(seqLen);
    DivFits(batch, per, budget);
    if square > USIZE_MAX {
      MulLe(2, batch, square);
      MulLe(2, batch, USIZE_MAX);
    }
  }

  lemma DivFits(n: nat, per: nat, budget: nat)
    requires per > 0
    ensures n <= budget / per <==> n * per <= budget
  {
    var q := budget / per;
    assert q * per <= budget < (q + 1) * per;
    if n <= q {
      MulLe(n, q, per);
    } else {
      MulLe(q + 1, n, per);
    }
  }

  /** A batch that is too costly is larger than the batches it is split into, so splitting ends. */
  lemma SplitShrinks(batch: nat, seqLen: nat, budget: nat)
    requires batch > 1 && AttentionCost(batch, seqLen) > budget
    ensures MaxBatch(seqLen, budget) < batch
  {
    DivFits(batch, PerRow(seqLen), budget);
  }

  function Sum(sizes: seq<nat>): nat {
    if sizes == [] then 0 else sizes[0] + Sum(sizes[1..])
  }

  lemma {:induction false} SumAppend(sizes: seq<nat>, n: nat)
    ensures Sum(sizes + [n]) == Sum(sizes) + n
  {
    if sizes == [] {
      assert sizes + [n] == [n];
    } else {
      assert (sizes + [n])[1..] == sizes[1..] + [n];
      SumAppend(sizes[1..], n);
    }
  }

  /** Parts that make up the total, none empty, all of them as large as allowed but the last. */
  ghost predicate Divides(sizes: seq<nat>, total: nat, maxN: nat) {
    && Sum(sizes) == total && (forall k :: 0 <= k < |sizes| ==> 0 < sizes[k] <= maxN)
    && forall k :: 0 <= k < |sizes| - 1 ==> sizes[k] == maxN
  }

  method AttentionSubBatchSizes(total: nat, seqLen: nat, budget: nat) returns (sizes: seq<nat>)
    ensures Divides(sizes, total, MaxBatch(seqLen, budget))
  {
    hide MaxBatch, Sum;
    sizes := [];
    assert Sum([]) == 0 by { SumEmpty(); }
    if total == 0 {
      return;
    }
    var maxN := MaxBatch(seqLen, budget);
    MaxBatchPositive(seqLen, budget);
    var remaining := total;
    while remaining > 0
      invariant Sum(sizes) + remaining == total
      invariant forall k :: 0 <= k < |sizes| ==> 0 < sizes[k] <= maxN
      invariant forall k :: 0 <= k < |sizes| - 1 ==> sizes[k] == maxN
      invariant remaining > 0 && sizes != [] ==> sizes[|sizes| - 1] == maxN
    {
      var n := if remaining < maxN then remaining else maxN;
      SumAppend(sizes, n);
      sizes := sizes + [n];
      remaining := remaining - n;
    }
  }

  lemma SumEmpty()
    ensures Sum([]) == 0
  {
  }

  lemma MaxBatchPositive(seqLen: nat, budget: nat)
    ensures MaxBatch(seqLen, budget) > 0
  {
  }

  // ----- packing windows by their length in bytes

  datatype Range = Range(start: nat, end: nat)

  function Longest(lens: seq<nat>): nat {
    if lens == [] then 0 else Max(Longest(lens[..|lens| - 1]), Max(lens[|lens| - 1], 1))
  }

  lemma LongestMore(lens: seq<nat>, i: nat, j: nat)
    requires i <= j < |lens|
    ensures Longest(lens[i..j + 1]) == Max(Longest(lens[i..j]), Max(lens[j], 1))
  {
    assert lens[i..j + 1][..j - i] == lens[i..j];
  }

  lemma CostGrows(n: nat, m: nat, s: nat, t: nat)
    requires n <= m && s <= t
    ensures AttentionCost(n, s) <= AttentionCost(m, t)
  {
    var a, b := Max(s, 1), Max(t, 1);
    assert a * a <= b * b by { MulLe(a, b, a); MulLe(a, b, b); }
    MulLe(n, m, PerRow(s));
    MulLe(PerRow(s), PerRow(t), m);
  }

  ghost predicate GroupFits(lens: seq<nat>, budget: nat, g: Range) {
    && g.start < g.end <= |lens|
    && (g.end - g.start > 1 ==> AttentionCost(g.end - g.start, Longest(lens[g.start..g.end])) <= budget)
    && (g.end < |lens| ==> AttentionCost(g.end + 1 - g.start, Longest(lens[g.start..g.end + 1])) > budget)
  }

  /** The groups follow one another, cover the first `upTo` windows, and each is as long as its budget allows. */
  ghost predicate Packed(lens: seq<nat>, budget: nat, groups: seq<Range>, upTo: nat) {
    && (forall k :: 0 <= k < |groups| ==> GroupFits(lens, budget, groups[k]))
    && (forall k :: 0 < k < |groups| ==> groups[k].start == groups[k - 1].end)
    && if groups == [] then upTo == 0 else groups[0].start == 0 && groups[|groups| - 1].end == upTo
  }

  /** Extends a group from `i` while the next window fits; a window that is too long on its own still forms one. */
  method GroupEnd(lens: seq<nat>, i: nat, budget: nat) returns (j: nat)
    requires i < |lens|
    ensures GroupFits(lens, budget, Range(i, j))
  {
    hide AttentionCost, Longest;
    j := i;
    var maxSeq := 0;
    assert Longest(lens[i..i]) == 0 by { NoneIsLongest(lens, i); }
    while j < |lens|
      invariant i <= j <= |lens| && maxSeq == Longest(lens[i..j])
      invariant j > i ==> AttentionCost(j - i, maxSeq) <= budget
    {
      var newMax := Max(maxSeq, Max(lens[j], 1));
      LongestMore(lens, i, j);
      var n := j - i + 1;
      var cost := AttentionCost(n, newMax);
      if cost > budget {
        if n == 1 {
          j := j + 1;
          if j < |lens| {
            LongestMore(lens, i, j);
            CostGrows(1, 2, newMax, Longest(lens[i..j + 1]));
          }
        }
        break;
      }
      maxSeq := newMax;
      j := j + 1;
    }
  }

  lemma NoneIsLongest(lens: seq<nat>, i: nat)
    requires i <= |lens|
    ensures Longest(lens[i..i]) == 0
  {
  }

  lemma {:induction false} LongestGrows(lens: seq<nat>, i: nat, j: nat, k: nat)
    requires i <= j <= k <= |lens|
    ensures Longest(lens[i..j]) <= Longest(lens[i..k])
  {
    hide Longest;
    if j < k {
      LongestGrows(lens, i, j, k - 1);
      LongestMore(lens, i, k - 1);
    }
  }

  lemma NoLaterEnd(lens: seq<nat>, budget: nat, g: Range, h: Range)
    requires GroupFits(lens, budget, g) && GroupFits(lens, budget, h) && g.start == h.start
    ensures g.end >= h.end
  {
    if g.end < h.end {
      LongestGrows(lens, g.start, g.end + 1, h.end);
      CostGrows(g.end + 1 - g.start, h.end - g.start, Longest(lens[g.start..g.end + 1]), Longest(lens[g.start..h.end]));
    }
  }

  /** Lengths and budget determine the groups. */
  lemma {:induction false} PackedIsUnique(lens: seq<nat>, budget: nat, a: seq<Range>, b: seq<Range>, n: nat)
    requires Packed(lens, budget, a, |lens|) && Packed(lens, budget, b, |lens|) && n <= |a|
    ensures n <= |b| && a[..n] == b[..n] && (n == |a| ==> a == b)
  {
    hide GroupFits;
    if n > 0 {
      var m := n - 1;
      PackedIsUnique(lens, budget, a, b, m);
      assert m > 0 ==> a[m - 1] == a[..m][m - 1] == b[..m][m - 1] == b[m - 1];
      GroupRange(lens, budget, a[m]);
      assert m < |b|;
      GroupRange(lens, budget, b[m]);
      assert a[m].start == b[m].start;
      NoLaterEnd(lens, budget, a[m], b[m]);
      NoLaterEnd(lens, budget, b[m], a[m]);
      assert a[..n] == a[..m] + [a[m]] && b[..n] == b[..m] + [b[m]];
      if n == |a| {
        EndsTogether(lens, budget, b, n);
        assert a[..n] == a && b[..n] == b;
      }
    } else if |a| == 0 {
      EndsTogether(lens, budget, b, 0);
    }
  }

  lemma EndsTogether(lens: seq<nat>, budget: nat, groups: seq<Range>, n: nat)
    requires Packed(lens, budget, groups, |lens|) && n <= |groups|
    requires if n == 0 then lens == [] else groups[n - 1].end == |lens|
    ensures n == |groups|
  {
    if n < |groups| {
      GroupRange(lens, budget, groups[n]);
    }
  }

  method PackWindowsForAttention(lens: seq<nat>, budget: nat) returns (groups: seq<Range>)
    ensures Packed(lens, Max(budget, 1), groups, |lens|)
  {
    hide GroupFits;
    groups := [];
    var i := 0;
    while i < |lens|
      invariant i <= |lens| && Packed(lens, Max(budget, 1), groups, i)
    {
      var j := GroupEnd(lens, i, Max(budget, 1));
      assert j > i && j <= |lens| by { GroupRange(lens, Max(budget, 1), Range(i, j)); }
      groups := groups + [Range(i, j)];
      i := j;
    }
  }

  lemma GroupRange(lens: seq<nat>, budget: nat, g: Range)
    requires GroupFits(lens, budget, g)
    ensures g.start < g.end <= |lens|
  {
  }
}

/**
 The embedder (oracle-core/src/onnx_embedder.rs:134-266). A text's row in a forward pass is padded to the longest
 text of its batch; which vector a row gives depends on its text alone.
 */
module OnnxEmbedder {
  import opened AttentionBudget
  import opened Numbers
  import opened Results
  import opened Sequences
  import T = TextWindows
  import W = WindowSize

  type Text = T.Text
  type Vector = seq<real>

  /** What is not modelled further: how many tokens a text has (special tokens included), the vector a row gives, mean
      pooling, and whether anything may go wrong: a cancellation, the tokenizer or the session. A row of more than
      `maxSeq` tokens is truncated. */
  datatype Model = Model(length: Text -> nat, maxSeq: nat, vector: Text -> Vector, pool: seq<Vector> -> Vector,
                         faulty: bool)
  {
    function Tokens(t: Text): nat {
      if length(t) > maxSeq then maxSeq else length(t)
    }

    predicate Truncates(t: Text) {
      Tokens(t) < length(t)
    }
  }

  /** `ids` is the padded length. */
  datatype Encoding = Encoding(text: Text, ids: nat)

  datatype Pass = Pass(rows: seq<Text>, seqLen: nat)

  function Texts(encodings: seq<Encoding>): seq<Text> {
    seq(|encodings|, i requires 0 <= i < |encodings| => encodings[i].text)
  }

  ghost function Rows(passes: seq<Pass>): seq<Text> {
    if passes == [] then [] else Rows(passes[..|passes| - 1]) + passes[|passes| - 1].rows
  }

  lemma {:induction false} RowsAppend(a: seq<Pass>, b: seq<Pass>)
    ensures Rows(a + b) == Rows(a) + Rows(b)
  {
    if b == [] {
      assert a + b == a;
    } else {
      assert (a + b)[..|a + b| - 1] == a + b[..|b| - 1];
      RowsAppend(a, b[..|b| - 1]);
    }
  }

  function Vectors(vector: Text -> Vector, texts: seq<Text>): seq<Vector> {
    seq(|texts|, i requires 0 <= i < |texts| => vector(texts[i]))
  }

  /** A batch as the tokenizer pads it: no row is longer than `seqLen`, and none loses a token. */
  ghost predicate Padded(tokens: Text -> nat, encodings: seq<Encoding>, seqLen: nat) {
    forall i :: 0 <= i < |encodings| ==> tokens(encodings[i].text) <= encodings[i].ids <= seqLen
  }

  /** The passes take the texts in order, each exactly once, and give one vector for each. Stopped early, they have
      taken a first part of the texts. */
  ghost predicate Served(vector: Text -> Vector, texts: seq<Text>, ps: seq<Pass>, added: seq<Vector>, ok: bool) {
    if ok then Rows(ps) == texts && added == Vectors(vector, texts)
    else Rows(ps) <= texts && added <= Vectors(vector, texts)
  }

  lemma ServedMore(vector: Text -> Vector, a: seq<Text>, b: seq<Text>, psA: seq<Pass>, psB: seq<Pass>,
                   addedA: seq<Vector>, addedB: seq<Vector>, ok: bool)
    requires Served(vector, a, psA, addedA, true) && Served(vector, b, psB, addedB, ok)
    ensures Served(vector, a + b, psA + psB, addedA + addedB, ok)
  {
    RowsAppend(psA, psB);
    assert Vectors(vector, a + b) == Vectors(vector, a) + Vectors(vector, b);
  }

  lemma ServedPart(vector: Text -> Vector, a: seq<Text>, b: seq<Text>, ps: seq<Pass>, added: seq<Vector>, ok: bool)
    requires Served(vector, a, ps, added, ok)
    ensures Served(vector, a + b, ps, added, false)
  {
    assert Vectors(vector, a + b) == Vectors(vector, a) + Vectors(vector, b);
  }

  /** Every row fits the pass, and a pass of two rows or more is within the budget. */
  ghost predicate Bounded(tokens: Text -> nat, budget: nat, p: Pass) {
    && (forall i :: 0 <= i < |p.rows| ==> tokens(p.rows[i]) <= p.seqLen)
    && (|p.rows| > 1 ==> TrueCost(|p.rows|, p.seqLen) <= budget)
  }

  ghost predicate AllBounded(tokens: Text -> nat, budget: nat, ps: seq<Pass>) {
    forall k :: 0 <= k < |ps| ==> Bounded(tokens, budget, ps[k])
  }

  /** One more part of the texts, from `off` to `next`. */
  lemma ServedNext(vector: Text -> Vector, texts: seq<Text>, off: nat, next: nat, ps: seq<Pass>, more: seq<Pass>,
                   added: seq<Vector>, tail: seq<Vector>, ok: bool)
    requires off <= next <= |texts| && Served(vector, texts[..off], ps, added, true)
    requires Served(vector, texts[off..next], more, tail, ok)
    ensures Served(vector, if ok then texts[..next] else texts, ps + more, added + tail, ok)
  {
    ServedMore(vector, texts[..off], texts[off..next], ps, more, added, tail, ok);
    assert texts[..off] + texts[off..next] == texts[..next];
    if !ok {
      ServedPart(vector, texts[..next], texts[next..], ps + more, added + tail, false);
      assert texts[..next] + texts[next..] == texts;
    }
  }

  lemma TextsLength(encodings: seq<Encoding>)
    ensures |Texts(encodings)| == |encodings|
  {
  }

  lemma TextsSlice(encodings: seq<Encoding>, i: nat, j: nat)
    requires i <= j <= |encodings|
    ensures Texts(encodings[i..j]) == Texts(encodings)[i..j]
  {
  }

  lemma SizeAt(sizes: seq<nat>, total: nat, maxN: nat, k: nat)
    requires Divides(sizes, total, maxN) && k < |sizes|
    ensures 0 < sizes[k] <= maxN && Sum(sizes[k..]) == sizes[k] + Sum(sizes[k + 1..])
  {
    assert sizes[k..][1..] == sizes[k + 1..];
  }

  lemma SizesBefore(sizes: seq<nat>, total: nat, maxN: nat)
    requires Divides(sizes, total, maxN)
    ensures Sum(sizes[0..]) == total && Sum(sizes[|sizes|..]) == 0
  {
    assert sizes[0..] == sizes && sizes[|sizes|..] == [];
  }

  function SeqLen(encodings: seq<Encoding>): nat {
    if encodings == [] then 1
    else Max(SeqLen(encodings[..|encodings| - 1]), encodings[|encodings| - 1].ids)
  }

  lemma {:induction false} NoneIsLonger(encodings: seq<Encoding>)
    ensures SeqLen(encodings) > 0 && forall i :: 0 <= i < |encodings| ==> encodings[i].ids <= SeqLen(encodings)
  {
    if encodings != [] {
      NoneIsLonger(encodings[..|encodings| - 1]);
    }
  }

  lemma PaddedSlice(tokens: Text -> nat, encodings: seq<Encoding>, seqLen: nat, i: nat, j: nat)
    requires Padded(tokens, encodings, seqLen) && i <= j <= |encodings|
    ensures Padded(tokens, encodings[i..j], SeqLen(encodings[i..j]))
  {
    hide SeqLen;
    NoneIsLonger(encodings[i..j]);
  }

  lemma BoundedAppend(tokens: Text -> nat, budget: nat, a: seq<Pass>, b: seq<Pass>)
    requires AllBounded(tokens, budget, a) && AllBounded(tokens, budget, b)
    ensures AllBounded(tokens, budget, a + b)
  {
    hide Bounded;
  }

  /** The list of vectors after a call: what was there, and the vectors the call pushed. */
  ghost predicate Pushed(vector: Text -> Vector, out: seq<Vector>, r: seq<Vector>, texts: seq<Text>, ps: seq<Pass>,
                         ok: bool) {
    |out| <= |r| && r[..|out|] == out && Served(vector, texts, ps, r[|out|..], ok)
  }

  lemma PushedNext(vector: Text -> Vector, out: seq<Vector>, mid: seq<Vector>, r: seq<Vector>, texts: seq<Text>,
                   off: nat, next: nat, ps: seq<Pass>, more: seq<Pass>, ok: bool)
    requires off <= next <= |texts| && Pushed(vector, out, mid, texts[..off], ps, true)
    requires Pushed(vector, mid, r, texts[off..next], more, ok)
    ensures Pushed(vector, out, r, if ok then texts[..next] else texts, ps + more, ok)
  {
    ServedNext(vector, texts, off, next, ps, more, mid[|out|..], r[|mid|..], ok);
    assert r[..|out|] == r[..|mid|][..|out|];
    assert r[|out|..] == mid[|out|..] + r[|mid|..];
  }

  lemma PushedNothing(vector: Text -> Vector, out: seq<Vector>, texts: seq<Text>, ok: bool)
    requires ok ==> texts == []
    ensures Pushed(vector, out, out, texts, [], ok)
  {
    assert out[|out|..] == [];
  }

  /** Another thread may cancel at any time. */
  method IsCancelled(m: Model) returns (b: bool)
    ensures b ==> m.faulty
  {
    b := *;
    b := b && m.faulty;
  }

  /** The length a batch is padded to: that of its longest text, and 1 at least. */
  ghost function MostTokens(tokens: Text -> nat, texts: seq<Text>): nat {
    if texts == [] then 1 else Max(MostTokens(tokens, texts[..|texts| - 1]), tokens(texts[|texts| - 1]))
  }

  lemma {:induction false} MostOfNone(tokens: Text -> nat, texts: seq<Text>, bound: nat)
    requires bound > 0 && forall i :: 0 <= i < |texts| ==> tokens(texts[i]) <= bound
    ensures MostTokens(tokens, texts) <= bound
  {
    if texts != [] {
      MostOfNone(tokens, texts[..|texts| - 1], bound);
    }
  }

  lemma {:induction false} NoneHasMore(tokens: Text -> nat, texts: seq<Text>)
    ensures MostTokens(tokens, texts) > 0
    ensures forall i :: 0 <= i < |texts| ==> tokens(texts[i]) <= MostTokens(tokens, texts)
  {
    if texts != [] {
      NoneHasMore(tokens, texts[..|texts| - 1]);
    }
  }

  lemma MostOfPart(tokens: Text -> nat, texts: seq<Text>, i: nat, j: nat)
    requires i <= j <= |texts|
    ensures MostTokens(tokens, texts[i..j]) <= MostTokens(tokens, texts)
  {
    hide MostTokens;
    NoneHasMore(tokens, texts);
    MostOfNone(tokens, texts[i..j], MostTokens(tokens, texts));
  }

  lemma {:induction false} SeqLenOfEqual(encodings: seq<Encoding>, ids: nat)
    requires encodings != [] && forall i :: 0 <= i < |encodings| ==> encodings[i].ids == ids
    ensures SeqLen(encodings) == Max(1, ids)
  {
    if |encodings| > 1 {
      SeqLenOfEqual(encodings[..|encodings| - 1], ids);
    } else {
      assert SeqLen(encodings[..0]) == 1;
    }
  }

  /** Pads every row to the longest one; the tokenizer may also fail. */
  method EncodeBatch(m: Model, texts: seq<Text>) returns (ok: bool, encodings: seq<Encoding>)
    ensures !ok ==> m.faulty
    ensures ok ==> Texts(encodings) == texts && Padded(m.Tokens, encodings, SeqLen(encodings))
    ensures ok && texts != [] ==> SeqLen(encodings) == MostTokens(m.Tokens, texts)
  {
    ok := *;
    ok := ok || !m.faulty;
    var ids := 0;
    for i := 0 to |texts|
      invariant forall j :: 0 <= j < i ==> m.Tokens(texts[j]) <= ids
      invariant Max(1, ids) == MostTokens(m.Tokens, texts[..i])
    {
      assert texts[..i + 1][..i] == texts[..i];
      ids := Max(ids, m.Tokens(texts[i]));
    }
    assert texts[..|texts|] == texts;
    encodings := seq(|texts|, i requires 0 <= i < |texts| => Encoding(texts[i], ids));
    assert Texts(encodings) == texts;
    NoneIsLonger(encodings);
    if texts != [] {
      SeqLenOfEqual(encodings, ids);
    }
  }

  lemma PassPushes(vector: Text -> Vector, out: seq<Vector>, texts: seq<Text>, seqLen: nat)
    ensures Pushed(vector, out, out + Vectors(vector, texts), texts, [Pass(texts, seqLen)], true)
    ensures Pushed(vector, out, out, texts, [Pass(texts, seqLen)], false)
  {
    assert Rows([Pass(texts, seqLen)]) == Rows([]) + texts == texts;
    assert out[|out|..] == [] && (out + Vectors(vector, texts))[|out|..] == Vectors(vector, texts);
  }

  method PushVectors(vector: Text -> Vector, encodings: seq<Encoding>, out: seq<Vector>) returns (r: seq<Vector>)
    ensures r == out + Vectors(vector, Texts(encodings))
  {
    r := out;
    for row := 0 to |encodings|
      invariant |r| == |out| + row && (forall i :: 0 <= i < |out| ==> r[i] == out[i])
      invariant forall i :: 0 <= i < row ==> r[|out| + i] == vector(encodings[i].text)
    {
      r := r + [vector(encodings[row].text)];
    }
    AllVectors(vector, encodings, out, r);
  }

  lemma AllVectors(vector: Text -> Vector, encodings: seq<Encoding>, out: seq<Vector>, r: seq<Vector>)
    requires |r| == |out| + |encodings| && forall i :: 0 <= i < |out| ==> r[i] == out[i]
    requires forall i :: 0 <= i < |encodings| ==> r[|out| + i] == vector(encodings[i].text)
    ensures r == out + Vectors(vector, Texts(encodings))
  {
  }

  /** The session may fail; else it gives every row its vector. */
  method RunPass(m: Model, encodings: seq<Encoding>, seqLen: nat, out: seq<Vector>) returns (ok: bool, r: seq<Vector>)
    ensures !ok ==> m.faulty
    ensures Pushed(m.vector, out, r, Texts(encodings), [Pass(Texts(encodings), seqLen)], ok)
  {
    hide *;
    PassPushes(m.vector, out, Texts(encodings), seqLen);
    r := out;
    ok := *;
    ok := ok || !m.faulty;
    if !ok {
      return;
    }
    r := PushVectors(m.vector, encodings, out);
  }

  lemma OnePassBounded(tokens: Text -> nat, encodings: seq<Encoding>, seqLen: nat, budget: nat)
    requires Padded(tokens, encodings, seqLen) && budget <= USIZE_MAX
    requires |encodings| <= 1 || TrueCost(|encodings|, seqLen) <= budget
    ensures AllBounded(tokens, budget, [Pass(Texts(encodings), seqLen)])
  {
    assert |Texts(encodings)| == |encodings|;
  }

  /** The gate at the forward pass: a batch that is too costly is divided, one row is run whatever it costs. */
  method ForwardEncodings(m: Model, encodings: seq<Encoding>, seqLen: nat, budget: nat, out: seq<Vector>)
    returns (ok: bool, r: seq<Vector>, ghost ps: seq<Pass>)
    requires budget <= USIZE_MAX && Padded(m.Tokens, encodings, seqLen)
    ensures !ok ==> m.faulty
    ensures Pushed(m.vector, out, r, Texts(encodings), ps, ok)
    ensures |encodings| <= 1 || AttentionCost(|encodings|, seqLen) <= budget ==> ps == [Pass(Texts(encodings), seqLen)]
    ensures budget < USIZE_MAX ==> AllBounded(m.Tokens, budget, ps)
    decreases |encodings|, 1
  {
    hide *;
    if |encodings| > 1 && AttentionCost(|encodings|, seqLen) > budget {
      ok, r, ps := ForwardInParts(m, encodings, seqLen, budget, out);
    } else {
      CostFitsIff(|encodings|, seqLen, budget);
      if budget < USIZE_MAX {
        OnePassBounded(m.Tokens, encodings, seqLen, budget);
      }
      ok, r := RunPass(m, encodings, seqLen, out);
      ps := [Pass(Texts(encodings), seqLen)];
    }
  }

  /** The first `off` rows have been served, within the budget. */
  ghost predicate PartsDone(m: Model, encodings: seq<Encoding>, off: nat, budget: nat, out: seq<Vector>,
                            r: seq<Vector>, ps: seq<Pass>) {
    && off <= |encodings| && Pushed(m.vector, out, r, Texts(encodings[..off]), ps, true)
    && (budget < USIZE_MAX ==> AllBounded(m.Tokens, budget, ps))
  }

  lemma PartsStart(m: Model, encodings: seq<Encoding>, budget: nat, out: seq<Vector>)
    ensures PartsDone(m, encodings, 0, budget, out, out, [])
  {
    PushedNothing(m.vector, out, [], true);
    assert Texts(encodings[..0]) == [];
  }

  lemma PartsNext(m: Model, encodings: seq<Encoding>, off: nat, next: nat, budget: nat, out: seq<Vector>,
                  mid: seq<Vector>, r: seq<Vector>, ps: seq<Pass>, more: seq<Pass>, ok: bool)
    requires PartsDone(m, encodings, off, budget, out, mid, ps) && off <= next <= |encodings|
    requires Pushed(m.vector, mid, r, Texts(encodings[off..next]), more, ok)
    requires budget < USIZE_MAX ==> AllBounded(m.Tokens, budget, more)
    ensures ok ==> PartsDone(m, encodings, next, budget, out, r, ps + more)
    ensures !ok ==> Pushed(m.vector, out, r, Texts(encodings), ps + more, false)
    ensures budget < USIZE_MAX ==> AllBounded(m.Tokens, budget, ps + more)
  {
    var texts := Texts(encodings);
    assert |texts| == |encodings|;
    hide Pushed, Texts, AllBounded;
    TextsSlice(encodings, 0, off);
    TextsSlice(encodings, 0, next);
    TextsSlice(encodings, off, next);
    assert texts[0..off] == texts[..off] && texts[0..next] == texts[..next];
    assert encodings[0..off] == encodings[..off] && encodings[0..next] == encodings[..next];
    PushedNext(m.vector, out, mid, r, texts, off, next, ps, more, ok);
    if budget < USIZE_MAX {
      BoundedAppend(m.Tokens, budget, ps, more);
    }
  }

  lemma PartsEnd(m: Model, encodings: seq<Encoding>, budget: nat, out: seq<Vector>, r: seq<Vector>, ps: seq<Pass>)
    requires PartsDone(m, encodings, |encodings|, budget, out, r, ps)
    ensures Pushed(m.vector, out, r, Texts(encodings), ps, true)
    ensures budget < USIZE_MAX ==> AllBounded(m.Tokens, budget, ps)
  {
    assert encodings[..|encodings|] == encodings;
  }

  /** `off` is where part `k` begins. */
  ghost predicate PartBegins(sizes: seq<nat>, total: nat, maxN: nat, k: nat, off: nat) {
    Divides(sizes, total, maxN) && k <= |sizes| && off + Sum(sizes[k..]) == total
  }

  lemma PartAt(sizes: seq<nat>, total: nat, maxN: nat, k: nat, off: nat)
    requires PartBegins(sizes, total, maxN, k, off)
    ensures if k == |sizes| then off == total
      else 0 < sizes[k] <= maxN && off + sizes[k] <= total && PartBegins(sizes, total, maxN, k + 1, off + sizes[k])
  {
    if k < |sizes| {
      SizeAt(sizes, total, maxN, k);
    } else {
      SizesBefore(sizes, total, maxN);
    }
  }

  method ForwardInParts(m: Model, encodings: seq<Encoding>, seqLen: nat, budget: nat, out: seq<Vector>)
    returns (ok: bool, r: seq<Vector>, ghost ps: seq<Pass>)
    requires budget <= USIZE_MAX && Padded(m.Tokens, encodings, seqLen)
    requires |encodings| > 1 && AttentionCost(|encodings|, seqLen) > budget
    ensures !ok ==> m.faulty
    ensures Pushed(m.vector, out, r, Texts(encodings), ps, ok)
    ensures budget < USIZE_MAX ==> AllBounded(m.Tokens, budget, ps)
    decreases |encodings|, 0
  {
    SplitShrinks(|encodings|, seqLen, budget);
    var sizes := AttentionSubBatchSizes(|encodings|, seqLen, budget);
    ghost var maxN := MaxBatch(seqLen, budget);
    SizesBefore(sizes, |encodings|, maxN);
    var off: nat, k: nat := 0, 0;
    assert PartBegins(sizes, |encodings|, maxN, k, off);
    PartsStart(m, encodings, budget, out);
    hide *;
    ok, r, ps := true, out, [];
    while k < |sizes|
      invariant ok && k <= |sizes| && off <= |encodings| && PartBegins(sizes, |encodings|, maxN, k, off)
      invariant PartsDone(m, encodings, off, budget, out, r, ps)
    {
      PartAt(sizes, |encodings|, maxN, k, off);
      var next := off + sizes[k];
      PaddedSlice(m.Tokens, encodings, seqLen, off, next);
      ghost var mid, more := r, [];
      ok, r, more := ForwardEncodings(m, encodings[off..next], SeqLen(encodings[off..next]), budget, r);
      PartsNext(m, encodings, off, next, budget, out, mid, r, ps, more, ok);
      ps := ps + more;
      if !ok {
        return;
      }
      off, k := next, k + 1;
    }
    PartAt(sizes, |encodings|, maxN, k, off);
    PartsEnd(m, encodings, budget, out, r, ps);
  }

  /** Shorter rows fit in greater number. */
  lemma MaxBatchGrows(s: nat, t: nat, budget: nat)
    requires s <= t
    ensures MaxBatch(t, budget) <= MaxBatch(s, budget)
  {
    PerRowGrows(s, t);
    DivShrinks(budget, PerRow(s), PerRow(t));
    hide PerRow;
  }

  lemma PerRowGrows(s: nat, t: nat)
    requires s <= t
    ensures PerRow(s) <= PerRow(t)
  {
    var a, b := Max(s, 1), Max(t, 1);
    MulLe(a, b, a);
    MulLe(a, b, b);
  }

  lemma DivShrinks(budget: nat, p: nat, q: nat)
    requires 0 < p <= q
    ensures budget / q <= budget / p
  {
    var n := budget / q;
    DivFits(n, q, budget);
    MulLe(p, q, n);
    DivFits(n, p, budget);
  }

  /** One pass for each `n` texts, each padded to its own longest one. */
  ghost function Chunked(tokens: Text -> nat, texts: seq<Text>, n: nat): seq<Pass>
    requires n > 0
    decreases |texts|
  {
    if texts == [] then []
    else if |texts| <= n then [Pass(texts, MostTokens(tokens, texts))]
    else [Pass(texts[..n], MostTokens(tokens, texts[..n]))] + Chunked(tokens, texts[n..], n)
  }

  /** The passes over a batch: as many rows in each as its padded length allows. */
  ghost function PassesOf(tokens: Text -> nat, texts: seq<Text>, budget: nat): seq<Pass> {
    Chunked(tokens, texts, MaxBatch(MostTokens(tokens, texts), budget))
  }

  lemma ChunkedNext(tokens: Text -> nat, texts: seq<Text>, n: nat, off: nat, next: nat)
    requires n > 0 && off < |texts| && next == if off + n < |texts| then off + n else |texts|
    ensures var chunk := texts[off..next];
      Chunked(tokens, texts[off..], n) == [Pass(chunk, MostTokens(tokens, chunk))] + Chunked(tokens, texts[next..], n)
  {
    hide MostTokens;
    var rest := texts[off..];
    if |rest| <= n {
      assert rest == texts[off..next] && texts[next..] == [];
    } else {
      assert rest[..n] == texts[off..next] && rest[n..] == texts[next..];
    }
  }

  lemma ChunkedNone(tokens: Text -> nat, n: nat)
    requires n > 0
    ensures Chunked(tokens, [], n) == []
  {
  }

  lemma OneChunk(tokens: Text -> nat, texts: seq<Text>, budget: nat)
    requires 0 < |texts| <= MaxBatch(MostTokens(tokens, texts), budget)
    ensures PassesOf(tokens, texts, budget) == [Pass(texts, MostTokens(tokens, texts))]
  {
    hide MostTokens, MaxBatch;
  }

  lemma PassesAre(tokens: Text -> nat, texts: seq<Text>, budget: nat)
    ensures MaxBatch(MostTokens(tokens, texts), budget) > 0
    ensures PassesOf(tokens, texts, budget) == Chunked(tokens, texts, MaxBatch(MostTokens(tokens, texts), budget))
  {
    MaxBatchPositive(MostTokens(tokens, texts), budget);
    hide MostTokens, MaxBatch, Chunked;
  }

  /** The authoritative gate: once the padded length is known, the texts are divided into as few passes as that length
      allows, each of which fits when it is padded anew. Every pass of two rows or more is within the budget, in true
      arithmetic and for every budget. */
  method EmbedTokenizedAttentionSafe(m: Model, texts: seq<Text>, budget: nat, out: seq<Vector>)
    returns (ok: bool, r: seq<Vector>, ghost ps: seq<Pass>)
    requires budget <= USIZE_MAX
    ensures !ok ==> m.faulty
    ensures Pushed(m.vector, out, r, texts, ps, ok)
    ensures AllBounded(m.Tokens, budget, ps)
    ensures ok ==> ps == PassesOf(m.Tokens, texts, budget)
    decreases |texts|, 1
  {
    assert AllBounded(m.Tokens, budget, []);
    hide *;
    r, ps := out, [];
    PushedNothing(m.vector, out, texts, texts == []);
    PassesAre(m.Tokens, texts, budget);
    if texts == [] {
      ChunkedNone(m.Tokens, MaxBatch(MostTokens(m.Tokens, texts), budget));
      return true, r, ps;
    }
    var cancelled := IsCancelled(m);
    if cancelled {
      return false, r, ps;
    }
    var encodings;
    ok, encodings := EncodeBatch(m, texts);
    if !ok {
      return;
    }
    var seqLen := SeqLen(encodings);
    var maxN := MaxBatch(seqLen, budget);
    MaxBatchPositive(seqLen, budget);
    TextsLength(encodings);
    if |texts| <= maxN {
      FitsInOnePass(m.Tokens, encodings, seqLen, budget);
      OneChunk(m.Tokens, texts, budget);
      ok, r, ps := ForwardEncodings(m, encodings, seqLen, budget, out);
      return;
    }
    ok, r, ps := EmbedInChunks(m, texts, seqLen, budget, out);
  }

  /** The first `off` texts have been served, in passes of `maxN` rows. */
  ghost predicate ChunksDone(m: Model, texts: seq<Text>, maxN: nat, off: nat, budget: nat, out: seq<Vector>,
                             r: seq<Vector>, ps: seq<Pass>) {
    && 0 < maxN && off <= |texts| && Pushed(m.vector, out, r, texts[..off], ps, true)
    && AllBounded(m.Tokens, budget, ps)
    && ps + Chunked(m.Tokens, texts[off..], maxN) == Chunked(m.Tokens, texts, maxN)
  }

  lemma ChunksStart(m: Model, texts: seq<Text>, maxN: nat, budget: nat, out: seq<Vector>)
    requires 0 < maxN
    ensures ChunksDone(m, texts, maxN, 0, budget, out, out, [])
  {
    hide Chunked, Pushed;
    PushedNothing(m.vector, out, [], true);
    assert texts[..0] == [] && texts[0..] == texts;
  }

  lemma ChunksNext(m: Model, texts: seq<Text>, maxN: nat, off: nat, next: nat, budget: nat, out: seq<Vector>,
                   mid: seq<Vector>, r: seq<Vector>, ps: seq<Pass>, more: seq<Pass>, ok: bool)
    requires ChunksDone(m, texts, maxN, off, budget, out, mid, ps)
    requires maxN == MaxBatch(MostTokens(m.Tokens, texts), budget)
    requires off < |texts| && next == if off + maxN < |texts| then off + maxN else |texts|
    requires Pushed(m.vector, mid, r, texts[off..next], more, ok) && AllBounded(m.Tokens, budget, more)
    requires ok ==> more == PassesOf(m.Tokens, texts[off..next], budget)
    ensures ok ==> ChunksDone(m, texts, maxN, next, budget, out, r, ps + more)
    ensures !ok ==> Pushed(m.vector, out, r, texts, ps + more, false)
    ensures AllBounded(m.Tokens, budget, ps + more)
  {
    hide Pushed, AllBounded, Chunked, PassesOf, MaxBatch, MostTokens;
    PushedNext(m.vector, out, mid, r, texts, off, next, ps, more, ok);
    BoundedAppend(m.Tokens, budget, ps, more);
    MostOfPart(m.Tokens, texts, off, next);
    MaxBatchGrows(MostTokens(m.Tokens, texts[off..next]), MostTokens(m.Tokens, texts), budget);
    OneChunk(m.Tokens, texts[off..next], budget);
    ChunkedNext(m.Tokens, texts, maxN, off, next);
    if ok {
      assert ps + more + Chunked(m.Tokens, texts[next..], maxN) == ps + Chunked(m.Tokens, texts[off..], maxN);
    }
  }

  lemma ChunksEnd(m: Model, texts: seq<Text>, maxN: nat, budget: nat, out: seq<Vector>, r: seq<Vector>, ps: seq<Pass>)
    requires ChunksDone(m, texts, maxN, |texts|, budget, out, r, ps)
    ensures Pushed(m.vector, out, r, texts, ps, true) && AllBounded(m.Tokens, budget, ps)
    ensures ps == Chunked(m.Tokens, texts, maxN)
  {
    hide Pushed, AllBounded, Chunked;
    ChunkedNone(m.Tokens, maxN);
    assert texts[|texts|..] == [] && texts[..|texts|] == texts;
  }

  lemma ChunksStopped(m: Model, texts: seq<Text>, maxN: nat, off: nat, budget: nat, out: seq<Vector>, r: seq<Vector>,
                      ps: seq<Pass>)
    requires ChunksDone(m, texts, maxN, off, budget, out, r, ps)
    ensures Pushed(m.vector, out, r, texts, ps, false) && AllBounded(m.Tokens, budget, ps)
  {
    hide Pushed, AllBounded, Chunked;
    StoppedHere(m.vector, out, r, texts, off, ps);
  }

  /** The texts are tokenized again, `MaxBatch` at a time. */
  method EmbedInChunks(m: Model, texts: seq<Text>, seqLen: nat, budget: nat, out: seq<Vector>)
    returns (ok: bool, r: seq<Vector>, ghost ps: seq<Pass>)
    requires budget <= USIZE_MAX && seqLen == MostTokens(m.Tokens, texts) && MaxBatch(seqLen, budget) < |texts|
    ensures !ok ==> m.faulty
    ensures Pushed(m.vector, out, r, texts, ps, ok)
    ensures AllBounded(m.Tokens, budget, ps)
    ensures ok ==> ps == PassesOf(m.Tokens, texts, budget)
    decreases |texts|, 0
  {
    hide *;
    var maxN := MaxBatch(seqLen, budget);
    PassesAre(m.Tokens, texts, budget);
    ChunksStart(m, texts, maxN, budget, out);
    ok, r, ps := true, out, [];
    var off := 0;
    while off < |texts|
      invariant ok && off <= |texts| && ChunksDone(m, texts, maxN, off, budget, out, r, ps)
    {
      var next := if off + maxN < |texts| then off + maxN else |texts|;
      var cancelled := IsCancelled(m);
      if cancelled {
        ChunksStopped(m, texts, maxN, off, budget, out, r, ps);
        return false, r, ps;
      }
      ghost var mid, more := r, [];
      ok, r, more := EmbedTokenizedAttentionSafe(m, texts[off..next], budget, r);
      ChunksNext(m, texts, maxN, off, next, budget, out, mid, r, ps, more, ok);
      ps := ps + more;
      if !ok {
        return;
      }
      off := next;
    }
    ChunksEnd(m, texts, maxN, budget, out, r, ps);
  }

  /** A batch of at most `MaxBatch` rows is not divided further, and its one pass is within the budget. */
  lemma FitsInOnePass(tokens: Text -> nat, encodings: seq<Encoding>, seqLen: nat, budget: nat)
    requires budget <= USIZE_MAX && Padded(tokens, encodings, seqLen) && |encodings| <= MaxBatch(seqLen, budget)
    ensures |encodings| <= 1 || AttentionCost(|encodings|, seqLen) <= budget
    ensures AllBounded(tokens, budget, [Pass(Texts(encodings), seqLen)])
  {
    hide MaxBatch, AttentionCost, TrueCost, Padded, AllBounded;
    if |encodings| >= 2 {
      MaxBatchIff(|encodings|, seqLen, budget);
      CostFitsIff(|encodings|, seqLen, budget);
    }
    OnePassBounded(tokens, encodings, seqLen, budget);
  }

  lemma StoppedHere(vector: Text -> Vector, out: seq<Vector>, r: seq<Vector>, texts: seq<Text>, off: nat, ps: seq<Pass>)
    requires off <= |texts| && Pushed(vector, out, r, texts[..off], ps, true)
    ensures Pushed(vector, out, r, texts, ps, false)
  {
    ServedPart(vector, texts[..off], texts[off..], ps, r[|out|..], true);
    assert texts[..off] + texts[off..] == texts;
  }

  // ----- whole texts

  function WindowTexts(ws: seq<T.Window>): seq<Text> {
    seq(|ws|, i requires 0 <= i < |ws| => ws[i].text)
  }

  /** The windows of a text: they cover it, and an empty text has one empty window. */
  ghost predicate Pieces(text: Text, windowBytes: nat, overlapBytes: nat, pieces: seq<Text>) {
    if text == [] then pieces == [[]]
    else exists ws :: T.Windows(text, windowBytes, overlapBytes, ws) && pieces == WindowTexts(ws)
  }

  ghost predicate AllPieces(texts: seq<Text>, windowBytes: nat, overlapBytes: nat, parts: seq<seq<Text>>) {
    |parts| == |texts| && forall i :: 0 <= i < |texts| ==> Pieces(texts[i], windowBytes, overlapBytes, parts[i])
  }

  /** Text, size and overlap determine the pieces. */
  lemma PiecesAreUnique(text: Text, windowBytes: nat, overlapBytes: nat, a: seq<Text>, b: seq<Text>)
    requires Pieces(text, windowBytes, overlapBytes, a) && Pieces(text, windowBytes, overlapBytes, b)
    ensures a == b
  {
    hide T.Windows;
    if text != [] {
      var wsA :| T.Windows(text, windowBytes, overlapBytes, wsA) && a == WindowTexts(wsA);
      var wsB :| T.Windows(text, windowBytes, overlapBytes, wsB) && b == WindowTexts(wsB);
      T.WindowsAreUnique(text, windowBytes, overlapBytes, wsA, wsB);
    }
  }

  /** A text within the window size is embedded in one piece. */
  lemma ShortTextIsOnePiece(text: Text, windowBytes: nat, overlapBytes: nat, pieces: seq<Text>)
    requires Pieces(text, windowBytes, overlapBytes, pieces) && |text| <= windowBytes
    ensures pieces == [text]
  {
    hide T.Windows;
    if text != [] {
      var ws :| T.Windows(text, windowBytes, overlapBytes, ws) && pieces == WindowTexts(ws);
      T.SmallTextIsOneWindow(text, windowBytes, overlapBytes, ws);
    }
  }

  ghost predicate Counted<X>(parts: seq<seq<X>>, counts: seq<nat>) {
    |counts| == |parts| && forall i :: 0 <= i < |parts| ==> counts[i] == |parts[i]|
  }

  function Lengths(texts: seq<Text>): seq<nat> {
    seq(|texts|, i requires 0 <= i < |texts| => |texts[i]|)
  }

  method PiecesOf(text: Text, windowBytes: nat, overlapBytes: nat) returns (pieces: seq<Text>)
    ensures Pieces(text, windowBytes, overlapBytes, pieces) && |pieces| > 0
  {
    var ws := T.WindowText(text, windowBytes, overlapBytes);
    pieces := if ws == [] then [[]] else WindowTexts(ws);
  }

  method ExpandTextsToWindows(texts: seq<Text>, windowBytes: nat, overlapBytes: nat)
    returns (windows: seq<Text>, counts: seq<nat>, ghost parts: seq<seq<Text>>)
    ensures AllPieces(texts, windowBytes, overlapBytes, parts) && Counted(parts, counts) && windows == Flat(parts)
    ensures forall i :: 0 <= i < |counts| ==> counts[i] > 0
  {
    windows, counts, parts := [], [], [];
    assert AllPieces(texts[..0], windowBytes, overlapBytes, parts) && Counted(parts, counts);
    hide Pieces, AllPieces, Counted;
    for i := 0 to |texts|
      invariant AllPieces(texts[..i], windowBytes, overlapBytes, parts) && Counted(parts, counts)
      invariant windows == Flat(parts) && forall j :: 0 <= j < |counts| ==> counts[j] > 0
    {
      var pieces := PiecesOf(texts[i], windowBytes, overlapBytes);
      PiecesMore(texts, i, windowBytes, overlapBytes, parts, counts, pieces);
      windows := windows + pieces;
      counts := counts + [|pieces|];
      parts := parts + [pieces];
    }
    assert texts[..|texts|] == texts;
  }

  lemma PiecesMore(texts: seq<Text>, i: nat, windowBytes: nat, overlapBytes: nat, parts: seq<seq<Text>>,
                   counts: seq<nat>, pieces: seq<Text>)
    requires i < |texts| && AllPieces(texts[..i], windowBytes, overlapBytes, parts) && Counted(parts, counts)
    requires Pieces(texts[i], windowBytes, overlapBytes, pieces)
    ensures AllPieces(texts[..i + 1], windowBytes, overlapBytes, parts + [pieces])
    ensures Counted(parts + [pieces], counts + [|pieces|])
    ensures Flat(parts + [pieces]) == Flat(parts) + pieces
  {
    hide Pieces;
    var more := parts + [pieces];
    assert more[..|more| - 1] == parts && more[|more| - 1] == pieces;
    assert forall j :: 0 <= j < i ==> texts[..i + 1][j] == texts[..i][j];
  }

  /** One vector for each text, from the vectors of its own windows. */
  method PoolWindowVectors(m: Model, vectors: seq<Vector>, counts: seq<nat>, ghost parts: seq<seq<Text>>)
    returns (r: seq<Vector>)
    requires Counted(parts, counts) && vectors == Vectors(m.vector, Flat(parts))
    ensures |r| == |parts| && forall i :: 0 <= i < |parts| ==> r[i] == m.pool(Vectors(m.vector, parts[i]))
  {
    r := [];
    var idx := 0;
    for i := 0 to |counts|
      invariant |r| == i && idx == |Flat(parts[..i])| <= |vectors|
      invariant forall j :: 0 <= j < i ==> r[j] == m.pool(Vectors(m.vector, parts[j]))
    {
      FlatAt(parts, i);
      assert vectors[idx..idx + counts[i]] == Vectors(m.vector, Flat(parts)[idx..idx + counts[i]]);
      r := r + [m.pool(vectors[idx..idx + counts[i]])];
      idx := idx + counts[i];
    }
  }

  lemma {:induction false} PassWithin(ps: seq<Pass>, k: nat)
    requires k < |ps|
    ensures |ps[k].rows| <= |Rows(ps)|
  {
    if k < |ps| - 1 {
      PassWithin(ps[..|ps| - 1], k);
    }
  }

  /** No pass has more rows than the batch size. */
  ghost predicate Narrow(ps: seq<Pass>, batchSize: nat) {
    forall k :: 0 <= k < |ps| ==> |ps[k].rows| <= batchSize
  }

  lemma NarrowAppend(vector: Text -> Vector, mid: seq<Vector>, r: seq<Vector>, texts: seq<Text>, a: seq<Pass>,
                     b: seq<Pass>, ok: bool, batchSize: nat)
    requires Narrow(a, batchSize) && Pushed(vector, mid, r, texts, b, ok) && |texts| <= batchSize
    ensures Narrow(a + b, batchSize)
  {
    hide Rows, Vectors;
    forall k | 0 <= k < |b| ensures |b[k].rows| <= batchSize {
      PassWithin(b, k);
    }
  }

  lemma NarrowNone(batchSize: nat)
    ensures Narrow([], batchSize)
  {
  }

  /** The passes over the texts of one group, in batches. */
  ghost function InBatches(tokens: Text -> nat, texts: seq<Text>, batchSize: nat, budget: nat): seq<Pass>
    requires batchSize > 0
    decreases |texts|
  {
    if |texts| <= batchSize then PassesOf(tokens, texts, budget)
    else PassesOf(tokens, texts[..batchSize], budget) + InBatches(tokens, texts[batchSize..], batchSize, budget)
  }

  lemma InBatchesNext(tokens: Text -> nat, texts: seq<Text>, batchSize: nat, budget: nat, off: nat, next: nat, end: nat)
    requires batchSize > 0 && off < end <= |texts| && next == if off + batchSize < end then off + batchSize else end
    ensures InBatches(tokens, texts[off..end], batchSize, budget)
      == PassesOf(tokens, texts[off..next], budget) + InBatches(tokens, texts[next..end], batchSize, budget)
  {
    var rest := texts[off..end];
    InBatchesNone(tokens, batchSize, budget);
    hide PassesOf;
    if |rest| <= batchSize {
      assert rest == texts[off..next] && texts[next..end] == [];
    } else {
      assert rest[..batchSize] == texts[off..next] && rest[batchSize..] == texts[next..end];
    }
  }

  lemma InBatchesNone(tokens: Text -> nat, batchSize: nat, budget: nat)
    requires batchSize > 0
    ensures InBatches(tokens, [], batchSize, budget) == []
  {
    PassesAre(tokens, [], budget);
    ChunkedNone(tokens, MaxBatch(MostTokens(tokens, []), budget));
  }

  /** The passes over all groups, one group after another. */
  ghost function OverGroups(tokens: Text -> nat, windows: seq<Text>, groups: seq<Range>, batchSize: nat, budget: nat)
    : seq<Pass>
    requires batchSize > 0
  {
    if groups == [] then []
    else
      var g := groups[|groups| - 1];
      OverGroups(tokens, windows, groups[..|groups| - 1], batchSize, budget)
      + InBatches(tokens, if g.start <= g.end <= |windows| then windows[g.start..g.end] else [], batchSize, budget)
  }

  lemma OverGroupsNext(tokens: Text -> nat, windows: seq<Text>, groups: seq<Range>, k: nat, batchSize: nat, budget: nat)
    requires batchSize > 0 && k < |groups| && groups[k].start <= groups[k].end <= |windows|
    ensures OverGroups(tokens, windows, groups[..k + 1], batchSize, budget)
      == OverGroups(tokens, windows, groups[..k], batchSize, budget)
         + InBatches(tokens, windows[groups[k].start..groups[k].end], batchSize, budget)
  {
    hide InBatches;
    assert groups[..k + 1][..k] == groups[..k];
  }

  /** One group of windows, in chunks of the batch size. */
  method EmbedGroup(m: Model, windows: seq<Text>, start: nat, end: nat, batchSize: nat, budget: nat,
                    out: seq<Vector>, ghost before: seq<Pass>)
    returns (ok: bool, r: seq<Vector>, ghost ps: seq<Pass>)
    requires start <= end <= |windows| && batchSize > 0 && budget <= USIZE_MAX
    requires Pushed(m.vector, [], out, windows[..start], before, true) && AllBounded(m.Tokens, budget, before)
    requires Narrow(before, batchSize)
    ensures !ok ==> m.faulty
    ensures ok ==> Pushed(m.vector, [], r, windows[..end], ps, true)
    ensures !ok ==> Pushed(m.vector, [], r, windows, ps, false)
    ensures AllBounded(m.Tokens, budget, ps) && Narrow(ps, batchSize)
    ensures ok ==> ps == before + InBatches(m.Tokens, windows[start..end], batchSize, budget)
  {
    hide *;
    ok, r, ps := true, out, before;
    var off := start;
    ghost var goal := before + InBatches(m.Tokens, windows[start..end], batchSize, budget);
    while off < end
      invariant start <= off <= end && ok && Pushed(m.vector, [], r, windows[..off], ps, true)
      invariant AllBounded(m.Tokens, budget, ps) && Narrow(ps, batchSize)
      invariant ps + InBatches(m.Tokens, windows[off..end], batchSize, budget) == goal
    {
      var cancelled := IsCancelled(m);
      if cancelled {
        StoppedHere(m.vector, [], r, windows, off, ps);
        ok := false;
        return;
      }
      var next := if off + batchSize < end then off + batchSize else end;
      ghost var mid, more := r, [];
      ok, r, more := EmbedTokenizedAttentionSafe(m, windows[off..next], budget, r);
      PushedNext(m.vector, [], mid, r, windows, off, next, ps, more, ok);
      NarrowAppend(m.vector, mid, r, windows[off..next], ps, more, ok, batchSize);
      BoundedAppend(m.Tokens, budget, ps, more);
      InBatchesNext(m.Tokens, windows, batchSize, budget, off, next, end);
      ps := ps + more;
      if !ok {
        return;
      }
      off := next;
    }
    assert windows[off..end] == [];
    InBatchesNone(m.Tokens, batchSize, budget);
  }

  /** A window is short enough for the limit if the characters of its text are. */
  lemma PieceIsShort(text: Text, requested: Option<nat>, maxSeq: nat, overlapBytes: nat, pieces: seq<Text>, k: nat)
    requires Pieces(text, W.EffectiveWindowBytes(requested, maxSeq), overlapBytes, pieces) && k < |pieces|
    requires W.CharactersFit(text, maxSeq)
    ensures |pieces[k]| + W.SPECIAL_TOKEN_RESERVE <= maxSeq
  {
    if text != [] {
      var size := W.EffectiveWindowBytes(requested, maxSeq);
      var ws :| T.Windows(text, size, overlapBytes, ws) && pieces == WindowTexts(ws);
      W.NeverTruncatedIff(text, requested, maxSeq, ws);
      assert W.NeverTruncated(maxSeq, ws[k]);
    }
  }

  lemma {:induction false} PartOf<X>(parts: seq<seq<X>>, x: X) returns (i: nat, k: nat)
    requires x in Flat(parts)
    ensures i < |parts| && k < |parts[i]| && parts[i][k] == x
  {
    var last := |parts| - 1;
    if x in parts[last] {
      i := last;
      k :| k < |parts[last]| && parts[last][k] == x;
    } else {
      i, k := PartOf(parts[..last], x);
    }
  }

  lemma {:induction false} RowOf(ps: seq<Pass>, k: nat, t: Text)
    requires k < |ps| && t in ps[k].rows
    ensures t in Rows(ps)
  {
    if k < |ps| - 1 {
      RowOf(ps[..|ps| - 1], k, t);
    }
  }

  /** No row of any pass loses a token, and its whole length fits the pass. */
  ghost predicate Whole(m: Model, ps: seq<Pass>) {
    forall k, t :: 0 <= k < |ps| && t in ps[k].rows ==> !m.Truncates(t) && m.length(t) <= ps[k].seqLen
  }

  /** The tokenizer makes at most one token of a byte, and adds no more special tokens than are reserved. */
  ghost predicate WithinReserve(length: Text -> nat) {
    forall t :: length(t) <= |t| + W.SPECIAL_TOKEN_RESERVE
  }

  /** Truncation never fires if every character fits the limit, whatever window size is asked for. */
  lemma NoTokenIsLost(m: Model, texts: seq<Text>, requested: Option<nat>, overlapBytes: nat,
                      parts: seq<seq<Text>>, budget: nat, ps: seq<Pass>)
    requires WithinReserve(m.length) && forall i :: 0 <= i < |texts| ==> W.CharactersFit(texts[i], m.maxSeq)
    requires AllPieces(texts, W.EffectiveWindowBytes(requested, m.maxSeq), overlapBytes, parts)
    requires Rows(ps) <= Flat(parts) && AllBounded(m.Tokens, budget, ps)
    ensures Whole(m, ps)
  {
    hide Pieces, W.EffectiveWindowBytes, W.CharactersFit;
    forall k, t | 0 <= k < |ps| && t in ps[k].rows ensures !m.Truncates(t) && m.length(t) <= ps[k].seqLen {
      RowOf(ps, k, t);
      assert t in Flat(parts);
      var i, j := PartOf(parts, t);
      PieceIsShort(texts[i], requested, m.maxSeq, overlapBytes, parts[i], j);
      assert Bounded(m.Tokens, budget, ps[k]);
    }
  }

  /** From a limit of eight tokens on, no token of a UTF-8 text is lost in any row of any pass. */
  lemma NoUtf8TokenIsLost(m: Model, texts: seq<Text>, requested: Option<nat>, overlapBytes: nat,
                          parts: seq<seq<Text>>, budget: nat, ps: seq<Pass>)
    requires WithinReserve(m.length) && m.maxSeq >= 8 && forall i :: 0 <= i < |texts| ==> W.Utf8Narrow(texts[i])
    requires AllPieces(texts, W.EffectiveWindowBytes(requested, m.maxSeq), overlapBytes, parts)
    requires Rows(ps) <= Flat(parts) && AllBounded(m.Tokens, budget, ps)
    ensures Whole(m, ps)
  {
    hide Pieces, W.EffectiveWindowBytes, Whole, Rows, Flat, AllBounded, WithinReserve;
    NoTokenIsLost(m, texts, requested, overlapBytes, parts, budget, ps);
  }

  /** Every text gets exactly one vector, in order: the pooled vectors of windows that cover it, each of which went
      through exactly one pass. Whether or not the call succeeds, no pass of two rows or more is over the budget, and no
      row is truncated if the characters of the texts fit the limit. */
  method EmbedBatched(m: Model, texts: seq<Text>, batchSize: nat, requested: Option<nat>, overlapBytes: nat,
                      budget: nat)
    returns (ok: bool, r: seq<Vector>, ghost parts: seq<seq<Text>>, ghost groups: seq<Range>, ghost ps: seq<Pass>)
    requires 0 < budget <= USIZE_MAX
    ensures !ok ==> m.faulty
    ensures AllPieces(texts, W.EffectiveWindowBytes(requested, m.maxSeq), overlapBytes, parts)
    ensures if ok then Rows(ps) == Flat(parts) else Rows(ps) <= Flat(parts)
    ensures ok ==> |r| == |texts| && forall i :: 0 <= i < |texts| ==> r[i] == m.pool(Vectors(m.vector, parts[i]))
    ensures Packed(Lengths(Flat(parts)), budget, groups, |Lengths(Flat(parts))|)
    ensures ok ==> ps == OverGroups(m.Tokens, Flat(parts), groups, Max(batchSize, 1), budget)
    ensures AllBounded(m.Tokens, budget, ps) && Narrow(ps, Max(batchSize, 1))
    ensures WithinReserve(m.length) && (forall i :: 0 <= i < |texts| ==> W.CharactersFit(texts[i], m.maxSeq)) ==>
      Whole(m, ps)
  {
    var windowBytes := W.EffectiveWindowBytes(requested, m.maxSeq);
    ok, r, parts, groups, ps := EmbedWindows(m, texts, batchSize, windowBytes, overlapBytes, budget);
    hide *;
    if WithinReserve(m.length) && forall i :: 0 <= i < |texts| ==> W.CharactersFit(texts[i], m.maxSeq) {
      NoTokenIsLost(m, texts, requested, overlapBytes, parts, budget, ps);
    }
  }

  method EmbedWindows(m: Model, texts: seq<Text>, batchSize: nat, windowBytes: nat, overlapBytes: nat, budget: nat)
    returns (ok: bool, r: seq<Vector>, ghost parts: seq<seq<Text>>, ghost groups: seq<Range>, ghost ps: seq<Pass>)
    requires 0 < budget <= USIZE_MAX
    ensures !ok ==> m.faulty
    ensures AllPieces(texts, windowBytes, overlapBytes, parts)
    ensures if ok then Rows(ps) == Flat(parts) else Rows(ps) <= Flat(parts)
    ensures ok ==> |r| == |texts| && forall i :: 0 <= i < |texts| ==> r[i] == m.pool(Vectors(m.vector, parts[i]))
    ensures Packed(Lengths(Flat(parts)), budget, groups, |Lengths(Flat(parts))|)
    ensures ok ==> ps == OverGroups(m.Tokens, Flat(parts), groups, Max(batchSize, 1), budget)
    ensures AllBounded(m.Tokens, budget, ps) && Narrow(ps, Max(batchSize, 1))
  {
    parts, groups, ps := [], [], [];
    if texts == [] {
      return true, [], [], [], [];
    }
    var width := if batchSize < 1 then 1 else batchSize;
    var windows, counts;
    windows, counts, parts := ExpandTextsToWindows(texts, windowBytes, overlapBytes);
    var lens := Lengths(windows);
    var packed := PackWindowsForAttention(lens, budget);
    groups := packed;
    hide *;
    var out;
    ok, out, ps := EmbedGroups(m, windows, packed, width, budget);
    AllPushed(m.vector, out, windows, ps, ok);
    if !ok {
      return false, [], parts, groups, ps;
    }
    PartsLength(texts, windowBytes, overlapBytes, parts);
    r := PoolWindowVectors(m, out, counts, parts);
  }

  lemma PartsLength(texts: seq<Text>, windowBytes: nat, overlapBytes: nat, parts: seq<seq<Text>>)
    requires AllPieces(texts, windowBytes, overlapBytes, parts)
    ensures |parts| == |texts|
  {
  }

  lemma GroupAt(lens: seq<nat>, budget: nat, groups: seq<Range>, g: nat)
    requires Packed(lens, budget, groups, |lens|) && g < |groups|
    ensures groups[g].start == if g == 0 then 0 else groups[g - 1].end
    ensures groups[g].start < groups[g].end <= |lens|
  {
    hide GroupFits;
    GroupRange(lens, budget, groups[g]);
  }

  lemma LastGroupEnds(lens: seq<nat>, budget: nat, groups: seq<Range>)
    requires Packed(lens, budget, groups, |lens|)
    ensures (if groups == [] then 0 else groups[|groups| - 1].end) == |lens|
  {
    hide GroupFits;
  }

  method EmbedGroups(m: Model, windows: seq<Text>, groups: seq<Range>, width: nat, budget: nat)
    returns (ok: bool, out: seq<Vector>, ghost ps: seq<Pass>)
    requires 0 < budget <= USIZE_MAX && width > 0
    requires Packed(Lengths(windows), Max(budget, 1), groups, |Lengths(windows)|)
    ensures ok ==> ps == OverGroups(m.Tokens, windows, groups, width, budget)
    ensures !ok ==> m.faulty
    ensures Pushed(m.vector, [], out, windows, ps, ok)
    ensures AllBounded(m.Tokens, budget, ps) && Narrow(ps, width)
  {
    out, ps := [], [];
    assert windows[..0] == [] && windows[..|windows|] == windows;
    PushedNothing(m.vector, out, [], true);
    NarrowNone(width);
    assert AllBounded(m.Tokens, budget, []);
    ghost var lens := Lengths(windows);
    assert |lens| == |windows| && groups[..0] == [] && groups[..|groups|] == groups;
    assert OverGroups(m.Tokens, windows, [], width, budget) == [];
    LastGroupEnds(lens, Max(budget, 1), groups);
    hide *;
    ok := true;
    var g := 0;
    while g < |groups|
      invariant g <= |groups| && ok
      invariant Pushed(m.vector, [], out, windows[..if g == 0 then 0 else groups[g - 1].end], ps, true)
      invariant AllBounded(m.Tokens, budget, ps) && Narrow(ps, width)
      invariant ps == OverGroups(m.Tokens, windows, groups[..g], width, budget)
    {
      GroupAt(lens, Max(budget, 1), groups, g);
      var cancelled := IsCancelled(m);
      if cancelled {
        StoppedHere(m.vector, [], out, windows, groups[g].start, ps);
        return false, out, ps;
      }
      OverGroupsNext(m.Tokens, windows, groups, g, width, budget);
      ok, out, ps := EmbedGroup(m, windows, groups[g].start, groups[g].end, width, budget, out, ps);
      if !ok {
        return;
      }
      g := g + 1;
    }
  }

  lemma AllPushed(vector: Text -> Vector, out: seq<Vector>, texts: seq<Text>, ps: seq<Pass>, ok: bool)
    requires Pushed(vector, [], out, texts, ps, ok)
    ensures if ok then out == Vectors(vector, texts) && Rows(ps) == texts else Rows(ps) <= texts
  {
    assert out[0..] == out;
  }

  /** The windows of a text hold all of it. */
  lemma PiecesHoldText(text: Text, windowBytes: nat, overlapBytes: nat, pieces: seq<Text>) returns (ws: seq<T.Window>)
    requires Pieces(text, windowBytes, overlapBytes, pieces) && text != []
    ensures pieces == WindowTexts(ws) && T.Rebuild(ws).out == text
  {
    ws :| T.Windows(text, windowBytes, overlapBytes, ws) && pieces == WindowTexts(ws);
    T.ReconstructsText(text, windowBytes, ws);
  }
}
