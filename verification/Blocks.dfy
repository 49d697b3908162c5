// Block and timestamp ranges: the range grammar, sampling, and the blocks a range selects.
module Blocks {
  import opened Prelude
  import opened Timestamps

  // One side of a range, already read as text: a plain number, a number with a sign in
  // front, `latest`, or nothing.
  datatype Ref = Plain(n: nat) | Minus(n: nat) | Plus(n: nat) | Latest | Empty

  datatype RangePosition = First | Last

  // The newest block, or its timestamp, when the first end of a range is read and when the second
  // end is: every reading asks the node anew.
  datatype Heads = Heads(first: U64, second: U64)

  datatype BlockChunk = Numbers(blocks: seq<nat>) | Range(start: nat, end: nat)

  function CheckedSub(a: nat, b: nat): Result<nat> {
    if b <= a then Ok(a - b) else Err(Invalid("underflow"))
  }

  function CheckedAdd(a: nat, b: nat): Result<nat> {
    if a + b < U64_LIMIT then Ok(a + b) else Err(Invalid("overflow"))
  }

  // A reference on its own. A leading plus reads as nothing; a leading minus is out of
  // range, except in front of zero.
  function RefNumber(r: Ref, position: RangePosition, latest: nat): Result<nat> {
    match r
    case Latest => Ok(latest)
    case Empty => if position == First then Ok(0) else Ok(latest)
    case Plain(n) => Ok(n)
    case Plus(n) => Ok(n)
    case Minus(n) => if n == 0 then Ok(0) else Err(OutOfRange(-(n as int)))
  }

  // The ends of a range before the inclusive adjustment; the same for blocks and for
  // timestamps.
  function RawRange(first: Ref, second: Ref, heads: Heads): Result<(nat, nat)> {
    if first.Minus? then
      var end :- RefNumber(second, Last, heads.second);
      var start :- CheckedSub(end, first.n);
      Ok((start, end))
    else if second.Plus? then
      var start :- RefNumber(first, First, heads.first);
      var end :- CheckedAdd(start, second.n);
      Ok((start, end))
    else
      var start :- RefNumber(first, First, heads.first);
      var end :- RefNumber(second, Last, heads.second);
      Ok((start, end))
  }

  // A written end is exclusive, unless the range starts with a minus.
  predicate ExclusiveEnd(first: Ref, second: Ref) {
    second != Latest && second != Empty && !first.Minus?
  }

  function InclusiveEnd(first: Ref, second: Ref, end: nat): Result<nat> {
    if ExclusiveEnd(first, second) then CheckedSub(end, 1) else Ok(end)
  }

  function ParseBlockRange(first: Ref, second: Ref, heads: Heads): Result<(nat, nat)> {
    var raw :- RawRange(first, second, heads);
    var end :- InclusiveEnd(first, second, raw.1);
    var start :- if first.Minus? then CheckedAdd(raw.0, 1) else Ok(raw.0);
    Ok((start, end))
  }

  function ParseTimestampRange(first: Ref, second: Ref, heads: Heads): Result<(nat, nat)> {
    var raw :- RawRange(first, second, heads);
    var end :- InclusiveEnd(first, second, raw.1);
    Ok((raw.0, end))
  }

  // The number that a side of a range stands for, with `open` for an empty one; a number
  // with a minus in front stands for none, except in front of zero.
  function Meant(r: Ref, open: nat, latest: nat): Option<nat> {
    match r
    case Latest => Some(latest)
    case Empty => Some(open)
    case Plain(n) => Some(n)
    case Plus(n) => Some(n)
    case Minus(n) => if n == 0 then Some(0) else None
  }

  // What the notation stands for: `-n:e` the `n` blocks up to and including `e`, or as many
  // as there are, `s:+n` the `n` blocks from `s`, `s:e` the blocks from `s` to before `e`,
  // and an open end up to and including the head.
  predicate Denotes(first: Ref, second: Ref, heads: Heads, b: nat) {
    var start, end := Meant(first, 0, heads.first), Meant(second, heads.second, heads.second);
    if first.Minus? then end.Some? && b <= end.value < b + first.n
    else if second.Plus? then start.Some? && start.value <= b < start.value + second.n
    else if second.Latest? || second.Empty? then start.Some? && start.value <= b <= heads.second
    else start.Some? && end.Some? && start.value <= b < end.value
  }

  // The arithmetic on the ends stays within 64 bits: no more blocks before the end than
  // its own number, and no end beyond the largest number.
  predicate EndsFit(first: Ref, second: Ref, heads: Heads) {
    var start, end := Meant(first, 0, heads.first), Meant(second, heads.second, heads.second);
    if first.Minus? then end.Some? ==> first.n <= end.value
    else second.Plus? && start.Some? ==> start.value + second.n < U64_LIMIT
  }

  // --- from a range to a chunk ---

  function Span(start: nat, end: int): (s: seq<nat>)
    requires start <= end + 1
    ensures |s| == end + 1 - start && forall i | 0 <= i < |s| :: s[i] == start + i
  {
    seq(end + 1 - start, i requires 0 <= i => start + i)
  }

  // Every `skip`-th item, from the first.
  function EveryNth(s: seq<nat>, skip: nat): seq<nat>
    requires skip > 0
    decreases |s|
  {
    if s == [] then []
    else if |s| <= skip then [s[0]]
    else [s[0]] + EveryNth(s[skip..], skip)
  }

  const INVERTED: Error := Invalid("end_block should not be less than start_block")

  function BlockRangeToChunk(start: nat, end: nat, asRange: bool, skip: Option<nat>,
                             nBlocks: Option<nat>): Result<BlockChunk> {
    if end < start then Err(INVERTED)
    else if nBlocks.Some? then Ok(Numbers(Sample(Span(start, end), nBlocks.value)))
    else if asRange then Ok(Range(start, end))
    else match skip
      case Some(n) => if n == 0 then Err(Panic) else Ok(Numbers(EveryNth(Span(start, end), n)))
      case None => Ok(Numbers(Span(start, end)))
  }

  predicate Selects(c: BlockChunk, b: nat) {
    match c
    case Numbers(blocks) => b in blocks
    case Range(start, end) => start <= b <= end
  }

  // --- sampling ---

  // Index of sample `i` of `k` among `len` items.
  function SampleIndex(i: nat, len: nat, k: nat): nat
    requires 2 <= k && len >= 1
  {
    i * (len - 1) / (k - 1)
  }

  function Sample<T>(items: seq<T>, k: nat): seq<T> {
    if k == 0 || items == [] then []
    else if k >= |items| then items
    else if k == 1 then [items[0]]
    else seq(k, i requires 0 <= i < k => SampleAt(items, i, k))
  }

  function SampleAt<T>(items: seq<T>, i: nat, k: nat): T
    requires 2 <= k <= |items| && i < k
  {
    SampleIndexBound(i, |items|, k);
    items[SampleIndex(i, |items|, k)]
  }

  method EvenlySpacedSubset<T>(items: seq<T>, k: nat) returns (subset: seq<T>)
    ensures subset == Sample(items, k)
  {
    if k == 0 || items == [] {
      return [];
    }
    if k >= |items| {
      return items;
    }
    if k == 1 {
      return [items[0]];
    }
    subset := [];
    for i := 0 to k
      invariant |subset| == i
      invariant forall j | 0 <= j < i :: subset[j] == SampleAt(items, j, k)
    {
      SampleIndexBound(i, |items|, k);
      var index := i * (|items| - 1) / (k - 1);
      subset := subset + [items[index]];
    }
  }

  lemma DivIs(x: nat, m: nat, q: nat)
    requires m > 0 && q * m <= x < q * m + m
    ensures x / m == q
  {
    var d := x / m;
    assert d * m <= x < d * m + m;
    assert d < q ==> (d + 1) * m <= q * m;
    assert d > q ==> (q + 1) * m <= d * m;
  }

  lemma MulLe(a: nat, b: nat, c: nat)
    requires a <= b
    ensures a * c <= b * c
  {
  }

  lemma DivAtMost(x: nat, m: nat, d: nat)
    requires m > 0 && x <= m * d
    ensures x / m <= d
  {
    var q := x / m;
    assert q * m <= x;
    assert q > d ==> (d + 1) * m <= q * m;
  }

  lemma SampleIndexBound(i: nat, len: nat, k: nat)
    requires 2 <= k && i < k && len >= 1
    ensures SampleIndex(i, len, k) <= len - 1
  {
    MulLe(i, k - 1, len - 1);
    DivAtMost(i * (len - 1), k - 1, len - 1);
  }

  lemma SampleIndexEnds(len: nat, k: nat)
    requires 2 <= k && len >= 1
    ensures SampleIndex(0, len, k) == 0 && SampleIndex(k - 1, len, k) == len - 1
  {
    DivIs((k - 1) * (len - 1), k - 1, len - 1);
  }

  lemma SumTimes(a: nat, b: nat, carry: nat, m: nat)
    requires carry <= 1
    ensures (a + b + carry) * m == a * m + b * m + if carry == 1 then m else 0
  {
  }

  // One step further in the sum `i * d`, by `d`, moves the quotient by the quotient of
  // `d`, rounded down or up.
  lemma QuotientStep(x: nat, d: nat, m: nat)
    requires m > 0
    ensures d / m <= (x + d) / m - x / m <= d / m + (if d % m == 0 then 0 else 1)
  {
    var q, r, qx, rx := d / m, d % m, x / m, x % m;
    assert d == q * m + r && x == qx * m + rx;
    var carry := if r + rx >= m then 1 else 0;
    SumTimes(qx, q, carry, m);
    DivIs(x + d, m, qx + q + carry);
  }

  // Consecutive sample indices differ by the interval, rounded down or up; with fewer
  // samples than items they strictly increase.
  lemma SampleGaps(i: nat, len: nat, k: nat)
    requires 2 <= k < len && i + 1 < k
    ensures var gap := SampleIndex(i + 1, len, k) - SampleIndex(i, len, k);
            (len - 1) / (k - 1) <= gap <= (len - 1) / (k - 1) + (if (len - 1) % (k - 1) == 0 then 0 else 1) && gap >= 1
  {
    var d, m := len - 1, k - 1;
    assert (i + 1) * d == i * d + d;
    QuotientStep(i * d, d, m);
    assert d == (d / m) * m + d % m;
  }

  lemma {:induction false} SampleIncreases(i: nat, j: nat, len: nat, k: nat)
    requires 2 <= k < len && i < j < k
    ensures SampleIndex(i, len, k) < SampleIndex(j, len, k)
    decreases j
  {
    SampleGaps(j - 1, len, k);
    if i < j - 1 {
      SampleIncreases(i, j - 1, len, k);
    }
  }

  // A sample has as many items as asked for, or all there are, and with two or more keeps
  // the first and the last; items that ascend still do.
  lemma SampleKeepsEnds(items: seq<nat>, k: nat)
    ensures |Sample(items, k)| == if k <= |items| then k else |items|
    ensures k >= 1 && items != [] ==> Sample(items, k)[0] == items[0]
    ensures k >= 2 && items != [] ==> Sample(items, k)[|Sample(items, k)| - 1] == items[|items| - 1]
    ensures forall x | x in Sample(items, k) :: x in items
    ensures Ascending(items) ==> Ascending(Sample(items, k))
  {
    if 2 <= k < |items| {
      var sample := Sample(items, k);
      SampleFirstLast(items, k);
      assert sample[0] == SampleAt(items, 0, k) && sample[k - 1] == SampleAt(items, k - 1, k);
      forall x | x in sample
        ensures x in items
      {
        var i :| 0 <= i < k && sample[i] == x;
        SampleFrom(items, i, k);
      }
      if Ascending(items) {
        SampleAscends(items, k);
      }
    }
  }

  lemma SampleFirstLast(items: seq<nat>, k: nat)
    requires 2 <= k < |items|
    ensures SampleAt(items, 0, k) == items[0] && SampleAt(items, k - 1, k) == items[|items| - 1]
  {
    SampleIndexEnds(|items|, k);
  }

  lemma SampleFrom(items: seq<nat>, i: nat, k: nat)
    requires 2 <= k < |items| && i < k
    ensures SampleAt(items, i, k) in items
  {
    SampleIndexBound(i, |items|, k);
  }

  lemma SampleAscends(items: seq<nat>, k: nat)
    requires 2 <= k < |items| && Ascending(items)
    ensures Ascending(Sample(items, k))
  {
    forall i, j | 0 <= i < j < k
      ensures SampleAt(items, i, k) < SampleAt(items, j, k)
    {
      SampleIndexBound(j, |items|, k);
      SampleIncreases(i, j, |items|, k);
    }
  }

  // --- every n-th block ---

  predicate OnGrid(start: nat, skip: nat, b: nat)
    requires skip > 0
  {
    (b - start) % skip == 0
  }

  // Past the first one, a block is on the grid if and only if it is on the grid that
  // starts one step further.
  lemma GridStep(start: nat, skip: nat, b: nat)
    requires skip > 0 && start <= b
    ensures b < start + skip ==> (OnGrid(start, skip, b) <==> b == start)
    ensures b >= start + skip ==> (OnGrid(start, skip, b) <==> OnGrid(start + skip, skip, b))
  {
    ModStep(b - start, skip);
  }

  lemma {:induction false} EveryNthMeaning(start: nat, end: nat, skip: nat)
    requires start <= end + 1 && skip > 0
    ensures forall b: nat :: b in EveryNth(Span(start, end), skip) <==> start <= b <= end && OnGrid(start, skip, b)
    decreases end + 1 - start
  {
    var s := Span(start, end);
    forall b: nat | start <= b <= end
      ensures b < start + skip ==> (OnGrid(start, skip, b) <==> b == start)
      ensures b >= start + skip ==> (OnGrid(start, skip, b) <==> OnGrid(start + skip, skip, b))
    {
      GridStep(start, skip, b);
    }
    if s == [] {
      assert EveryNth(s, skip) == [];
    } else if |s| <= skip {
      assert EveryNth(s, skip) == [start];
    } else {
      assert s[skip..] == Span(start + skip, end);
      EveryNthMeaning(start + skip, end, skip);
      assert EveryNth(s, skip) == [start] + EveryNth(Span(start + skip, end), skip);
    }
  }

  lemma ModStep(x: nat, m: nat)
    requires m > 0
    ensures x < m ==> x % m == x
    ensures x >= m ==> x % m == (x - m) % m
  {
    if x >= m {
      var q, r := (x - m) / m, (x - m) % m;
      assert x == (q + 1) * m + r;
      DivIs(x, m, q + 1);
    }
  }

  // --- what a range selects ---

  // A number as it is read: it fits in 64 bits.
  predicate FitsU64(r: Ref) {
    r.Plain? || r.Minus? || r.Plus? ==> r.n < U64_LIMIT
  }

  function BlockToken(first: Ref, second: Ref, heads: Heads, asRange: bool, skip: Option<nat>, nBlocks: Option<nat>)
      : Result<BlockChunk>
  {
    var ends :- ParseBlockRange(first, second, heads);
    BlockRangeToChunk(ends.0, ends.1, asRange, skip, nBlocks)
  }

  lemma MinusEndsDenote(n: nat, second: Ref, heads: Heads, b: nat)
    requires n < U64_LIMIT && FitsU64(second)
    ensures var ends := ParseBlockRange(Minus(n), second, heads);
            ends.Ok? && ends.value.0 <= b <= ends.value.1 <==>
            Denotes(Minus(n), second, heads, b) && EndsFit(Minus(n), second, heads)
  {
    assert Meant(second, heads.second, heads.second).Some? <==> RefNumber(second, Last, heads.second).Ok?;
  }

  lemma PlusEndsDenote(first: Ref, n: nat, heads: Heads, b: nat)
    requires !first.Minus? && FitsU64(first) && n < U64_LIMIT
    ensures var ends := ParseBlockRange(first, Plus(n), heads);
            ends.Ok? && ends.value.0 <= b <= ends.value.1 <==>
            Denotes(first, Plus(n), heads, b) && EndsFit(first, Plus(n), heads)
  {
    assert Meant(first, 0, heads.first).Some? <==> RefNumber(first, First, heads.first).Ok?;
  }

  lemma EndsDenote(first: Ref, second: Ref, heads: Heads, b: nat)
    requires FitsU64(first) && FitsU64(second)
    ensures var ends := ParseBlockRange(first, second, heads);
            ends.Ok? && ends.value.0 <= b <= ends.value.1 <==>
            Denotes(first, second, heads, b) && EndsFit(first, second, heads)
  {
    if first.Minus? {
      MinusEndsDenote(first.n, second, heads, b);
    } else if second.Plus? {
      PlusEndsDenote(first, second.n, heads, b);
    }
  }

  // The notation stands for some block, and the arithmetic on its ends fits.
  ghost predicate Accepted(first: Ref, second: Ref, heads: Heads) {
    (exists b: nat :: Denotes(first, second, heads, b)) && EndsFit(first, second, heads)
  }

  // An accepted range runs from its first end to its second, and is what the notation stands for.
  lemma AcceptedIff(first: Ref, second: Ref, heads: Heads)
    requires FitsU64(first) && FitsU64(second)
    ensures var ends := ParseBlockRange(first, second, heads);
            && (Accepted(first, second, heads) <==> ends.Ok? && ends.value.0 <= ends.value.1)
            && (Accepted(first, second, heads) ==>
                  forall b: nat :: Denotes(first, second, heads, b) <==> ends.value.0 <= b <= ends.value.1)
  {
    var ends := ParseBlockRange(first, second, heads);
    forall b: nat
      ensures ends.Ok? && ends.value.0 <= b <= ends.value.1 <==>
              Denotes(first, second, heads, b) && EndsFit(first, second, heads)
    {
      EndsDenote(first, second, heads, b);
    }
    if ends.Ok? && ends.value.0 <= ends.value.1 {
      assert Denotes(first, second, heads, ends.value.0);
    }
  }

  lemma SpanMembers(start: nat, end: nat)
    requires start <= end
    ensures forall b: nat :: b in Span(start, end) <==> start <= b <= end
  {
    forall b: nat | start <= b <= end
      ensures b in Span(start, end)
    {
      assert Span(start, end)[b - start] == b;
    }
  }

  // A block range is accepted if and only if its notation stands for some block and the
  // arithmetic on its ends fits, and it then selects exactly the blocks that the notation
  // stands for.
  lemma BlockRangeSelects(first: Ref, second: Ref, heads: Heads, asRange: bool)
    requires FitsU64(first) && FitsU64(second)
    ensures BlockToken(first, second, heads, asRange, None, None).Ok? <==>
            (exists b: nat :: Denotes(first, second, heads, b)) && EndsFit(first, second, heads)
    ensures var c := BlockToken(first, second, heads, asRange, None, None);
            c.Ok? ==> forall b: nat :: Selects(c.value, b) <==> Denotes(first, second, heads, b)
  {
    AcceptedIff(first, second, heads);
    var ends := ParseBlockRange(first, second, heads);
    if ends.Ok? && ends.value.0 <= ends.value.1 {
      SpanMembers(ends.value.0, ends.value.1);
    }
  }

  // `-1:0` stands for block 0 and `-6:5` for the blocks 0 to 5, which `:6` selects. Both are
  // refused: the start is computed below zero before one is added to it.
  lemma WholeChainBeforeEndRefused(heads: Heads)
    ensures Denotes(Minus(1), Plain(0), heads, 0) && BlockToken(Minus(1), Plain(0), heads, true, None, None).Err?
    ensures forall b: nat :: Denotes(Minus(6), Plain(5), heads, b) <==> 0 <= b <= 5
    ensures BlockToken(Minus(6), Plain(5), heads, true, None, None).Err?
    ensures BlockToken(Empty, Plain(6), heads, true, None, None) == Ok(Range(0, 5))
  {
  }

  // The 2048 blocks up to the last number of 64 bits are refused, not cut off. Their first number
  // is one that a 64-bit float holds exactly, so that it can be given.
  lemma EndBeyondU64Refused(heads: Heads)
    ensures Denotes(Plain(U64_LIMIT - 2048), Plus(2048), heads, U64_LIMIT - 1)
    ensures BlockToken(Plain(U64_LIMIT - 2048), Plus(2048), heads, true, None, None).Err?
  {
  }

  // The help text gives `-1000:7000` as another spelling of `6000:7000`. It is one block
  // later at both ends.
  lemma MinusStartIsOneLater(heads: Heads)
    ensures BlockToken(Minus(1000), Plain(7000), heads, true, None, None) == Ok(Range(6001, 7000))
    ensures BlockToken(Plain(6000), Plain(7000), heads, true, None, None) == Ok(Range(6000, 6999))
  {
  }

  predicate SameBlocks(c: Result<BlockChunk>, d: Result<BlockChunk>) {
    if c.Ok? && d.Ok? then c.value == d.value else c.Err? && d.Err?
  }

  // `-n:e` and `(e-n):e` select the same blocks if and only if both select none.
  lemma DocumentedMinusIff(n: nat, e: nat, heads: Heads)
    requires n <= e < U64_LIMIT
    ensures SameBlocks(BlockToken(Minus(n), Plain(e), heads, true, None, None),
                       BlockToken(Plain(e - n), Plain(e), heads, true, None, None))
            <==> n == 0
  {
  }

  // The first and the last of the blocks that the notation stands for.
  ghost predicate Outermost(first: Ref, second: Ref, heads: Heads, a: nat, z: nat) {
    && Denotes(first, second, heads, a) && Denotes(first, second, heads, z)
    && forall b: nat | Denotes(first, second, heads, b) :: a <= b <= z
  }

  // A range with `/k` is accepted as it is without, and keeps `k` of the blocks that its notation
  // stands for, or all of them, in ascending order; for a `k` of two or more the first and the
  // last are among them, and they are as evenly spaced as whole blocks can be.
  lemma SampledRangeKeepsEnds(first: Ref, second: Ref, heads: Heads, asRange: bool, k: nat)
    requires FitsU64(first) && FitsU64(second)
    ensures var c := BlockToken(first, second, heads, asRange, None, Some(k));
            && (c.Ok? <==> Accepted(first, second, heads))
            && (c.Ok? ==>
                  && c.value.Numbers? && Ascending(c.value.blocks)
                  && (forall x | x in c.value.blocks :: Denotes(first, second, heads, x))
                  && (|c.value.blocks| == k ||
                      (|c.value.blocks| < k && forall b | Denotes(first, second, heads, b) :: b in c.value.blocks))
                  && (k >= 2 ==>
                        c.value.blocks != [] &&
                        Outermost(first, second, heads, c.value.blocks[0], c.value.blocks[|c.value.blocks| - 1]))
                  && (|c.value.blocks| >= 2 ==>
                        EvenlySpaced(c.value.blocks, c.value.blocks[0], c.value.blocks[|c.value.blocks| - 1])))
  {
    AcceptedIff(first, second, heads);
    var ends := ParseBlockRange(first, second, heads);
    if Accepted(first, second, heads) {
      SampledSpan(ends.value.0, ends.value.1, k);
    }
  }

  // As even as whole blocks allow: block `i` of `k` is the last one at or before `i` parts in
  // `k - 1` of the way from `a` to `z`, and each block is a part after the one before it, rounded
  // down or up.
  predicate EvenlySpaced(blocks: seq<nat>, a: nat, z: nat) {
    |blocks| >= 2 && a <= z &&
    (forall i | 0 <= i < |blocks| :: IsPart(blocks[i], i, |blocks| - 1, a, z)) &&
    (forall i | 0 <= i < |blocks| - 1 :: IsGap(blocks[i], blocks[i + 1], |blocks| - 1, z - a))
  }

  predicate IsPart(b: nat, i: nat, parts: nat, a: nat, z: nat)
    requires a <= z
  {
    a <= b <= z && (b - a) * parts <= i * (z - a) < (b + 1 - a) * parts
  }

  predicate IsGap(b: nat, next: nat, parts: nat, length: nat)
    requires parts > 0
  {
    length / parts <= next - b <= (length + parts - 1) / parts
  }

  lemma FloorOf(x: nat, m: nat)
    requires m > 0
    ensures (x / m) * m <= x < (x / m + 1) * m
  {
  }

  lemma CeilingOf(x: nat, m: nat)
    requires m > 0
    ensures (x + m - 1) / m == x / m + if x % m == 0 then 0 else 1
  {
    var q, r := x / m, x % m;
    assert x == q * m + r;
    if r == 0 {
      DivIs(x + m - 1, m, q);
    } else {
      assert (q + 1) * m == q * m + m;
      DivIs(x + m - 1, m, q + 1);
    }
  }

  lemma SampleIsAt(a: nat, z: nat, k: nat, i: nat)
    requires a <= z && 2 <= k <= z - a && i < k
    ensures |Span(a, z)| >= k && SampleAt(Span(a, z), i, k) == a + SampleIndex(i, z - a + 1, k)
  {
    SampleIndexBound(i, z - a + 1, k);
  }

  lemma SampleIsPart(a: nat, z: nat, k: nat, i: nat)
    requires a <= z && 2 <= k <= z - a && i < k
    ensures |Span(a, z)| >= k && IsPart(SampleAt(Span(a, z), i, k), i, k - 1, a, z)
  {
    SampleIsAt(a, z, k, i);
    FloorOf(i * (z - a), k - 1);
    SampleIndexBound(i, z - a + 1, k);
  }

  lemma IndexIsGap(i: nat, length: nat, k: nat)
    requires 2 <= k <= length && i + 1 < k
    ensures IsGap(SampleIndex(i, length + 1, k), SampleIndex(i + 1, length + 1, k), k - 1, length)
  {
    SampleGaps(i, length + 1, k);
    CeilingOf(length, k - 1);
  }

  lemma SampleIsGap(a: nat, z: nat, k: nat, i: nat)
    requires a <= z && 2 <= k <= z - a && i + 1 < k
    ensures |Span(a, z)| >= k && IsGap(SampleAt(Span(a, z), i, k), SampleAt(Span(a, z), i + 1, k), k - 1, z - a)
  {
    SampleIsAt(a, z, k, i);
    SampleIsAt(a, z, k, i + 1);
    IndexIsGap(i, z - a, k);
  }

  lemma WholeIsPart(i: nat, n: nat)
    requires n > 0
    ensures i * n <= i * n < (i + 1) * n
  {
  }

  lemma WholeSpanEven(a: nat, z: nat)
    requires a < z
    ensures EvenlySpaced(Span(a, z), a, z)
  {
    var s := Span(a, z);
    DivIs(z - a, z - a, 1);
    CeilingOf(z - a, z - a);
    forall i | 0 <= i < |s|
      ensures IsPart(s[i], i, z - a, a, z)
    {
      WholeIsPart(i, z - a);
    }
    forall i | 0 <= i < |s| - 1
      ensures IsGap(s[i], s[i + 1], z - a, z - a)
    {
      assert s[i + 1] == s[i] + 1;
    }
  }

  lemma SampledSpan(a: nat, z: nat, k: nat)
    requires a <= z
    ensures var blocks := Sample(Span(a, z), k);
            && Ascending(blocks) && (forall x | x in blocks :: a <= x <= z)
            && (|blocks| == k || (|blocks| < k && forall b: nat | a <= b <= z :: b in blocks))
            && (k >= 2 ==> blocks != [] && blocks[0] == a && blocks[|blocks| - 1] == z)
            && (|blocks| >= 2 ==> EvenlySpaced(blocks, a, z))
  {
    SampleKeepsEnds(Span(a, z), k);
    SpanMembers(a, z);
    if 2 <= k <= z - a {
      forall i | 0 <= i < k
        ensures IsPart(SampleAt(Span(a, z), i, k), i, k - 1, a, z)
        ensures i + 1 < k ==> IsGap(SampleAt(Span(a, z), i, k), SampleAt(Span(a, z), i + 1, k), k - 1, z - a)
      {
        SampleIsPart(a, z, k, i);
        if i + 1 < k {
          SampleIsGap(a, z, k, i);
        }
      }
    } else if z > a {
      WholeSpanEven(a, z);
    }
  }

  // A range with a third part `n` takes every `n`-th of the blocks that its notation stands for,
  // from the first. It is accepted as it is without, unless `n` is 0: then it panics.
  lemma SkippedRange(first: Ref, second: Ref, heads: Heads, n: nat)
    requires FitsU64(first) && FitsU64(second)
    ensures var c := BlockToken(first, second, heads, false, Some(n), None);
            && (c == Err(Panic) <==> n == 0 && Accepted(first, second, heads))
            && (c.Ok? <==> n > 0 && Accepted(first, second, heads))
            && (c.Ok? ==>
                  exists a, z :: Outermost(first, second, heads, a, z) &&
                    forall b: nat :: Selects(c.value, b) <==> Denotes(first, second, heads, b) && OnGrid(a, n, b))
  {
    AcceptedIff(first, second, heads);
    RefusalIsNoPanic(first, second, heads);
    var ends := ParseBlockRange(first, second, heads);
    if n > 0 && Accepted(first, second, heads) {
      EveryNthMeaning(ends.value.0, ends.value.1, n);
      assert Outermost(first, second, heads, ends.value.0, ends.value.1);
    }
  }

  lemma RefusalIsNoPanic(first: Ref, second: Ref, heads: Heads)
    ensures ParseBlockRange(first, second, heads) != Err(Panic)
  {
  }

  // --- timestamp ranges ---

  // Each end is searched up to the head at that time.
  function TimestampToken(first: Ref, second: Ref, newest: Heads, stamps: Chain, heads: Heads, asRange: bool,
                          nKeep: Option<nat>): Result<BlockChunk> {
    var ends :- ParseTimestampRange(first, second, newest);
    var start :- BlockOf(stamps, ends.0, heads.first).block;
    var end :- BlockOf(stamps, ends.1, heads.second).block;
    BlockRangeToChunk(start, end, asRange, None, nKeep)
  }

  // The seconds that the notation stands for: `-n:e` those from `n` seconds before `e` up to and
  // including `e`, which are one more than `n`; anything else as for blocks.
  predicate DenotesSecond(first: Ref, second: Ref, newest: Heads, t: nat) {
    var end := Meant(second, newest.second, newest.second);
    if first.Minus? then end.Some? && t <= end.value <= t + first.n else Denotes(first, second, newest, t)
  }

  lemma MinusSeconds(n: nat, second: Ref, newest: Heads, t: nat)
    requires n < U64_LIMIT && FitsU64(second)
    ensures var ends := ParseTimestampRange(Minus(n), second, newest);
            && (ends.Ok? && ends.value.0 <= t <= ends.value.1 <==>
                DenotesSecond(Minus(n), second, newest, t) && EndsFit(Minus(n), second, newest))
            && (ends.Ok? ==> EndsFit(Minus(n), second, newest))
  {
    assert Meant(second, newest.second, newest.second).Some? <==> RefNumber(second, Last, newest.second).Ok?;
  }

  // The two ends that a timestamp notation is read as enclose exactly the seconds that it stands
  // for, unless the arithmetic on them leaves 64 bits, when it is refused.
  lemma TimestampEnds(first: Ref, second: Ref, newest: Heads, t: nat)
    requires FitsU64(first) && FitsU64(second)
    ensures var ends := ParseTimestampRange(first, second, newest);
            && (ends.Ok? && ends.value.0 <= t <= ends.value.1 <==>
                DenotesSecond(first, second, newest, t) && EndsFit(first, second, newest))
            && (ends.Ok? ==> EndsFit(first, second, newest))
  {
    if first.Minus? {
      MinusSeconds(first.n, second, newest, t);
    } else {
      EndsDenote(first, second, newest, t);
    }
  }

  // A timestamp range whose ends are in order never gives an end block before its start
  // block while the head stays, on any readable chain, so it is never refused as inverted.
  lemma TimestampRangeNotInverted(first: Ref, second: Ref, newest: Heads, stamps: Chain, latest: U64, asRange: bool,
                                  nKeep: Option<nat>)
    requires Readable(stamps, latest) && ParseTimestampRange(first, second, newest).Ok?
    requires var (s, t) := ParseTimestampRange(first, second, newest).value; s <= t
    ensures var (s, t) := ParseTimestampRange(first, second, newest).value;
            var a, b := BlockOf(stamps, s, latest).block, BlockOf(stamps, t, latest).block;
            && (latest < U64_LIMIT - 1 ==> a.Ok? && b.Ok?)
            && (a.Ok? && b.Ok? ==>
                  TimestampToken(first, second, newest, stamps, Heads(latest, latest), asRange, nKeep).Ok?)
  {
    var (s, t) := ParseTimestampRange(first, second, newest).value;
    BlockAtMonotone(stamps, s, t, latest);
  }

  // While the head stays and no two blocks share a timestamp, a timestamp notation that stands for
  // some second selects the blocks of the seconds that it stands for and the block that was current
  // at their start.
  lemma TimestampRangeSelects(first: Ref, second: Ref, newest: Heads, stamps: Chain, latest: U64, t: nat)
    requires FitsU64(first) && FitsU64(second) && latest < U64_LIMIT - 1 && StrictlyIncreasing(stamps, latest)
    requires DenotesSecond(first, second, newest, t) && EndsFit(first, second, newest)
    ensures var c := TimestampToken(first, second, newest, stamps, Heads(latest, latest), true, None);
            && c.Ok? && c.value.Range? && c.value.start <= c.value.end <= latest
            && forall b | 0 <= b <= latest ::
                 Selects(c.value, b) <==> b == c.value.start || DenotesSecond(first, second, newest, StampOf(stamps, b))
  {
    TimestampEnds(first, second, newest, t);
    var (s, e) := ParseTimestampRange(first, second, newest).value;
    RangeCovers(stamps, s, e, latest, latest);
    forall b | 0 <= b <= latest
      ensures s <= StampOf(stamps, b) <= e <==> DenotesSecond(first, second, newest, StampOf(stamps, b))
    {
      TimestampEnds(first, second, newest, StampOf(stamps, b));
    }
  }

  lemma SearchesEnd(stamps: Chain, s: nat, t: nat, heads: Heads)
    requires s <= t && heads.first <= heads.second && NonDecreasing(stamps, heads.second)
    requires BlockOf(stamps, s, heads.first).block.Err? || BlockOf(stamps, t, heads.second).block.Err?
    ensures BlockAt(stamps, s, heads.first).block.Ok? && BlockAt(stamps, t, heads.second).block.Ok?
    ensures BlockAt(stamps, s, heads.first).block.value <= BlockAt(stamps, t, heads.second).block.value
    ensures BlockOf(stamps, s, heads.first).block.Err? ==> BlockOf(stamps, s, heads.first).block == Err(Panic)
    ensures BlockOf(stamps, t, heads.second).block.Err? ==> BlockOf(stamps, t, heads.second).block == Err(Panic)
  {
    SearchesOrderedIff(stamps, s, t, heads.first, heads.second);
    BlockAtFinds(stamps, s, heads.first);
    BlockAtFinds(stamps, t, heads.second);
    if heads.first == heads.second {
      BlockAtMonotone(stamps, s, t, heads.first);
    }
  }

  // While the head moves on between the two searches, such a range is refused as inverted if and
  // only if its ends are one timestamp, inclusively, and bisection up to the later head steps
  // back among the blocks that carry it.
  lemma TimestampRangeInvertedIff(first: Ref, second: Ref, newest: Heads, stamps: Chain, heads: Heads, asRange: bool,
                                  nKeep: Option<nat>)
    requires heads.first <= heads.second && NonDecreasing(stamps, heads.second)
    requires ParseTimestampRange(first, second, newest).Ok?
    requires var (s, t) := ParseTimestampRange(first, second, newest).value; s <= t
    ensures var (s, t) := ParseTimestampRange(first, second, newest).value;
            TimestampToken(first, second, newest, stamps, heads, asRange, nKeep) == Err(INVERTED) <==>
            s == t && !NoStepBack(stamps, s, heads.first, heads.second)
  {
    var (s, t) := ParseTimestampRange(first, second, newest).value;
    SearchesOrderedIff(stamps, s, t, heads.first, heads.second);
    if BlockOf(stamps, s, heads.first).block.Err? || BlockOf(stamps, t, heads.second).block.Err? {
      SearchesEnd(stamps, s, t, heads);
    }
  }

  // `7:8`, which is second 7 alone, with two blocks at that second: refused when the head moves
  // from block 3 to block 4 between the searches, and accepted before and after.
  lemma MovingHeadInverts(newest: Heads, asRange: bool)
    ensures TimestampToken(Plain(7), Plain(8), newest, SevenTwice(), Heads(3, 4), asRange, None) == Err(INVERTED)
    ensures TimestampToken(Plain(7), Plain(8), newest, SevenTwice(), Heads(3, 3), asRange, None).Ok?
    ensures TimestampToken(Plain(7), Plain(8), newest, SevenTwice(), Heads(4, 4), asRange, None).Ok?
  {
    MovingHeadStepsBack();
  }
}
