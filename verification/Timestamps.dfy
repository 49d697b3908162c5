// From timestamps to blocks: the binary search over block timestamps, and the list of
// blocks for a list of timestamps.
module Timestamps {
  import opened Prelude

  // Reading one block's timestamp; a read may fail.
  type Chain = nat -> Result<nat>

  // The search on blocks `low..=high`, which is empty when `low == high + 1`. `probes`
  // counts the blocks read.
  datatype Found = Found(block: Result<nat>, probes: nat)

  function Mid(low: nat, high: nat): (mid: nat)
    requires low <= high
    ensures low <= mid <= high && 2 * (mid - low) <= high - low && 2 * (high - mid) <= high + 1 - low
  {
    low + (high - low) / 2
  }

  function OneMore(f: Found): Found {
    f.(probes := f.probes + 1)
  }

  function Search(stamps: Chain, target: nat, low: nat, high: int): Found
    requires low <= high + 1 && high >= 0
    decreases high + 1 - low
  {
    if low > high then Found(Ok(high), 0)
    else
      var mid := Mid(low, high);
      match stamps(mid)
      case Err(e) => Found(Err(e), 1)
      case Ok(t) =>
        if t == target then Found(Ok(mid), 1)
        else if t < target then OneMore(Search(stamps, target, mid + 1, high))
        else if mid == 0 then Found(Ok(0), 1)
        else OneMore(Search(stamps, target, low, mid - 1))
  }

  function BlockAt(stamps: Chain, target: nat, latest: nat): Found {
    Search(stamps, target, 0, latest)
  }

  // One probe: it ends the search, or leaves the search on one half.
  lemma ProbeStep(stamps: Chain, target: nat, low: nat, high: nat)
    requires low <= high
    ensures var mid, f := Mid(low, high), Search(stamps, target, low, high);
            match stamps(mid)
            case Err(e) => f == Found(Err(e), 1)
            case Ok(t) =>
              && (t == target ==> f == Found(Ok(mid), 1))
              && (t < target ==> f == OneMore(Search(stamps, target, mid + 1, high)))
              && (t > target && mid > 0 ==> f == OneMore(Search(stamps, target, low, mid - 1)))
              && (t > target && mid == 0 ==> f == Found(Ok(0), 1))
  {
  }

  // What the search comes to after `probes` reads, with the bounds at `low` and `high`.
  function Resumed(stamps: Chain, target: nat, low: nat, high: int, probes: nat): Found
    requires low <= high + 1 && high >= 0
  {
    var f := Search(stamps, target, low, high);
    f.(probes := f.probes + probes)
  }

  // One turn of the loop.
  lemma ResumeTurn(stamps: Chain, target: nat, low: nat, high: nat, probes: nat)
    requires low <= high
    ensures var mid, r := Mid(low, high), Resumed(stamps, target, low, high, probes);
            match stamps(mid)
            case Err(e) => r == Found(Err(e), probes + 1)
            case Ok(t) =>
              && (t == target ==> r == Found(Ok(mid), probes + 1))
              && (t < target ==> r == Resumed(stamps, target, mid + 1, high, probes + 1))
              && (t > target && mid > 0 ==> r == Resumed(stamps, target, low, mid - 1, probes + 1))
              && (t > target && mid == 0 ==> r == Found(Ok(0), probes + 1))
  {
    ProbeStep(stamps, target, low, high);
  }

  // The bounds are kept in 64 bits. At a head of `u64::MAX` the step past that block does
  // not fit: every block probed was before the target, and the call panics.
  predicate StepsPastU64(stamps: Chain, target: nat, latest: U64) {
    latest == U64_LIMIT - 1 && BlockAt(stamps, target, latest).block == Ok(latest) &&
    stamps(latest).Ok? && stamps(latest).value < target
  }

  function BlockOf(stamps: Chain, target: nat, latest: U64): Found {
    var f := BlockAt(stamps, target, latest);
    if StepsPastU64(stamps, target, latest) then f.(block := Err(Panic)) else f
  }

  // `probes` counts the blocks read.
  method BlockAtTimestamp(stamps: Chain, target: nat, latest: U64) returns (block: Result<nat>, probes: nat)
    ensures Found(block, probes) == BlockOf(stamps, target, latest)
  {
    var low: U64, high: U64 := 0, latest;
    probes := 0;
    while low <= high
      invariant low <= high + 1
      invariant high <= latest
      invariant BlockAt(stamps, target, latest) == Resumed(stamps, target, low, high, probes)
      decreases high + 1 - low
    {
      var mid: U64 := Mid(low, high);
      ResumeTurn(stamps, target, low, high, probes);
      var read := stamps(mid);
      probes := probes + 1;
      if read.Err? {
        return Err(read.error), probes;
      }
      if read.value == target {
        return Ok(mid), probes;
      } else if read.value < target {
        if mid == U64_LIMIT - 1 {
          return Err(Panic), probes;
        }
        low := mid + 1;
      } else if mid >= 1 {
        high := mid - 1;
      } else {
        return Ok(0), probes;
      }
    }
    block := Ok(high);
  }

  // --- what the search finds ---

  predicate Readable(stamps: Chain, latest: nat) {
    forall b | 0 <= b <= latest :: stamps(b).Ok?
  }

  function StampOf(stamps: Chain, b: nat): nat
    requires stamps(b).Ok?
  {
    stamps(b).value
  }

  predicate NonDecreasing(stamps: Chain, latest: nat) {
    Readable(stamps, latest) && forall a, b | 0 <= a <= b <= latest :: StampOf(stamps, a) <= StampOf(stamps, b)
  }

  predicate StrictlyIncreasing(stamps: Chain, latest: nat) {
    Readable(stamps, latest) && forall a, b | 0 <= a < b <= latest :: StampOf(stamps, a) < StampOf(stamps, b)
  }

  lemma {:induction false} SearchBounds(stamps: Chain, target: nat, low: nat, high: int, latest: nat)
    requires low <= high + 1 && 0 <= high <= latest && Readable(stamps, latest)
    ensures var f := Search(stamps, target, low, high);
            f.block.Ok? && low - 1 <= f.block.value <= high
    decreases high + 1 - low
  {
    if low <= high {
      var mid := Mid(low, high);
      if StampOf(stamps, mid) < target {
        SearchBounds(stamps, target, mid + 1, high, latest);
      } else if StampOf(stamps, mid) > target && mid > 0 {
        SearchBounds(stamps, target, low, mid - 1, latest);
      }
    }
  }

  // Everything below `low` is before the target, everything above `high` after it.
  predicate Narrowed(stamps: Chain, target: nat, low: nat, high: int, latest: nat)
    requires Readable(stamps, latest)
  {
    (forall b | 0 <= b <= latest && b < low :: StampOf(stamps, b) < target) &&
    (forall b | 0 <= b <= latest && high < b :: StampOf(stamps, b) > target)
  }

  predicate LastAtOrBefore(stamps: Chain, target: nat, b: nat, latest: nat)
    requires b <= latest && Readable(stamps, latest)
  {
    StampOf(stamps, b) <= target && forall c | b < c <= latest :: StampOf(stamps, c) > target
  }

  lemma {:induction false} SearchFinds(stamps: Chain, target: nat, low: nat, high: int, latest: nat)
    requires low <= high + 1 && 0 <= high <= latest
    requires NonDecreasing(stamps, latest) && Narrowed(stamps, target, low, high, latest)
    ensures var r := Search(stamps, target, low, high).block;
            && r.Ok? && r.value <= latest
            && (StampOf(stamps, 0) > target ==> r.value == 0)
            && (StampOf(stamps, 0) <= target ==>
                  StampOf(stamps, r.value) == target || LastAtOrBefore(stamps, target, r.value, latest))
    decreases high + 1 - low
  {
    if low <= high {
      var mid := Mid(low, high);
      if StampOf(stamps, mid) < target {
        SearchFinds(stamps, target, mid + 1, high, latest);
      } else if StampOf(stamps, mid) > target && mid > 0 {
        SearchFinds(stamps, target, low, mid - 1, latest);
      }
    }
  }

  // On a chain whose timestamps do not decrease, the search gives block 0 for a target
  // before block 0, and otherwise a block that matches exactly or is the last one at or
  // before the target.
  lemma BlockAtFinds(stamps: Chain, target: nat, latest: nat)
    requires NonDecreasing(stamps, latest)
    ensures var r := BlockAt(stamps, target, latest).block;
            && r.Ok? && r.value <= latest
            && (StampOf(stamps, 0) > target ==> r.value == 0)
            && (StampOf(stamps, 0) <= target ==>
                  StampOf(stamps, r.value) == target || LastAtOrBefore(stamps, target, r.value, latest))
  {
    SearchFinds(stamps, target, 0, latest, latest);
  }

  // The call panics exactly when the head is the largest number of 64 bits and is before the target;
  // otherwise it finds a block.
  lemma OverflowsIff(stamps: Chain, target: nat, latest: U64)
    requires NonDecreasing(stamps, latest)
    ensures var block := BlockOf(stamps, target, latest).block;
            (block == Err(Panic) <==> latest == U64_LIMIT - 1 && StampOf(stamps, latest) < target) &&
            (block != Err(Panic) ==> block.Ok?)
  {
    BlockAtFinds(stamps, target, latest);
    var found := BlockAt(stamps, target, latest).block.value;
    if StampOf(stamps, latest) < target {
      assert StampOf(stamps, 0) <= StampOf(stamps, latest) && StampOf(stamps, found) <= StampOf(stamps, latest);
      assert LastAtOrBefore(stamps, target, found, latest);
    }
  }

  // A scan from the head down: the last block at or before the target, or block 0.
  function Scan(stamps: Chain, target: nat, b: nat): nat
    requires Readable(stamps, b)
  {
    if b == 0 || StampOf(stamps, b) <= target then b else Scan(stamps, target, b - 1)
  }

  lemma {:induction false} ScanFinds(stamps: Chain, target: nat, b: nat, latest: nat)
    requires b <= latest && Readable(stamps, latest)
    requires forall c | b < c <= latest :: StampOf(stamps, c) > target
    ensures var r := Scan(stamps, target, b);
            r <= b && (StampOf(stamps, 0) > target ==> r == 0 || StampOf(stamps, r) <= target) &&
            (StampOf(stamps, 0) <= target ==> LastAtOrBefore(stamps, target, r, latest))
    decreases b
  {
    if !(b == 0 || StampOf(stamps, b) <= target) {
      ScanFinds(stamps, target, b - 1, latest);
    }
  }

  // When no two blocks share a timestamp the search is the scan.
  lemma SearchIsScan(stamps: Chain, target: nat, latest: nat)
    requires StrictlyIncreasing(stamps, latest)
    ensures BlockAt(stamps, target, latest).block == Ok(Scan(stamps, target, latest))
  {
    BlockAtFinds(stamps, target, latest);
    ScanFinds(stamps, target, latest, latest);
    var r, q := BlockAt(stamps, target, latest).block.value, Scan(stamps, target, latest);
    if StampOf(stamps, 0) <= target {
      assert StampOf(stamps, r) <= target && StampOf(stamps, q) <= target;
      assert r <= q && q <= r;
    } else {
      assert q == 0;
    }
  }

  // --- how many blocks it reads ---

  // The number of binary digits: one more than the rounded-down logarithm.
  function BitLength(n: nat): nat {
    if n == 0 then 0 else 1 + BitLength(n / 2)
  }

  function Pow2(n: nat): (p: nat)
    ensures p >= 1
  {
    if n == 0 then 1 else 2 * Pow2(n - 1)
  }

  lemma {:induction false} BitLengthIsLog(n: nat)
    requires n > 0
    ensures Pow2(BitLength(n) - 1) <= n < Pow2(BitLength(n))
  {
    if n > 1 {
      BitLengthIsLog(n / 2);
    }
  }

  lemma {:induction false} BitLengthMonotone(a: nat, b: nat)
    requires a <= b
    ensures BitLength(a) <= BitLength(b)
  {
    if a > 0 {
      BitLengthMonotone(a / 2, b / 2);
    }
  }

  lemma HalfReads(k: nat, n: nat)
    requires n > 0 && 2 * k <= n
    ensures 1 + BitLength(k) <= BitLength(n)
  {
    BitLengthMonotone(k, n / 2);
  }

  lemma ReadsUp(stamps: Chain, target: nat, low: nat, high: nat)
    requires low <= high && stamps(Mid(low, high)).Ok? && stamps(Mid(low, high)).value < target
    requires Search(stamps, target, Mid(low, high) + 1, high).probes <= BitLength(high - Mid(low, high))
    ensures Search(stamps, target, low, high).probes <= BitLength(high + 1 - low)
  {
    ProbeStep(stamps, target, low, high);
    HalfReads(high - Mid(low, high), high + 1 - low);
  }

  lemma ReadsDown(stamps: Chain, target: nat, low: nat, high: nat)
    requires low <= high && stamps(Mid(low, high)).Ok? && stamps(Mid(low, high)).value > target && Mid(low, high) > 0
    requires Search(stamps, target, low, Mid(low, high) - 1).probes <= BitLength(Mid(low, high) - low)
    ensures Search(stamps, target, low, high).probes <= BitLength(high + 1 - low)
  {
    ProbeStep(stamps, target, low, high);
    HalfReads(Mid(low, high) - low, high + 1 - low);
  }

  lemma {:induction false} SearchReads(stamps: Chain, target: nat, low: nat, high: int)
    requires low <= high + 1 && high >= 0
    ensures Search(stamps, target, low, high).probes <= BitLength(high + 1 - low)
    decreases high + 1 - low
  {
    if low <= high {
      var mid := Mid(low, high);
      if stamps(mid).Ok? && stamps(mid).value < target {
        SearchReads(stamps, target, mid + 1, high);
        ReadsUp(stamps, target, low, high);
      } else if stamps(mid).Ok? && stamps(mid).value > target && mid > 0 {
        SearchReads(stamps, target, low, mid - 1);
        ReadsDown(stamps, target, low, high);
      } else {
        ProbeStep(stamps, target, low, high);
      }
    }
  }

  // At most one more read than the rounded-down binary logarithm of the number of blocks,
  // on any chain at all, ordered or not, readable or not.
  lemma ReadBound(stamps: Chain, target: nat, latest: nat)
    ensures var probes := BlockAt(stamps, target, latest).probes;
            probes <= BitLength(latest + 1) && (probes > 0 ==> Pow2(probes - 1) <= latest + 1)
  {
    SearchReads(stamps, target, 0, latest);
    BitLengthIsLog(latest + 1);
    var probes := BlockAt(stamps, target, latest).probes;
    if probes > 0 {
      Pow2Monotone(probes - 1, BitLength(latest + 1) - 1);
    }
  }

  lemma {:induction false} Pow2Monotone(a: nat, b: nat)
    requires a <= b
    ensures Pow2(a) <= Pow2(b)
  {
    if a < b {
      Pow2Monotone(a, b - 1);
    }
  }

  // --- two targets ---

  // A probe at or after the target bounds the answer from above, one at or before it from below.
  lemma ProbeBounds(stamps: Chain, target: nat, low: nat, high: nat, latest: nat)
    requires low <= high <= latest && Readable(stamps, latest)
    ensures var mid, f := Mid(low, high), Search(stamps, target, low, high).block;
            f.Ok? && (StampOf(stamps, mid) >= target ==> f.value <= mid) &&
            (StampOf(stamps, mid) <= target ==> f.value >= mid)
  {
    var mid := Mid(low, high);
    if StampOf(stamps, mid) < target {
      SearchBounds(stamps, target, mid + 1, high, latest);
    } else if StampOf(stamps, mid) > target && mid > 0 {
      SearchBounds(stamps, target, low, mid - 1, latest);
    }
  }

  // Where the two searches part, the probe lies between their answers.
  lemma SearchesPart(stamps: Chain, s: nat, t: nat, low: nat, high: nat, latest: nat)
    requires s <= t && low <= high <= latest && Readable(stamps, latest)
    requires s <= StampOf(stamps, Mid(low, high)) <= t
    ensures Search(stamps, s, low, high).block.Ok? && Search(stamps, t, low, high).block.Ok?
    ensures Search(stamps, s, low, high).block.value <= Search(stamps, t, low, high).block.value
  {
    ProbeBounds(stamps, s, low, high, latest);
    ProbeBounds(stamps, t, low, high, latest);
  }

  lemma {:induction false} SearchMonotone(stamps: Chain, s: nat, t: nat, low: nat, high: int, latest: nat)
    requires s <= t && low <= high + 1 && 0 <= high <= latest && Readable(stamps, latest)
    ensures Search(stamps, s, low, high).block.Ok? && Search(stamps, t, low, high).block.Ok?
    ensures Search(stamps, s, low, high).block.value <= Search(stamps, t, low, high).block.value
    decreases high + 1 - low
  {
    if low <= high {
      var mid := Mid(low, high);
      if StampOf(stamps, mid) < s {
        ProbeStep(stamps, s, low, high);
        ProbeStep(stamps, t, low, high);
        SearchMonotone(stamps, s, t, mid + 1, high, latest);
      } else if StampOf(stamps, mid) <= t {
        SearchesPart(stamps, s, t, low, high, latest);
      } else {
        ProbeStep(stamps, s, low, high);
        ProbeStep(stamps, t, low, high);
        if mid > 0 {
          SearchMonotone(stamps, s, t, low, mid - 1, latest);
        }
      }
    }
  }

  // For a fixed head a later target never gives an earlier block. This needs no order of
  // the timestamps: both searches probe the same blocks until they part.
  lemma BlockAtMonotone(stamps: Chain, s: nat, t: nat, latest: nat)
    requires s <= t && Readable(stamps, latest)
    ensures BlockAt(stamps, s, latest).block.Ok? && BlockAt(stamps, t, latest).block.Ok?
    ensures BlockAt(stamps, s, latest).block.value <= BlockAt(stamps, t, latest).block.value
  {
    SearchMonotone(stamps, s, t, 0, latest, latest);
  }

  // --- shared timestamps ---

  // The first midpoint in the bisection of `low..=high` that falls on `a..=b`.
  function Hit(low: nat, high: nat, a: nat, b: nat): (hit: nat)
    requires low <= a <= b <= high
    ensures a <= hit <= b
    decreases high - low
  {
    var mid := Mid(low, high);
    if mid < a then Hit(mid + 1, high, a, b)
    else if mid > b then Hit(low, mid - 1, a, b)
    else mid
  }

  // `a..=b` are the blocks up to the head that carry a timestamp.
  predicate Carry(stamps: Chain, stamp: nat, a: nat, b: nat, head: nat)
    requires Readable(stamps, head)
  {
    a <= b <= head && forall c | 0 <= c <= head :: StampOf(stamps, c) == stamp <==> a <= c <= b
  }

  // Of the blocks that carry its target, the search gives the one that bisection hits first.
  lemma {:induction false} SearchHits(stamps: Chain, target: nat, low: nat, high: nat, a: nat, b: nat, head: nat)
    requires low <= a <= b <= high <= head && NonDecreasing(stamps, head) && Carry(stamps, target, a, b, head)
    ensures Search(stamps, target, low, high).block == Ok(Hit(low, high, a, b))
    decreases high - low
  {
    var mid := Mid(low, high);
    ProbeStep(stamps, target, low, high);
    if mid < a {
      assert StampOf(stamps, mid) <= StampOf(stamps, a);
      SearchHits(stamps, target, mid + 1, high, a, b, head);
    } else if mid > b {
      assert StampOf(stamps, b) <= StampOf(stamps, mid);
      SearchHits(stamps, target, low, mid - 1, a, b, head);
    }
  }

  // Blocks with one timestamp stand side by side.
  lemma Carriers(stamps: Chain, stamp: nat, c: nat, head: nat) returns (a: nat, b: nat)
    requires NonDecreasing(stamps, head) && c <= head && StampOf(stamps, c) == stamp
    ensures Carry(stamps, stamp, a, b, head)
  {
    a, b := c, c;
    while a > 0 && StampOf(stamps, a - 1) == stamp
      invariant a <= c && forall d | a <= d <= c :: StampOf(stamps, d) == stamp
    {
      a := a - 1;
    }
    while b < head && StampOf(stamps, b + 1) == stamp
      invariant c <= b <= head && forall d | c <= d <= b :: StampOf(stamps, d) == stamp
    {
      b := b + 1;
    }
    forall d | 0 <= d <= head
      ensures StampOf(stamps, d) == stamp <==> a <= d <= b
    {
      assert d < a ==> StampOf(stamps, d) <= StampOf(stamps, a - 1) <= StampOf(stamps, a);
      assert d > b ==> StampOf(stamps, b) <= StampOf(stamps, b + 1) <= StampOf(stamps, d);
    }
  }

  // Bisection hits the first, or the last, of the blocks that carry a timestamp, if any do.
  ghost predicate HitsFirst(stamps: Chain, stamp: nat, head: nat)
    requires Readable(stamps, head)
  {
    forall a, b | Carry(stamps, stamp, a, b, head) :: Hit(0, head, a, b) == a
  }

  ghost predicate HitsLast(stamps: Chain, stamp: nat, head: nat)
    requires Readable(stamps, head)
  {
    forall a, b | Carry(stamps, stamp, a, b, head) :: Hit(0, head, a, b) == b
  }

  lemma OneRun(stamps: Chain, stamp: nat, a: nat, b: nat, d: nat, e: nat, head: nat)
    requires Readable(stamps, head) && Carry(stamps, stamp, a, b, head) && Carry(stamps, stamp, d, e, head)
    ensures a == d && b == e
  {
    assert StampOf(stamps, a) == StampOf(stamps, b) == StampOf(stamps, d) == StampOf(stamps, e) == stamp;
  }

  // Where some block carries the target, the search and the conditions above speak of its run.
  lemma HitOf(stamps: Chain, stamp: nat, c: nat, head: nat) returns (a: nat, b: nat)
    requires NonDecreasing(stamps, head) && c <= head && StampOf(stamps, c) == stamp
    ensures Carry(stamps, stamp, a, b, head) && BlockAt(stamps, stamp, head).block == Ok(Hit(0, head, a, b))
    ensures HitsFirst(stamps, stamp, head) <==> Hit(0, head, a, b) == a
    ensures HitsLast(stamps, stamp, head) <==> Hit(0, head, a, b) == b
  {
    a, b := Carriers(stamps, stamp, c, head);
    SearchHits(stamps, stamp, 0, head, a, b, head);
    forall d, e | Carry(stamps, stamp, d, e, head)
      ensures d == a && e == b
    {
      OneRun(stamps, stamp, a, b, d, e, head);
    }
  }

  lemma NoRun(stamps: Chain, stamp: nat, head: nat)
    requires Readable(stamps, head) && forall c | 0 <= c <= head :: StampOf(stamps, c) != stamp
    ensures forall a: nat, b: nat :: !Carry(stamps, stamp, a, b, head)
  {
    forall a: nat, b: nat
      ensures !Carry(stamps, stamp, a, b, head)
    {
      if a <= b <= head {
        assert StampOf(stamps, a) != stamp;
      }
    }
  }

  lemma HitsFirstIff(stamps: Chain, stamp: nat, head: nat)
    requires NonDecreasing(stamps, head)
    ensures var r := BlockAt(stamps, stamp, head).block;
            && r.Ok? && r.value <= head
            && (HitsFirst(stamps, stamp, head) <==> forall c | 0 <= c < r.value :: StampOf(stamps, c) != stamp)
  {
    BlockAtFinds(stamps, stamp, head);
    if c :| 0 <= c <= head && StampOf(stamps, c) == stamp {
      var a, b := HitOf(stamps, stamp, c, head);
      assert StampOf(stamps, a) == stamp;
    } else {
      NoRun(stamps, stamp, head);
    }
  }

  lemma HitsLastIff(stamps: Chain, stamp: nat, head: nat)
    requires NonDecreasing(stamps, head)
    ensures var r := BlockAt(stamps, stamp, head).block;
            && r.Ok? && r.value <= head
            && (HitsLast(stamps, stamp, head) <==> forall c | r.value < c <= head :: StampOf(stamps, c) != stamp)
  {
    BlockAtFinds(stamps, stamp, head);
    if c :| 0 <= c <= head && StampOf(stamps, c) == stamp {
      var a, b := HitOf(stamps, stamp, c, head);
      assert StampOf(stamps, b) == stamp;
    } else {
      NoRun(stamps, stamp, head);
    }
  }

  // --- the two ends of a range, each searched up to the head at its own time ---

  lemma ShorterChain(stamps: Chain, early: nat, late: nat)
    requires early <= late && NonDecreasing(stamps, late)
    ensures NonDecreasing(stamps, early)
  {
    forall b | 0 <= b <= early
      ensures stamps(b).Ok?
    {
    }
  }

  lemma InOrder(stamps: Chain, a: nat, b: nat, head: nat)
    requires NonDecreasing(stamps, head) && a <= head && b <= head
    ensures StampOf(stamps, 0) <= StampOf(stamps, a)
    ensures a <= b ==> StampOf(stamps, a) <= StampOf(stamps, b)
    ensures b <= a ==> StampOf(stamps, b) <= StampOf(stamps, a)
  {
  }

  // A block in the range that lies before the start carries the start itself, and one that lies
  // behind the end carries the end.
  lemma OutsideCarries(stamps: Chain, s: nat, t: nat, early: nat, late: nat, b: nat)
    requires s <= t && early <= late && NonDecreasing(stamps, late) && NonDecreasing(stamps, early)
    requires b <= late && s <= StampOf(stamps, b) <= t
    ensures var first, last := BlockAt(stamps, s, early).block, BlockAt(stamps, t, late).block;
            && first.Ok? && last.Ok? && first.value <= early && last.value <= late
            && (b < first.value ==> StampOf(stamps, b) == s) && (last.value < b ==> StampOf(stamps, b) == t)
  {
    BlockAtFinds(stamps, s, early);
    BlockAtFinds(stamps, t, late);
    InOrder(stamps, b, BlockAt(stamps, s, early).block.value, late);
    InOrder(stamps, b, BlockAt(stamps, t, late).block.value, late);
  }

  // The first search ended before the chain had come as far as the start, and the chain then
  // grew by a block that is still before it.
  predicate StartAhead(stamps: Chain, s: nat, early: nat, late: nat)
    requires Readable(stamps, late)
  {
    early < late && StampOf(stamps, early + 1) < s
  }

  // A block between the two answers is not behind the end, and lies in the range unless the
  // start was ahead of the chain.
  lemma BetweenAnswers(stamps: Chain, s: nat, t: nat, early: nat, late: nat, b: nat)
    requires s <= t && early <= late && NonDecreasing(stamps, late) && NonDecreasing(stamps, early)
    requires var first, last := BlockAt(stamps, s, early).block, BlockAt(stamps, t, late).block;
             first.Ok? && last.Ok? && first.value < b <= last.value <= late && first.value <= early
    ensures StampOf(stamps, b) <= t
    ensures StampOf(stamps, b) < s ==> early < b && StartAhead(stamps, s, early, late)
  {
    BlockAtFinds(stamps, s, early);
    BlockAtFinds(stamps, t, late);
    var first, last := BlockAt(stamps, s, early).block.value, BlockAt(stamps, t, late).block.value;
    InOrder(stamps, first, b, late);
    InOrder(stamps, b, last, late);
    if early < b {
      InOrder(stamps, early + 1, b, late);
    }
  }

  // If it was, the block that the chain then grew by lies between the two answers.
  lemma AheadIsBetween(stamps: Chain, s: nat, t: nat, early: nat, late: nat)
    requires s <= t && early <= late && NonDecreasing(stamps, late) && NonDecreasing(stamps, early)
    requires StartAhead(stamps, s, early, late)
    ensures var first, last := BlockAt(stamps, s, early).block, BlockAt(stamps, t, late).block;
            first.Ok? && last.Ok? && first.value <= early < last.value
  {
    BlockAtFinds(stamps, s, early);
    BlockAtFinds(stamps, t, late);
    InOrder(stamps, early + 1, BlockAt(stamps, t, late).block.value, late);
  }

  // The blocks of a timestamp range, on timestamps that do not decrease; the head may move on
  // between the two searches. None of them is behind the end. Besides the block that was current
  // at the start, all of them are in the range if and only if the start was not ahead of the
  // chain. They are all the blocks in the range if and only if bisection hits the first of the
  // blocks that carry the start and the last of those that carry the end.
  lemma RangeCoversIff(stamps: Chain, s: nat, t: nat, early: nat, late: nat)
    requires s <= t && early <= late && NonDecreasing(stamps, late)
    ensures var first, last := BlockAt(stamps, s, early).block, BlockAt(stamps, t, late).block;
            && NonDecreasing(stamps, early) && first.Ok? && last.Ok? && first.value <= early && last.value <= late
            && (forall b | first.value < b <= last.value :: StampOf(stamps, b) <= t)
            && ((forall b | first.value < b <= last.value :: s <= StampOf(stamps, b)) <==>
                !StartAhead(stamps, s, early, late))
            && ((forall b | 0 <= b <= late && s <= StampOf(stamps, b) <= t :: first.value <= b <= last.value) <==>
                HitsFirst(stamps, s, early) && HitsLast(stamps, t, late))
  {
    ShorterChain(stamps, early, late);
    HitsFirstIff(stamps, s, early);
    HitsLastIff(stamps, t, late);
    var first, last := BlockAt(stamps, s, early).block.value, BlockAt(stamps, t, late).block.value;
    forall b | first < b <= last
      ensures StampOf(stamps, b) <= t && (StampOf(stamps, b) < s ==> StartAhead(stamps, s, early, late))
    {
      BetweenAnswers(stamps, s, t, early, late, b);
    }
    if StartAhead(stamps, s, early, late) {
      AheadIsBetween(stamps, s, t, early, late);
    }
    forall b | 0 <= b <= late && s <= StampOf(stamps, b) <= t
      ensures b < first ==> StampOf(stamps, b) == s
      ensures last < b ==> StampOf(stamps, b) == t
    {
      OutsideCarries(stamps, s, t, early, late, b);
    }
  }

  // When no two blocks share a timestamp, they are the blocks in the range and the block that
  // was current at its start, if and only if the start was not ahead of the chain.
  lemma RangeCovers(stamps: Chain, s: nat, t: nat, early: nat, late: nat)
    requires s <= t && early <= late && StrictlyIncreasing(stamps, late)
    ensures var first, last := BlockAt(stamps, s, early).block, BlockAt(stamps, t, late).block;
            && first.Ok? && last.Ok? && first.value <= last.value <= late
            && ((forall b | 0 <= b <= late ::
                   first.value <= b <= last.value <==> b == first.value || s <= StampOf(stamps, b) <= t) <==>
                !StartAhead(stamps, s, early, late))
  {
    RangeCoversIff(stamps, s, t, early, late);
    SingleRuns(stamps, s, early);
    SingleRuns(stamps, t, late);
    StepBackNeedsRuns(stamps, s, early, late);
    SearchesOrderedIff(stamps, s, t, early, late);
  }

  lemma SingleRuns(stamps: Chain, stamp: nat, head: nat)
    requires Readable(stamps, head) && forall a, b | 0 <= a < b <= head :: StampOf(stamps, a) < StampOf(stamps, b)
    ensures HitsFirst(stamps, stamp, head) && HitsLast(stamps, stamp, head)
  {
    forall a, b | Carry(stamps, stamp, a, b, head)
      ensures a == b
    {
      assert StampOf(stamps, a) == StampOf(stamps, b);
    }
  }

  // Bisection up to the later head hits no earlier block with this timestamp than bisection up
  // to the earlier head.
  ghost predicate NoStepBack(stamps: Chain, stamp: nat, early: nat, late: nat)
    requires Readable(stamps, early) && Readable(stamps, late)
  {
    forall a, b, c | Carry(stamps, stamp, a, b, early) && Carry(stamps, stamp, a, c, late) ::
      Hit(0, early, a, b) <= Hit(0, late, a, c)
  }

  lemma StepBackNeedsRuns(stamps: Chain, stamp: nat, early: nat, late: nat)
    requires early <= late && Readable(stamps, early) && StrictlyIncreasing(stamps, late)
    ensures NoStepBack(stamps, stamp, early, late)
  {
    forall a, b, c | Carry(stamps, stamp, a, b, early) && Carry(stamps, stamp, a, c, late)
      ensures b == a == c
    {
      assert StampOf(stamps, a) == StampOf(stamps, b) == StampOf(stamps, c);
    }
  }

  lemma DifferentEndsOrdered(stamps: Chain, s: nat, t: nat, early: nat, late: nat)
    requires s < t && early <= late && NonDecreasing(stamps, late) && NonDecreasing(stamps, early)
    ensures BlockAt(stamps, s, early).block.Ok? && BlockAt(stamps, t, late).block.Ok?
    ensures BlockAt(stamps, s, early).block.value <= BlockAt(stamps, t, late).block.value
  {
    BlockAtFinds(stamps, s, early);
    BlockAtFinds(stamps, t, late);
    InOrder(stamps, BlockAt(stamps, s, early).block.value, BlockAt(stamps, t, late).block.value, late);
  }

  lemma UncarriedEndOrdered(stamps: Chain, s: nat, early: nat, late: nat)
    requires early <= late && NonDecreasing(stamps, late) && NonDecreasing(stamps, early)
    requires forall c | 0 <= c <= early :: StampOf(stamps, c) != s
    ensures BlockAt(stamps, s, early).block.Ok? && BlockAt(stamps, s, late).block.Ok?
    ensures BlockAt(stamps, s, early).block.value <= BlockAt(stamps, s, late).block.value
  {
    BlockAtFinds(stamps, s, early);
    BlockAtFinds(stamps, s, late);
    InOrder(stamps, BlockAt(stamps, s, early).block.value, BlockAt(stamps, s, late).block.value, late);
  }

  lemma CarriedEndOrderedIff(stamps: Chain, s: nat, c: nat, early: nat, late: nat)
    requires early <= late && NonDecreasing(stamps, late) && NonDecreasing(stamps, early)
    requires c <= early && StampOf(stamps, c) == s
    ensures BlockAt(stamps, s, early).block.Ok? && BlockAt(stamps, s, late).block.Ok?
    ensures BlockAt(stamps, s, early).block.value <= BlockAt(stamps, s, late).block.value <==>
            NoStepBack(stamps, s, early, late)
  {
    var a, b := HitOf(stamps, s, c, early);
    var d, e := HitOf(stamps, s, c, late);
    assert StampOf(stamps, a) == s && StampOf(stamps, d) == s;
    assert a == d;
    forall x, y, z | Carry(stamps, s, x, y, early) && Carry(stamps, s, x, z, late)
      ensures x == a && y == b && z == e
    {
      OneRun(stamps, s, a, b, x, y, early);
      OneRun(stamps, s, d, e, x, z, late);
    }
  }

  // The end is never found before the start if the two differ. If they are one timestamp, it is
  // not if and only if bisection does not step back when the head moves on.
  lemma SearchesOrderedIff(stamps: Chain, s: nat, t: nat, early: nat, late: nat)
    requires s <= t && early <= late && NonDecreasing(stamps, late)
    ensures NonDecreasing(stamps, early)
    ensures BlockAt(stamps, s, early).block.Ok? && BlockAt(stamps, t, late).block.Ok?
    ensures BlockAt(stamps, s, early).block.value <= BlockAt(stamps, t, late).block.value <==>
            s < t || NoStepBack(stamps, s, early, late)
  {
    ShorterChain(stamps, early, late);
    if s < t {
      DifferentEndsOrdered(stamps, s, t, early, late);
    } else if c :| 0 <= c <= early && StampOf(stamps, c) == s {
      CarriedEndOrderedIff(stamps, s, c, early, late);
    } else {
      NoRun(stamps, s, early);
      UncarriedEndOrdered(stamps, s, early, late);
    }
  }

  function SevenTwice(): Chain {
    (b: nat) => Ok(if b <= 1 then 7 else 6 + b)
  }

  lemma HitFirstTry(low: nat, high: nat, a: nat, b: nat)
    requires low <= a <= b <= high && a <= Mid(low, high) <= b
    ensures Hit(low, high, a, b) == Mid(low, high)
  {
  }

  lemma SevenRuns(head: nat)
    requires head >= 1
    ensures NonDecreasing(SevenTwice(), head) && Carry(SevenTwice(), 7, 0, 1, head)
  {
    assert forall b: nat :: SevenTwice()(b) == Ok(if b <= 1 then 7 else 6 + b);
  }

  lemma HitsOfSeven()
    ensures Hit(0, 3, 0, 1) == 1 && Hit(0, 4, 0, 1) == 0
  {
    HitFirstTry(0, 3, 0, 1);
    HitFirstTry(0, 1, 0, 1);
    assert Mid(0, 4) == 2;
  }

  // Two blocks at second 7, searched up to block 3 and then up to block 4: the first search
  // gives the later of them and the second the earlier.
  lemma MovingHeadStepsBack()
    ensures var stamps := SevenTwice();
            && NonDecreasing(stamps, 4) && Carry(stamps, 7, 0, 1, 3) && Carry(stamps, 7, 0, 1, 4)
            && BlockAt(stamps, 7, 3).block == Ok(1) && BlockAt(stamps, 7, 4).block == Ok(0)
  {
    HitsOfSeven();
    SevenRuns(3);
    SevenRuns(4);
    SearchHits(SevenTwice(), 7, 0, 3, 0, 1, 3);
    SearchHits(SevenTwice(), 7, 0, 4, 0, 1, 4);
  }

  function TensApart(): Chain {
    (b: nat) => Ok(10 * b)
  }

  lemma TensIncrease(head: nat)
    ensures StrictlyIncreasing(TensApart(), head)
  {
    assert forall b: nat :: TensApart()(b) == Ok(10 * b);
  }

  lemma TensAhead()
    ensures Readable(TensApart(), 2) && StartAhead(TensApart(), 15, 0, 2) && StampOf(TensApart(), 1) == 10
  {
    TensIncrease(2);
    assert TensApart()(1) == Ok(10);
  }

  lemma FirstTenSearched()
    ensures BlockAt(TensApart(), 15, 0).block == Ok(0)
  {
    ProbeStep(TensApart(), 15, 0, 0);
  }

  lemma LastTenSearched()
    ensures BlockAt(TensApart(), 20, 2).block == Ok(2)
  {
    TensIncrease(2);
    SearchHits(TensApart(), 20, 0, 2, 2, 2, 2);
  }

  // A range from second 15 to 20 on blocks ten seconds apart, begun at block 0 and ended at
  // block 2: it takes in the block at second 10.
  lemma StartAheadAddsBlock()
    ensures var stamps := TensApart();
            && StrictlyIncreasing(stamps, 2) && StartAhead(stamps, 15, 0, 2)
            && BlockAt(stamps, 15, 0).block == Ok(0) && BlockAt(stamps, 20, 2).block == Ok(2)
            && StampOf(stamps, 1) == 10
  {
    TensIncrease(2);
    TensAhead();
    FirstTenSearched();
    LastTenSearched();
  }

  // Two blocks at second 1: the range from 1 to 1 selects the first of them only.
  lemma SharedStampLosesBlock()
    ensures var stamps: Chain := (b: nat) => Ok(1);
            && NonDecreasing(stamps, 1)
            && BlockAt(stamps, 1, 1).block == Ok(0) && StampOf(stamps, 1) == 1
  {
    var stamps: Chain := (b: nat) => Ok(1);
    assert Mid(0, 1) == 0;
    assert Search(stamps, 1, 0, 1) == Found(Ok(0), 1);
  }

  // --- a list of timestamps ---

  function Insert(x: nat, s: seq<nat>): seq<nat> {
    if s == [] || x <= s[0] then [x] + s else [s[0]] + Insert(x, s[1..])
  }

  function Sort(s: seq<nat>): seq<nat> {
    if s == [] then [] else Insert(s[0], Sort(s[1..]))
  }

  // Drop each element that equals the one before it.
  function Dedup(s: seq<nat>): seq<nat> {
    if |s| <= 1 then s
    else if s[0] == s[1] then Dedup(s[1..])
    else [s[0]] + Dedup(s[1..])
  }

  predicate Sorted(s: seq<nat>) {
    forall i, j | 0 <= i < j < |s| :: s[i] <= s[j]
  }

  predicate Ascending(s: seq<nat>) {
    forall i, j | 0 <= i < j < |s| :: s[i] < s[j]
  }

  lemma ConsSorted(x: nat, s: seq<nat>)
    requires Sorted(s) && forall y | y in s :: x <= y
    ensures Sorted([x] + s)
  {
    forall i, j | 0 <= i < j < |[x] + s|
      ensures ([x] + s)[i] <= ([x] + s)[j]
    {
      assert ([x] + s)[j] == s[j - 1] && s[j - 1] in s;
    }
  }

  lemma ConsAscending(x: nat, s: seq<nat>)
    requires Ascending(s) && forall y | y in s :: x < y
    ensures Ascending([x] + s)
  {
    forall i, j | 0 <= i < j < |[x] + s|
      ensures ([x] + s)[i] < ([x] + s)[j]
    {
      assert ([x] + s)[j] == s[j - 1] && s[j - 1] in s;
    }
  }

  lemma {:induction false} InsertSorted(x: nat, s: seq<nat>)
    requires Sorted(s)
    ensures Sorted(Insert(x, s)) && forall y :: y in Insert(x, s) <==> y == x || y in s
  {
    if s == [] || x <= s[0] {
    } else {
      InsertSorted(x, s[1..]);
      var rest := Insert(x, s[1..]);
      forall y | y in rest
        ensures s[0] <= y
      {
        if y in s[1..] {
          var i :| 0 <= i < |s[1..]| && s[1..][i] == y;
          assert s[i + 1] == y;
        }
      }
      assert s == [s[0]] + s[1..];
      ConsSorted(s[0], rest);
    }
  }

  lemma {:induction false} SortSorts(s: seq<nat>)
    ensures Sorted(Sort(s)) && forall y :: y in Sort(s) <==> y in s
  {
    if s == [] {
    } else {
      SortSorts(s[1..]);
      InsertSorted(s[0], Sort(s[1..]));
    }
  }

  lemma {:induction false} DedupAscends(s: seq<nat>)
    requires Sorted(s)
    ensures Ascending(Dedup(s)) && forall y :: y in Dedup(s) <==> y in s
  {
    if |s| <= 1 {
    } else {
      DedupAscends(s[1..]);
      assert s == [s[0]] + s[1..];
      if s[0] == s[1] {
        assert s[1..][0] == s[0];
      } else {
        forall y | y in Dedup(s[1..])
          ensures s[0] < y
        {
          var i :| 0 <= i < |s[1..]| && s[1..][i] == y;
          assert s[1] <= s[i + 1];
        }
        ConsAscending(s[0], Dedup(s[1..]));
      }
    }
  }

  method TimestampsToBlockNumbers(timestamps: seq<nat>, stamps: Chain, latest: U64) returns (r: Result<seq<nat>>)
    ensures (forall t | t in timestamps :: BlockOf(stamps, t, latest).block.Ok?) <==> r.Ok?
    ensures r.Ok? ==> Ascending(r.value)
    ensures r.Ok? ==>
              forall b :: b in r.value <==> exists t :: t in timestamps && BlockOf(stamps, t, latest).block == Ok(b)
  {
    var blockNumbers: seq<nat> := [];
    for i := 0 to |timestamps|
      invariant |blockNumbers| == i
      invariant forall k | 0 <= k < i :: BlockOf(stamps, timestamps[k], latest).block == Ok(blockNumbers[k])
    {
      var block, _ := BlockAtTimestamp(stamps, timestamps[i], latest);
      if block.Err? {
        assert timestamps[i] in timestamps;
        return Err(block.error);
      }
      blockNumbers := blockNumbers + [block.value];
    }
    var sorted := Sort(blockNumbers);
    SortSorts(blockNumbers);
    DedupAscends(sorted);
    r := Ok(Dedup(sorted));
    forall b
      ensures b in blockNumbers <==> exists t :: t in timestamps && BlockOf(stamps, t, latest).block == Ok(b)
    {
      if b in blockNumbers {
        var k :| 0 <= k < |blockNumbers| && blockNumbers[k] == b;
        assert timestamps[k] in timestamps;
      }
    }
  }
}
