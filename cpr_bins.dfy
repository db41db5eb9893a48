/** `cpr_bin_check`: the positions of CPR-looking numbers in a scanned
    object are cut into `numBins` equal bins; a bin's accepted CPRs are kept
    only when the bin is dense enough in accepted CPRs and so is a
    neighbouring bin. Regular-expression matches are reduced to their
    spans. */
module CprBins {

  /** A regular-expression match: `start(0)` and `end(0)`. */
  datatype Span = Span(start: int, end: int)

  /** The arguments of one call: all CPR-looking numbers, the accepted CPRs
      among them, the number of bins and the ratio cut-off. */
  datatype Scan = Scan(numbers: seq<Span>, cprs: seq<Span>, numBins: int, cutoff: real)

  /** The calls that reach the binning: both lists non-empty. */
  predicate Binned(s: Scan) {
    s.numbers != [] && s.cprs != [] && s.numBins >= 1
  }

  /** `ceil(a / b)` for a positive divisor. */
  function CeilDiv(a: int, b: int): (q: int)
    requires b > 0
    ensures (q - 1) * b < a <= q * b
  {
    -((-a) / b)
  }

  function BinSize(s: Scan): int
    requires Binned(s)
  {
    CeilDiv(s.numbers[|s.numbers| - 1].end - s.numbers[0].start, s.numBins)
  }

  /** The position bin `b` ends before. */
  function BinEnd(s: Scan, b: int): int
    requires Binned(s)
  {
    BinSize(s) * b + s.numbers[0].start
  }

  /** The elements from index `from` on that start before `last`, up to
      the first that does not: what `elements_in_bin` collects. */
  function InBin(elems: seq<Span>, from: nat, last: int): (r: seq<Span>)
    requires from <= |elems|
    ensures from + |r| <= |elems|
    decreases |elems| - from
  {
    if from < |elems| && elems[from].start < last then [elems[from]] + InBin(elems, from + 1, last) else []
  }

  /** The elements collected are the run of the input starting at `from`,
      every one of them starting before `last`, and the run stops only at
      the end of the input or at an element that does not. */
  lemma {:induction false} InBinIsRun(elems: seq<Span>, from: nat, last: int)
    requires from <= |elems|
    ensures InBin(elems, from, last) == elems[from..from + |InBin(elems, from, last)|]
    ensures forall e :: e in InBin(elems, from, last) ==> e.start < last
    ensures var n := |InBin(elems, from, last)|; from + n == |elems| || elems[from + n].start >= last
    decreases |elems| - from
  {
    if from < |elems| && elems[from].start < last {
      InBinIsRun(elems, from + 1, last);
    }
  }

  /** Where the cursor into `elems` stands after bins 1 .. b. */
  function Cursor(s: Scan, elems: seq<Span>, b: nat): (c: nat)
    requires Binned(s) && b <= s.numBins
    ensures c <= |elems|
  {
    if b == 0 then 0
    else
      var prev := Cursor(s, elems, b - 1);
      prev + |InBin(elems, prev, BinEnd(s, b))|
  }

  /** The accepted CPRs that fall in bin `b`. */
  function BinCprs(s: Scan, b: nat): seq<Span>
    requires Binned(s) && 1 <= b <= s.numBins
  {
    InBin(s.cprs, Cursor(s, s.cprs, b - 1), BinEnd(s, b))
  }

  /** How many numbers fall in bin `b`. */
  function BinNumbers(s: Scan, b: nat): nat
    requires Binned(s) && 1 <= b <= s.numBins
  {
    |InBin(s.numbers, Cursor(s, s.numbers, b - 1), BinEnd(s, b))|
  }

  /** The ratio test: no numbers at all, or CPRs per number reaching the
      cut-off. */
  predicate PassesRatio(cprCount: nat, numberCount: nat, cutoff: real) {
    numberCount == 0 || (cprCount as real) / (numberCount as real) >= cutoff
  }

  /** Whether bin `b` passes the ratio test. */
  predicate RatioOk(s: Scan, b: nat)
    requires Binned(s) && 1 <= b <= s.numBins
  {
    PassesRatio(|BinCprs(s, b)|, BinNumbers(s, b), s.cutoff)
  }

  /** Bin `b` is kept, given every bin's ratio test indexed by bin number
      (slot 0 stands for the non-existent bin before the first): it passes
      and so does a neighbour among the real bins; a single bin needs no
      neighbour. */
  predicate KeptAmong(ok: seq<bool>, b: nat)
    requires 1 <= b < |ok|
  {
    ok[b] && (|ok| == 2 || (b > 1 && ok[b - 1]) || (b + 1 < |ok| && ok[b + 1]))
  }

  /** Whether the CPRs of bin `b` are kept. */
  predicate Kept(s: Scan, b: nat)
    requires Binned(s) && 1 <= b <= s.numBins
  {
    RatioOk(s, b) &&
    (s.numBins == 1 || (b > 1 && RatioOk(s, b - 1)) || (b < s.numBins && RatioOk(s, b + 1)))
  }

  /** Every bin's kept flag, by bin number; slot 0 is never kept. */
  function KeptFlags(s: Scan): (flags: seq<bool>)
    requires Binned(s)
    ensures |flags| == s.numBins + 1
  {
    seq(s.numBins + 1, b requires 0 <= b <= s.numBins => 1 <= b && Kept(s, b))
  }

  /** Every bin's CPRs, by bin number; slot 0 is empty. */
  function BinSeq(s: Scan): (bins: seq<seq<Span>>)
    requires Binned(s)
    ensures |bins| == s.numBins + 1
  {
    seq(s.numBins + 1, b requires 0 <= b <= s.numBins => if b == 0 then [] else BinCprs(s, b))
  }

  /** The concatenation, in bin order, of the bins 1 .. k whose flag is
      set. */
  function Gather(flags: seq<bool>, bins: seq<seq<Span>>, k: nat): seq<Span>
    requires k < |flags| && k < |bins|
  {
    if k == 0 then [] else Gather(flags, bins, k - 1) + (if flags[k] then bins[k] else [])
  }

  /** What `cpr_bin_check` returns: the CPRs of the kept bins, in order,
      which are some of the accepted CPRs in their original order; nothing
      when there are no numbers or no CPRs. */
  function BinFilter(s: Scan): (r: seq<Span>)
    requires s.numBins >= 1 || s.numbers == [] || s.cprs == []
    ensures IsSubsequence(r, s.cprs)
    ensures s.numbers == [] || s.cprs == [] ==> r == []
  {
    if s.numbers == [] || s.cprs == [] then []
    else
      var g := Gather(KeptFlags(s), BinSeq(s), s.numBins);
      var c := Cursor(s, s.cprs, s.numBins);
      GatherIsSubsequence(KeptFlags(s), BinSeq(s), s.numBins);
      ConcatBins(s, BinSeq(s), s.numBins);
      SubsequenceConcat(g, s.cprs[..c], [], s.cprs[c..]);
      assert s.cprs[..c] + s.cprs[c..] == s.cprs;
      assert g + [] == g;
      g
  }

  // ---------------------------------------------------------------------
  // The result is an order-preserving subsequence of the CPRs
  // ---------------------------------------------------------------------

  predicate IsSubsequence(xs: seq<Span>, ys: seq<Span>)
    decreases |ys|
  {
    if xs == [] then true
    else if ys == [] then false
    else (xs[0] == ys[0] && IsSubsequence(xs[1..], ys[1..])) || IsSubsequence(xs, ys[1..])
  }

  lemma {:induction false} SubsequenceReflexive(ys: seq<Span>)
    ensures IsSubsequence(ys, ys)
    decreases |ys|
  {
    if ys != [] {
      SubsequenceReflexive(ys[1..]);
    }
  }

  lemma {:induction false} SubsequencePrepend(b: seq<Span>, x: seq<Span>, y: seq<Span>)
    requires IsSubsequence(b, y)
    ensures IsSubsequence(b, x + y)
    decreases |x|
  {
    if x != [] && b != [] {
      SubsequencePrepend(b, x[1..], y);
      assert (x + y)[1..] == x[1..] + y;
    } else if x == [] {
      assert x + y == y;
    }
  }

  lemma {:induction false} SubsequenceConcat(a: seq<Span>, x: seq<Span>, b: seq<Span>, y: seq<Span>)
    requires IsSubsequence(a, x) && IsSubsequence(b, y)
    ensures IsSubsequence(a + b, x + y)
    decreases |x|
  {
    if x == [] {
      assert a == [] && a + b == b && x + y == y;
    } else if a == [] {
      assert a + b == b;
      SubsequencePrepend(b, x, y);
    } else {
      assert (x + y)[1..] == x[1..] + y;
      if a[0] == x[0] && IsSubsequence(a[1..], x[1..]) {
        SubsequenceConcat(a[1..], x[1..], b, y);
        assert (a + b)[1..] == a[1..] + b;
      } else {
        SubsequenceConcat(a, x[1..], b, y);
      }
    }
  }

  /** One bin's step: keeping the bin or not, the kept CPRs stay a
      subsequence of the CPRs scanned so far. */
  lemma SubsequenceStep(kept: seq<Span>, prev: seq<Span>, bin: seq<Span>, keep: bool)
    requires IsSubsequence(kept, prev)
    ensures IsSubsequence(kept + (if keep then bin else []), prev + bin)
  {
    if keep {
      SubsequenceReflexive(bin);
      SubsequenceConcat(kept, prev, bin, bin);
    } else {
      SubsequenceConcat(kept, prev, [], bin);
      assert kept + [] == kept;
    }
  }

  /** All bins 1 .. k, concatenated. */
  function Concat(bins: seq<seq<Span>>, k: nat): seq<Span>
    requires k < |bins|
  {
    if k == 0 then [] else Concat(bins, k - 1) + bins[k]
  }

  lemma {:induction false} GatherIsSubsequence(flags: seq<bool>, bins: seq<seq<Span>>, k: nat)
    requires k < |flags| && k < |bins|
    ensures IsSubsequence(Gather(flags, bins, k), Concat(bins, k))
  {
    if k > 0 {
      GatherIsSubsequence(flags, bins, k - 1);
      SubsequenceStep(Gather(flags, bins, k - 1), Concat(bins, k - 1), bins[k], flags[k]);
    }
  }

  /** A bin's CPRs are the run of the CPRs between its two cursors. */
  lemma BinIsSlice(s: Scan, k: nat)
    requires Binned(s) && 1 <= k <= s.numBins
    ensures Cursor(s, s.cprs, k - 1) <= Cursor(s, s.cprs, k)
    ensures BinCprs(s, k) == s.cprs[Cursor(s, s.cprs, k - 1)..Cursor(s, s.cprs, k)]
  {
    InBinIsRun(s.cprs, Cursor(s, s.cprs, k - 1), BinEnd(s, k));
  }

  lemma PrefixSplit(xs: seq<Span>, lo: nat, hi: nat)
    requires lo <= hi <= |xs|
    ensures xs[..hi] == xs[..lo] + xs[lo..hi]
  {
  }

  /** The bins, concatenated, are the CPRs up to the last bin's cursor. */
  lemma {:induction false} ConcatBins(s: Scan, bins: seq<seq<Span>>, k: nat)
    requires Binned(s) && k <= s.numBins && |bins| == s.numBins + 1
    requires forall b {:trigger BinCprs(s, b)} :: 1 <= b <= s.numBins ==> bins[b] == BinCprs(s, b)
    ensures Concat(bins, k) == s.cprs[..Cursor(s, s.cprs, k)]
  {
    if k > 0 {
      ConcatBins(s, bins, k - 1);
      BinIsSlice(s, k);
      PrefixSplit(s.cprs, Cursor(s, s.cprs, k - 1), Cursor(s, s.cprs, k));
    }
  }

  // ---------------------------------------------------------------------
  // The imperative algorithm
  // ---------------------------------------------------------------------

  /** `elements_in_bin`: the elements from `start` on whose match starts
      before `lastPosition`, up to the first that does not. */
  method ElementsInBin(start: nat, allElements: seq<Span>, lastPosition: int) returns (elems: seq<Span>)
    requires start <= |allElements|
    ensures elems == InBin(allElements, start, lastPosition)
  {
    elems := [];
    var elemInd := start;
    while elemInd < |allElements| && allElements[elemInd].start < lastPosition
      invariant start <= elemInd <= |allElements|
      invariant elems + InBin(allElements, elemInd, lastPosition) == InBin(allElements, start, lastPosition)
    {
      assert elems + InBin(allElements, elemInd, lastPosition)
          == (elems + [allElements[elemInd]]) + InBin(allElements, elemInd + 1, lastPosition);
      elems := elems + [allElements[elemInd]];
      elemInd := elemInd + 1;
    }
  }

  lemma SmallRemainder(a: int, m: int)
    requires 0 <= a < m
    ensures a % m == a
  {
  }

  /** Every bin's ratio test as a table indexed by bin number. */
  lemma RatioTable(s: Scan) returns (ok: seq<bool>)
    requires Binned(s)
    ensures |ok| == s.numBins + 1 && !ok[0]
    ensures forall b {:trigger RatioOk(s, b)} :: 1 <= b <= s.numBins ==> ok[b] == RatioOk(s, b)
  {
    ok := seq(s.numBins + 1, b requires 0 <= b <= s.numBins => 1 <= b && RatioOk(s, b));
  }

  /** Every bin's CPRs as a table indexed by bin number. */
  lemma BinTable(s: Scan) returns (bins: seq<seq<Span>>)
    requires Binned(s)
    ensures |bins| == s.numBins + 1
    ensures forall b {:trigger BinCprs(s, b)} :: 1 <= b <= s.numBins ==> bins[b] == BinCprs(s, b)
  {
    bins := seq(s.numBins + 1, b requires 0 <= b <= s.numBins => if b == 0 then [] else BinCprs(s, b));
  }

  /** Over the ratio table, "kept" is `Kept`. */
  lemma KeptFromTable(s: Scan, ok: seq<bool>, b: nat)
    requires Binned(s) && 1 <= b <= s.numBins
    requires |ok| == s.numBins + 1
    requires forall c {:trigger RatioOk(s, c)} :: 1 <= c <= s.numBins ==> ok[c] == RatioOk(s, c)
    ensures KeptAmong(ok, b) == Kept(s, b)
  {
    assert ok[b] == RatioOk(s, b);
    if b > 1 {
      assert ok[b - 1] == RatioOk(s, b - 1);
    }
    if b < s.numBins {
      assert ok[b + 1] == RatioOk(s, b + 1);
    }
  }

  /** What scanning bin `b` from the cursors of the bins before it yields:
      the cursors after it, its CPRs and its ratio test. */
  lemma BinStep(s: Scan, b: nat, nextNum: nat, nextCpr: nat, numbersInBin: seq<Span>, binCprs: seq<Span>)
    requires Binned(s) && 1 <= b <= s.numBins
    requires nextNum == Cursor(s, s.numbers, b - 1) && nextCpr == Cursor(s, s.cprs, b - 1)
    requires numbersInBin == InBin(s.numbers, nextNum, BinEnd(s, b))
    requires binCprs == InBin(s.cprs, nextCpr, BinEnd(s, b))
    ensures nextNum + |numbersInBin| == Cursor(s, s.numbers, b)
    ensures nextCpr + |binCprs| == Cursor(s, s.cprs, b)
    ensures binCprs == BinCprs(s, b)
    ensures PassesRatio(|binCprs|, |numbersInBin|, s.cutoff) == RatioOk(s, b)
  {
  }

  /** Finalising bin `b - 1` once bin `b` is scanned: its own test, and
      either bin `b - 2` (already final, or the always-false slot 0) or bin
      `b`. Because a final bin `b - 2` that passed only through bin `b - 1`
      stands for bin `b - 1` passing, this is exactly whether bin `b - 1`
      is kept. */
  lemma FinaliseStep(ok: seq<bool>, b: nat, before: bool)
    requires 2 <= b < |ok|
    requires b == 2 ==> !before
    requires b >= 3 ==> before == KeptAmong(ok, b - 2)
    ensures (ok[b - 1] && (before || ok[b])) == KeptAmong(ok, b - 1)
  {
  }

  /** Finalising the last bin after the scan. */
  lemma FinaliseLast(ok: seq<bool>, before: bool)
    requires |ok| >= 2
    requires |ok| == 2 ==> !before
    requires |ok| >= 3 ==> before == KeptAmong(ok, |ok| - 2)
    ensures (ok[|ok| - 1] && (before || |ok| == 2)) == KeptAmong(ok, |ok| - 1)
  {
  }

  /** The ratio and CPR tables agree with the bins of `s`. */
  predicate Tables(s: Scan, ok: seq<bool>, bins: seq<seq<Span>>)
    requires Binned(s)
  {
    |ok| == s.numBins + 1 && !ok[0] && |bins| == s.numBins + 1 &&
    (forall b {:trigger RatioOk(s, b)} :: 1 <= b <= s.numBins ==> ok[b] == RatioOk(s, b)) &&
    (forall b {:trigger BinCprs(s, b)} :: 1 <= b <= s.numBins ==> bins[b] == BinCprs(s, b))
  }

  /** One pass of the bin loop of `cpr_bin_check`: collect bin `binInd`'s
      numbers and CPRs, store its CPRs, record its ratio test and finalise
      bin `binInd - 1` in place. */
  method ScanBin(ghost s: Scan, ghost ok: seq<bool>, ghost bins: seq<seq<Span>>,
                 numbers: seq<Span>, cprs: seq<Span>, numBins: int, cutoff: real,
                 binInd: nat, binEndPosition: int, nextNum: nat, nextCpr: nat,
                 binAccepted: array<bool>, binStorage: array<seq<Span>>)
    returns (nextNum': nat, nextCpr': nat)
    requires s == Scan(numbers, cprs, numBins, cutoff) && Binned(s) && Tables(s, ok, bins)
    requires 1 <= binInd <= numBins && binEndPosition == BinEnd(s, binInd)
    requires nextNum == Cursor(s, numbers, binInd - 1) && nextCpr == Cursor(s, cprs, binInd - 1)
    requires binAccepted.Length == binStorage.Length == numBins + 1
    requires binStorage[binInd] == [] && !binAccepted[0]
    requires binInd >= 2 ==> binAccepted[binInd - 1] == ok[binInd - 1]
    requires binInd >= 3 ==> binAccepted[binInd - 2] == KeptAmong(ok, binInd - 2)
    modifies binAccepted, binStorage
    ensures nextNum' == Cursor(s, numbers, binInd) && nextCpr' == Cursor(s, cprs, binInd)
    ensures binStorage[binInd] == bins[binInd]
    ensures forall i :: 0 <= i <= numBins && i != binInd ==> binStorage[i] == old(binStorage[i])
    ensures binAccepted[binInd] == ok[binInd] && !binAccepted[0]
    ensures binInd >= 2 ==> binAccepted[binInd - 1] == KeptAmong(ok, binInd - 1)
    ensures forall i :: 0 <= i < binInd - 1 ==> binAccepted[i] == old(binAccepted[i])
    ensures forall i :: binInd < i <= numBins ==> binAccepted[i] == old(binAccepted[i])
  {
    var numbersInBin := ElementsInBin(nextNum, numbers, binEndPosition);
    var binNumberCount := |numbersInBin|;
    nextNum' := nextNum + binNumberCount;

    var binCprs := ElementsInBin(nextCpr, cprs, binEndPosition);
    nextCpr' := nextCpr + |binCprs|;
    BinStep(s, binInd, nextNum, nextCpr, numbersInBin, binCprs);
    binStorage[binInd] := binStorage[binInd] + binCprs;

    binAccepted[binInd] := binNumberCount == 0 || (|binCprs| as real) / (binNumberCount as real) >= cutoff;
    assert binAccepted[binInd] == PassesRatio(|binCprs|, binNumberCount, cutoff);

    if binInd >= 2 {
      SmallRemainder(binInd - 2, numBins + 1);
      FinaliseStep(ok, binInd, binAccepted[binInd - 2]);
    }
    binAccepted[binInd - 1] := binAccepted[binInd - 1] &&
      (binAccepted[(binInd - 2) % (numBins + 1)] || binAccepted[binInd]);
  }

  /** The result of `cpr_bin_check`: the stored CPRs of the accepted bins,
      chained in bin order (slot 0 is skipped). */
  method GatherAccepted(binAccepted: array<bool>, binStorage: array<seq<Span>>) returns (kept: seq<Span>)
    requires binAccepted.Length == binStorage.Length >= 1
    ensures kept == Gather(binAccepted[..], binStorage[..], binAccepted.Length - 1)
  {
    ghost var flags, bins := binAccepted[..], binStorage[..];
    kept := [];
    for i := 1 to binAccepted.Length
      invariant kept == Gather(flags, bins, i - 1)
    {
      assert flags[i] == binAccepted[i] && bins[i] == binStorage[i];
      if binAccepted[i] {
        kept := kept + binStorage[i];
      }
    }
  }

  /** `cpr_bin_check`. The acceptance flags are finalised in place one bin
      behind the scan (`bin_accepted[b - 1]` looks at the already final
      `bin_accepted[b - 2]`); the result is still exactly "own ratio test
      and a neighbour's". Empty input gives nothing whatever the bin
      count, as the source returns before it divides by `num_bins`. */
  method CprBinCheck(numbers: seq<Span>, cprs: seq<Span>, numBins: int := 40, cutoff: real := 0.15) returns (kept: seq<Span>)
    requires numBins >= 1 || numbers == [] || cprs == []
    ensures kept == BinFilter(Scan(numbers, cprs, numBins, cutoff))
    ensures numbers == [] || cprs == [] ==> kept == []
  {
    if numbers == [] || cprs == [] {
      return [];
    }
    ghost var s := Scan(numbers, cprs, numBins, cutoff);
    var contentStartPos := numbers[0].start;
    var contentEndPos := numbers[|numbers| - 1].end;
    var contentSize := contentEndPos - contentStartPos;
    var binSize := CeilDiv(contentSize, numBins);

    var binAccepted := new bool[numBins + 1](_ => false);
    var binStorage := new seq<Span>[numBins + 1](_ => []);

    ghost var ok := RatioTable(s);
    ghost var bins := BinTable(s);
    ScanBins(s, ok, bins, numbers, cprs, numBins, cutoff, binSize, contentStartPos, binAccepted, binStorage);
    FinaliseLastBin(s, ok, bins, numBins, binAccepted, binStorage);
    kept := GatherAccepted(binAccepted, binStorage);
  }

  /** The bin loop of `cpr_bin_check`: every bin scanned and stored, and
      every flag but the last finalised. */
  method ScanBins(ghost s: Scan, ghost ok: seq<bool>, ghost bins: seq<seq<Span>>,
                  numbers: seq<Span>, cprs: seq<Span>, numBins: int, cutoff: real,
                  binSize: int, contentStartPos: int,
                  binAccepted: array<bool>, binStorage: array<seq<Span>>)
    requires s == Scan(numbers, cprs, numBins, cutoff) && Binned(s) && Tables(s, ok, bins)
    requires binSize == BinSize(s) && contentStartPos == numbers[0].start
    requires binAccepted.Length == binStorage.Length == numBins + 1
    requires forall i :: 0 <= i <= numBins ==> binStorage[i] == [] && !binAccepted[i]
    modifies binAccepted, binStorage
    ensures forall i :: 1 <= i <= numBins ==> binStorage[i] == bins[i]
    ensures binStorage[0] == [] && !binAccepted[0]
    ensures forall i :: 1 <= i < numBins ==> binAccepted[i] == KeptAmong(ok, i)
    ensures binAccepted[numBins] == ok[numBins]
  {
    var nextNum := 0;
    var nextCpr := 0;
    for binInd := 1 to numBins + 1
      invariant nextNum == Cursor(s, numbers, binInd - 1) && nextCpr == Cursor(s, cprs, binInd - 1)
      invariant forall i :: 1 <= i < binInd ==> binStorage[i] == bins[i]
      invariant binStorage[0] == [] && forall i :: binInd <= i <= numBins ==> binStorage[i] == []
      invariant !binAccepted[0]
      invariant forall i :: 1 <= i < binInd - 1 ==> binAccepted[i] == KeptAmong(ok, i)
      invariant binInd >= 2 ==> binAccepted[binInd - 1] == ok[binInd - 1]
    {
      var binEndPosition := binSize * binInd + contentStartPos;
      nextNum, nextCpr := ScanBin(s, ok, bins, numbers, cprs, numBins, cutoff,
                                  binInd, binEndPosition, nextNum, nextCpr, binAccepted, binStorage);
    }
  }

  /** After the bin loop of `cpr_bin_check`: finalise the last bin's flag;
      the flags are then the kept flags and the storage the bins. */
  method FinaliseLastBin(ghost s: Scan, ghost ok: seq<bool>, ghost bins: seq<seq<Span>>, numBins: int,
                         binAccepted: array<bool>, binStorage: array<seq<Span>>)
    requires Binned(s) && Tables(s, ok, bins) && numBins == s.numBins
    requires binAccepted.Length == binStorage.Length == s.numBins + 1
    requires forall i :: 1 <= i <= s.numBins ==> binStorage[i] == bins[i]
    requires binStorage[0] == [] && !binAccepted[0]
    requires forall i :: 1 <= i < s.numBins ==> binAccepted[i] == KeptAmong(ok, i)
    requires binAccepted[s.numBins] == ok[s.numBins]
    modifies binAccepted
    ensures binAccepted[..] == KeptFlags(s) && binStorage[..] == BinSeq(s)
  {
    FinaliseLast(ok, binAccepted[numBins - 1]);
    binAccepted[numBins] := binAccepted[numBins] && (binAccepted[numBins - 1] || numBins == 1);

    forall i | 0 <= i <= numBins
      ensures binAccepted[i] == KeptFlags(s)[i] && binStorage[i] == BinSeq(s)[i]
    {
      if i > 0 {
        KeptFromTable(s, ok, i);
      }
    }
    assert binAccepted[..] == KeptFlags(s) && binStorage[..] == BinSeq(s);
  }
}
