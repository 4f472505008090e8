/** What repeated set-up runs make of the instruction file: each splices the managed
    block into what the run before left. First one splice, then the histories that start
    from an ordered marker pair or from no marker at all, which settle after as many runs
    as the worse span has legacy headings, and then every other text: which of them
    settle with the block readable, and how the rest go wrong, by growing with each run
    or by standing still with a block that nobody reads back. */
module SetUpRuns {
  import opened Tables
  import opened Text
  import opened ManagedBlock

  /** `r` is what one splice makes of `t`. */
  predicate IsSplice(m: Markers, block: string, t: string, r: string) {
    r == Splice(m, t, block)
  }

  /** The file after each set-up run. */
  ghost predicate IsHistory(m: Markers, block: string, texts: nat -> string) {
    forall i: nat :: IsSplice(m, block, texts(i), texts(i + 1))
  }

  /** The first BEGIN precedes the first END. */
  predicate Ordered(m: Markers, t: string) {
    HasPair(m, t) && !Contains(Pre(m, t), m.end)
  }

  predicate Unmarked(m: Markers, t: string) {
    !Contains(t, m.begin) && !Contains(t, m.end)
  }

  // ---- one splice ----

  /** Whatever stands behind it, the text in front of the first BEGIN is excised and
      stays in front of the first BEGIN. */
  lemma SpliceOfPair(m: Markers, t: string, block: string)
    requires Valid(m) && HasPair(m, t) && !Contains(block, m.end)
    ensures var r := Splice(m, t, block); HasPair(m, r) && Pre(m, r) == Excise(m, Pre(m, t))
  {
    PreHasNoBegin(m, t);
    ExciseAddsNothing(m, Pre(m, t), m.begin);
    FrameStartsAt(m, Excise(m, Pre(m, t)), block, Excise(m, Post(m, t)));
  }

  lemma FrameStartsAt(m: Markers, pre: string, block: string, post: string)
    requires Valid(m) && !Contains(pre, m.begin) && !Contains(block, m.end)
    ensures var r := Around(m, pre, block, post); HasPair(m, r) && Pre(m, r) == pre
  {
    BeginOfFrame(m, pre, block, post);
    assert Contains(Around(m, pre, block, post), m.end) by {
      if Contains(pre, m.end) {
        FoundInFront(pre, m.begin + (("\n" + block + "\n") + (m.end + post)), m.end);
      } else {
        EndOfFrame(m, pre, block, post);
      }
    }
    AroundSlices(m, pre, block, post);
  }

  /** A splice of an ordered text only excises from the two spans outside, and leaves
      the text ordered. */
  lemma SpliceOfOrdered(m: Markers, t: string, block: string)
    requires Valid(m) && Ordered(m, t) && !Contains(block, m.end)
    ensures var r := Splice(m, t, block);
      && Ordered(m, r) && Pre(m, r) == Excise(m, Pre(m, t)) && Post(m, r) == Excise(m, Post(m, t))
      && Extract(m, r) == Some(block)
  {
    PreHasNoBegin(m, t);
    ExciseAddsNothing(m, Pre(m, t), m.begin);
    ExciseAddsNothing(m, Pre(m, t), m.end);
    FrameIsRead(m, Excise(m, Pre(m, t)), block, Excise(m, Post(m, t)));
    FrameIsSplit(m, Excise(m, Pre(m, t)), block, Excise(m, Post(m, t)));
  }

  /** The first splice into a text without markers makes it ordered. */
  lemma SpliceOfUnmarked(m: Markers, t: string, block: string)
    requires Valid(m) && Unmarked(m, t) && !Contains(block, m.end)
    ensures var r := Splice(m, t, block);
      && Ordered(m, r) && Pre(m, r) == Excise(m, t) + "\n\n" && Post(m, r) == "\n"
      && Extract(m, r) == Some(block)
  {
    ExciseAddsNothing(m, t, m.begin);
    ExciseAddsNothing(m, t, m.end);
    TwoNewlines(Excise(m, t), m.begin);
    TwoNewlines(Excise(m, t), m.end);
    FrameIsRead(m, Excise(m, t) + "\n\n", block, "\n");
    FrameIsSplit(m, Excise(m, t) + "\n\n", block, "\n");
  }

  lemma BlankLinesHoldNoHeading(m: Markers, t: string)
    requires Valid(m)
    ensures Headings(m, t + "\n\n") == Headings(m, t) && Headings(m, "\n") == 0
  {
    SplitAcross(t, "\n");
    SplitAcross("", "");
    assert t + "\n" + "\n" == t + "\n\n" && "" + "\n" + "" == "\n";
    assert Split("") == [""];
  }

  // ---- how fast the legacy headings go ----

  function Monus(a: nat, b: nat): nat {
    if a >= b then a - b else 0
  }

  /** `p` legacy headings in front of the block and `q` behind it. */
  predicate Holds(m: Markers, t: string, p: nat, q: nat) {
    Ordered(m, t) && Headings(m, Pre(m, t)) == p && Headings(m, Post(m, t)) == q
  }

  /** The same before the first run, when the file may have no markers yet. */
  predicate Starts(m: Markers, t: string, p: nat, q: nat) {
    if HasPair(m, t) then Holds(m, t, p, q) else Unmarked(m, t) && Headings(m, t) == p && q == 0
  }

  lemma HeadingsOfSplice(m: Markers, block: string, t: string, r: string, p: nat, q: nat)
    requires Valid(m) && Holds(m, t, p, q) && !Contains(block, m.end) && IsSplice(m, block, t, r)
    ensures Holds(m, r, Monus(p, 1), Monus(q, 1))
  {
    SpliceOfOrdered(m, t, block);
    ExciseDropsOneHeading(m, Pre(m, t));
    ExciseDropsOneHeading(m, Post(m, t));
  }

  lemma HeadingsOfFirstSplice(m: Markers, block: string, t: string, r: string, p: nat, q: nat)
    requires Valid(m) && Starts(m, t, p, q) && !Contains(block, m.end) && IsSplice(m, block, t, r)
    ensures Holds(m, r, Monus(p, 1), Monus(q, 1))
  {
    if HasPair(m, t) {
      HeadingsOfSplice(m, block, t, r, p, q);
    } else {
      SpliceOfUnmarked(m, t, block);
      ExciseDropsOneHeading(m, t);
      BlankLinesHoldNoHeading(m, Excise(m, t));
    }
  }

  lemma OneMoreSplice(m: Markers, block: string, t: string, r: string, k: nat, p: nat, q: nat)
    requires Valid(m) && !Contains(block, m.end) && IsSplice(m, block, t, r)
    requires k > 0 && Holds(m, t, Monus(p, k - 1), Monus(q, k - 1))
    ensures Holds(m, r, Monus(p, k), Monus(q, k))
  {
    HeadingsOfSplice(m, block, t, r, Monus(p, k - 1), Monus(q, k - 1));
  }

  lemma {:induction false} Upwards(holds: nat -> bool, low: nat, k: nat)
    requires holds(low) && k >= low && forall i: nat :: i >= low && holds(i) ==> holds(i + 1)
    ensures holds(k)
    decreases k
  {
    if k > low {
      Upwards(holds, low, k - 1);
      assert holds(k - 1 + 1);
    }
  }

  function HoldsAfter(m: Markers, texts: nat -> string, p: nat, q: nat): nat -> bool {
    (k: nat) => Holds(m, texts(k), Monus(p, k), Monus(q, k))
  }

  /** Every run removes one legacy heading from each span that has one. */
  lemma HeadingsFall(m: Markers, block: string, texts: nat -> string, k: nat, p: nat, q: nat)
    requires Valid(m) && IsHistory(m, block, texts) && k >= 1
    requires Starts(m, texts(0), p, q) && !Contains(block, m.end)
    ensures Holds(m, texts(k), Monus(p, k), Monus(q, k))
  {
    var holds := HoldsAfter(m, texts, p, q);
    HeadingsOfFirstSplice(m, block, texts(0), texts(1), p, q);
    forall i: nat | i >= 1 && holds(i) ensures holds(i + 1) {
      OneMoreSplice(m, block, texts(i), texts(i + 1), i + 1, p, q);
    }
    Upwards(holds, 1, k);
  }

  lemma LegacyLeft(m: Markers, t: string, p: nat, q: nat)
    requires Valid(m) && Holds(m, t, p, q)
    ensures HasLegacyOutside(m, t) <==> p > 0 || q > 0
  {
    ExciseDropsOneHeading(m, Pre(m, t));
    ExciseDropsOneHeading(m, Post(m, t));
  }

  /** The text is its two spans around this very block. */
  predicate Framed(m: Markers, block: string, t: string) {
    Ordered(m, t) && t == Around(m, Pre(m, t), block, Post(m, t))
  }

  lemma SpliceFrames(m: Markers, block: string, t: string, r: string)
    requires Valid(m) && (Ordered(m, t) || Unmarked(m, t)) && !Contains(block, m.end) && IsSplice(m, block, t, r)
    ensures Framed(m, block, r) && Extract(m, r) == Some(block)
  {
    if Ordered(m, t) {
      SpliceOfOrdered(m, t, block);
    } else {
      SpliceOfUnmarked(m, t, block);
    }
  }

  lemma FramedStandsStill(m: Markers, block: string, r: string, u: string)
    requires Valid(m) && Framed(m, block, r) && !Contains(block, m.end) && IsSplice(m, block, r, u)
    ensures u == r <==> !HasLegacyOutside(m, r)
  {
    SpliceOfOrdered(m, r, block);
    ExciseDropsOneHeading(m, Pre(m, r));
    ExciseDropsOneHeading(m, Post(m, r));
  }

  lemma HistoryFrames(m: Markers, block: string, texts: nat -> string, k: nat, p: nat, q: nat)
    requires Valid(m) && IsHistory(m, block, texts) && k >= 1
    requires Starts(m, texts(0), p, q) && !Contains(block, m.end)
    ensures Framed(m, block, texts(k)) && Extract(m, texts(k)) == Some(block)
  {
    if k > 1 {
      HeadingsFall(m, block, texts, k - 1, p, q);
    }
    SpliceFrames(m, block, texts(k - 1), texts(k));
  }

  /** From the first run on, also of a first installation, the file stands still
      exactly when as many runs were made as the worse span had legacy headings. */
  lemma Convergence(m: Markers, block: string, texts: nat -> string, k: nat, p: nat, q: nat)
    requires Valid(m) && IsHistory(m, block, texts) && k >= 1
    requires Starts(m, texts(0), p, q) && !Contains(block, m.end)
    ensures texts(k + 1) == texts(k) <==> k >= p && k >= q
    ensures Extract(m, texts(k)) == Some(block)
  {
    HistoryFrames(m, block, texts, k, p, q);
    HeadingsFall(m, block, texts, k, p, q);
    FramedStandsStill(m, block, texts(k), texts(k + 1));
    LegacyLeft(m, texts(k), Monus(p, k), Monus(q, k));
  }

  // ---- which files settle ----

  /** The file stands still and the block is read back from it. */
  predicate Settled(m: Markers, block: string, t: string) {
    Splice(m, t, block) == t && Extract(m, t) == Some(block)
  }

  function IsSettled(m: Markers, block: string): string -> bool {
    t => Settled(m, block, t)
  }

  ghost predicate Settles(m: Markers, block: string, texts: nat -> string) {
    exists k: nat :: IsSettled(m, block)(texts(k))
  }

  function ExciseTimes(m: Markers, t: string, k: nat): string {
    if k == 0 then t else Excise(m, ExciseTimes(m, t, k - 1))
  }

  /** What stands in front of the block, or will after the first run. */
  function Front(m: Markers, t: string): string {
    if HasPair(m, t) then Pre(m, t) else Excise(m, t) + "\n\n"
  }

  /** An END marker in front of the block outlives the excision of every legacy
      section there. */
  predicate EndSurvives(m: Markers, t: string) {
    Contains(ExciseTimes(m, Front(m, t), Headings(m, Front(m, t))), m.end)
  }

  predicate IsExcision(m: Markers, t: string, r: string) {
    r == Excise(m, t)
  }

  ghost predicate AreExcisions(m: Markers, fronts: nat -> string) {
    forall i: nat :: IsExcision(m, fronts(i), fronts(i + 1))
  }

  lemma OneMoreExcision(m: Markers, t: string, r: string)
    requires Valid(m) && IsExcision(m, t, r)
    ensures Headings(m, r) == Monus(Headings(m, t), 1)
    ensures Headings(m, t) == 0 ==> r == t
  {
    ExciseDropsOneHeading(m, t);
  }

  lemma {:induction false} Countdown(c: nat -> nat, k: nat)
    requires forall i: nat :: c(i + 1) == Monus(c(i), 1)
    ensures c(k) == Monus(c(0), k)
  {
    if k > 0 {
      Countdown(c, k - 1);
      assert c(k - 1 + 1) == Monus(c(k - 1), 1);
    }
  }

  lemma HeadingsOfExcisions(m: Markers, fronts: nat -> string, k: nat)
    requires Valid(m) && AreExcisions(m, fronts)
    ensures Headings(m, fronts(k)) == Monus(Headings(m, fronts(0)), k)
  {
    var c := (i: nat) => Headings(m, fronts(i));
    forall i: nat ensures c(i + 1) == Monus(c(i), 1) {
      OneMoreExcision(m, fronts(i), fronts(i + 1));
    }
    Countdown(c, k);
  }

  function SameAs(texts: nat -> string, n: nat): nat -> bool {
    (k: nat) => texts(k) == texts(n)
  }

  lemma ExcisionsStop(m: Markers, fronts: nat -> string, h: nat, k: nat)
    requires Valid(m) && AreExcisions(m, fronts) && Headings(m, fronts(0)) == h && k >= h
    ensures fronts(k) == fronts(h)
  {
    forall i: nat | i >= h && SameAs(fronts, h)(i) ensures SameAs(fronts, h)(i + 1) {
      HeadingsOfExcisions(m, fronts, i);
      OneMoreExcision(m, fronts(i), fronts(i + 1));
    }
    Upwards(SameAs(fronts, h), h, k);
  }

  function Excisions(m: Markers, t: string): nat -> string {
    (k: nat) => ExciseTimes(m, t, k)
  }

  lemma ExciseTimesStops(m: Markers, t: string, h: nat, k: nat)
    requires Valid(m) && Headings(m, t) == h && k >= h
    ensures ExciseTimes(m, t, k) == ExciseTimes(m, t, h)
  {
    forall i: nat ensures IsExcision(m, Excisions(m, t)(i), Excisions(m, t)(i + 1)) {
    }
    ExcisionsStop(m, Excisions(m, t), h, k);
  }

  function HasEnd(m: Markers, t: string): nat -> bool {
    (k: nat) => Contains(ExciseTimes(m, t, k), m.end)
  }

  lemma OneExciseAddsNothing(m: Markers, t: string, i: nat)
    requires Valid(m)
    ensures HasEnd(m, t)(i + 1) ==> HasEnd(m, t)(i)
  {
    ExciseAddsNothing(m, ExciseTimes(m, t, i), m.end);
  }

  lemma {:induction false} Downwards(holds: nat -> bool, low: nat, k: nat)
    requires k >= low && forall i: nat :: holds(i + 1) ==> holds(i)
    ensures holds(k) ==> holds(low)
    decreases k
  {
    if k > low {
      Downwards(holds, low, k - 1);
      assert holds(k - 1 + 1) ==> holds(k - 1);
    }
  }

  lemma ExciseTimesAddsNothing(m: Markers, t: string, j: nat, k: nat)
    requires Valid(m) && j <= k
    ensures Contains(ExciseTimes(m, t, k), m.end) ==> Contains(ExciseTimes(m, t, j), m.end)
  {
    forall i: nat ensures HasEnd(m, t)(i + 1) ==> HasEnd(m, t)(i) {
      OneExciseAddsNothing(m, t, i);
    }
    Downwards(HasEnd(m, t), j, k);
    assert HasEnd(m, t)(k) ==> HasEnd(m, t)(j);
  }

  lemma SurvivesAtOnceOrNever(m: Markers, t: string, k: nat)
    requires Valid(m)
    ensures var h := Headings(m, t);
      && (Contains(ExciseTimes(m, t, h), m.end) ==> Contains(ExciseTimes(m, t, k), m.end))
      && (k >= h && Contains(ExciseTimes(m, t, k), m.end) ==> Contains(ExciseTimes(m, t, h), m.end))
  {
    var h := Headings(m, t);
    if k >= h {
      ExciseTimesStops(m, t, h, k);
    } else {
      ExciseTimesAddsNothing(m, t, k, h);
    }
  }

  /** In every history with a marker pair, the text in front is excised run by run. */
  lemma {:induction false} FrontAfter(m: Markers, block: string, texts: nat -> string, k: nat)
    requires Valid(m) && IsHistory(m, block, texts) && HasPair(m, texts(0)) && !Contains(block, m.end)
    ensures HasPair(m, texts(k)) && Pre(m, texts(k)) == ExciseTimes(m, Pre(m, texts(0)), k)
    decreases k
  {
    if k > 0 {
      FrontAfter(m, block, texts, k - 1);
      FrontStep(m, block, texts(k - 1), texts(k));
    }
  }

  lemma FrontStep(m: Markers, block: string, t: string, r: string)
    requires Valid(m) && HasPair(m, t) && !Contains(block, m.end) && IsSplice(m, block, t, r)
    ensures HasPair(m, r) && Pre(m, r) == Excise(m, Pre(m, t))
  {
    SpliceOfPair(m, t, block);
  }

  lemma ReadableIsOrdered(m: Markers, t: string)
    requires Valid(m) && HasPair(m, t) && Extract(m, t).Some?
    ensures Ordered(m, t)
  {
    var i := IndexOf(t, m.begin);
    InFrontIsEarly(t[..i], t[i..], m.end);
    assert t[..i] + t[i..] == t;
  }

  lemma SettledHistoryHasNoEnd(m: Markers, block: string, texts: nat -> string, k: nat)
    requires Valid(m) && IsHistory(m, block, texts) && HasPair(m, texts(0)) && !Contains(block, m.end)
    requires Extract(m, texts(k)).Some?
    ensures !EndSurvives(m, texts(0))
  {
    FrontAfter(m, block, texts, k);
    ReadableIsOrdered(m, texts(k));
    SurvivesAtOnceOrNever(m, Pre(m, texts(0)), k);
  }

  lemma OrderedHistorySettles(m: Markers, block: string, texts: nat -> string) returns (k: nat)
    requires Valid(m) && IsHistory(m, block, texts) && Ordered(m, texts(0)) && !Contains(block, m.end)
    ensures IsSettled(m, block)(texts(k))
  {
    var p, q := Headings(m, Pre(m, texts(0))), Headings(m, Post(m, texts(0)));
    k := p + q + 1;
    Convergence(m, block, texts, k, p, q);
    assert IsSplice(m, block, texts(k), texts(k + 1));
  }

  function From(texts: nat -> string, n: nat): nat -> string {
    (i: nat) => texts(n + i)
  }

  lemma FromIsHistory(m: Markers, block: string, texts: nat -> string, n: nat)
    requires IsHistory(m, block, texts)
    ensures IsHistory(m, block, From(texts, n))
  {
    forall i: nat ensures IsSplice(m, block, From(texts, n)(i), From(texts, n)(i + 1)) {
      assert IsSplice(m, block, texts(n + i), texts(n + i + 1));
    }
  }

  lemma OrderedInTheEnd(m: Markers, block: string, texts: nat -> string, n: nat)
    requires Valid(m) && IsHistory(m, block, texts) && HasPair(m, texts(0)) && !Contains(block, m.end)
    requires n == Headings(m, Pre(m, texts(0))) && !EndSurvives(m, texts(0))
    ensures Ordered(m, texts(n))
  {
    FrontAfter(m, block, texts, n);
  }

  lemma PairSettles(m: Markers, block: string, texts: nat -> string) returns (k: nat)
    requires Valid(m) && IsHistory(m, block, texts) && HasPair(m, texts(0)) && !Contains(block, m.end)
    requires !EndSurvives(m, texts(0))
    ensures IsSettled(m, block)(texts(k))
  {
    var n := Headings(m, Pre(m, texts(0)));
    OrderedInTheEnd(m, block, texts, n);
    FromIsHistory(m, block, texts, n);
    k := SettlesFrom(m, block, texts, n);
  }

  lemma SettlesFrom(m: Markers, block: string, texts: nat -> string, n: nat) returns (k: nat)
    requires Valid(m) && IsHistory(m, block, From(texts, n)) && Ordered(m, texts(n)) && !Contains(block, m.end)
    ensures IsSettled(m, block)(texts(k))
  {
    SameOrdered(m, texts(n), From(texts, n)(0));
    var i := OrderedHistorySettles(m, block, From(texts, n));
    Shifted(IsSettled(m, block), texts, n, i);
    k := n + i;
  }

  lemma Shifted(good: string -> bool, texts: nat -> string, n: nat, i: nat)
    requires good(From(texts, n)(i))
    ensures good(texts(n + i))
  {
  }

  lemma SameOrdered(m: Markers, t: string, u: string)
    requires t == u && Ordered(m, t)
    ensures Ordered(m, u)
  {
  }

  lemma FirstRunPairs(m: Markers, block: string, t: string, r: string)
    requires Valid(m) && !HasPair(m, t) && !Contains(block, m.end) && IsSplice(m, block, t, r)
    ensures HasPair(m, r) && (EndSurvives(m, r) <==> EndSurvives(m, t))
  {
    var front := Excise(m, t) + "\n\n";
    if Contains(front, m.begin) {
      LoneBeginPairs(m, block, t, r);
    } else {
      FrameStartsAt(m, front, block, "\n");
    }
  }

  lemma NoEndStaysOut(m: Markers, t: string, k: nat)
    requires Valid(m) && !Contains(t, m.end)
    ensures !Contains(ExciseTimes(m, t, k), m.end)
  {
    ExciseTimesAddsNothing(m, t, 0, k);
  }

  lemma LoneBeginPairs(m: Markers, block: string, t: string, r: string)
    requires Valid(m) && !HasPair(m, t) && !Contains(block, m.end) && IsSplice(m, block, t, r)
    requires Contains(Excise(m, t) + "\n\n", m.begin)
    ensures Ordered(m, r) && !EndSurvives(m, r) && !EndSurvives(m, t)
  {
    var front := Excise(m, t) + "\n\n";
    TwoNewlines(Excise(m, t), m.begin);
    TwoNewlines(Excise(m, t), m.end);
    ExciseAddsNothing(m, t, m.begin);
    ExciseAddsNothing(m, t, m.end);
    EarlyBeginPairs(m, front, block, "\n");
    NoEndStaysOut(m, Pre(m, r), Headings(m, Pre(m, r)));
    NoEndStaysOut(m, front, Headings(m, front));
  }

  lemma EarlyBeginPairs(m: Markers, pre: string, block: string, post: string)
    requires Valid(m) && Contains(pre, m.begin) && !Contains(pre, m.end) && !Contains(block, m.end)
    ensures var r := Around(m, pre, block, post);
      && Ordered(m, r) && Pre(m, r) == pre[..IndexOf(pre, m.begin)] && Post(m, r) == post
  {
    EarlyBeginIsFound(m, pre, block, post);
    AroundSlices(m, pre, block, post);
    ReadSpans(m, Around(m, pre, block, post), IndexOf(pre, m.begin), |pre| + |m.begin| + |block| + 2, pre, post);
    NoEndBefore(pre, m.end, IndexOf(pre, m.begin));
  }

  lemma EarlyBeginIsFound(m: Markers, pre: string, block: string, post: string)
    requires Valid(m) && Contains(pre, m.begin) && !Contains(pre, m.end) && !Contains(block, m.end)
    ensures FoundAt(m, Around(m, pre, block, post), IndexOf(pre, m.begin), |pre| + |m.begin| + |block| + 2)
  {
    FoundInFront(pre, m.begin + (("\n" + block + "\n") + (m.end + post)), m.begin);
    EndOfFrame(m, pre, block, post);
  }

  lemma ReadSpans(m: Markers, r: string, i: nat, j: nat, pre: string, post: string)
    requires FoundAt(m, r, i, j) && i <= |pre| <= |r| && r[..|pre|] == pre && r[j + |m.end|..] == post
    ensures Pre(m, r) == pre[..i] && Post(m, r) == post
  {
    assert r[..i] == r[..|pre|][..i];
  }

  lemma NoEndBefore(t: string, p: string, i: nat)
    requires i <= |t| && !Contains(t, p)
    ensures !Contains(t[..i], p)
  {
    InFrontIsEarly(t[..i], t[i..], p);
    assert t[..i] + t[i..] == t;
  }

  lemma ShiftExists(p: string -> bool, texts: nat -> string)
    requires !p(texts(0))
    ensures (exists k: nat :: p(texts(k))) <==> exists k: nat :: p(From(texts, 1)(k))
  {
    if k: nat :| p(texts(k)) {
      assert From(texts, 1)(k - 1) == texts(k);
    }
    if k: nat :| p(From(texts, 1)(k)) {
      assert From(texts, 1)(k) == texts(1 + k);
    }
  }

  lemma UnpairedIsNotSettled(m: Markers, block: string, t: string)
    requires !HasPair(m, t)
    ensures !IsSettled(m, block)(t)
  {
  }

  /** For every file, with any markers anywhere: it settles exactly when no END marker
      survives in front of the block. */
  lemma SettlesIff(m: Markers, block: string, texts: nat -> string)
    requires Valid(m) && IsHistory(m, block, texts) && !Contains(block, m.end)
    ensures Settles(m, block, texts) <==> !EndSurvives(m, texts(0))
  {
    if HasPair(m, texts(0)) {
      PairSettlesIff(m, block, texts);
    } else {
      FirstRunPairs(m, block, texts(0), texts(1));
      FromIsHistory(m, block, texts, 1);
      PairSettlesIff(m, block, From(texts, 1));
      UnpairedIsNotSettled(m, block, texts(0));
      ShiftExists(IsSettled(m, block), texts);
    }
  }

  lemma PairSettlesIff(m: Markers, block: string, texts: nat -> string)
    requires Valid(m) && IsHistory(m, block, texts) && HasPair(m, texts(0)) && !Contains(block, m.end)
    ensures Settles(m, block, texts) <==> !EndSurvives(m, texts(0))
  {
    if !EndSurvives(m, texts(0)) {
      var k := PairSettles(m, block, texts);
      assert IsSettled(m, block)(texts(k));
    }
    if k: nat :| IsSettled(m, block)(texts(k)) {
      SettledHistoryHasNoEnd(m, block, texts, k);
    }
  }

  // ---- files that do not settle ----

  /** With an END marker in front and no legacy section left, every run makes the file
      longer. */
  lemma BuriedGrows(m: Markers, t: string, block: string)
    requires Valid(m) && HasPair(m, t) && Contains(Pre(m, t), m.end) && !HasLegacyOutside(m, t)
    ensures |Splice(m, t, block)| > |t|
  {
    EndBeforeBegin(m, t);
    AroundLength(m, Pre(m, t), block, Post(m, t));
  }

  lemma EndBeforeBegin(m: Markers, t: string)
    requires HasPair(m, t) && Contains(Pre(m, t), m.end)
    ensures |Pre(m, t)| + |Post(m, t)| >= |t|
  {
    InFrontIsEarly(Pre(m, t), t[|Pre(m, t)|..], m.end);
    assert t == Pre(m, t) + t[|Pre(m, t)|..];
  }

  lemma AroundLength(m: Markers, pre: string, block: string, post: string)
    ensures |Around(m, pre, block, post)| >= |pre| + |post| + 2
  {
  }

  /** A paired text that stands still holds the block readably exactly when no legacy
      section is left outside: otherwise the drift is reported for ever. */
  lemma FixpointIff(m: Markers, t: string, block: string)
    requires Valid(m) && HasPair(m, t) && !Contains(block, m.end) && Splice(m, t, block) == t
    ensures Extract(m, t) == Some(block) <==> !HasLegacyOutside(m, t)
  {
    if Ordered(m, t) {
      SpliceOfOrdered(m, t, block);
      ExciseDropsOneHeading(m, Pre(m, t));
      ExciseDropsOneHeading(m, Post(m, t));
    } else {
      FixpointHasLegacy(m, t, block);
      if Extract(m, t).Some? {
        ReadableIsOrdered(m, t);
      }
    }
  }

  lemma FixpointHasLegacy(m: Markers, t: string, block: string)
    requires Valid(m) && HasPair(m, t) && Contains(Pre(m, t), m.end) && Splice(m, t, block) == t
    ensures HasLegacyOutside(m, t)
  {
    if !HasLegacyOutside(m, t) {
      BuriedGrows(m, t, block);
    }
  }

  /** What stands between the first END marker and the end of the text. */
  function Behind(m: Markers, t: string): string
    requires Contains(t, m.end)
  {
    t[IndexOf(t, m.end) + |m.end|..]
  }

  lemma MarkerSpoilsLast(m: Markers, y: string)
    requires Valid(m)
    ensures Headings(m, y + m.begin) <= Headings(m, y)
  {
    var ys := Split(y);
    var last := ys[|ys| - 1];
    SplitBeforeLine(y, m.begin);
    HoldsMarker(last, m.begin, "", m.heading);
    assert ys == ys[..|ys| - 1] + [last];
    assert last + m.begin + "" == last + m.begin;
  }

  lemma MarkerSpoilsFirst(m: Markers, e: string)
    requires Valid(m)
    ensures Headings(m, m.end + e) <= Headings(m, e)
  {
    var es := Split(e);
    SplitBehindLine(m.end, e);
    HoldsMarker("", m.end, es[0], m.heading);
    assert es == [es[0]] + es[1..];
    assert "" + m.end + es[0] == m.end + es[0];
  }

  lemma HoldsMarker(x: string, p: string, y: string, heading: string)
    requires !Contains(heading, p)
    ensures x + p + y != heading
  {
    FoundWithin(x, p, y);
  }

  lemma {:induction false} FoundWithin(x: string, p: string, y: string)
    ensures Contains(x + p + y, p)
  {
    if x == "" {
      assert p <= x + p + y;
    } else {
      FoundWithin(x[1..], p, y);
      assert (x + p + y)[1..] == x[1..] + p + y;
    }
  }

  lemma SpansOfBuried(m: Markers, t: string, block: string)
    requires Valid(m) && HasPair(m, t) && Contains(Pre(m, t), m.end) && Splice(m, t, block) == t
    ensures Post(m, t) ==
      Behind(m, Pre(m, t)) + m.begin + "\n" + (block + "\n" + (m.end + Excise(m, Post(m, t))))
  {
    var pre := Pre(m, t);
    PreHasNoBegin(m, t);
    ExciseAddsNothing(m, pre, m.begin);
    BuriedRest(m, pre, Excise(m, pre), block, t, Excise(m, Post(m, t)));
  }

  lemma BuriedRest(m: Markers, pre: string, front: string, block: string, t: string, e: string)
    requires Valid(m) && HasPair(m, t) && pre == Pre(m, t) && Contains(pre, m.end)
    requires !Contains(front, m.begin) && t == Around(m, front, block, e)
    ensures Post(m, t) == Behind(m, pre) + m.begin + "\n" + (block + "\n" + (m.end + e))
  {
    var rest := m.begin + (("\n" + block + "\n") + (m.end + e));
    assert front == pre by {
      BeginOfFrame(m, front, block, e);
      AroundSlices(m, front, block, e);
    }
    PostInFront(m, pre, rest, t);
    Regroup(m.begin, block, m.end + e);
    Assoc3(Behind(m, pre), m.begin, "\n" + (block + "\n" + (m.end + e)));
    Assoc3(Behind(m, pre) + m.begin, "\n", block + "\n" + (m.end + e));
    Assoc3(m.begin, "\n", block + "\n" + (m.end + e));
  }

  lemma PostInFront(m: Markers, pre: string, rest: string, t: string)
    requires t == pre + rest && HasPair(m, t) && Contains(pre, m.end)
    ensures Post(m, t) == Behind(m, pre) + rest
  {
    FoundInFront(pre, rest, m.end);
    DropInFront(pre, rest, IndexOf(pre, m.end) + |m.end|);
  }

  lemma DropInFront(x: string, y: string, i: nat)
    requires i <= |x|
    ensures (x + y)[i..] == x[i..] + y
  {
  }

  lemma Assoc3(a: string, b: string, c: string)
    ensures a + (b + c) == a + b + c
  {
  }

  /** Only a legacy heading, in the block or right behind the END in front, can make a
      text stand still whose block is buried. */
  lemma BuriedFixpointNeedsHeading(m: Markers, t: string, block: string)
    requires Valid(m) && HasPair(m, t) && Contains(Pre(m, t), m.end) && Splice(m, t, block) == t
    ensures Headings(m, block) > 0 || Headings(m, Behind(m, Pre(m, t))) > 0
  {
    var y, q, e := Behind(m, Pre(m, t)), Post(m, t), Excise(m, Post(m, t));
    SpansOfBuried(m, t, block);
    BuriedHeadings(m, y, block, q, e);
    ExciseDropsOneHeading(m, q);
  }

  lemma BuriedHeadings(m: Markers, y: string, block: string, q: string, e: string)
    requires Valid(m) && q == y + m.begin + "\n" + (block + "\n" + (m.end + e))
    ensures Headings(m, q) <= Headings(m, y) + Headings(m, block) + Headings(m, e)
    ensures |q| > |e|
  {
    SplitAcross(y + m.begin, block + "\n" + (m.end + e));
    SplitAcross(block, m.end + e);
    MarkerSpoilsLast(m, y);
    MarkerSpoilsFirst(m, e);
  }

  lemma SqueezeLine(l: string)
    requires OneLine(l)
    ensures Squeeze(l, 0) == l
  {
    if l != "" {
      SqueezeLine(l[1..]);
      assert [l[0]] + l[1..] == l;
    }
  }

  lemma EndComesFirst(m: Markers, pre: string, rest: string)
    requires Valid(m) && m.end <= pre && !Contains(pre, m.begin) && m.begin <= rest
    ensures FoundAt(m, pre + rest, |pre|, 0)
  {
    NoStraddle(pre, rest, m.begin);
    FoundInFront(pre, rest, m.end);
  }

  lemma SpansAt(m: Markers, t: string, i: nat, j: nat)
    requires FoundAt(m, t, i, j)
    ensures HasPair(m, t) && Pre(m, t) == t[..i] && Post(m, t) == t[j + |m.end|..]
  {
  }

  /** Markers in the wrong order, END in front of BEGIN. */
  lemma ReversedIsSplit(m: Markers, gap: string, rest: string)
    requires Valid(m) && !Contains(m.end + gap, m.begin) && m.begin <= rest
    ensures var t := (m.end + gap) + rest;
      HasPair(m, t) && Pre(m, t) == m.end + gap && Contains(m.end + gap, m.end) && Post(m, t) == gap + rest
  {
    EndComesFirst(m, m.end + gap, rest);
    SpansAt(m, (m.end + gap) + rest, |m.end + gap|, 0);
    TwoSlices(m.end, gap, rest);
    StartsItself(m.end, gap);
  }

  lemma StartsItself(p: string, x: string)
    ensures Contains(p + x, p)
  {
    assert p <= p + x;
  }

  lemma TwoSlices(a: string, b: string, c: string)
    ensures ((a + b) + c)[..|a + b|] == a + b && ((a + b) + c)[|a|..] == b + c
  {
  }

  /** With END in front of BEGIN the round trip fails: the block is not read back. */
  lemma ReversedIsNotReadBack(m: Markers, block: string)
    requires Valid(m) && !Contains(block, m.end)
    ensures Extract(m, Splice(m, m.end + "\n" + m.begin, block)) == None
  {
    var t := m.end + "\n" + m.begin;
    assert !Contains("", m.begin);
    NotAcrossLines(m.end, "", m.begin);
    assert m.end + "\n" + "" == m.end + "\n";
    ReversedIsSplit(m, "\n", m.begin);
    LinesOfReversed(m);
    SpliceOfPair(m, t, block);
    if Extract(m, Splice(m, t, block)).Some? {
      ReadableIsOrdered(m, Splice(m, t, block));
    }
  }

  /** So it does with the program's own markers. */
  lemma OwnMarkersReversed(block: string)
    requires !Contains(block, MARKERS.end)
    ensures Extract(MARKERS, Splice(MARKERS, MARKERS.end + "\n" + MARKERS.begin, block)) == None
  {
    MarkersAreValid();
    ReversedIsNotReadBack(MARKERS, block);
  }

  lemma LinesOfReversed(m: Markers)
    requires Valid(m)
    ensures Excise(m, m.end + "\n") == m.end + "\n" && Excise(m, m.end) == m.end && Excise(m, m.begin) == m.begin
  {
    MarkerIsNoHeading(m, m.end);
    MarkerIsNoHeading(m, m.begin);
    SplitLine(m.end);
    SplitLine(m.begin);
    SplitAppend(m.end, "");
    assert m.end + "\n" + "" == m.end + "\n";
    assert Split("") == [""];
    assert m.heading !in [m.end] + [""];
  }

  lemma MarkerIsNoHeading(m: Markers, l: string)
    requires Valid(m) && l != "" && l[0] == m.begin[0]
    ensures l != m.heading && !("# " <= l)
  {
    assert m.heading[0] == "# "[0] == '#';
  }

  /** A block that holds the heading can stand still unread: the next run takes the
      buried copy for a legacy section and cuts it off again. */
  lemma BuriedFixpoint(m: Markers)
    requires Valid(m)
    ensures var r := Splice(m, m.end + m.begin, m.heading);
      Splice(m, r, m.heading) == r && Extract(m, r) == None && HasLegacyOutside(m, r)
  {
    var t, block := m.end + m.begin, m.heading;
    assert m.end + "" == m.end && "" + m.begin == m.begin;
    ReversedIsSplit(m, "", m.begin);
    LinesOfReversed(m);
    var r := Splice(m, t, block);
    assert r == Around(m, m.end, block, m.begin);
    BuriedSpans(m);
    BuriedExcision(m);
    FixpointHasLegacy(m, r, block);
    if Extract(m, r).Some? {
      ReadableIsOrdered(m, r);
    }
  }

  lemma BuriedSpans(m: Markers)
    requires Valid(m)
    ensures var r := Around(m, m.end, m.heading, m.begin);
      && HasPair(m, r) && Pre(m, r) == m.end && Contains(m.end, m.end)
      && Post(m, r) == m.begin + "\n" + (m.heading + "\n" + (m.end + m.begin))
  {
    var rest := m.begin + (("\n" + m.heading + "\n") + (m.end + m.begin));
    assert m.end + "" == m.end && "" + rest == rest;
    ReversedIsSplit(m, "", rest);
    Regroup(m.begin, m.heading, m.end + m.begin);
  }

  lemma Regroup(a: string, b: string, c: string)
    ensures a + (("\n" + b + "\n") + c) == a + "\n" + (b + "\n" + c)
  {
  }

  lemma BuriedExcision(m: Markers)
    requires Valid(m)
    ensures Excise(m, m.begin + "\n" + (m.heading + "\n" + (m.end + m.begin))) == m.begin
  {
    var last := m.end + m.begin;
    SplitAppend(m.begin, m.heading + "\n" + last);
    SplitAppend(m.heading, last);
    SplitLine(last);
    MarkerIsNoHeading(m, m.begin);
    MarkerIsNoHeading(m, last);
    var lines := [m.begin, m.heading, last];
    assert Split(m.begin + "\n" + (m.heading + "\n" + last)) == lines;
    assert HeadingAt(m, lines) == 1;
    assert NextTop(lines, 2) == 3;
    assert Kept(m, lines) == [m.begin];
    SqueezeLine(m.begin);
  }

  /** An END marker without BEGIN: the block goes behind it and is not read back. */
  lemma LoneEndBuries(m: Markers, t: string, block: string)
    requires Valid(m) && !Contains(t, m.begin) && Contains(Excise(m, t), m.end) && !Contains(block, m.end)
    ensures var r := Splice(m, t, block);
      HasPair(m, r) && Pre(m, r) == Excise(m, t) + "\n\n" && Contains(Pre(m, r), m.end) && Extract(m, r) == None
  {
    ExciseAddsNothing(m, t, m.begin);
    TwoNewlines(Excise(m, t), m.begin);
    TwoNewlines(Excise(m, t), m.end);
    FrameStartsAt(m, Excise(m, t) + "\n\n", block, "\n");
    EarlyEndHides(m, Excise(m, t) + "\n\n", block, "\n");
  }

  /** A BEGIN marker without END: the first run makes a pair of it, and the second one
      takes everything behind it for the block. */
  lemma LoneBeginSwallows(m: Markers, t: string, block: string)
    requires Valid(m) && !Contains(t, m.end) && Contains(Excise(m, t), m.begin) && !Contains(block, m.end)
    ensures var front := Excise(m, t)[..IndexOf(Excise(m, t), m.begin)];
      Splice(m, Splice(m, t, block), block) == Around(m, Excise(m, front), block, "\n")
  {
    var e := Excise(m, t);
    ExciseAddsNothing(m, t, m.end);
    TwoNewlines(e, m.begin);
    TwoNewlines(e, m.end);
    EarlyBeginPairs(m, e + "\n\n", block, "\n");
    FoundInFront(e, "\n\n", m.begin);
    assert (e + "\n\n")[..IndexOf(e, m.begin)] == e[..IndexOf(e, m.begin)];
    BlankLinesHoldNoHeading(m, "");
    ExciseDropsOneHeading(m, "\n");
  }
}
