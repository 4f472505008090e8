/** The managed block of the user's instruction file: spliced in, read back, and
    freed from sections left behind by older versions. The markers are a parameter, so
    that nothing depends on their text but the conditions that `Valid` names; a section
    runs from its heading to the next top-level heading, and taking it out squeezes the
    blank lines around it. What holds for every text is proved for every text. */
module ManagedBlock {
  import opened Tables
  import opened Text

  /** The marker lines and the heading of the older, unmarked section. */
  datatype Markers = Markers(begin: string, end: string, heading: string)

  const MARKERS := Markers("<!-- BEGIN better-memory (managed) -->", "<!-- END better-memory (managed) -->",
                           "# better-memory (MANDATORY)")

  /** What the arguments below need of the markers: none can straddle the place where
      another starts, none is part of another, and the heading is a top-level one. */
  predicate Valid(m: Markers) {
    && Solid(m.begin) && Solid(m.end) && m.begin[0] == m.end[0] != '#'
    && !Contains(m.begin, m.end) && !Contains(m.end, m.begin)
    && "# " <= m.heading && OneLine(m.heading)
    && !Contains(m.heading, m.begin) && !Contains(m.heading, m.end)
  }

  /** Runs of four or more newlines become three. `run` counts the newlines just
      written. */
  function Squeeze(t: string, run: nat): string {
    if t == "" then ""
    else if t[0] != '\n' then [t[0]] + Squeeze(t[1..], 0)
    else if run < 3 then ['\n'] + Squeeze(t[1..], run + 1)
    else Squeeze(t[1..], run)
  }

  /** The first line equal to the legacy heading, or the number of lines. */
  function HeadingAt(m: Markers, lines: seq<string>): (i: nat)
    ensures i <= |lines| && (i < |lines| <==> m.heading in lines)
    ensures i < |lines| ==> lines[i] == m.heading
    ensures m.heading !in lines[..i]
  {
    if lines == [] || lines[0] == m.heading then 0
    else
      var i := HeadingAt(m, lines[1..]);
      assert lines == [lines[0]] + lines[1..];
      assert lines[..i + 1] == [lines[0]] + lines[1..][..i];
      i + 1
  }

  /** The first top-level heading from line `i` on, or the number of lines. */
  function NextTop(lines: seq<string>, i: nat): (end: nat)
    requires i <= |lines|
    ensures i <= end <= |lines|
    ensures forall j :: i <= j < end ==> !("# " <= lines[j])
    ensures end < |lines| ==> "# " <= lines[end]
    decreases |lines| - i
  {
    if i == |lines| || "# " <= lines[i] then i else NextTop(lines, i + 1)
  }

  /** The lines without the first legacy section. */
  function Kept(m: Markers, lines: seq<string>): seq<string> {
    var start := HeadingAt(m, lines);
    if start == |lines| then lines else lines[..start] + lines[NextTop(lines, start + 1)..]
  }

  function Excise(m: Markers, t: string): string {
    if m.heading in Split(t) then Squeeze(Join(Kept(m, Split(t))), 0) else t
  }

  method SectionEnd(lines: seq<string>, start: nat) returns (end: nat)
    requires start < |lines|
    ensures end == NextTop(lines, start + 1)
  {
    end := |lines|;
    for i := start + 1 to |lines|
      invariant end == |lines|
      invariant NextTop(lines, start + 1) == NextTop(lines, i)
    {
      if "# " <= lines[i] {
        end := i;
        break;
      }
    }
  }

  method ExciseLegacySection(m: Markers, t: string) returns (r: string)
    ensures r == Excise(m, t)
  {
    var lines := Split(t);
    if m.heading !in lines {
      return t;
    }
    var start := HeadingAt(m, lines);
    var end := SectionEnd(lines, start);
    r := Squeeze(Join(lines[..start] + lines[end..]), 0);
  }

  predicate HasPair(m: Markers, t: string) {
    Contains(t, m.begin) && Contains(t, m.end)
  }

  /** The text in front of the first BEGIN marker. */
  function Pre(m: Markers, t: string): string
    requires HasPair(m, t)
  {
    t[..IndexOf(t, m.begin)]
  }

  /** The text behind the first END marker. */
  function Post(m: Markers, t: string): string
    requires HasPair(m, t)
  {
    t[IndexOf(t, m.end) + |m.end|..]
  }

  /** The block between its markers, with text around it. */
  function Around(m: Markers, pre: string, block: string, post: string): string {
    pre + (m.begin + (("\n" + block + "\n") + (m.end + post)))
  }

  function Splice(m: Markers, t: string, block: string): string {
    if HasPair(m, t) then Around(m, Excise(m, Pre(m, t)), block, Excise(m, Post(m, t)))
    else Around(m, Excise(m, t) + "\n\n", block, "\n")
  }

  function Stripped(inner: string): string {
    var front := if inner != "" && inner[0] == '\n' then inner[1..] else inner;
    if front != "" && front[|front| - 1] == '\n' then front[..|front| - 1] else front
  }

  function Extract(m: Markers, t: string): Option<string> {
    if !HasPair(m, t) then None
    else
      var start := IndexOf(t, m.begin) + |m.begin|;
      var end := IndexOf(t, m.end);
      if end < start then None else Some(Stripped(t[start..end]))
  }

  function Headings(m: Markers, t: string): nat {
    multiset(Split(t))[m.heading]
  }

  predicate HasLegacyOutside(m: Markers, t: string) {
    if HasPair(m, t) then m.heading in Split(Pre(m, t)) || m.heading in Split(Post(m, t))
    else m.heading in Split(t)
  }

  // ---- excision ----

  /** Squeezing keeps every line that has something on it. */
  lemma {:induction false} SqueezeKeepsContent(t: string, run: nat)
    ensures Content(Squeeze(t, run)) == Content(t)
    ensures run < 3 ==> Split(Squeeze(t, run))[0] == Split(t)[0]
    ensures run < 3 ==> NonBlank(Split(Squeeze(t, run))[1..]) == NonBlank(Split(t)[1..])
  {
    if t != "" {
      var rest := Split(t[1..]);
      if t[0] != '\n' {
        SqueezeKeepsContent(t[1..], 0);
        var s := Squeeze(t[1..], 0);
        assert Squeeze(t, run)[1..] == s;
        assert Split(Squeeze(t, run)) == [[t[0]] + Split(s)[0]] + Split(s)[1..];
        assert Split(t) == [[t[0]] + rest[0]] + rest[1..];
      } else if run < 3 {
        SqueezeKeepsContent(t[1..], run + 1);
        var s := Squeeze(t[1..], run + 1);
        assert Squeeze(t, run)[1..] == s;
        assert Split(Squeeze(t, run))[1..] == Split(s);
        assert Split(t)[1..] == rest;
      } else {
        SqueezeKeepsContent(t[1..], run);
        assert Split(t)[1..] == rest;
      }
    }
  }

  /** Outside the legacy section every line with something on it survives, in
      order. */
  lemma ExciseKeepsContent(m: Markers, t: string)
    ensures Content(Excise(m, t)) == NonBlank(Kept(m, Split(t)))
  {
    LinesAreLines(t);
    var kept := Kept(m, Split(t));
    forall l | l in kept ensures OneLine(l) {
      assert l in Split(t);
    }
    if m.heading in Split(t) {
      ContentOfJoin(kept);
      SqueezeKeepsContent(Join(kept), 0);
    }
  }

  /** Exactly one legacy heading goes: the next one ends the section. */
  lemma ExciseDropsOneHeading(m: Markers, t: string)
    requires Valid(m)
    ensures Headings(m, Excise(m, t)) == if Headings(m, t) == 0 then 0 else Headings(m, t) - 1
    ensures Headings(m, t) == 0 <==> m.heading !in Split(t)
    ensures Headings(m, t) == 0 <==> Excise(m, t) == t
  {
    var lines := Split(t);
    ExciseKeepsContent(m, t);
    BlanksDoNotCount(Split(Excise(m, t)), m.heading);
    BlanksDoNotCount(Kept(m, lines), m.heading);
    assert m.heading in lines <==> m.heading in multiset(lines);
    if m.heading in lines {
      KeptDropsOne(m, lines);
    }
  }

  lemma KeptDropsOne(m: Markers, lines: seq<string>)
    requires Valid(m)
    requires m.heading in lines
    ensures multiset(Kept(m, lines))[m.heading] == multiset(lines)[m.heading] - 1
  {
    var start := HeadingAt(m, lines);
    var end := NextTop(lines, start + 1);
    var section := lines[start + 1..end];
    assert "# " <= m.heading;
    assert m.heading !in section;
    CountAround(lines, start, end, m.heading);
  }

  lemma CountAround(lines: seq<string>, start: nat, end: nat, l: string)
    requires start < end <= |lines| && l !in lines[start + 1..end]
    ensures multiset(lines[..start] + lines[end..])[l] == multiset(lines)[l] - if lines[start] == l then 1 else 0
  {
    assert lines == lines[..start] + ([lines[start]] + (lines[start + 1..end] + lines[end..]));
    assert l !in multiset(lines[start + 1..end]);
  }

  lemma {:induction false} SubSome(lines: seq<string>, i: nat, j: nat, p: string)
    requires i <= j <= |lines|
    ensures InSome(lines[..i] + lines[j..], p) ==> InSome(lines, p)
  {
    if i > 0 {
      SubSome(lines[1..], i - 1, j - 1, p);
      assert (lines[..i] + lines[j..])[1..] == lines[1..][..i - 1] + lines[1..][j - 1..];
    } else if j > 0 {
      SubSome(lines[1..], 0, j - 1, p);
      assert lines[..0] + lines[j..] == lines[1..][..0] + lines[1..][j - 1..];
    } else {
      assert lines[..0] + lines[0..] == lines;
    }
  }

  /** Excision creates no marker. */
  lemma ExciseAddsNothing(m: Markers, t: string, p: string)
    requires OneLine(p) && p != ""
    ensures Contains(Excise(m, t), p) ==> Contains(t, p)
  {
    var lines := Split(t);
    ExciseKeepsContent(m, t);
    FoundInContent(Excise(m, t), p);
    FoundInALine(t, p);
    BlanksHoldNothing(Kept(m, lines), p);
    if m.heading in lines {
      SubSome(lines, HeadingAt(m, lines), NextTop(lines, HeadingAt(m, lines) + 1), p);
    }
  }

  // ---- markers ----

  /** `<` and line breaks do not come back after the first character. */
  predicate OpensOnce(s: string) {
    |s| > 5 && s[0] == '<' && forall i :: 0 < i < |s| ==> s[i] != '<' && s[i] != '\n'
  }

  lemma ValidFrom(m: Markers)
    requires OpensOnce(m.begin) && OpensOnce(m.end) && m.begin[5] != m.end[5]
    requires "# " <= m.heading && '<' !in m.heading && '\n' !in m.heading
    ensures Valid(m)
  {
    NoStart(m.begin[1..], m.end);
    NoStart(m.end[1..], m.begin);
    NoStart(m.heading, m.begin);
    NoStart(m.heading, m.end);
  }

  lemma HeadingIsPlain()
    ensures var h := "# better-memory (MANDATORY)"; "# " <= h && '<' !in h && '\n' !in h
  {
  }

  lemma BeginOpensOnce()
    ensures OpensOnce("<!-- BEGIN better-memory (managed) -->")
  {
  }

  lemma EndOpensOnce()
    ensures OpensOnce("<!-- END better-memory (managed) -->")
  {
  }

  /** The program's own markers are as needed. */
  lemma MarkersAreValid()
    ensures Valid(MARKERS)
  {
    BeginOpensOnce();
    EndOpensOnce();
    HeadingIsPlain();
    ValidFrom(MARKERS);
  }

  lemma Assoc(a: string, b: string, c: string)
    ensures a + (b + c) == (a + b) + c
  {
  }

  lemma BlockHidesNoEnd(m: Markers, block: string)
    requires Valid(m) && !Contains(block, m.end)
    ensures !Contains(m.begin + ("\n" + block + "\n"), m.end)
  {
    assert !Contains("", m.end);
    NotAcrossLines(block, "", m.end);
    assert block + "\n" + "" == block + "\n";
    NotAcrossLines(m.begin, block + "\n", m.end);
    assert "\n" + (block + "\n") == "\n" + block + "\n";
    Assoc(m.begin, "\n", block + "\n");
  }

  /** The END marker of a framed block is the first one, behind a text that holds
      none. */
  lemma EndOfFrame(m: Markers, pre: string, block: string, post: string)
    requires Valid(m) && !Contains(block, m.end) && !Contains(pre, m.end)
    ensures var r := Around(m, pre, block, post);
      Contains(r, m.end) && IndexOf(r, m.end) == |pre| + |m.begin| + |block| + 2
  {
    var body, tail := "\n" + block + "\n", m.end + post;
    assert !Contains(m.begin + body, m.end) by {
      BlockHidesNoEnd(m, block);
    }
    Assoc(m.begin, body, tail);
    EndBehind(m, pre, m.begin + body, post);
  }

  lemma EndBehind(m: Markers, pre: string, head: string, post: string)
    requires Solid(m.end) && head != "" && head[0] == m.end[0]
    requires !Contains(head, m.end) && !Contains(pre, m.end)
    ensures var r := pre + (head + (m.end + post));
      Contains(r, m.end) && IndexOf(r, m.end) == |pre| + |head|
  {
    var tail := m.end + post;
    assert m.end <= tail;
    NoStraddle(head, tail, m.end);
    NoStraddle(pre, head + tail, m.end);
  }

  lemma BeginOfFrame(m: Markers, pre: string, block: string, post: string)
    requires Valid(m) && !Contains(pre, m.begin)
    ensures var r := Around(m, pre, block, post);
      Contains(r, m.begin) && IndexOf(r, m.begin) == |pre|
  {
    var rest := ("\n" + block + "\n") + (m.end + post);
    assert m.begin <= m.begin + rest;
    NoStraddle(pre, m.begin + rest, m.begin);
  }

  lemma StripUnframes(block: string)
    ensures Stripped("\n" + block + "\n") == block
  {
    assert ("\n" + block + "\n")[1..] == block + "\n";
  }

  lemma Slices(a: string, b: string, c: string, d: string, e: string)
    ensures var r := a + (b + (c + (d + e)));
      && r[..|a|] == a && r[|a| + |b|..|a| + |b| + |c|] == c && r[|a| + |b| + |c| + |d|..] == e
  {
    var r := a + (b + (c + (d + e)));
    assert r[|a|..] == b + (c + (d + e));
    assert r[|a| + |b|..] == c + (d + e);
    assert r[|a| + |b| + |c|..] == d + e;
  }

  lemma AroundSlices(m: Markers, pre: string, block: string, post: string)
    ensures var r, i, j := Around(m, pre, block, post), |pre| + |m.begin|, |pre| + |m.begin| + |block| + 2;
      |r| == j + |m.end| + |post| && r[..|pre|] == pre && r[i..j] == "\n" + block + "\n" && r[j + |m.end|..] == post
  {
    Slices(pre, m.begin, "\n" + block + "\n", m.end, post);
  }

  /** The markers are first found at `i` and at `j`. */
  predicate FoundAt(m: Markers, r: string, i: nat, j: nat) {
    HasPair(m, r) && IndexOf(r, m.begin) == i && IndexOf(r, m.end) == j
  }

  lemma FrameIsFoundAt(m: Markers, pre: string, block: string, post: string)
    requires Valid(m) && !Contains(block, m.end) && !Contains(pre, m.end) && !Contains(pre, m.begin)
    ensures FoundAt(m, Around(m, pre, block, post), |pre|, |pre| + |m.begin| + |block| + 2)
  {
    BeginOfFrame(m, pre, block, post);
    EndOfFrame(m, pre, block, post);
  }

  lemma ReadBlock(m: Markers, r: string, i: nat, j: nat, block: string)
    requires FoundAt(m, r, i, j) && i + |m.begin| <= j && r[i + |m.begin|..j] == "\n" + block + "\n"
    ensures Extract(m, r) == Some(block)
  {
    StripUnframes(block);
  }

  lemma ReadAround(m: Markers, r: string, i: nat, j: nat, pre: string, post: string)
    requires FoundAt(m, r, i, j) && r[..i] == pre && r[j + |m.end|..] == post
    ensures Pre(m, r) == pre && Post(m, r) == post
  {
  }

  /** A framed block behind a marker-free text is found again. */
  lemma FrameIsRead(m: Markers, pre: string, block: string, post: string)
    requires Valid(m) && !Contains(block, m.end) && !Contains(pre, m.end) && !Contains(pre, m.begin)
    ensures Extract(m, Around(m, pre, block, post)) == Some(block)
  {
    var i, j := |pre|, |pre| + |m.begin| + |block| + 2;
    FrameIsFoundAt(m, pre, block, post);
    ReadFrame(m, Around(m, pre, block, post), pre, block, post, i, j);
  }

  lemma ReadFrame(m: Markers, r: string, pre: string, block: string, post: string, i: nat, j: nat)
    requires FoundAt(m, r, i, j) && i == |pre| && j == |pre| + |m.begin| + |block| + 2
    requires r == Around(m, pre, block, post)
    ensures Extract(m, r) == Some(block)
  {
    AroundSlices(m, pre, block, post);
    ReadBlock(m, r, i, j, block);
  }

  /** And so is what stands around it. */
  lemma FrameIsSplit(m: Markers, pre: string, block: string, post: string)
    requires Valid(m) && !Contains(block, m.end) && !Contains(pre, m.end) && !Contains(pre, m.begin)
    ensures var r := Around(m, pre, block, post); HasPair(m, r) && Pre(m, r) == pre && Post(m, r) == post
  {
    var i, j := |pre|, |pre| + |m.begin| + |block| + 2;
    FrameIsFoundAt(m, pre, block, post);
    AroundSlices(m, pre, block, post);
    ReadAround(m, Around(m, pre, block, post), i, j, pre, post);
  }

  /** An END marker in front hides the block. */
  lemma EarlyEndHides(m: Markers, pre: string, block: string, post: string)
    requires Valid(m) && Contains(pre, m.end) && !Contains(pre, m.begin)
    ensures Extract(m, Around(m, pre, block, post)) == None
  {
    BeginOfFrame(m, pre, block, post);
    FoundInFront(pre, m.begin + (("\n" + block + "\n") + (m.end + post)), m.end);
    assert IndexOf(pre, m.end) + |m.end| <= |pre|;
  }

  lemma ReadLonger(m: Markers, r: string, block: string)
    requires HasPair(m, r) && IndexOf(r, m.begin) + |m.begin| + |block| + 2 < IndexOf(r, m.end)
    ensures Extract(m, r) != Some(block)
  {
    StrippedLength(r[IndexOf(r, m.begin) + |m.begin|..IndexOf(r, m.end)]);
  }

  /** A lone BEGIN marker in front swallows the text up to the new END marker. */
  lemma EarlyBeginSwallows(m: Markers, pre: string, block: string, post: string)
    requires Valid(m) && Contains(pre, m.begin) && !Contains(pre, m.end) && !Contains(block, m.end)
    ensures Extract(m, Around(m, pre, block, post)) != Some(block)
  {
    var r := Around(m, pre, block, post);
    assert Contains(r, m.begin) && IndexOf(r, m.begin) + |m.begin| <= |pre| by {
      InFrontIsEarly(pre, m.begin + (("\n" + block + "\n") + (m.end + post)), m.begin);
    }
    EndOfFrame(m, pre, block, post);
    ReadLonger(m, r, block);
  }

  lemma StrippedLength(inner: string)
    ensures |Stripped(inner)| >= |inner| - 2
  {
  }

  // ---- round trip ----

  /** No marker is left where it could be taken for the new one: with both markers
      present only the text in front of the first BEGIN matters. */
  predicate Clean(m: Markers, t: string) {
    if HasPair(m, t) then !Contains(Excise(m, Pre(m, t)), m.end)
    else !Contains(Excise(m, t), m.begin) && !Contains(Excise(m, t), m.end)
  }

  lemma PreHasNoBegin(m: Markers, t: string)
    requires Valid(m)
    requires HasPair(m, t)
    ensures !Contains(Pre(m, t), m.begin)
  {
    FirstIsFirst(t, m.begin);
  }

  /** The spliced block is read back exactly when the text was clean. */
  lemma RoundTrip(m: Markers, t: string, block: string)
    requires Valid(m)
    requires !Contains(block, m.end)
    ensures Extract(m, Splice(m, t, block)) == Some(block) <==> Clean(m, t)
  {
    if HasPair(m, t) {
      PreHasNoBegin(m, t);
      ExciseAddsNothing(m, Pre(m, t), m.begin);
      var pre, post := Excise(m, Pre(m, t)), Excise(m, Post(m, t));
      if Contains(pre, m.end) {
        EarlyEndHides(m, pre, block, post);
      } else {
        FrameIsRead(m, pre, block, post);
      }
    } else {
      ExciseAddsNothing(m, t, m.begin);
      ExciseAddsNothing(m, t, m.end);
      var pre := Excise(m, t) + "\n\n";
      TwoNewlines(Excise(m, t), m.begin);
      TwoNewlines(Excise(m, t), m.end);
      if Contains(pre, m.end) {
        EarlyEndHides(m, pre, block, "\n");
      } else if Contains(pre, m.begin) {
        EarlyBeginSwallows(m, pre, block, "\n");
      } else {
        FrameIsRead(m, pre, block, "\n");
      }
    }
  }

  lemma TwoNewlines(t: string, p: string)
    requires OneLine(p) && p != ""
    ensures Contains(t + "\n\n", p) <==> Contains(t, p)
  {
    if Contains(t, p) {
      FoundInFront(t, "\n\n", p);
    } else {
      assert !Contains("", p);
      NotAcrossLines(t, "", p);
      assert t + "\n" + "" == t + "\n";
      NotAcrossLines(t + "\n", "", p);
      assert t + "\n" + "\n" + "" == t + "\n\n";
    }
  }

  /** In particular when no marker is there, or the first BEGIN precedes the first
      END. */
  lemma OrderedMarkersAreClean(m: Markers, t: string)
    requires Valid(m)
    requires HasPair(m, t) ==> IndexOf(t, m.begin) < IndexOf(t, m.end)
    requires !HasPair(m, t) ==> !Contains(t, m.begin) && !Contains(t, m.end)
    ensures Clean(m, t)
  {
    if HasPair(m, t) {
      ExciseAddsNothing(m, Pre(m, t), m.end);
      NotBeforeFirst(t, m.end, |Pre(m, t)|);
    } else {
      ExciseAddsNothing(m, t, m.begin);
      ExciseAddsNothing(m, t, m.end);
    }
  }
}
