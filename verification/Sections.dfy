/** Which of the user's lines and blank lines excision keeps. */
module Sections {
  import opened Tables
  import opened Text
  import opened ManagedBlock
  import opened SetUpRuns

  predicate IsTop(l: string) {
    "# " <= l
  }

  /** The lines outside the first `k` legacy sections. A section starts at a legacy
      heading, and every top-level heading ends it. */
  function Outside(m: Markers, lines: seq<string>, k: nat, inside: bool): seq<string> {
    if lines == [] then []
    else
      var l, rest := lines[0], lines[1..];
      if l == m.heading && k > 0 then Outside(m, rest, k - 1, true)
      else if IsTop(l) then [l] + Outside(m, rest, k, false)
      else if inside then Outside(m, rest, k, true)
      else [l] + Outside(m, rest, k, false)
  }

  // ---- one section ----

  lemma {:induction false} NoSection(m: Markers, lines: seq<string>)
    ensures Outside(m, lines, 0, false) == lines
  {
    if lines != [] {
      NoSection(m, lines[1..]);
      assert lines == [lines[0]] + lines[1..];
    }
  }

  lemma {:induction false} NoHeadingLeft(m: Markers, lines: seq<string>, k: nat)
    requires m.heading !in lines
    ensures Outside(m, lines, k, false) == lines
  {
    if lines != [] {
      assert lines[0] in lines && lines == [lines[0]] + lines[1..];
      NoHeadingLeft(m, lines[1..], k);
    }
  }

  /** Inside the last section to go, everything up to the next top-level heading goes. */
  lemma {:induction false} SectionGoes(m: Markers, lines: seq<string>, i: nat)
    requires i <= |lines|
    ensures Outside(m, lines[i..], 0, true) == lines[NextTop(lines, i)..]
    decreases |lines| - i
  {
    if i < |lines| {
      assert lines[i..][0] == lines[i] && lines[i..][1..] == lines[i + 1..];
      if IsTop(lines[i]) {
        NoSection(m, lines[i + 1..]);
      } else {
        SectionGoes(m, lines, i + 1);
      }
    }
  }

  lemma {:induction false} NextTopBehind(l: string, lines: seq<string>, i: nat)
    requires i <= |lines|
    ensures NextTop([l] + lines, i + 1) == NextTop(lines, i) + 1
    decreases |lines| - i
  {
    assert i < |lines| ==> ([l] + lines)[i + 1] == lines[i];
    if i < |lines| && !IsTop(lines[i]) {
      NextTopBehind(l, lines, i + 1);
    }
  }

  lemma {:induction false} KeptIsOutside(m: Markers, lines: seq<string>)
    requires Valid(m)
    ensures Kept(m, lines) == Outside(m, lines, 1, false)
  {
    if lines != [] {
      var l, rest := lines[0], lines[1..];
      assert lines == [l] + rest;
      if l == m.heading {
        assert lines[..0] == [];
        SectionGoes(m, lines, 1);
      } else {
        KeptIsOutside(m, rest);
        KeptBehind(m, l, rest);
      }
    }
  }

  lemma HeadingBehind(m: Markers, l: string, rest: seq<string>)
    requires l != m.heading
    ensures HeadingAt(m, [l] + rest) == HeadingAt(m, rest) + 1
  {
    assert ([l] + rest)[1..] == rest;
  }

  lemma KeptAt(m: Markers, lines: seq<string>, start: nat, end: nat)
    requires start == HeadingAt(m, lines) < |lines| && end == NextTop(lines, start + 1)
    ensures Kept(m, lines) == lines[..start] + lines[end..]
  {
  }

  lemma KeptAll(m: Markers, lines: seq<string>)
    requires HeadingAt(m, lines) == |lines|
    ensures Kept(m, lines) == lines
  {
  }

  lemma KeptBehind(m: Markers, l: string, rest: seq<string>)
    requires l != m.heading
    ensures Kept(m, [l] + rest) == [l] + Kept(m, rest)
  {
    HeadingBehind(m, l, rest);
    if HeadingAt(m, rest) < |rest| {
      KeptSome(m, [l] + rest, l, rest, HeadingAt(m, rest));
    } else {
      KeptAll(m, rest);
      KeptAll(m, [l] + rest);
    }
  }

  lemma KeptSome(m: Markers, lines: seq<string>, l: string, rest: seq<string>, start: nat)
    requires lines == [l] + rest && start == HeadingAt(m, rest) < |rest| && HeadingAt(m, lines) == start + 1
    ensures Kept(m, lines) == [l] + Kept(m, rest)
  {
    var end := NextTop(rest, start + 1);
    NextTopBehind(l, rest, start + 1);
    KeptAt(m, rest, start, end);
    KeptAt(m, lines, start + 1, end + 1);
    CutBehind(l, rest, start, end);
  }

  lemma CutBehind<T>(l: T, rest: seq<T>, i: nat, j: nat)
    requires i <= j <= |rest|
    ensures ([l] + rest)[..i + 1] + ([l] + rest)[j + 1..] == [l] + (rest[..i] + rest[j..])
  {
    assert ([l] + rest)[..i + 1] == [l] + rest[..i];
    assert ([l] + rest)[j + 1..] == rest[j..];
  }

  /** Blank lines neither open nor end a section. */
  lemma {:induction false} BlanksStandAside(m: Markers, lines: seq<string>, k: nat, inside: bool)
    requires Valid(m)
    ensures NonBlank(Outside(m, lines, k, inside)) == Outside(m, NonBlank(lines), k, inside)
  {
    if lines != [] {
      var l, rest := lines[0], lines[1..];
      assert m.heading != "";
      BlanksStandAside(m, rest, k, false);
      BlanksStandAside(m, rest, k, true);
      if k > 0 {
        BlanksStandAside(m, rest, k - 1, true);
      }
      BlankOrNot(l, rest, NonBlank(rest));
      BlankOrNot(l, Outside(m, rest, k, false), NonBlank(Outside(m, rest, k, false)));
    }
  }

  lemma BlankOrNot(l: string, rest: seq<string>, content: seq<string>)
    requires content == NonBlank(rest)
    ensures NonBlank([l] + rest) == if l == "" then content else [l] + content
  {
    assert ([l] + rest)[1..] == rest;
  }

  /** One excision takes exactly the first legacy section: what stands in front of its
      heading, and everything from the next top-level heading on, stays in order. */
  lemma ExciseIsOutside(m: Markers, t: string)
    requires Valid(m)
    ensures Content(Excise(m, t)) == Outside(m, Content(t), 1, false)
  {
    ExciseKeepsContent(m, t);
    KeptIsOutside(m, Split(t));
    BlanksStandAside(m, Split(t), 1, false);
  }

  /** Seen from the text: a heading between lines `a` without one and a section, up to
      `rest`, which is empty or starts with a top-level heading. */
  lemma SectionIsTaken(m: Markers, a: seq<string>, section: seq<string>, rest: seq<string>)
    requires Valid(m) && m.heading !in a && (forall l :: l in section ==> !IsTop(l))
    requires rest == [] || IsTop(rest[0])
    requires forall l :: l in a + section + rest ==> OneLine(l)
    ensures Content(Excise(m, Join(a + [m.heading] + section + rest))) == NonBlank(a) + NonBlank(rest)
  {
    var lines := a + [m.heading] + section + rest;
    forall l | l in lines ensures OneLine(l) {
      assert l == m.heading || l in a + section + rest;
    }
    SplitJoin(lines);
    ExciseKeepsContent(m, Join(lines));
    KeptIsOutside(m, lines);
    OutsideAround(m, a, section, rest);
    NonBlankJoins(a, rest);
  }

  lemma {:induction false} OutsideAround(m: Markers, a: seq<string>, section: seq<string>, rest: seq<string>)
    requires m.heading !in a && (forall l :: l in section ==> !IsTop(l)) && (rest == [] || IsTop(rest[0]))
    ensures Outside(m, a + [m.heading] + section + rest, 1, false) == a + rest
  {
    var lines := a + [m.heading] + section + rest;
    if a == [] {
      assert lines[0] == m.heading && lines[1..] == section + rest;
      SectionDrops(m, section, rest);
    } else {
      assert a[0] in a && lines[0] == a[0] && lines[1..] == a[1..] + [m.heading] + section + rest;
      OutsideAround(m, a[1..], section, rest);
      assert a + rest == [a[0]] + (a[1..] + rest);
    }
  }

  lemma {:induction false} SectionDrops(m: Markers, section: seq<string>, rest: seq<string>)
    requires (forall l :: l in section ==> !IsTop(l)) && (rest == [] || IsTop(rest[0]))
    ensures Outside(m, section + rest, 0, true) == rest
  {
    if section == [] {
      assert section + rest == rest;
      if rest != [] {
        NoSection(m, rest[1..]);
        assert rest == [rest[0]] + rest[1..];
      }
    } else {
      assert section[0] in section && (section + rest)[0] == section[0] && (section + rest)[1..] == section[1..] + rest;
      SectionDrops(m, section[1..], rest);
    }
  }

  lemma {:induction false} NonBlankJoins(a: seq<string>, b: seq<string>)
    ensures NonBlank(a + b) == NonBlank(a) + NonBlank(b)
  {
    if a == [] {
      assert a + b == b;
    } else {
      NonBlankJoins(a[1..], b);
      BlankOrNot(a[0], a[1..], NonBlank(a[1..]));
      BlankOrNot(a[0], a[1..] + b, NonBlank(a[1..] + b));
      assert [a[0]] + a[1..] == a && [a[0]] + (a[1..] + b) == a + b;
      Prepended(a[0], NonBlank(a[1..]), NonBlank(b));
    }
  }

  lemma Prepended(l: string, x: seq<string>, y: seq<string>)
    ensures [l] + (x + y) == ([l] + x) + y
  {
  }

  // ---- any number of sections ----

  lemma ExciseOnce(m: Markers, t: string, r: string, lines: seq<string>, k: nat)
    requires Valid(m) && IsExcision(m, t, r) && Content(t) == Outside(m, lines, k, false)
    ensures Content(r) == Outside(m, lines, k + 1, false)
  {
    ExciseIsOutside(m, t);
    OneMoreOutside(m, lines, k, false);
  }

  lemma {:induction false} ExcisionsAreOutside(m: Markers, fronts: nat -> string, lines: seq<string>, k: nat)
    requires Valid(m) && AreExcisions(m, fronts) && Content(fronts(0)) == lines
    ensures Content(fronts(k)) == Outside(m, lines, k, false)
    decreases k
  {
    if k == 0 {
      NoSection(m, lines);
    } else {
      ExcisionsAreOutside(m, fronts, lines, k - 1);
      ExciseOnce(m, fronts(k - 1), fronts(k), lines, k - 1);
    }
  }

  lemma ExciseTimesIsOutside(m: Markers, t: string, k: nat)
    requires Valid(m)
    ensures Content(ExciseTimes(m, t, k)) == Outside(m, Content(t), k, false)
  {
    forall i: nat ensures IsExcision(m, Excisions(m, t)(i), Excisions(m, t)(i + 1)) {
    }
    ExcisionsAreOutside(m, Excisions(m, t), Content(t), k);
  }

  /** Taking one more section from what is outside the first `k`. */
  lemma {:induction false} OneMoreOutside(m: Markers, lines: seq<string>, k: nat, inside: bool)
    requires Valid(m)
    ensures Outside(m, Outside(m, lines, k, inside), 1, false) == Outside(m, lines, k + 1, inside)
  {
    if lines != [] {
      var l, rest := lines[0], lines[1..];
      OneMoreOutside(m, rest, k, false);
      OneMoreOutside(m, rest, k, true);
      if k > 0 {
        OneMoreOutside(m, rest, k - 1, true);
      } else if l == m.heading {
        NoSection(m, rest);
        assert ([l] + rest)[1..] == rest;
      }
      var out := Outside(m, rest, k, false);
      assert ([l] + out)[1..] == out;
    }
  }

  // ---- the file after any number of runs ----

  lemma {:induction false} BackAfter(m: Markers, block: string, texts: nat -> string, k: nat)
    requires Valid(m) && IsHistory(m, block, texts) && Ordered(m, texts(0)) && !Contains(block, m.end)
    ensures Ordered(m, texts(k)) && Post(m, texts(k)) == ExciseTimes(m, Post(m, texts(0)), k)
    decreases k
  {
    if k > 0 {
      BackAfter(m, block, texts, k - 1);
      BackStep(m, block, texts(k - 1), texts(k));
    }
  }

  lemma BackStep(m: Markers, block: string, t: string, r: string)
    requires Valid(m) && Ordered(m, t) && !Contains(block, m.end) && IsSplice(m, block, t, r)
    ensures Ordered(m, r) && Post(m, r) == Excise(m, Post(m, t))
  {
    SpliceOfOrdered(m, t, block);
  }

  /** After `k` runs the user still has, in front of the block and behind it, every line
      with something on it that stood outside the first `k` legacy sections there. */
  lemma UserLinesAfter(m: Markers, block: string, texts: nat -> string, k: nat)
    requires Valid(m) && IsHistory(m, block, texts) && Ordered(m, texts(0)) && !Contains(block, m.end)
    ensures Ordered(m, texts(k))
    ensures Content(Pre(m, texts(k))) == Outside(m, Content(Pre(m, texts(0))), k, false)
    ensures Content(Post(m, texts(k))) == Outside(m, Content(Post(m, texts(0))), k, false)
  {
    BackAfter(m, block, texts, k);
    FrontAfter(m, block, texts, k);
    ExciseTimesIsOutside(m, Pre(m, texts(0)), k);
    ExciseTimesIsOutside(m, Post(m, texts(0)), k);
  }

  /** The same from a first installation: the whole text ends up in front. */
  lemma UserLinesAfterInstall(m: Markers, block: string, texts: nat -> string, k: nat)
    requires Valid(m) && IsHistory(m, block, texts) && Unmarked(m, texts(0)) && !Contains(block, m.end) && k >= 1
    ensures Ordered(m, texts(k))
    ensures Content(Pre(m, texts(k))) == Outside(m, Content(texts(0)), k, false)
    ensures Content(Post(m, texts(k))) == []
  {
    FirstInstall(m, block, texts(0), texts(1));
    FromIsHistory(m, block, texts, 1);
    LaterRuns(m, block, From(texts, 1), Content(texts(0)), k - 1);
  }

  lemma LaterRuns(m: Markers, block: string, texts: nat -> string, lines: seq<string>, k: nat)
    requires Valid(m) && IsHistory(m, block, texts) && Ordered(m, texts(0)) && !Contains(block, m.end)
    requires Content(Pre(m, texts(0))) == Outside(m, lines, 1, false) && Content(Post(m, texts(0))) == []
    ensures Ordered(m, texts(k))
    ensures Content(Pre(m, texts(k))) == Outside(m, lines, k + 1, false) && Content(Post(m, texts(k))) == []
  {
    UserLinesAfter(m, block, texts, k);
    MoreOutside(m, lines, k);
  }

  lemma FirstInstall(m: Markers, block: string, t: string, r: string)
    requires Valid(m) && Unmarked(m, t) && !Contains(block, m.end) && IsSplice(m, block, t, r)
    ensures Ordered(m, r) && Content(Pre(m, r)) == Outside(m, Content(t), 1, false) && Content(Post(m, r)) == []
  {
    SpliceOfUnmarked(m, t, block);
    ExciseIsOutside(m, t);
    BlankTail(Excise(m, t));
    assert Split("\n") == ["", ""] by {
      SplitAcross("", "");
      assert "" + "\n" + "" == "\n" && Split("") == [""];
    }
    assert [""] + [""] == ["", ""] && ["", ""][1..] == [""] && [""][1..] == [];
  }

  lemma BlankTail(t: string)
    ensures Content(t + "\n\n") == Content(t)
  {
    SplitAcross(t, "\n");
    SplitAcross("", "");
    assert t + "\n" + "\n" == t + "\n\n" && "" + "\n" + "" == "\n";
    assert Split("") == [""];
    NonBlankJoins(Split(t), [""] + [""]);
    assert ([""] + [""])[1..] == [""] && [""][1..] == [];
  }

  lemma {:induction false} MoreOutside(m: Markers, lines: seq<string>, k: nat)
    requires Valid(m)
    ensures Outside(m, Outside(m, lines, 1, false), k, false) == Outside(m, lines, k + 1, false)
    ensures Outside(m, [], k, false) == []
  {
    if k == 0 {
      NoSection(m, Outside(m, lines, 1, false));
    } else {
      MoreOutside(m, lines, k - 1);
      OneMoreOutside(m, Outside(m, lines, 1, false), k - 1, false);
      OneMoreOutside(m, lines, k, false);
    }
  }

  // ---- blank lines ----

  /** How many newlines end the text, when `run` stand in front of it; more than three
      count as three. */
  function EndRun(t: string, run: nat): nat {
    if t == "" then run else EndRun(t[1..], if t[0] != '\n' then 0 else if run < 3 then run + 1 else run)
  }

  lemma {:induction false} SqueezeConcat(a: string, b: string, run: nat)
    ensures Squeeze(a + b, run) == Squeeze(a, run) + Squeeze(b, EndRun(a, run))
  {
    if a == "" {
      assert a + b == b;
    } else {
      assert (a + b)[1..] == a[1..] + b;
      SqueezeConcat(a[1..], b, if a[0] != '\n' then 0 else if run < 3 then run + 1 else run);
    }
  }

  function Newlines(n: nat): string {
    if n == 0 then "" else "\n" + Newlines(n - 1)
  }

  lemma {:induction false} SqueezeNewlines(n: nat, run: nat)
    requires run <= 3
    ensures Squeeze(Newlines(n), run) == Newlines(if n <= 3 - run then n else 3 - run)
    ensures EndRun(Newlines(n), run) == if n <= 3 - run then n + run else 3
  {
    if n > 0 {
      assert Newlines(n)[1..] == Newlines(n - 1);
      SqueezeNewlines(n - 1, if run < 3 then run + 1 else run);
    }
  }

  /** The squeeze shortens a run of newlines to three when it is longer, and touches
      nothing else. */
  lemma SqueezeShortens(a: string, n: nat, b: string)
    requires a != "" && a[|a| - 1] != '\n' && b != "" && b[0] != '\n'
    ensures Squeeze(a + Newlines(n) + b, 0) == Squeeze(a, 0) + Newlines(if n <= 3 then n else 3) + Squeeze(b, 0)
  {
    var mid := Newlines(n);
    NoRunLeft(a, 0);
    SqueezeConcat(a + mid, b, 0);
    SqueezeConcat(a, mid, 0);
    SqueezeNewlines(n, 0);
    assert Squeeze(b, EndRun(a + mid, 0)) == Squeeze(b, 0);
  }

  lemma {:induction false} NoRunLeft(a: string, run: nat)
    requires a != "" && a[|a| - 1] != '\n'
    ensures EndRun(a, run) == 0
  {
    if |a| > 1 {
      NoRunLeft(a[1..], if a[0] != '\n' then 0 else if run < 3 then run + 1 else run);
    }
  }

  lemma {:induction false} PlainStays(t: string, run: nat)
    requires OneLine(t)
    ensures Squeeze(t, run) == t
  {
    if t != "" {
      PlainStays(t[1..], 0);
      assert t == [t[0]] + t[1..];
    }
  }
}
