/** Strings as the program handles them: searching, splitting into lines, joining. */
module Text {

  /** `p in t`. */
  predicate Contains(t: string, p: string) {
    p <= t || (t != "" && Contains(t[1..], p))
  }

  /** `t.index(p)`, the first occurrence. */
  function IndexOf(t: string, p: string): (i: nat)
    requires Contains(t, p)
    ensures i + |p| <= |t| && t[i..i + |p|] == p
  {
    if p <= t then 0 else 1 + IndexOf(t[1..], p)
  }

  /** `t.split("\n")`. */
  function Split(t: string): (lines: seq<string>)
    ensures lines != []
  {
    if t == "" then [""]
    else
      var rest := Split(t[1..]);
      if t[0] == '\n' then [""] + rest else [[t[0]] + rest[0]] + rest[1..]
  }

  /** `"\n".join(lines)`. */
  function Join(lines: seq<string>): string {
    if lines == [] then ""
    else if |lines| == 1 then lines[0]
    else lines[0] + "\n" + Join(lines[1..])
  }

  function NonBlank(lines: seq<string>): seq<string> {
    if lines == [] then [] else (if lines[0] == "" then [] else [lines[0]]) + NonBlank(lines[1..])
  }

  /** The lines with something on them. */
  function Content(t: string): seq<string> {
    NonBlank(Split(t))
  }

  predicate OneLine(p: string) {
    '\n' !in p
  }

  // ---- lines ----

  lemma {:induction false} LinesAreLines(t: string)
    ensures forall l :: l in Split(t) ==> OneLine(l)
  {
    if t != "" {
      LinesAreLines(t[1..]);
      var rest := Split(t[1..]);
      assert rest[0] in rest;
      forall l | l in Split(t) ensures OneLine(l) {
        assert t[0] != '\n' && l != [t[0]] + rest[0] ==> l in rest;
      }
    }
  }

  lemma {:induction false} SplitLine(l: string)
    requires OneLine(l)
    ensures Split(l) == [l]
  {
    if l != "" {
      SplitLine(l[1..]);
      assert [l[0]] + l[1..] == l;
    }
  }

  lemma {:induction false} SplitAppend(l: string, t: string)
    requires OneLine(l)
    ensures Split(l + "\n" + t) == [l] + Split(t)
  {
    if l == "" {
      assert (l + "\n" + t)[1..] == t;
    } else {
      SplitAppend(l[1..], t);
      assert (l + "\n" + t)[1..] == l[1..] + "\n" + t;
      assert [l[0]] + l[1..] == l;
    }
  }

  /** The lines of a text, given those of its tail. */
  function Lines(c: char, rest: seq<string>): seq<string>
    requires rest != []
  {
    if c == '\n' then [""] + rest else [[c] + rest[0]] + rest[1..]
  }

  lemma SplitStep(t: string)
    requires t != ""
    ensures Split(t) == Lines(t[0], Split(t[1..]))
  {
  }

  lemma LinesAcross(c: char, a: seq<string>, b: seq<string>)
    requires a != []
    ensures Lines(c, a + b) == Lines(c, a) + b
  {
    assert (a + b)[1..] == a[1..] + b;
  }

  function Extended(lines: seq<string>, l: string): seq<string>
    requires lines != []
  {
    lines[..|lines| - 1] + [lines[|lines| - 1] + l]
  }

  lemma LinesExtended(c: char, a: seq<string>, l: string)
    requires a != []
    ensures Lines(c, Extended(a, l)) == Extended(Lines(c, a), l)
  {
    var n := |a| - 1;
    if c == '\n' {
      assert ([""] + a)[..n + 1] == [""] + a[..n] && ([""] + a)[n + 1] == a[n];
    } else if n == 0 {
      assert a == [a[0]] && [c] + (a[0] + l) == ([c] + a[0]) + l;
    } else {
      var longer := [[c] + a[0]] + a[1..];
      assert longer[n] == a[n] && longer[..n] == [[c] + a[0]] + a[1..n];
      assert Extended(a, l)[0] == a[0] && Extended(a, l)[1..] == a[1..n] + [a[n] + l];
    }
  }

  /** A piece of a line behind a text extends the text's last line. */
  lemma {:induction false} SplitBeforeLine(t: string, l: string)
    requires OneLine(l)
    ensures Split(t + l) == Extended(Split(t), l)
  {
    if t == "" {
      assert t + l == l && "" + l == l;
      SplitLine(l);
    } else {
      SplitBeforeLine(t[1..], l);
      assert (t + l)[1..] == t[1..] + l;
      SplitStep(t);
      SplitStep(t + l);
      LinesExtended(t[0], Split(t[1..]), l);
    }
  }

  /** A piece of a line in front of a text extends the text's first line. */
  lemma {:induction false} SplitBehindLine(l: string, t: string)
    requires OneLine(l)
    ensures Split(l + t) == [l + Split(t)[0]] + Split(t)[1..]
  {
    if l == "" {
      assert l + t == t && l + Split(t)[0] == Split(t)[0];
    } else {
      SplitBehindLine(l[1..], t);
      assert (l + t)[1..] == l[1..] + t;
      assert [l[0]] + (l[1..] + Split(t)[0]) == l + Split(t)[0];
    }
  }

  lemma {:induction false} SplitAcross(t: string, u: string)
    ensures Split(t + "\n" + u) == Split(t) + Split(u)
  {
    if t == "" {
      assert ("" + "\n" + u)[1..] == u;
    } else {
      SplitAcross(t[1..], u);
      assert (t + "\n" + u)[1..] == t[1..] + "\n" + u;
      SplitStep(t);
      SplitStep(t + "\n" + u);
      LinesAcross(t[0], Split(t[1..]), Split(u));
    }
  }

  lemma {:induction false} SplitJoin(lines: seq<string>)
    requires lines != [] && forall l :: l in lines ==> OneLine(l)
    ensures Split(Join(lines)) == lines
  {
    assert lines[0] in lines;
    if |lines| == 1 {
      SplitLine(lines[0]);
    } else {
      assert forall l :: l in lines[1..] ==> l in lines;
      SplitJoin(lines[1..]);
      SplitAppend(lines[0], Join(lines[1..]));
    }
  }

  lemma ContentOfJoin(lines: seq<string>)
    requires forall l :: l in lines ==> OneLine(l)
    ensures Content(Join(lines)) == NonBlank(lines)
  {
    if lines != [] {
      SplitJoin(lines);
    } else {
      assert Split("") == [""];
      assert [""][1..] == [];
    }
  }

  lemma {:induction false} BlanksDoNotCount(lines: seq<string>, l: string)
    requires l != ""
    ensures multiset(NonBlank(lines))[l] == multiset(lines)[l]
  {
    if lines != [] {
      BlanksDoNotCount(lines[1..], l);
      assert lines == [lines[0]] + lines[1..];
    }
  }

  // ---- searching ----

  lemma {:induction false} PrefixIsInFirstLine(t: string, p: string)
    requires OneLine(p)
    ensures p <= t <==> p <= Split(t)[0]
  {
    if t != "" && p != "" {
      PrefixIsInFirstLine(t[1..], p[1..]);
      assert p <= t <==> p[0] == t[0] && p[1..] <= t[1..] by {
        if p[0] == t[0] && p[1..] <= t[1..] {
          assert forall i :: 0 < i < |p| ==> p[i] == p[1..][i - 1] == t[1..][i - 1] == t[i];
        }
      }
      var first := Split(t)[0];
      if t[0] != '\n' {
        assert first[1..] == Split(t[1..])[0];
        assert p <= first <==> p[0] == first[0] && p[1..] <= first[1..] by {
          if p[0] == first[0] && p[1..] <= first[1..] {
            assert forall i :: 0 < i < |p| ==> p[i] == p[1..][i - 1] == first[1..][i - 1] == first[i];
          }
        }
      }
    }
  }

  predicate InSome(lines: seq<string>, p: string) {
    lines != [] && (Contains(lines[0], p) || InSome(lines[1..], p))
  }

  lemma {:induction false} BlanksHoldNothing(lines: seq<string>, p: string)
    requires p != ""
    ensures InSome(NonBlank(lines), p) <==> InSome(lines, p)
  {
    if lines != [] {
      BlanksHoldNothing(lines[1..], p);
      var rest := NonBlank(lines[1..]);
      assert lines[0] != "" ==> ([lines[0]] + rest)[1..] == rest;
      assert lines[0] == "" ==> [] + rest == rest;
    }
  }

  lemma {:induction false} FoundInALine(t: string, p: string)
    requires OneLine(p) && p != ""
    ensures Contains(t, p) <==> InSome(Split(t), p)
  {
    if t != "" {
      PrefixIsInFirstLine(t, p);
      FoundInALine(t[1..], p);
      var rest, lines := Split(t[1..]), Split(t);
      if t[0] == '\n' {
        assert lines[1..] == rest && lines[0] == "";
      } else {
        assert lines[1..] == rest[1..] && lines[0][1..] == rest[0] && lines[0] != "";
      }
    }
  }

  /** A piece of a line occurs in a text exactly when it occurs in one of its lines
      with something on them. */
  lemma FoundInContent(t: string, p: string)
    requires OneLine(p) && p != ""
    ensures Contains(t, p) <==> InSome(Content(t), p)
  {
    FoundInALine(t, p);
    BlanksHoldNothing(Split(t), p);
  }

  lemma {:induction false} NoStart(t: string, p: string)
    requires p != "" && p[0] !in t
    ensures !Contains(t, p)
  {
    if t != "" {
      NoStart(t[1..], p);
    }
  }

  /** A pattern whose first character does not come back cannot straddle a place
      where that character stands. */
  predicate Solid(p: string) {
    p != "" && OneLine(p) && p[0] !in p[1..]
  }

  lemma PrefixOfConcat(x: string, y: string, p: string)
    ensures p <= x + y ==> p <= x || (|x| < |p| && y != "" && p[|x|] == y[0])
  {
    if p <= x + y && |p| > |x| {
      assert p[|x|] == (x + y)[|x|];
    }
  }

  lemma {:induction false} NoStraddle(x: string, y: string, p: string)
    requires Solid(p) && y != "" && y[0] == p[0] && !Contains(x, p)
    ensures Contains(x + y, p) <==> Contains(y, p)
    ensures Contains(y, p) ==> IndexOf(x + y, p) == |x| + IndexOf(y, p)
  {
    if x == "" {
      assert x + y == y;
    } else {
      assert (x + y)[1..] == x[1..] + y;
      NoStraddle(x[1..], y, p);
      PrefixOfConcat(x, y, p);
      assert |x| < |p| ==> p[|x|] in p[1..];
    }
  }

  lemma {:induction false} FoundInFront(x: string, y: string, p: string)
    requires Contains(x, p)
    ensures Contains(x + y, p) && IndexOf(x + y, p) == IndexOf(x, p)
  {
    if p <= x {
      assert p <= x + y;
    } else {
      FoundInFront(x[1..], y, p);
      assert (x + y)[1..] == x[1..] + y;
      assert |p| <= |x| by {
        assert IndexOf(x, p) + |p| <= |x|;
      }
      PrefixOfConcat(x, y, p);
    }
  }

  lemma {:induction false} NotAcrossLines(x: string, y: string, p: string)
    requires OneLine(p) && p != "" && !Contains(x, p) && !Contains(y, p)
    ensures !Contains(x + "\n" + y, p)
  {
    PrefixOfConcat(x, "\n" + y, p);
    assert x + "\n" + y == x + ("\n" + y);
    if x != "" {
      NotAcrossLines(x[1..], y, p);
      assert (x + "\n" + y)[1..] == x[1..] + "\n" + y;
    } else {
      assert (x + "\n" + y)[1..] == y;
    }
  }

  /** Before the end of the first occurrence there is no other. */
  lemma NotBeforeFirst(t: string, p: string, n: nat)
    requires Contains(t, p) && n < IndexOf(t, p) + |p|
    ensures !Contains(t[..n], p)
  {
    assert t == t[..n] + t[n..];
    InFrontIsEarly(t[..n], t[n..], p);
  }

  lemma InFrontIsEarly(x: string, y: string, p: string)
    ensures Contains(x, p) ==> Contains(x + y, p) && IndexOf(x + y, p) + |p| <= |x|
  {
    if Contains(x, p) {
      FoundInFront(x, y, p);
      assert IndexOf(x, p) + |p| <= |x|;
    }
  }

  lemma FirstIsFirst(t: string, p: string)
    requires p != "" && Contains(t, p)
    ensures !Contains(t[..IndexOf(t, p)], p)
  {
    NotBeforeFirst(t, p, IndexOf(t, p));
  }
}
