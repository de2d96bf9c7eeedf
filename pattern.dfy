/** The `possibleLicense` regular expression, compiled from the same pattern text in
    pkg/checker/license.go and pkg/license/classify.go:
        ^(?i)(LICEN(S|C)E|COPYING|README|NOTICE)(\\..+)?$
    In a Go raw string `\\` is two characters, so the regular expression sees an escaped
    backslash: the optional suffix is a literal backslash followed by one or more characters
    and then one or more characters (`.` = any character except a newline). `LICENSE.txt`
    is therefore not matched. The walk filter that both files run over `filepath.Walk` is
    defined here once. */
module LicensePattern {
  import opened Wrappers

  /** The fragment of RE2 syntax the pattern uses. `Lit(c, true)` is a literal under the
      `(?i)` flag. */
  datatype Regex =
    | Lit(c: char, fold: bool)
    | AnyChar
    | Alt(left: Regex, right: Regex)
    | Cat(first: Regex, second: Regex)
    | Opt(inner: Regex)
    | Plus(inner: Regex)

  function Lower(c: char): char {
    if 'A' <= c <= 'Z' then (c as int + 32) as char else c
  }

  /** Go's simple case folding for an ASCII literal: both cases, plus U+017F (long s) for
      's' and U+212A (Kelvin sign) for 'k'. */
  predicate SameFold(x: char, c: char) {
    Lower(x) == Lower(c)
    || (Lower(c) == 's' && x == '\U{017F}')
    || (Lower(c) == 'k' && x == '\U{212A}')
  }

  /** The strings that `re` matches in full (the pattern is anchored by `^` and `$`). */
  predicate Matches(re: Regex, s: string)
    decreases re, |s|
  {
    match re
    case Lit(c, fold) => |s| == 1 && (if fold then SameFold(s[0], c) else s[0] == c)
    case AnyChar => |s| == 1 && s[0] != '\n'
    case Alt(l, r) => Matches(l, s) || Matches(r, s)
    case Cat(f, g) => exists k :: 0 <= k <= |s| && Matches(f, s[..k]) && Matches(g, s[k..])
    case Opt(r) => s == [] || Matches(r, s)
    case Plus(r) =>
      Matches(r, s) || exists k :: 0 < k < |s| && Matches(r, s[..k]) && Matches(Plus(r), s[k..])
  }

  /** A word of case-insensitive literals. */
  function Word(w: string): Regex
    requires |w| >= 1
  {
    if |w| == 1 then Lit(w[0], true) else Cat(Lit(w[0], true), Word(w[1..]))
  }

  /** `LICEN(S|C)E` */
  const Licence: Regex := Cat(Word("LICEN"), Cat(Alt(Lit('S', true), Lit('C', true)), Lit('E', true)))
  /** `LICEN(S|C)E|COPYING|README|NOTICE` */
  const Names: Regex := Alt(Licence, Alt(Word("COPYING"), Alt(Word("README"), Word("NOTICE"))))
  /** `(\\..+)?` */
  const Suffix: Regex := Opt(Cat(Lit('\\', true), Cat(AnyChar, Plus(AnyChar))))
  /** The whole pattern. */
  const PossibleLicenseRegex: Regex := Cat(Names, Suffix)

  /** `possibleLicense.MatchString(name)` */
  predicate PossibleLicense(name: string) {
    Matches(PossibleLicenseRegex, name)
  }

  // ---------------------------------------------------------------------------
  // The pattern in plain words.

  /** `s` spells `w` up to case folding. */
  predicate FoldEq(s: string, w: string) {
    |s| == |w| && forall i :: 0 <= i < |s| ==> SameFold(s[i], w[i])
  }

  /** Nothing, or a backslash followed by at least two characters none of which is a newline. */
  predicate BackslashTail(t: string) {
    t == [] || (|t| >= 3 && t[0] == '\\' && forall i :: 1 <= i < |t| ==> t[i] != '\n')
  }

  predicate WordThenTail(name: string, w: string) {
    |w| <= |name| && FoldEq(name[..|w|], w) && BackslashTail(name[|w|..])
  }

  /** The candidate names: one of the five words in any case, optionally followed by a
      backslash and at least two more characters. */
  predicate CandidateName(name: string) {
    WordThenTail(name, "LICENSE") || WordThenTail(name, "LICENCE") || WordThenTail(name, "COPYING")
    || WordThenTail(name, "README") || WordThenTail(name, "NOTICE")
  }

  lemma CatFixed(f: Regex, g: Regex, s: string, n: nat)
    requires forall x :: Matches(f, x) ==> |x| == n
    ensures Matches(Cat(f, g), s) <==> n <= |s| && Matches(f, s[..n]) && Matches(g, s[n..])
  {
    if Matches(Cat(f, g), s) {
      var k :| 0 <= k <= |s| && Matches(f, s[..k]) && Matches(g, s[k..]);
      assert |s[..k]| == n;
    }
    if n <= |s| && Matches(f, s[..n]) && Matches(g, s[n..]) {
      assert 0 <= n <= |s| && Matches(f, s[..n]) && Matches(g, s[n..]);
    }
  }

  lemma CatAlt(a: Regex, b: Regex, g: Regex, s: string)
    ensures Matches(Cat(Alt(a, b), g), s) <==> Matches(Cat(a, g), s) || Matches(Cat(b, g), s)
  {
    if Matches(Cat(Alt(a, b), g), s) {
      var k :| 0 <= k <= |s| && Matches(Alt(a, b), s[..k]) && Matches(g, s[k..]);
      if Matches(a, s[..k]) {
        assert Matches(Cat(a, g), s);
      } else {
        assert Matches(Cat(b, g), s);
      }
    }
    if Matches(Cat(a, g), s) {
      var k :| 0 <= k <= |s| && Matches(a, s[..k]) && Matches(g, s[k..]);
      assert Matches(Alt(a, b), s[..k]);
    }
    if Matches(Cat(b, g), s) {
      var k :| 0 <= k <= |s| && Matches(b, s[..k]) && Matches(g, s[k..]);
      assert Matches(Alt(a, b), s[..k]);
    }
  }

  lemma {:induction false} MatchesWord(w: string, s: string)
    requires |w| >= 1
    ensures Matches(Word(w), s) <==> FoldEq(s, w)
    decreases |w|
  {
    if |w| > 1 {
      var lit := Lit(w[0], true);
      forall x | Matches(lit, x) ensures |x| == 1 { }
      CatFixed(lit, Word(w[1..]), s, 1);
      if 1 <= |s| {
        MatchesWord(w[1..], s[1..]);
        if FoldEq(s, w) {
          assert forall i :: 0 <= i < |s| - 1 ==> s[1..][i] == s[i + 1] && w[1..][i] == w[i + 1];
          assert Matches(lit, s[..1]);
        }
        if Matches(Word(w), s) {
          assert FoldEq(s[1..], w[1..]);
          assert forall i :: 1 <= i < |s| ==> s[i] == s[1..][i - 1] && w[i] == w[1..][i - 1];
          assert s[..1] == [s[0]];
        }
      }
    }
  }

  lemma WordLength(w: string)
    requires |w| >= 1
    ensures forall x :: Matches(Word(w), x) ==> |x| == |w|
  {
    forall x | Matches(Word(w), x) ensures |x| == |w| {
      MatchesWord(w, x);
    }
  }

  lemma MatchesSE(t: string)
    ensures Matches(Cat(Alt(Lit('S', true), Lit('C', true)), Lit('E', true)), t)
        <==> |t| == 2 && (SameFold(t[0], 'S') || SameFold(t[0], 'C')) && SameFold(t[1], 'E')
  {
    var sc := Alt(Lit('S', true), Lit('C', true));
    forall x | Matches(sc, x) ensures |x| == 1 {
      assert Matches(Lit('S', true), x) || Matches(Lit('C', true), x);
    }
    CatFixed(sc, Lit('E', true), t, 1);
    if 1 <= |t| {
      var a, b := t[..1], t[1..];
      assert |a| == 1 && a[0] == t[0];
      assert Matches(sc, a) <==> SameFold(t[0], 'S') || SameFold(t[0], 'C') by {
        assert Matches(sc, a) <==> Matches(Lit('S', true), a) || Matches(Lit('C', true), a);
      }
      if |b| == 1 {
        assert b[0] == t[1];
      }
      assert Matches(Lit('E', true), b) <==> |t| == 2 && SameFold(t[1], 'E');
    }
  }

  lemma FoldEqSplit(s: string, w: string, n: nat)
    requires n <= |w|
    ensures FoldEq(s, w) <==> n <= |s| && FoldEq(s[..n], w[..n]) && FoldEq(s[n..], w[n..])
  {
    if n <= |s| && FoldEq(s[..n], w[..n]) && FoldEq(s[n..], w[n..]) {
      forall i | 0 <= i < |s| ensures SameFold(s[i], w[i]) {
        if i < n {
          assert s[..n][i] == s[i] && w[..n][i] == w[i];
        } else {
          assert s[n..][i - n] == s[i] && w[n..][i - n] == w[i];
        }
      }
    }
    if FoldEq(s, w) {
      forall i | 0 <= i < n ensures SameFold(s[..n][i], w[..n][i]) {
        assert s[..n][i] == s[i] && w[..n][i] == w[i];
      }
      forall i | 0 <= i < |s| - n ensures SameFold(s[n..][i], w[n..][i]) {
        assert s[n..][i] == s[i + n] && w[n..][i] == w[i + n];
      }
    }
  }

  lemma MatchesLicence(s: string)
    ensures Matches(Licence, s) <==> FoldEq(s, "LICENSE") || FoldEq(s, "LICENCE")
  {
    var se := Cat(Alt(Lit('S', true), Lit('C', true)), Lit('E', true));
    WordLength("LICEN");
    CatFixed(Word("LICEN"), se, s, 5);
    FoldEqSplit(s, "LICENSE", 5);
    FoldEqSplit(s, "LICENCE", 5);
    if 5 <= |s| {
      MatchesWord("LICEN", s[..5]);
      MatchesSE(s[5..]);
      assert "LICENSE"[..5] == "LICEN" && "LICENCE"[..5] == "LICEN";
      assert "LICENSE"[5..] == "SE" && "LICENCE"[5..] == "CE";
    }
  }

  lemma LicenceLength()
    ensures forall x :: Matches(Licence, x) ==> |x| == 7
  {
    forall x | Matches(Licence, x) ensures |x| == 7 {
      MatchesLicence(x);
    }
  }

  lemma {:induction false} MatchesAnyPlus(t: string)
    ensures Matches(Plus(AnyChar), t) <==> |t| >= 1 && forall i :: 0 <= i < |t| ==> t[i] != '\n'
    decreases |t|
  {
    if |t| > 1 {
      MatchesAnyPlus(t[1..]);
      assert !Matches(AnyChar, t);
      if Matches(Plus(AnyChar), t) {
        var k :| 0 < k < |t| && Matches(AnyChar, t[..k]) && Matches(Plus(AnyChar), t[k..]);
        assert k == 1;
        assert forall i :: 1 <= i < |t| ==> t[i] == t[1..][i - 1];
      }
      if forall i :: 0 <= i < |t| ==> t[i] != '\n' {
        assert forall i :: 0 <= i < |t| - 1 ==> t[1..][i] == t[i + 1];
        assert Matches(AnyChar, t[..1]);
      }
    }
  }

  lemma MatchesSuffix(t: string)
    ensures Matches(Suffix, t) <==> BackslashTail(t)
  {
    var bs := Lit('\\', true);
    var rest := Cat(AnyChar, Plus(AnyChar));
    forall x | Matches(bs, x) ensures |x| == 1 { }
    forall x | Matches(AnyChar, x) ensures |x| == 1 { }
    CatFixed(bs, rest, t, 1);
    if 1 <= |t| {
      CatFixed(AnyChar, Plus(AnyChar), t[1..], 1);
      if 2 <= |t| {
        MatchesAnyPlus(t[2..]);
        assert t[1..][1..] == t[2..];
        assert forall i :: 2 <= i < |t| ==> t[i] == t[2..][i - 2];
      }
      assert t[..1] == [t[0]];
    }
  }

  lemma NamesThenSuffix(re: Regex, w: string, name: string)
    requires |w| >= 1
    requires forall x :: Matches(re, x) ==> |x| == |w|
    requires forall x :: Matches(re, x) <==> FoldEq(x, w)
    ensures Matches(Cat(re, Suffix), name) <==> WordThenTail(name, w)
  {
    CatFixed(re, Suffix, name, |w|);
    if |w| <= |name| {
      MatchesSuffix(name[|w|..]);
    }
  }

  lemma LicenceThenSuffix(name: string)
    ensures Matches(Cat(Licence, Suffix), name)
        <==> WordThenTail(name, "LICENSE") || WordThenTail(name, "LICENCE")
  {
    LicenceLength();
    CatFixed(Licence, Suffix, name, 7);
    if 7 <= |name| {
      MatchesLicence(name[..7]);
      MatchesSuffix(name[7..]);
    }
  }

  lemma WordThenSuffix(w: string, name: string)
    requires |w| >= 1
    ensures Matches(Cat(Word(w), Suffix), name) <==> WordThenTail(name, w)
  {
    WordLength(w);
    forall x ensures Matches(Word(w), x) <==> FoldEq(x, w) { MatchesWord(w, x); }
    NamesThenSuffix(Word(w), w, name);
  }

  lemma SplitNames(name: string)
    ensures PossibleLicense(name) <==>
      Matches(Cat(Licence, Suffix), name) || Matches(Cat(Word("COPYING"), Suffix), name)
      || Matches(Cat(Word("README"), Suffix), name) || Matches(Cat(Word("NOTICE"), Suffix), name)
  {
    var copying, readme, notice := Word("COPYING"), Word("README"), Word("NOTICE");
    CatAlt(Licence, Alt(copying, Alt(readme, notice)), Suffix, name);
    CatAlt(copying, Alt(readme, notice), Suffix, name);
    CatAlt(readme, notice, Suffix, name);
  }

  /** The compiled pattern accepts exactly the candidate names described in plain words. */
  lemma PossibleLicenseIff(name: string)
    ensures PossibleLicense(name) <==> CandidateName(name)
  {
    SplitNames(name);
    LicenceThenSuffix(name);
    WordThenSuffix("COPYING", name);
    WordThenSuffix("README", name);
    WordThenSuffix("NOTICE", name);
  }

  /** The pattern text as written rejects the usual `LICENSE.txt` and accepts a backslash. */
  lemma DotExtensionRejected()
    ensures !PossibleLicense("LICENSE.txt")
  {
    var n := "LICENSE.txt";
    PossibleLicenseIff(n);
    assert n[7..][0] == '.';
    assert !SameFold(n[5], "LICENCE"[5]);
    assert !SameFold(n[0], "COPYING"[0]);
    assert !SameFold(n[0], "README"[0]);
    assert !SameFold(n[0], "NOTICE"[0]);
    assert !WordThenTail(n, "LICENCE") by { assert n[..7][5] == n[5]; }
    assert !WordThenTail(n, "COPYING") by { assert n[..7][0] == n[0]; }
    assert !WordThenTail(n, "README") by { assert n[..6][0] == n[0]; }
    assert !WordThenTail(n, "NOTICE") by { assert n[..6][0] == n[0]; }
  }

  lemma BackslashSuffixAccepted()
    ensures PossibleLicense("copying\\md")
  {
    var n := "copying\\md";
    assert WordThenTail(n, "COPYING") by {
      var w, u := n[..7], "COPYING";
      assert w == "copying";
      assert SameFold(w[0], u[0]) && SameFold(w[1], u[1]) && SameFold(w[2], u[2]) && SameFold(w[3], u[3])
          && SameFold(w[4], u[4]) && SameFold(w[5], u[5]) && SameFold(w[6], u[6]);
      assert n[7..] == "\\md";
    }
    PossibleLicenseIff(n);
  }

  // ---------------------------------------------------------------------------
  // The `filepath.Walk` callback of `deepClassify` (pkg/checker/license.go:79-91) and of
  // `findObviousLicenses` (pkg/license/classify.go:41-54), which are the same code.

  /** The `os.FileInfo` fields the callback reads. */
  datatype FileInfo = FileInfo(name: string, isDir: bool)

  /** One call of the walk callback: a visited path, or the error `filepath.Walk` hands over for
      a path it could not stat or list. */
  datatype WalkStep = Visit(path: string, info: FileInfo) | WalkError(path: string, err: string)

  predicate IsCandidateVisit(step: WalkStep) {
    step.Visit? && !step.info.isDir && PossibleLicense(step.info.name)
  }

  /** The paths the callback appends, in walk order, and the error that ends the walk: the
      callback returns the first error it is given and `filepath.Walk` stops there. */
  function Collected(steps: seq<WalkStep>): (seq<string>, Option<string>)
  {
    if steps == [] then ([], None)
    else match steps[0]
      case WalkError(_, e) => ([], Some(e))
      case Visit(p, info) =>
        var rest := Collected(steps[1..]);
        (if !info.isDir && PossibleLicense(info.name) then [p] + rest.0 else rest.0, rest.1)
  }

  /** The index of the first error, or the length of the walk. */
  function WalkEnd(steps: seq<WalkStep>): (n: nat)
    ensures n <= |steps|
    ensures forall i :: 0 <= i < n ==> steps[i].Visit?
    ensures n < |steps| ==> steps[n].WalkError?
  {
    if steps == [] || steps[0].WalkError? then 0 else 1 + WalkEnd(steps[1..])
  }

  /** A path is collected exactly when a visit before the first error is a non-directory whose
      name matches the pattern, and the error reported is that first error. */
  lemma {:induction false} CollectedExactly(steps: seq<WalkStep>, p: string)
    ensures p in Collected(steps).0 <==>
      exists i :: 0 <= i < WalkEnd(steps) && IsCandidateVisit(steps[i]) && steps[i].path == p
    ensures Collected(steps).1 ==
      if WalkEnd(steps) < |steps| then Some(steps[WalkEnd(steps)].err) else None
  {
    if steps != [] && steps[0].Visit? {
      var tail := steps[1..];
      CollectedExactly(tail, p);
      CollectedVisit(steps);
      var n := WalkEnd(tail);
      assert WalkEnd(steps) == 1 + n;
      if n < |tail| {
        assert steps[1 + n] == tail[n];
      }
      CandidateShift(steps, n, p);
    }
  }

  /** A candidate visit among the first `n + 1` steps is the first step or one of the first `n`
      steps of the rest. */
  lemma CandidateShift(steps: seq<WalkStep>, n: nat, p: string)
    requires n < |steps|
    ensures (exists i :: 0 <= i < n + 1 && IsCandidateVisit(steps[i]) && steps[i].path == p)
        <==> (IsCandidateVisit(steps[0]) && steps[0].path == p)
             || (exists i :: 0 <= i < n && IsCandidateVisit(steps[1..][i]) && steps[1..][i].path == p)
  {
    var tail := steps[1..];
    if exists i :: 0 <= i < n + 1 && IsCandidateVisit(steps[i]) && steps[i].path == p {
      var i :| 0 <= i < n + 1 && IsCandidateVisit(steps[i]) && steps[i].path == p;
      if i > 0 {
        assert tail[i - 1] == steps[i];
      }
    }
    if exists i :: 0 <= i < n && IsCandidateVisit(tail[i]) && tail[i].path == p {
      var i :| 0 <= i < n && IsCandidateVisit(tail[i]) && tail[i].path == p;
      assert steps[i + 1] == tail[i];
    }
  }

  /** A visit contributes its path exactly when it is a candidate. */
  lemma CollectedVisit(steps: seq<WalkStep>)
    requires steps != [] && steps[0].Visit?
    ensures var rest := Collected(steps[1..]);
      Collected(steps) == (if IsCandidateVisit(steps[0]) then [steps[0].path] + rest.0 else rest.0, rest.1)
  {
  }

  /** The callback loop, collecting candidate files until the walk reports an error; on error
      the files gathered so far are returned with it. */
  method WalkCandidates(steps: seq<WalkStep>) returns (files: seq<string>, err: Option<string>)
    ensures files == Collected(steps).0 && err == Collected(steps).1
  {
    files, err := [], None;
    var i := 0;
    assert steps[0..] == steps;
    while i < |steps|
      invariant 0 <= i <= |steps|
      invariant Collected(steps).0 == files + Collected(steps[i..]).0
      invariant Collected(steps).1 == Collected(steps[i..]).1
      invariant err == None
    {
      CollectedAt(steps, i);
      match steps[i]
      case WalkError(_, e) =>
        err := Some(e);
        assert files + [] == files;
        return;
      case Visit(path, info) =>
        if !info.isDir && PossibleLicense(info.name) {
          ConcatAssoc(files, [path], Collected(steps[i + 1..]).0);
          files := files + [path];
        }
      i := i + 1;
    }
    assert files + [] == files;
  }

  /** `Collected` from the `i`-th step on, one step unfolded. */
  lemma CollectedAt(steps: seq<WalkStep>, i: int)
    requires 0 <= i < |steps|
    ensures steps[i].WalkError? ==> Collected(steps[i..]) == ([], Some(steps[i].err))
    ensures steps[i].Visit? ==>
      var rest := Collected(steps[i + 1..]);
      Collected(steps[i..])
      == (if IsCandidateVisit(steps[i]) then [steps[i].path] + rest.0 else rest.0, rest.1)
  {
    assert steps[i..][0] == steps[i] && steps[i..][1..] == steps[i + 1..];
    if steps[i].Visit? {
      CollectedVisit(steps[i..]);
    }
  }
}
