/** The few functions of Go's `strings` package that the modelled code calls. */
module GoStrings {

  /** `strings.HasPrefix`. */
  predicate HasPrefix(s: string, prefix: string) {
    |prefix| <= |s| && s[..|prefix|] == prefix
  }

  /** `strings.Contains`: `sub` occurs somewhere in `s`. */
  predicate Contains(s: string, sub: string) {
    HasPrefix(s, sub) || (s != [] && Contains(s[1..], sub))
  }

  /** `strings.TrimPrefix`. */
  function TrimPrefix(s: string, prefix: string): (r: string)
    ensures HasPrefix(s, prefix) ==> prefix + r == s
    ensures !HasPrefix(s, prefix) ==> r == s
  {
    if HasPrefix(s, prefix) then s[|prefix|..] else s
  }

  /** `filepath.Join(a, b)` for two already clean paths: an empty part is dropped. */
  function JoinPath(a: string, b: string): (r: string)
    ensures b == "" ==> r == a
    ensures a == "" ==> r == b
    ensures a != "" && b != "" ==> r == a + "/" + b
  {
    if a == "" then b else if b == "" then a else a + "/" + b
  }

  /** `unicode.IsSpace`: the Latin-1 spaces and the other Unicode White_Space code points. */
  predicate IsSpace(c: char) {
    c == '\t' || c == '\n' || c == '\U{000B}' || c == '\U{000C}' || c == '\r' || c == ' '
    || c == '\U{0085}' || c == '\U{00A0}' || c == '\U{1680}'
    || ('\U{2000}' <= c <= '\U{200A}')
    || c == '\U{2028}' || c == '\U{2029}' || c == '\U{202F}' || c == '\U{205F}' || c == '\U{3000}'
  }

  function TrimLeftSpace(s: string): (r: string)
    ensures |r| <= |s| && r == s[|s| - |r|..]
    ensures r == [] || !IsSpace(r[0])
    ensures forall i :: 0 <= i < |s| - |r| ==> IsSpace(s[i])
  {
    if s != [] && IsSpace(s[0]) then TrimLeftSpace(s[1..]) else s
  }

  function TrimRightSpace(s: string): (r: string)
    ensures |r| <= |s| && r == s[..|r|]
    ensures r == [] || !IsSpace(r[|r| - 1])
    ensures forall i :: |r| <= i < |s| ==> IsSpace(s[i])
  {
    if s != [] && IsSpace(s[|s| - 1]) then TrimRightSpace(s[..|s| - 1]) else s
  }

  /** `strings.TrimSpace`: drops leading and trailing white space. */
  function TrimSpace(s: string): (r: string)
    ensures r == [] || (!IsSpace(r[0]) && !IsSpace(r[|r| - 1]))
  {
    TrimRightSpace(TrimLeftSpace(s))
  }

  /** A string without white space at either end is its own trimming. */
  lemma TrimSpaceOfTrimmed(s: string)
    requires s == [] || (!IsSpace(s[0]) && !IsSpace(s[|s| - 1]))
    ensures TrimSpace(s) == s
  {
  }

  /** A white-space character appended to a string leaves its left trimming alone, except that it
      survives when something else does. */
  lemma {:induction false} TrimLeftSpaceAppend(s: string, c: char)
    requires IsSpace(c)
    ensures TrimLeftSpace(s + [c]) == if TrimLeftSpace(s) == [] then [] else TrimLeftSpace(s) + [c]
  {
    var t := s + [c];
    if s == [] {
      assert t == [c] && t[1..] == [];
    } else {
      assert t[0] == s[0] && t[1..] == s[1..] + [c];
      if IsSpace(s[0]) {
        calc {
          TrimLeftSpace(t);
          TrimLeftSpace(s[1..] + [c]);
          { TrimLeftSpaceAppend(s[1..], c); }
          if TrimLeftSpace(s[1..]) == [] then [] else TrimLeftSpace(s[1..]) + [c];
        }
      }
    }
  }

  /** Trailing white space does not change the trimmed string: `TrimSpace(line + "\n")`
      is `TrimSpace(line)`. */
  lemma TrimSpaceAppendSpace(s: string, c: char)
    requires IsSpace(c)
    ensures TrimSpace(s + [c]) == TrimSpace(s)
  {
    TrimLeftSpaceAppend(s, c);
    var l := TrimLeftSpace(s);
    if l != [] {
      assert (l + [c])[..|l|] == l;
    }
  }

  /** `strings.Split(s, string(sep))` for a one-character separator: the pieces between the
      occurrences of `sep`; always at least one piece. */
  function Split(s: string, sep: char): (parts: seq<string>)
    ensures |parts| >= 1
    ensures forall k :: 0 <= k < |parts| ==> sep !in parts[k]
    decreases |s|
  {
    if sep !in s then [s]
    else
      var i := IndexOf(s, sep);
      [s[..i]] + Split(s[i + 1..], sep)
  }

  /** `strings.Join(parts, string(sep))`. */
  function Join(parts: seq<string>, sep: char): string {
    if parts == [] then ""
    else if |parts| == 1 then parts[0]
    else parts[0] + [sep] + Join(parts[1..], sep)
  }

  /** The index of the first occurrence of `c`. */
  function IndexOf(s: string, c: char): (i: nat)
    requires c in s
    ensures i < |s| && s[i] == c && c !in s[..i]
  {
    if s[0] == c then 0 else 1 + IndexOf(s[1..], c)
  }

  /** Every occurrence of `a` replaced by `b`. */
  function Replace(s: string, a: char, b: char): (r: string)
    ensures |r| == |s|
  {
    if s == [] then [] else [if s[0] == a then b else s[0]] + Replace(s[1..], a, b)
  }

  lemma {:induction false} ReplaceAbsent(s: string, a: char, b: char)
    requires a !in s
    ensures Replace(s, a, b) == s
  {
    if s != [] {
      assert s[0] != a;
      ReplaceAbsent(s[1..], a, b);
    }
  }

  lemma {:induction false} ReplaceAppend(x: string, y: string, a: char, b: char)
    ensures Replace(x + y, a, b) == Replace(x, a, b) + Replace(y, a, b)
  {
    if x != [] {
      assert (x + y)[1..] == x[1..] + y;
      ReplaceAppend(x[1..], y, a, b);
    } else {
      assert x + y == y;
    }
  }

  lemma JoinCons(head: string, tail: seq<string>, sep: char)
    requires |tail| >= 1
    ensures Join([head] + tail, sep) == head + [sep] + Join(tail, sep)
  {
  }

  lemma ReplaceAround(s: string, i: nat, a: char, b: char)
    requires i < |s| && s[i] == a
    ensures Replace(s, a, b) == Replace(s[..i], a, b) + [b] + Replace(s[i + 1..], a, b)
  {
    assert s == (s[..i] + [a]) + s[i + 1..];
    ReplaceAppend(s[..i] + [a], s[i + 1..], a, b);
    ReplaceAppend(s[..i], [a], a, b);
  }

  /** Splitting on a character and joining with another replaces the one by the other. */
  lemma {:induction false} JoinSplitIsReplace(s: string, a: char, b: char)
    ensures Join(Split(s, a), b) == Replace(s, a, b)
    decreases |s|
  {
    if a in s {
      var i := IndexOf(s, a);
      var tail := Split(s[i + 1..], a);
      assert Split(s, a) == [s[..i]] + tail;
      JoinCons(s[..i], tail, b);
      JoinSplitIsReplace(s[i + 1..], a, b);
      ReplaceAbsent(s[..i], a, b);
      ReplaceAround(s, i, a, b);
    } else {
      ReplaceAbsent(s, a, b);
    }
  }
}
