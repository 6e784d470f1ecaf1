/** Python string operations the services rely on, over `seq<char>`. */
module Text {
  import opened Wrappers

  /** The characters Python's `str.split()` treats as whitespace. */
  predicate IsSpace(c: char)
  {
    || ('\t' <= c <= '\r')
    || ('\U{1C}' <= c <= '\U{1F}')
    || c == ' ' || c == '\U{85}' || c == '\U{A0}' || c == '\U{1680}'
    || ('\U{2000}' <= c <= '\U{200A}')
    || c == '\U{2028}' || c == '\U{2029}' || c == '\U{202F}' || c == '\U{205F}'
    || c == '\U{3000}'
  }

  predicate NoSpace(w: string)
  {
    forall i :: 0 <= i < |w| ==> !IsSpace(w[i])
  }

  /** Length of the run of non-whitespace characters that starts `s`. */
  function WordLength(s: string): (n: nat)
    ensures n <= |s|
    ensures NoSpace(s[..n])
    ensures n == |s| || IsSpace(s[n])
    ensures s != [] && !IsSpace(s[0]) ==> n > 0
  {
    if s == [] || IsSpace(s[0]) then 0 else 1 + WordLength(s[1..])
  }

  /** Python's `s.split()`: the maximal runs of non-whitespace characters, in order. */
  function Words(s: string): (ws: seq<string>)
    decreases |s|
  {
    if s == [] then []
    else if IsSpace(s[0]) then Words(s[1..])
    else
      var n := WordLength(s);
      [s[..n]] + Words(s[n..])
  }

  /** Every piece produced by `split()` is non-empty and holds no whitespace. */
  lemma {:induction false} WordsWellFormed(s: string)
    ensures forall k :: 0 <= k < |Words(s)| ==> |Words(s)[k]| > 0 && NoSpace(Words(s)[k])
    decreases |s|
  {
    if s == [] {
    } else if IsSpace(s[0]) {
      WordsWellFormed(s[1..]);
    } else {
      WordsWellFormed(s[WordLength(s)..]);
    }
  }

  /** A string made of whitespace only splits into no pieces at all. */
  lemma {:induction false} WordsOfBlank(s: string)
    requires forall i :: 0 <= i < |s| ==> IsSpace(s[i])
    ensures Words(s) == []
    decreases |s|
  {
    if s != [] {
      WordsOfBlank(s[1..]);
    }
  }

  /** `" ".join(ws)`. */
  function JoinSpace(ws: seq<string>): string
  {
    if ws == [] then [] else if |ws| == 1 then ws[0] else ws[0] + " " + JoinSpace(ws[1..])
  }

  /** Splitting words joined by single blanks gives the words back. */
  lemma {:induction false} WordsOfJoinSpace(ws: seq<string>)
    requires forall k :: 0 <= k < |ws| ==> |ws[k]| > 0 && NoSpace(ws[k])
    ensures Words(JoinSpace(ws)) == ws
  {
    if ws == [] {
    } else {
      var s := JoinSpace(ws);
      var w := ws[0];
      assert s[..|w|] == w;
      WordLengthOfPrefix(s, w);
      if |ws| == 1 {
        assert s == w;
        assert s[|w|..] == [];
      } else {
        var rest := JoinSpace(ws[1..]);
        assert s == w + " " + rest;
        assert s[|w|..] == [' '] + rest;
        WordsOfJoinSpace(ws[1..]);
        assert Words(s[|w|..]) == Words(rest) by {
          assert s[|w|..][1..] == rest;
        }
      }
    }
  }

  /** A blank-free word that starts `s` and is followed by whitespace or the end is `s`'s first run. */
  lemma {:induction false} WordLengthOfPrefix(s: string, w: string)
    requires 0 < |w| <= |s| && s[..|w|] == w && NoSpace(w)
    requires |w| == |s| || IsSpace(s[|w|])
    ensures WordLength(s) == |w|
  {
    assert s[0] == w[0];
    if |w| == 1 {
      assert s[1..] == [] || IsSpace(s[1..][0]);
    } else {
      assert s[1..][..|w| - 1] == w[1..];
      WordLengthOfPrefix(s[1..], w[1..]);
    }
  }

  /** ASCII lower-casing, plus the one non-ASCII letter Python lowers to an ASCII one (KELVIN SIGN). */
  function LowerChar(c: char): char
  {
    if 'A' <= c <= 'Z' then (c as int + 32) as char
    else if c == '\U{212A}' then 'k'
    else c
  }

  function Lower(s: string): (r: string)
    ensures |r| == |s| && forall i :: 0 <= i < |s| ==> r[i] == LowerChar(s[i])
  {
    seq(|s|, i requires 0 <= i < |s| => LowerChar(s[i]))
  }

  /** Python's `s.startswith(p)`. */
  predicate StartsWith(s: string, p: string)
  {
    |p| <= |s| && s[..|p|] == p
  }

  predicate OccursAt(s: string, sub: string, j: nat)
  {
    j + |sub| <= |s| && s[j..j + |sub|] == sub
  }

  /** Python's `s.find(sub)`, with `None` for -1. */
  function Find(s: string, sub: string): (r: Option<nat>)
    ensures r.Some? ==> OccursAt(s, sub, r.value) && forall j :: 0 <= j < r.value ==> !OccursAt(s, sub, j)
    ensures r.None? ==> forall j: nat :: !OccursAt(s, sub, j)
  {
    if |s| < |sub| then None
    else if s[..|sub|] == sub then Some(0)
    else
      match Find(s[1..], sub)
      case None =>
        assert forall j: nat :: 1 <= j ==> (OccursAt(s, sub, j) <==> OccursAt(s[1..], sub, j - 1));
        None
      case Some(k) =>
        assert forall j: nat :: 1 <= j ==> (OccursAt(s, sub, j) <==> OccursAt(s[1..], sub, j - 1));
        Some(k + 1)
  }

  /** Python's `s.split(sep)` for a non-empty separator: cut at every leftmost occurrence. */
  function SplitOn(s: string, sep: string): (parts: seq<string>)
    requires |sep| > 0
    ensures |parts| > 0
    decreases |s|
  {
    match Find(s, sep)
    case None => [s]
    case Some(i) => [s[..i]] + SplitOn(s[i + |sep|..], sep)
  }

  /** `sep.join(parts)`. */
  function Join(parts: seq<string>, sep: string): string
  {
    if parts == [] then [] else if |parts| == 1 then parts[0] else parts[0] + sep + Join(parts[1..], sep)
  }

  /** Joining the pieces of `s.split(sep)` with `sep` rebuilds `s`. */
  lemma {:induction false} JoinSplitOn(s: string, sep: string)
    requires |sep| > 0
    ensures Join(SplitOn(s, sep), sep) == s
    decreases |s|
  {
    match Find(s, sep)
    case None =>
    case Some(i) =>
      var rest := s[i + |sep|..];
      JoinSplitOn(rest, sep);
      assert SplitOn(s, sep) == [s[..i]] + SplitOn(rest, sep);
      assert s == s[..i] + sep + rest;
  }

  /** No piece of `s.split(sep)` contains the separator. */
  lemma {:induction false} SplitOnPiecesAvoidSep(s: string, sep: string)
    requires |sep| > 0
    ensures forall k :: 0 <= k < |SplitOn(s, sep)| ==> Find(SplitOn(s, sep)[k], sep).None?
    decreases |s|
  {
    match Find(s, sep)
    case None =>
    case Some(i) =>
      SplitOnPiecesAvoidSep(s[i + |sep|..], sep);
      var p := s[..i];
      if Find(p, sep).Some? {
        var j := Find(p, sep).value;
        assert OccursAt(p, sep, j);
        assert j + |sep| <= i;
        assert s[j..j + |sep|] == p[j..j + |sep|];
        assert OccursAt(s, sep, j);
      }
  }
}
