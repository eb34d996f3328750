/** String operations the handlers rely on: `String.prototype.split` on one
    separator character, and the ASCII case folding of the database's `iLike`. */
module Text {

  /** `s.split(sep)` for a one-character separator: the pieces between separators,
      including empty ones; the empty string splits to one empty piece. */
  function Split(s: string, sep: char): (parts: seq<string>)
    ensures |parts| >= 1
    ensures forall i | 0 <= i < |parts| :: sep !in parts[i]
    decreases |s|
  {
    if |s| == 0 then [""]
    else
      var rest := Split(s[1..], sep);
      if s[0] == sep then [""] + rest
      else [[s[0]] + rest[0]] + rest[1..]
  }

  /** `parts.join(sep)`. */
  function Join(parts: seq<string>, sep: char): string
    requires |parts| >= 1
  {
    if |parts| == 1 then parts[0] else parts[0] + [sep] + Join(parts[1..], sep)
  }

  /** Splitting and joining again gives the original string back. */
  lemma {:induction false} JoinSplit(s: string, sep: char)
    ensures Join(Split(s, sep), sep) == s
    decreases |s|
  {
    if |s| > 0 {
      var rest := Split(s[1..], sep);
      JoinSplit(s[1..], sep);
      if s[0] == sep {
        assert Split(s, sep) == [""] + rest;
        assert ([""] + rest)[1..] == rest;
        assert s == [sep] + s[1..];
      } else {
        var parts := Split(s, sep);
        assert parts == [[s[0]] + rest[0]] + rest[1..];
        if |rest| == 1 {
          assert s == [s[0]] + rest[0];
        } else {
          assert parts[1..] == rest[1..];
          assert Join(rest, sep) == rest[0] + [sep] + Join(rest[1..], sep);
          assert s == [s[0]] + s[1..];
        }
      }
    }
  }

  /** A piece free of the separator, followed by the separator, is split off as
      the first piece. */
  lemma {:induction false} SplitPrefix(a: string, sep: char, b: string)
    requires sep !in a
    ensures Split(a + [sep] + b, sep) == [a] + Split(b, sep)
    decreases |a|
  {
    if |a| == 0 {
      assert a + [sep] + b == [sep] + b;
      assert ([sep] + b)[1..] == b;
    } else {
      SplitPrefix(a[1..], sep, b);
      assert (a + [sep] + b)[1..] == a[1..] + [sep] + b;
      assert [a[0]] + a[1..] == a;
    }
  }

  /** A string without the separator is one piece. */
  lemma {:induction false} SplitNone(a: string, sep: char)
    requires sep !in a
    ensures Split(a, sep) == [a]
    decreases |a|
  {
    if |a| > 0 {
      SplitNone(a[1..], sep);
      assert [a[0]] + a[1..] == a;
    }
  }

  /** ASCII lower-casing, the only case folding the model gives `iLike`. */
  function Lower(c: char): char {
    if 'A' <= c <= 'Z' then (c as int + 32) as char else c
  }

  function LowerAll(s: string): (r: string)
    ensures |r| == |s| && forall i | 0 <= i < |s| :: r[i] == Lower(s[i])
  {
    seq(|s|, i requires 0 <= i < |s| => Lower(s[i]))
  }

  /** `t` occurs in `s` at position `k`, letters compared case-insensitively. */
  predicate MatchesAt(s: string, t: string, k: nat) {
    k + |t| <= |s| && forall j | 0 <= j < |t| :: Lower(s[k + j]) == Lower(t[j])
  }

  /** The `%t%` pattern of `iLike`: `t` occurs somewhere in `s`, ignoring ASCII case. */
  predicate ContainsFolded(s: string, t: string) {
    exists k | 0 <= k <= |s| :: MatchesAt(s, t, k)
  }

  /** Case folding does not change what is contained: searching folded text for
      a folded needle is the same question. */
  lemma FoldedSearchIsCaseBlind(s: string, t: string)
    ensures ContainsFolded(s, t) <==> ContainsFolded(LowerAll(s), LowerAll(t))
  {
    var ls, lt := LowerAll(s), LowerAll(t);
    assert forall c :: Lower(Lower(c)) == Lower(c);
    forall k | 0 <= k <= |s|
      ensures MatchesAt(s, t, k) <==> MatchesAt(ls, lt, k)
    {
    }
    if ContainsFolded(s, t) {
      var k :| 0 <= k <= |s| && MatchesAt(s, t, k);
      assert MatchesAt(ls, lt, k);
    }
    if ContainsFolded(ls, lt) {
      var k :| 0 <= k <= |ls| && MatchesAt(ls, lt, k);
      assert MatchesAt(s, t, k);
    }
  }
}
