/**
 * The JavaScript string operations the exercise lookup is built from:
 * `toLowerCase` (ASCII letters only), `trim`, `split` and `join` on one
 * separator character, `startsWith` and `includes`.
 */
module Text {

  /** The code points `String.prototype.trim` removes: the ECMAScript
      WhiteSpace and LineTerminator characters. */
  const TrimmableChars: set<char> := {
    '\t', '\n', '\U{000B}', '\U{000C}', '\r', ' ', '\U{00A0}', '\U{1680}',
    '\U{2000}', '\U{2001}', '\U{2002}', '\U{2003}', '\U{2004}', '\U{2005}',
    '\U{2006}', '\U{2007}', '\U{2008}', '\U{2009}', '\U{200A}',
    '\U{2028}', '\U{2029}', '\U{202F}', '\U{205F}', '\U{3000}', '\U{FEFF}'
  }

  predicate IsTrimmable(c: char) {
    c in TrimmableChars
  }

  /** The number of trimmable characters at the start of `s`. */
  function Lead(s: string): (n: nat)
    ensures n <= |s|
    ensures forall k :: 0 <= k < n ==> IsTrimmable(s[k])
    ensures n == |s| || !IsTrimmable(s[n])
  {
    if s != [] && IsTrimmable(s[0]) then 1 + Lead(s[1..]) else 0
  }

  /** The number of trimmable characters at the end of `s`. */
  function Trail(s: string): (n: nat)
    ensures n <= |s|
    ensures forall k :: |s| - n <= k < |s| ==> IsTrimmable(s[k])
    ensures n == |s| || !IsTrimmable(s[|s| - n - 1])
  {
    if s != [] && IsTrimmable(s[|s| - 1]) then 1 + Trail(s[..|s| - 1]) else 0
  }

  /** `trim`: removes the leading, then the trailing trimmable characters. */
  function Trim(s: string): (r: string)
    ensures r == [] || (!IsTrimmable(r[0]) && !IsTrimmable(r[|r| - 1]))
    ensures Lead(s) + |r| <= |s| && r == s[Lead(s)..Lead(s) + |r|]
    ensures forall k :: 0 <= k < |s| && (k < Lead(s) || Lead(s) + |r| <= k) ==> IsTrimmable(s[k])
  {
    var a := Lead(s);
    var t := s[a..];
    var b := |t| - Trail(t);
    assert forall k :: b <= k < |t| ==> IsTrimmable(t[k]);
    t[..b]
  }

  function LowerChar(c: char): char {
    if 'A' <= c <= 'Z' then (c as int - 'A' as int + 'a' as int) as char else c
  }

  /** `toLowerCase`, restricted to the ASCII letters. */
  function Lower(s: string): (r: string)
    ensures |r| == |s|
    ensures forall i :: 0 <= i < |s| ==> r[i] == LowerChar(s[i])
  {
    seq(|s|, i requires 0 <= i < |s| => LowerChar(s[i]))
  }

  /** `split(sep)` for a one-character separator: the pieces between the
      separators, empty pieces included; `"".split(sep)` is `[""]`. */
  function Split(s: string, sep: char): (r: seq<string>)
    ensures |r| >= 1
    ensures forall i :: 0 <= i < |r| ==> sep !in r[i]
    decreases |s|
  {
    if s == [] then [[]]
    else if s[0] == sep then [[]] + Split(s[1..], sep)
    else
      var rest := Split(s[1..], sep);
      [[s[0]] + rest[0]] + rest[1..]
  }

  /** `join(sep)`; `[].join(sep)` is `""`. */
  function Join(ws: seq<string>, sep: char): string {
    if ws == [] then []
    else if |ws| == 1 then ws[0]
    else ws[0] + [sep] + Join(ws[1..], sep)
  }

  predicate StartsWith(s: string, prefix: string) {
    |prefix| <= |s| && s[..|prefix|] == prefix
  }

  /** `includes`: `sub` occurs somewhere in `s` (the empty string always does). */
  predicate Contains(s: string, sub: string)
    decreases |s|
  {
    StartsWith(s, sub) || (s != [] && Contains(s[1..], sub))
  }

  /** Joining the pieces of a split rebuilds the string. */
  lemma {:induction false} JoinSplit(s: string, sep: char)
    ensures Join(Split(s, sep), sep) == s
    decreases |s|
  {
    if s != [] {
      JoinSplit(s[1..], sep);
      var rest := Split(s[1..], sep);
      if s[0] == sep {
        assert Split(s, sep) == [[]] + rest;
        assert s == [sep] + s[1..];
      } else if |rest| == 1 {
        assert s == [s[0]] + s[1..];
      } else {
        assert Join(rest, sep) == rest[0] + [sep] + Join(rest[1..], sep);
        assert Split(s, sep)[1..] == rest[1..];
        assert s == [s[0]] + s[1..];
      }
    }
  }

  lemma {:induction false} SplitWithoutSep(a: string, sep: char)
    requires sep !in a
    ensures Split(a, sep) == [a]
    decreases |a|
  {
    if a != [] {
      SplitWithoutSep(a[1..], sep);
      assert a == [a[0]] + a[1..];
    }
  }

  lemma {:induction false} SplitAtSep(a: string, b: string, sep: char)
    requires sep !in a
    ensures Split(a + [sep] + b, sep) == [a] + Split(b, sep)
    decreases |a|
  {
    var s := a + [sep] + b;
    if a == [] {
      assert s[0] == sep && s[1..] == b;
    } else {
      assert s[0] == a[0] && s[1..] == a[1..] + [sep] + b;
      SplitAtSep(a[1..], b, sep);
      assert a == [a[0]] + a[1..];
    }
  }

  /** Splitting a join of separator-free pieces gives the pieces back. */
  lemma {:induction false} SplitJoin(ws: seq<string>, sep: char)
    requires |ws| >= 1
    requires forall i :: 0 <= i < |ws| ==> sep !in ws[i]
    ensures Split(Join(ws, sep), sep) == ws
  {
    if |ws| == 1 {
      SplitWithoutSep(ws[0], sep);
    } else {
      SplitJoin(ws[1..], sep);
      SplitAtSep(ws[0], Join(ws[1..], sep), sep);
      assert ws == [ws[0]] + ws[1..];
    }
  }

  lemma StartsWithContains(s: string, sub: string)
    requires StartsWith(s, sub)
    ensures Contains(s, sub)
  {
  }

  /** A prefix of a substring is a substring. */
  lemma {:induction false} ContainsPrefix(s: string, w: string, k: string)
    requires Contains(s, w) && StartsWith(w, k)
    ensures Contains(s, k)
    decreases |s|
  {
    if StartsWith(s, w) {
      assert s[..|k|] == w[..|k|];
    } else {
      ContainsPrefix(s[1..], w, k);
    }
  }

  /** Each piece of a split occurs in the split string. */
  lemma {:induction false} SplitPiecesOccur(s: string, sep: char, i: nat)
    requires i < |Split(s, sep)|
    ensures Contains(s, Split(s, sep)[i])
    decreases |s|
  {
    if s != [] {
      var rest := Split(s[1..], sep);
      if s[0] == sep {
        if i > 0 {
          SplitPiecesOccur(s[1..], sep, i - 1);
        }
      } else if i == 0 {
        JoinSplit(s[1..], sep);
        if |rest| == 1 {
          assert [s[0]] + rest[0] == s;
        } else {
          assert Join(rest, sep) == rest[0] + ([sep] + Join(rest[1..], sep));
          assert s[1..][..|rest[0]|] == rest[0];
          assert s[..1 + |rest[0]|] == [s[0]] + rest[0];
        }
      } else {
        SplitPiecesOccur(s[1..], sep, i);
      }
    }
  }
}
