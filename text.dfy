/** The PHP string functions the core relies on: `explode`, `implode` and `trim` with a single character. */
module Text {

  /** Position of the first occurrence of `c` in `s` (`strpos`). */
  function IndexOf(s: string, c: char): (i: nat)
    requires c in s
    ensures i < |s| && s[i] == c && c !in s[..i]
  {
    if s[0] == c then 0 else 1 + IndexOf(s[1..], c)
  }

  /** `explode(sep, s)`: the pieces of `s` between occurrences of `sep`; never empty. */
  function Split(s: string, sep: char): (parts: seq<string>)
    ensures |parts| >= 1
    ensures forall p :: p in parts ==> sep !in p
    ensures sep !in s ==> parts == [s]
    decreases |s|
  {
    if sep !in s then [s]
    else
      var i := IndexOf(s, sep);
      [s[..i]] + Split(s[i + 1..], sep)
  }

  /** `explode(sep, s, 2)`: the text before the first `sep` and, if there is one, the rest after it. */
  function SplitOnce(s: string, sep: char): (parts: seq<string>)
    ensures sep !in s ==> parts == [s]
    ensures sep in s ==> |parts| == 2 && sep !in parts[0] && s == parts[0] + [sep] + parts[1]
  {
    if sep !in s then [s]
    else
      var i := IndexOf(s, sep);
      Around(s, i);
      [s[..i], s[i + 1..]]
  }

  /** `implode(sep, parts)`. */
  function Join(parts: seq<string>, sep: char): string
  {
    if |parts| == 0 then ""
    else if |parts| == 1 then parts[0]
    else parts[0] + [sep] + Join(parts[1..], sep)
  }

  /** Joining a piece in front of at least one other puts the separator between them. */
  lemma JoinCons(head: string, tail: seq<string>, sep: char)
    requires |tail| >= 1
    ensures Join([head] + tail, sep) == head + [sep] + Join(tail, sep)
  {
    assert ([head] + tail)[1..] == tail;
  }

  /** Splitting at the first separator: the piece before it, then the pieces of the rest. */
  lemma SplitAtFirst(s: string, sep: char)
    requires sep in s
    ensures Split(s, sep) == [s[..IndexOf(s, sep)]] + Split(s[IndexOf(s, sep) + 1..], sep)
  {
  }

  /** A string is the text before position `i`, the character there, and the text after it. */
  lemma Around(s: string, i: nat)
    requires i < |s|
    ensures s == s[..i] + [s[i]] + s[i + 1..]
  {
  }

  /** Splitting loses nothing: joining the pieces again gives back the string. */
  lemma {:induction false} JoinSplit(s: string, sep: char)
    ensures Join(Split(s, sep), sep) == s
    decreases |s|
  {
    if sep in s {
      var i := IndexOf(s, sep);
      var head, rest := s[..i], s[i + 1..];
      var tail := Split(rest, sep);
      SplitAtFirst(s, sep);
      Around(s, i);
      JoinCons(head, tail, sep);
      JoinSplit(rest, sep);
    }
  }

  /** Pieces free of the separator are recovered by splitting their join. */
  lemma {:induction false} SplitJoin(parts: seq<string>, sep: char)
    requires |parts| >= 1
    requires forall p :: p in parts ==> sep !in p
    ensures Split(Join(parts, sep), sep) == parts
  {
    if |parts| > 1 {
      var rest := Join(parts[1..], sep);
      var s := parts[0] + [sep] + rest;
      assert s[|parts[0]|] == sep;
      var n := |parts[0]|;
      assert parts[0] in parts;
      assert s[..n] == parts[0];
      var i := IndexOf(s, sep);
      assert i == n;
      assert s[..i] == parts[0];
      assert s[i + 1..] == rest;
      SplitJoin(parts[1..], sep);
    }
  }

  function TrimLeft(s: string, c: char): (t: string)
    ensures |t| <= |s| && t == s[|s| - |t|..]
    ensures forall k :: 0 <= k < |s| - |t| ==> s[k] == c
    ensures |t| > 0 ==> t[0] != c
  {
    if |s| > 0 && s[0] == c then TrimLeft(s[1..], c) else s
  }

  function TrimRight(s: string, c: char): (t: string)
    ensures |t| <= |s| && t == s[..|t|]
    ensures forall k :: |t| <= k < |s| ==> s[k] == c
    ensures |t| > 0 ==> t[|t| - 1] != c
  {
    if |s| > 0 && s[|s| - 1] == c then TrimRight(s[..|s| - 1], c) else s
  }

  /** `t` is the slice of `s` that starts at `i`, and everything of `s` around it is `c`. */
  predicate StrippedAt(s: string, t: string, c: char, i: nat)
  {
    i + |t| <= |s| && t == s[i..i + |t|]
    && (forall k :: 0 <= k < i ==> s[k] == c)
    && (forall k :: i + |t| <= k < |s| ==> s[k] == c)
  }

  /** A suffix `l` of `s` after a run of `c`, cut to a prefix `t` before a run of `c`, is `s` stripped at both ends. */
  lemma StrippedBothEnds(s: string, l: string, t: string, c: char)
    requires |l| <= |s| && l == s[|s| - |l|..]
    requires forall k :: 0 <= k < |s| - |l| ==> s[k] == c
    requires |t| <= |l| && t == l[..|t|]
    requires forall k :: |t| <= k < |l| ==> l[k] == c
    ensures StrippedAt(s, t, c, |s| - |l|)
  {
    var i := |s| - |l|;
    assert s[i..i + |t|] == s[i..][..|t|];
    forall k | i + |t| <= k < |s|
      ensures s[k] == c
    {
      assert s[k] == l[k - i];
    }
  }

  /** `trim(s, c)`: `s` without the run of `c` at its start and the run of `c` at its end. */
  function Trim(s: string, c: char): (t: string)
    ensures |t| > 0 ==> t[0] != c && t[|t| - 1] != c
    ensures exists i :: StrippedAt(s, t, c, i)
  {
    var l := TrimLeft(s, c);
    var t := TrimRight(l, c);
    StrippedBothEnds(s, l, t, c);
    t
  }

  /** Trimming twice is trimming once. */
  lemma TrimIdempotent(s: string, c: char)
    ensures Trim(Trim(s, c), c) == Trim(s, c)
  {
    var t := Trim(s, c);
    assert TrimLeft(t, c) == t;
    assert TrimRight(t, c) == t;
  }
}
