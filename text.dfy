/** The JavaScript string and array built-ins the front end relies on
    (`split`, `join`, `toUpperCase`, `toLowerCase`, `slice`), over
    `string`, whose characters stand for UTF-16 code units. */
module Text {

  /** `s.split(sep)` for a non-empty separator string: the pieces between
      the non-overlapping occurrences of `sep` found from left to right,
      empty pieces included; `"".split(sep)` is `[""]`. */
  function Split(s: string, sep: string): (pieces: seq<string>)
    requires sep != []
    ensures |pieces| >= 1
    decreases |s|
  {
    if s == [] then [[]]
    else if sep <= s then [[]] + Split(s[|sep|..], sep)
    else
      var rest := Split(s[1..], sep);
      [[s[0]] + rest[0]] + rest[1..]
  }

  /** `parts.join(sep)` */
  function Join(parts: seq<string>, sep: string): string
  {
    if |parts| == 0 then []
    else if |parts| == 1 then parts[0]
    else parts[0] + sep + Join(parts[1..], sep)
  }

  /** `p` is `s` cut just before the first occurrence of `c`: the first
      piece of `s.split(c)`. */
  predicate CutAtFirst(s: string, c: char, p: string)
  {
    p <= s && c !in p && (|p| == |s| || s[|p|] == c)
  }

  /** Prefixing a character to the first part prefixes it to the join. */
  lemma JoinPrefixFirst(c: char, parts: seq<string>, sep: string)
    requires |parts| >= 1
    ensures Join([[c] + parts[0]] + parts[1..], sep) == [c] + Join(parts, sep)
  {
    var joined := [[c] + parts[0]] + parts[1..];
    assert joined[0] == [c] + parts[0];
    if |parts| > 1 {
      assert joined[1..] == parts[1..];
      assert Join(joined, sep) == ([c] + parts[0]) + sep + Join(parts[1..], sep);
      assert Join(parts, sep) == parts[0] + sep + Join(parts[1..], sep);
    }
  }

  /** An empty first part puts the separator in front of the rest's join. */
  lemma JoinEmptyFirst(rest: seq<string>, sep: string)
    requires |rest| >= 1
    ensures Join([[]] + rest, sep) == sep + Join(rest, sep)
  {
    assert ([[]] + rest)[1..] == rest;
  }

  /** Joining the pieces of a split gives back the text that was split. */
  lemma {:induction false} SplitThenJoin(s: string, sep: string)
    requires sep != []
    ensures Join(Split(s, sep), sep) == s
    decreases |s|
  {
    if s == [] {
    } else if sep <= s {
      var rest := Split(s[|sep|..], sep);
      assert Split(s, sep) == [[]] + rest;
      SplitThenJoin(s[|sep|..], sep);
      JoinEmptyFirst(rest, sep);
      assert s == sep + s[|sep|..];
    } else {
      var rest := Split(s[1..], sep);
      assert Split(s, sep) == [[s[0]] + rest[0]] + rest[1..];
      SplitThenJoin(s[1..], sep);
      JoinPrefixFirst(s[0], rest, sep);
      assert s == [s[0]] + s[1..];
    }
  }

  /** Text without the separator's first character is not split at all. */
  lemma {:induction false} SplitWithout(w: string, sep: string)
    requires sep != [] && sep[0] !in w
    ensures Split(w, sep) == [w]
    decreases |w|
  {
    if w != [] {
      assert w[0] != sep[0];
      SplitWithout(w[1..], sep);
      assert w == [w[0]] + w[1..];
    }
  }

  /** A separator after a piece free of its first character ends that piece. */
  lemma {:induction false} SplitAfter(w: string, sep: string, t: string)
    requires sep != [] && sep[0] !in w
    ensures Split(w + sep + t, sep) == [w] + Split(t, sep)
    decreases |w|
  {
    var s := w + sep + t;
    if w == [] {
      assert s == sep + t;
      assert s[|sep|..] == t;
    } else {
      assert s[0] == w[0] && w[0] != sep[0];
      assert s[1..] == w[1..] + sep + t;
      SplitAfter(w[1..], sep, t);
      assert w == [w[0]] + w[1..];
    }
  }

  /** Splitting the join of pieces free of the separator's first character
      gives back those pieces. */
  lemma {:induction false} JoinThenSplit(parts: seq<string>, sep: string)
    requires sep != [] && |parts| >= 1
    requires forall i :: 0 <= i < |parts| ==> sep[0] !in parts[i]
    ensures Split(Join(parts, sep), sep) == parts
    decreases |parts|
  {
    if |parts| == 1 {
      SplitWithout(parts[0], sep);
    } else {
      JoinThenSplit(parts[1..], sep);
      SplitAfter(parts[0], sep, Join(parts[1..], sep));
      assert parts == [parts[0]] + parts[1..];
    }
  }

  /** No piece of a split on one character contains that character. */
  lemma {:induction false} SplitPiecesAvoid(s: string, c: char)
    ensures forall i :: 0 <= i < |Split(s, [c])| ==> c !in Split(s, [c])[i]
    decreases |s|
  {
    if s != [] {
      SplitPiecesAvoid(s[1..], c);
      if [c] <= s {
        assert s[|[c]|..] == s[1..];
      }
    }
  }

  /** The first piece of a split on one character is the text cut at the
      first occurrence of that character. */
  lemma {:induction false} FirstPiece(s: string, c: char)
    ensures CutAtFirst(s, c, Split(s, [c])[0])
    decreases |s|
  {
    if s != [] && !([c] <= s) {
      FirstPiece(s[1..], c);
      assert s == [s[0]] + s[1..];
    }
  }

  /** ASCII part of `String.prototype.toUpperCase` on one character. */
  function UpperChar(c: char): char
  {
    if 'a' <= c <= 'z' then (c as int - 32) as char else c
  }

  /** ASCII part of `String.prototype.toLowerCase` on one character. */
  function LowerChar(c: char): char
  {
    if 'A' <= c <= 'Z' then (c as int + 32) as char else c
  }

  /** `s.toUpperCase()`, ASCII letters only. */
  function Upper(s: string): string
  {
    seq(|s|, i requires 0 <= i < |s| => UpperChar(s[i]))
  }

  /** `s.toLowerCase()`, ASCII letters only. */
  function Lower(s: string): string
  {
    seq(|s|, i requires 0 <= i < |s| => LowerChar(s[i]))
  }

  /** `s.slice(0, n)` for a non-negative `n`. */
  function Prefix(s: string, n: nat): string
  {
    if n <= |s| then s[..n] else s
  }

  /** `s` with its leading spaces removed. */
  function TrimStart(s: string): string
    decreases |s|
  {
    if s != [] && s[0] == ' ' then TrimStart(s[1..]) else s
  }

  /** A decimal digit string. */
  predicate AllDigits(s: string)
  {
    forall i :: 0 <= i < |s| ==> '0' <= s[i] <= '9'
  }

  /** The decimal rendering of `n`, as a template literal `${n}` gives it. */
  function Decimal(n: nat): (s: string)
    ensures s != [] && AllDigits(s)
    decreases n
  {
    if n < 10 then [('0' as int + n) as char]
    else Decimal(n / 10) + [('0' as int + n % 10) as char]
  }
}
