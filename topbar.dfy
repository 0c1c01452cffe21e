/** The avatar initials of frontend/components/dashboard/topbar.tsx:
    `user?.name?.split(' ').map(n => n[0]).join('').toUpperCase().slice(0, 2) ?? 'U'`. */
module Topbar {
  import opened Wrappers
  import opened Text

  /** `words.map(n => n[0]).join('')`: an empty word's `n[0]` is
      `undefined`, which `join` renders as nothing. */
  function FirstChars(words: seq<string>): string
    decreases |words|
  {
    if words == [] then []
    else (if words[0] == [] then [] else [words[0][0]]) + FirstChars(words[1..])
  }

  /** The initials for the signed-in user's name, or `U` when there is no
      user. */
  function Initials(name: Option<string>): (r: string)
    ensures |r| <= 2
    ensures name.None? ==> r == "U"
  {
    match name
    case None => "U"
    case Some(n) => Prefix(Upper(FirstChars(Split(n, " "))), 2)
  }

  /** The characters that begin a word: each non-space character that
      comes first or right after a space. `atStart` says whether the
      previous character was a space (or there was none). */
  function WordStarts(s: string, atStart: bool): string
    decreases |s|
  {
    if s == [] then []
    else if s[0] == ' ' then WordStarts(s[1..], true)
    else (if atStart then [s[0]] else []) + WordStarts(s[1..], false)
  }

  /** The first characters of the space-separated words after the first
      one are the word starts that follow the first character. */
  lemma {:induction false} LaterWordStarts(s: string)
    ensures FirstChars(Split(s, " ")[1..]) == WordStarts(s, false)
    decreases |s|
  {
    if s == [] {
    } else if s[0] == ' ' {
      assert " " <= s;
      assert Split(s, " ")[1..] == Split(s[1..], " ");
      SplitWordStarts(s[1..]);
    } else {
      assert !(" " <= s);
      var rest := Split(s[1..], " ");
      assert Split(s, " ")[1..] == rest[1..];
      LaterWordStarts(s[1..]);
    }
  }

  /** Mapping the words to their first characters yields exactly the word
      starts: empty words from repeated spaces contribute nothing. */
  lemma {:induction false} SplitWordStarts(s: string)
    ensures FirstChars(Split(s, " ")) == WordStarts(s, true)
    decreases |s|, 1
  {
    if s == [] {
      assert Split(s, " ") == [[]];
      assert FirstChars([[]]) == FirstChars([[]][1..]);
    } else if s[0] == ' ' {
      assert " " <= s;
      var words := Split(s, " ");
      assert words == [[]] + Split(s[1..], " ");
      assert words[1..] == Split(s[1..], " ");
      SplitWordStarts(s[1..]);
    } else {
      assert !(" " <= s);
      var rest := Split(s[1..], " ");
      var words := Split(s, " ");
      assert words == [[s[0]] + rest[0]] + rest[1..];
      assert words[1..] == rest[1..];
      LaterWordStarts(s[1..]);
    }
  }

  /** The initials are the first two word starts, upper-cased. */
  lemma InitialsAreWordStarts(n: string)
    ensures Initials(Some(n)) == Prefix(Upper(WordStarts(n, true)), 2)
  {
    SplitWordStarts(n);
  }

  /** An empty name gives empty initials: the `U` fallback only catches a
      missing user. */
  lemma EmptyNameNoInitials()
    ensures Initials(Some("")) == ""
    ensures Initials(None) == "U"
  {
    InitialsAreWordStarts("");
  }

  /** A name without spaces gives its first character, upper-cased. */
  lemma OneWordOneInitial(n: string)
    requires n != [] && ' ' !in n
    ensures Initials(Some(n)) == [UpperChar(n[0])]
  {
    InitialsAreWordStarts(n);
    NoLaterStarts(n[1..]);
  }

  /** Past the first character, a word without spaces starts nothing. */
  lemma {:induction false} NoLaterStarts(s: string)
    requires ' ' !in s
    ensures WordStarts(s, false) == []
    decreases |s|
  {
    if s != [] {
      NoLaterStarts(s[1..]);
    }
  }

  /** A word without spaces contributes its first character when it
      starts a word, and nothing more. */
  lemma {:induction false} WordThen(w: string, rest: string, atStart: bool)
    requires w != [] && ' ' !in w
    ensures WordStarts(w + rest, atStart) == (if atStart then [w[0]] else []) + WordStarts(rest, false)
    decreases |w|
  {
    assert (w + rest)[0] == w[0];
    assert (w + rest)[1..] == w[1..] + rest;
    if |w| > 1 {
      WordThen(w[1..], rest, false);
    } else {
      assert w[1..] + rest == rest;
    }
  }

  /** A run of spaces contributes nothing and leaves the next character at
      the start of a word. */
  lemma {:induction false} SpacesThen(gap: string, rest: string, atStart: bool)
    requires gap != [] && forall i :: 0 <= i < |gap| ==> gap[i] == ' '
    ensures WordStarts(gap + rest, atStart) == WordStarts(rest, true)
    decreases |gap|
  {
    assert (gap + rest)[0] == ' ';
    assert (gap + rest)[1..] == gap[1..] + rest;
    if |gap| > 1 {
      SpacesThen(gap[1..], rest, true);
    } else {
      assert gap[1..] + rest == rest;
    }
  }

  /** Two words separated by spaces give both their first characters,
      upper-cased. */
  lemma TwoWords(first: string, gap: string, second: string)
    requires first != [] && ' ' !in first && second != [] && ' ' !in second
    requires gap != [] && forall i :: 0 <= i < |gap| ==> gap[i] == ' '
    ensures Initials(Some(first + gap + second)) == [UpperChar(first[0]), UpperChar(second[0])]
  {
    InitialsAreWordStarts(first + gap + second);
    WordThen(first, gap + second, true);
    assert first + gap + second == first + (gap + second);
    SpacesThen(gap, second, false);
    assert second == second + [];
    WordThen(second, [], true);
  }
}
