/** The string operations of the Python standard library that both bots rely on:
    `str.strip()`, `str.strip(chars)`, `sep.join(parts)`, `str.split()` and
    `textwrap.shorten`. Strings are sequences of Unicode code points, as in Python. */
module Text {

  /** Python's `str.isspace()`: the code points that `str.strip()` and `str.split()`
      without arguments treat as whitespace. */
  predicate IsSpace(c: char)
  {
    ('\t' <= c <= '\r') || ('\U{1C}' <= c <= ' ') || c == '\U{85}' || c == '\U{A0}' ||
    c == '\U{1680}' || ('\U{2000}' <= c <= '\U{200A}') || c == '\U{2028}' ||
    c == '\U{2029}' || c == '\U{202F}' || c == '\U{205F}' || c == '\U{3000}'
  }

  /** The quote marks of `strip("\"'")`: double and single quote. */
  predicate IsQuote(c: char)
  {
    c == '"' || c == '\''
  }

  /** The character sets the bots strip: `strip()` drops whitespace,
      `strip("\"'")` drops quote marks. */
  datatype StripChars = Whitespace | QuoteMarks
  {
    predicate Has(c: char)
    {
      match this
      case Whitespace => IsSpace(c)
      case QuoteMarks => IsQuote(c)
    }
  }

  /** The placeholder both bots pass to `textwrap.shorten`: HORIZONTAL ELLIPSIS. */
  const Ellipsis: char := '\U{2026}'

  /** How many leading characters of s belong to drop: `s.lstrip(chars)` is what
      follows them. */
  function LeadCount(s: string, drop: StripChars): (n: nat)
    ensures n <= |s|
    ensures forall k :: 0 <= k < n ==> drop.Has(s[k])
    ensures n == |s| || !drop.Has(s[n])
  {
    if s != [] && drop.Has(s[0]) then 1 + LeadCount(s[1..], drop) else 0
  }

  /** How many trailing characters of s belong to drop: `s.rstrip(chars)` is what
      precedes them. */
  function TrailCount(s: string, drop: StripChars): (n: nat)
    ensures n <= |s|
    ensures forall k :: |s| - n <= k < |s| ==> drop.Has(s[k])
    ensures n == |s| || !drop.Has(s[|s| - 1 - n])
  {
    if s != [] && drop.Has(s[|s| - 1]) then 1 + TrailCount(s[..|s| - 1], drop) else 0
  }

  /** r is s[i..j], and everything of s before i and from j on belongs to drop. */
  ghost predicate StrippedAt(r: string, s: string, drop: StripChars, i: int, j: int)
  {
    0 <= i <= j <= |s| && r == s[i..j] &&
    (forall k :: 0 <= k < i ==> drop.Has(s[k])) && (forall k :: j <= k < |s| ==> drop.Has(s[k]))
  }

  /** r is s with a prefix and a suffix removed that consist only of characters that belong to drop,
      and r itself neither starts nor ends with a character that belongs to drop. This is what
      Python documents for `s.strip(chars)`, stated without saying how it is computed. */
  ghost predicate IsStripOf(r: string, s: string, drop: StripChars)
  {
    (r == [] || (!drop.Has(r[0]) && !drop.Has(r[|r| - 1]))) && exists i, j :: StrippedAt(r, s, drop, i, j)
  }

  /** `s.strip(chars)`: leading characters that belong to drop are dropped first, then
      trailing ones. StripMeetsSpec and StripIsUnique show that this is exactly
      the string IsStripOf describes. */
  function Strip(s: string, drop: StripChars): string
  {
    var t := s[LeadCount(s, drop)..];
    t[..|t| - TrailCount(t, drop)]
  }

  lemma StripMeetsSpec(s: string, drop: StripChars)
    ensures IsStripOf(Strip(s, drop), s, drop)
  {
    var i := LeadCount(s, drop);
    var t := s[i..];
    var j := i + |t| - TrailCount(t, drop);
    var r := Strip(s, drop);
    assert r == s[i..j];
    forall k | j <= k < |s| ensures drop.Has(s[k]) {
      assert s[k] == t[k - i];
    }
    if r != [] {
      assert r[0] == s[i] && r[|r| - 1] == t[|t| - 1 - TrailCount(t, drop)];
    }
    assert StrippedAt(r, s, drop, i, j);
  }

  /** At most one string is the strip of s, so IsStripOf pins Strip down: whatever
      satisfies the description is exactly what Strip computes. */
  lemma StripIsUnique(r: string, s: string, drop: StripChars)
    requires IsStripOf(r, s, drop)
    ensures r == Strip(s, drop)
  {
  }

  /** `sep.join(xs)`. */
  function Join(xs: seq<string>, sep: string): string
  {
    if |xs| == 0 then "" else if |xs| == 1 then xs[0] else xs[0] + sep + Join(xs[1..], sep)
  }

  /** Joining the first k parts gives a prefix of joining all of them. */
  lemma {:induction false} JoinPrefix(xs: seq<string>, sep: string, k: nat)
    requires k <= |xs|
    ensures Join(xs[..k], sep) <= Join(xs, sep)
  {
    if k == 0 {
      assert xs[..k] == [];
    } else if k == 1 {
      assert xs[..k] == [xs[0]];
    } else {
      JoinPrefix(xs[1..], sep, k - 1);
      assert xs[..k][1..] == xs[1..][..k - 1];
    }
  }

  /** The longest prefix of s without whitespace. */
  function Token(s: string): (w: string)
    ensures |w| <= |s| && w == s[..|w|]
    ensures forall k :: 0 <= k < |w| ==> !IsSpace(w[k])
    ensures |w| == |s| || IsSpace(s[|w|])
  {
    if s == [] || IsSpace(s[0]) then [] else [s[0]] + Token(s[1..])
  }

  /** A word as `str.split()` yields it: non-empty and free of whitespace. */
  predicate IsWord(w: string)
  {
    w != [] && forall k :: 0 <= k < |w| ==> !IsSpace(w[k])
  }

  /** `s.split()`: the maximal runs of non-whitespace characters, in order. */
  function Words(s: string): (ws: seq<string>)
    ensures forall w :: w in ws ==> IsWord(w)
    decreases |s|
  {
    var t := s[LeadCount(s, Whitespace)..];
    if t == [] then []
    else
      var w := Token(t);
      assert w[0] == t[0];
      [w] + Words(t[|w|..])
  }

  /** The token at the front of w + rest is w itself when w is a word and rest is
      empty or starts with whitespace. */
  lemma {:induction false} TokenOfWord(w: string, rest: string)
    requires IsWord(w) && (rest == [] || IsSpace(rest[0]))
    ensures Token(w + rest) == w
    decreases |w|
  {
    if |w| == 1 {
      assert (w + rest)[1..] == rest;
    } else {
      assert (w + rest)[1..] == w[1..] + rest;
      TokenOfWord(w[1..], rest);
    }
  }

  /** Joining words by single spaces starts with the first word's first letter. */
  lemma JoinStartsWithFirstWord(ws: seq<string>)
    requires ws != [] && IsWord(ws[0])
    ensures Join(ws, " ") != [] && Join(ws, " ")[0] == ws[0][0]
  {
  }

  /** Splitting a word followed by whitespace (or nothing) yields the word first. */
  lemma WordsOfWordThenRest(w: string, rest: string)
    requires IsWord(w) && (rest == [] || IsSpace(rest[0]))
    ensures Words(w + rest) == [w] + Words(rest)
  {
    var s := w + rest;
    assert s[0] == w[0];
    assert LeadCount(s, Whitespace) == 0;
    assert s[0..] == s;
    TokenOfWord(w, rest);
    assert s[|w|..] == rest;
  }

  /** One space in front of a string that does not start with whitespace changes
      nothing about how it splits. */
  lemma WordsAfterOneSpace(t: string)
    requires t == [] || !IsSpace(t[0])
    ensures Words([' '] + t) == Words(t)
  {
  }

  /** Splitting a word, one space and a text that starts with a word yields the
      word followed by the splitting of that text. */
  lemma WordsOfWordSpaceRest(w: string, tail: string)
    requires IsWord(w) && tail != [] && !IsSpace(tail[0])
    ensures Words(w + ([' '] + tail)) == [w] + Words(tail)
  {
    WordsOfWordThenRest(w, [' '] + tail);
    WordsAfterOneSpace(tail);
  }

  /** A join of two or more words by single spaces is the first word, a space and
      the join of the rest. */
  lemma JoinOfTwoOrMore(ws: seq<string>)
    requires |ws| >= 2
    ensures Join(ws, " ") == ws[0] + ([' '] + Join(ws[1..], " "))
  {
  }

  /** The inductive step of SplitJoinedWords: splitting undoes the join of the
      whole list when it undoes the join of the list without its first word. */
  lemma SplitJoinedWordsStep(ws: seq<string>)
    requires |ws| >= 2 && IsWord(ws[0]) && IsWord(ws[1])
    requires Words(Join(ws[1..], " ")) == ws[1..]
    ensures Words(Join(ws, " ")) == ws
  {
    var rest := ws[1..];
    JoinStartsWithFirstWord(rest);
    JoinOfTwoOrMore(ws);
    WordsOfWordSpaceRest(ws[0], Join(rest, " "));
    assert [ws[0]] + rest == ws;
  }

  /** `str.split()` undoes `" ".join(...)` on a list of words. */
  lemma {:induction false} SplitJoinedWords(ws: seq<string>)
    requires forall w :: w in ws ==> IsWord(w)
    ensures Words(Join(ws, " ")) == ws
    decreases |ws|
  {
    if ws == [] {
      assert Words("") == [];
    } else if |ws| == 1 {
      assert ws[0] in ws;
      WordsOfWordThenRest(ws[0], "");
      assert ws[0] + "" == ws[0];
      assert Words("") == [];
    } else {
      assert forall w :: w in ws[1..] ==> w in ws;
      SplitJoinedWords(ws[1..]);
      assert ws[0] in ws && ws[1] in ws;
      SplitJoinedWordsStep(ws);
    }
  }

  /** `" ".join(text.strip().split())`: the text with every run of whitespace
      replaced by one space and none at either end. */
  function Collapse(text: string): string
  {
    Join(Words(Strip(text, Whitespace)), " ")
  }

  /** Where a left-to-right scan of a text stands: no word seen yet, inside a
      word, or in whitespace after a word. */
  datatype ScanMode = BeforeFirstWord | InWord | AfterWord

  /** The mode after a whitespace character. */
  function AfterSpace(m: ScanMode): ScanMode
  {
    if m == BeforeFirstWord then BeforeFirstWord else AfterWord
  }

  /** A reference for collapsing whitespace, one character at a time: every
      non-whitespace character is kept, a run of whitespace between two of them
      becomes one space, and whitespace before the first or after the last
      disappears. */
  ghost function Squeeze(s: string, m: ScanMode): string
    decreases |s|
  {
    if s == [] then []
    else if IsSpace(s[0]) then Squeeze(s[1..], AfterSpace(m))
    else (if m == AfterWord then [' ', s[0]] else [s[0]]) + Squeeze(s[1..], InWord)
  }

  /** A run of leading whitespace only changes the scan's mode. */
  lemma {:induction false} SqueezeLeadingSpaces(s: string, m: ScanMode, n: nat)
    requires n <= |s| && forall k :: 0 <= k < n ==> IsSpace(s[k])
    ensures Squeeze(s, m) == Squeeze(s[n..], if n == 0 then m else AfterSpace(m))
    decreases n
  {
    if n > 0 {
      SqueezeLeadingSpaces(s[1..], AfterSpace(m), n - 1);
      assert s[1..][n - 1..] == s[n..];
    }
  }

  /** Trailing whitespace adds nothing. */
  lemma {:induction false} SqueezeTrailingSpaces(s: string, m: ScanMode, n: nat)
    requires n <= |s| && forall k :: |s| - n <= k < |s| ==> IsSpace(s[k])
    ensures Squeeze(s, m) == Squeeze(s[..|s| - n], m)
    decreases |s|
  {
    if |s| == n {
      SqueezeLeadingSpaces(s, m, n);
      assert s[..0] == [];
    } else {
      SqueezeTrailingSpaces(s[1..], if IsSpace(s[0]) then AfterSpace(m) else InWord, n);
      assert s[1..][..|s| - 1 - n] == s[..|s| - n][1..];
    }
  }

  /** Inside a word, characters without whitespace are copied as they are. */
  lemma {:induction false} SqueezeInsideWord(w: string, rest: string)
    requires forall k :: 0 <= k < |w| ==> !IsSpace(w[k])
    ensures Squeeze(w + rest, InWord) == w + Squeeze(rest, InWord)
    decreases |w|
  {
    if w == [] {
      assert w + rest == rest;
    } else {
      assert (w + rest)[0] == w[0];
      assert (w + rest)[1..] == w[1..] + rest;
      SqueezeInsideWord(w[1..], rest);
      assert [w[0]] + (w[1..] + Squeeze(rest, InWord)) == w + Squeeze(rest, InWord);
    }
  }

  /** A word is copied, after one space when a word came before it. */
  lemma SqueezeWord(w: string, rest: string, m: ScanMode)
    requires IsWord(w)
    ensures m != AfterWord ==> Squeeze(w + rest, m) == w + Squeeze(rest, InWord)
    ensures m == AfterWord ==> Squeeze(w + rest, m) == [' '] + (w + Squeeze(rest, InWord))
  {
    assert (w + rest)[0] == w[0];
    assert (w + rest)[1..] == w[1..] + rest;
    SqueezeInsideWord(w[1..], rest);
    assert [w[0]] + w[1..] == w;
    if m == AfterWord {
      assert Squeeze(w + rest, m) == [' ', w[0]] + (w[1..] + Squeeze(rest, InWord));
    } else {
      assert Squeeze(w + rest, m) == [w[0]] + (w[1..] + Squeeze(rest, InWord));
    }
  }

  /** A join of a word and more words by single spaces. */
  lemma JoinCons(w: string, ws: seq<string>)
    ensures Join([w] + ws, " ") == if ws == [] then w else w + ([' '] + Join(ws, " "))
  {
    assert ([w] + ws)[1..] == ws;
  }

  /** At a word's end, whitespace or the end of the text, being inside the word
      and being after it are the same for the scan. */
  lemma SqueezeAtWordEnd(rest: string)
    requires rest == [] || IsSpace(rest[0])
    ensures Squeeze(rest, InWord) == Squeeze(rest, AfterWord)
  {
  }

  /** The scan over a word followed by nothing or by whitespace, given that the
      rest scans to the words ws. */
  lemma SqueezeWordThenRest(w: string, rest: string, ws: seq<string>)
    requires IsWord(w) && (rest == [] || IsSpace(rest[0]))
    requires Squeeze(rest, AfterWord) == if ws == [] then [] else [' '] + Join(ws, " ")
    ensures Squeeze(w + rest, BeforeFirstWord) == Join([w] + ws, " ")
    ensures Squeeze(w + rest, AfterWord) == [' '] + Join([w] + ws, " ")
  {
    SqueezeWord(w, rest, BeforeFirstWord);
    SqueezeWord(w, rest, AfterWord);
    SqueezeAtWordEnd(rest);
    JoinCons(w, ws);
    var r := Squeeze(rest, AfterWord);
    assert w + r == Join([w] + ws, " ") by {
      if ws == [] {
        assert w + [] == w;
      }
    }
  }

  /** The scan yields the words of `str.split()` joined by single spaces, with one
      more space in front when a word came before. */
  lemma {:induction false} SqueezeIsJoinedWords(s: string)
    ensures Squeeze(s, BeforeFirstWord) == Join(Words(s), " ")
    ensures Squeeze(s, AfterWord) == if Words(s) == [] then [] else [' '] + Join(Words(s), " ")
    decreases |s|
  {
    var n := LeadCount(s, Whitespace);
    var t := s[n..];
    SqueezeLeadingSpaces(s, BeforeFirstWord, n);
    SqueezeLeadingSpaces(s, AfterWord, n);
    if t == [] {
      assert Words(s) == [];
    } else {
      var w := Token(t);
      var rest := t[|w|..];
      assert Words(s) == [w] + Words(rest) && IsWord(w) by {
        assert w[0] == t[0];
      }
      assert t == w + rest;
      SqueezeIsJoinedWords(rest);
      SqueezeWordThenRest(w, rest, Words(rest));
    }
  }

  /** `" ".join(text.strip().split())` agrees with the character-by-character
      reference: each whitespace run between words becomes exactly one space. */
  lemma CollapseIsSqueeze(text: string)
    ensures Collapse(text) == Squeeze(text, BeforeFirstWord)
  {
    var n := LeadCount(text, Whitespace);
    var t := text[n..];
    var m := TrailCount(t, Whitespace);
    var stripped := t[..|t| - m];
    assert stripped == Strip(text, Whitespace);
    assert Squeeze(text, BeforeFirstWord) == Squeeze(t, BeforeFirstWord) by {
      SqueezeLeadingSpaces(text, BeforeFirstWord, n);
    }
    assert Squeeze(t, BeforeFirstWord) == Squeeze(stripped, BeforeFirstWord) by {
      SqueezeTrailingSpaces(t, BeforeFirstWord, m);
    }
    SqueezeIsJoinedWords(stripped);
  }


  /** The largest count k <= limit such that the first k words, joined by single
      spaces, take at most budget characters (largest: FitCountIsLargest). */
  function FitCount(ws: seq<string>, limit: nat, budget: nat): (k: nat)
    requires limit <= |ws|
    ensures k <= limit && |Join(ws[..k], " ")| <= budget
    decreases limit
  {
    if limit == 0 then
      assert ws[..0] == [];
      0
    else if |Join(ws[..limit], " ")| <= budget then limit
    else FitCount(ws, limit - 1, budget)
  }

  /** No longer prefix of at most limit words fits the budget. */
  lemma {:induction false} FitCountIsLargest(ws: seq<string>, limit: nat, budget: nat, j: nat)
    requires limit <= |ws| && FitCount(ws, limit, budget) < j <= limit
    ensures |Join(ws[..j], " ")| > budget
    decreases limit
  {
    if j < limit && |Join(ws[..limit], " ")| > budget {
      FitCountIsLargest(ws, limit - 1, budget, j);
    }
  }

  /** `textwrap.shorten(text, width=width, placeholder="…")`. The whitespace is
      collapsed; a result that fits is returned whole; otherwise as many leading
      words as leave room for the placeholder are kept and the placeholder is
      appended, or the placeholder stands alone when not even one word fits. */
  function Shorten(text: string, width: nat): (r: string)
    requires width >= 1
    ensures |r| <= width
  {
    var ws := Words(Strip(text, Whitespace));
    var line := Join(ws, " ");
    if |line| <= width then line
    else
      var k := FitCount(ws, |ws|, width - 1);
      JoinPrefix(ws, " ", k);
      var kept := if k == 0 then "" else Join(ws[..k], " ");
      assert kept + [Ellipsis] == (kept + [Ellipsis])[..|kept|] + [Ellipsis];
      kept + [Ellipsis]
  }

  /** When the joined words do not fit in width, the words kept for a placeholder
      are fewer than all of them, the next one would not leave room for the
      placeholder, and their join is a prefix of the joined words. */
  lemma FitCountStopsShort(ws: seq<string>, width: nat)
    requires width >= 1 && |Join(ws, " ")| > width
    ensures var k := FitCount(ws, |ws|, width - 1);
      k < |ws| && |Join(ws[..k + 1], " ")| >= width && Join(ws[..k], " ") <= Join(ws, " ")
  {
    var k := FitCount(ws, |ws|, width - 1);
    JoinPrefix(ws, " ", k);
    assert ws[..|ws|] == ws;
    FitCountIsLargest(ws, |ws|, width - 1, k + 1);
  }

  /** r is the first k words of text joined by single spaces and followed by the
      placeholder, where k is as large as the width allows: with one more word
      the placeholder would no longer fit. */
  ghost predicate KeepsLeadingWords(r: string, text: string, width: nat)
  {
    var ws := Words(Strip(text, Whitespace));
    r != [] && r[|r| - 1] == Ellipsis &&
    exists k :: 0 <= k < |ws| && r[..|r| - 1] == Join(ws[..k], " ") && |Join(ws[..k + 1], " ")| >= width
  }

  /** What `textwrap.shorten` keeps: the whitespace-collapsed text when it fits in
      width, otherwise as many of its leading words as leave room for the
      placeholder, then the placeholder; what precedes the placeholder is a prefix
      of the collapsed text. */
  lemma ShortenKeepsText(text: string, width: nat)
    requires width >= 1
    ensures |Collapse(text)| <= width ==> Shorten(text, width) == Collapse(text)
    ensures |Collapse(text)| > width ==>
      var r := Shorten(text, width);
      KeepsLeadingWords(r, text, width) && r[..|r| - 1] <= Collapse(text)
  {
    var ws := Words(Strip(text, Whitespace));
    if |Join(ws, " ")| > width {
      var k := FitCount(ws, |ws|, width - 1);
      FitCountStopsShort(ws, width);
      var r := Shorten(text, width);
      assert r[..|r| - 1] == Join(ws[..k], " ");
      assert KeepsLeadingWords(r, text, width);
    }
  }

  /** The post-processing both bots apply to the model's reply:
      `text.strip()` followed by `.strip("\"'")`. The result is a piece of the
      whitespace-stripped reply, what was cut from either side of it is quote
      marks only, and it neither starts nor ends with a quote mark. */
  function CleanReply(text: string): (r: string)
    ensures IsStripOf(r, Strip(text, Whitespace), QuoteMarks)
    ensures r == [] || (!IsQuote(r[0]) && !IsQuote(r[|r| - 1]))
  {
    StripMeetsSpec(Strip(text, Whitespace), QuoteMarks);
    Strip(Strip(text, Whitespace), QuoteMarks)
  }
}
