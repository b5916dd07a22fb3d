/** Splitting free text into the lower-case word tokens that the lexical
    ranking compares: lower-case the text, split it at every run of
    characters outside `[a-z0-9]`, drop the empty pieces and drop the
    stopwords. */
module Tokenizer {
  import opened Prelude

  /** The English stopwords the ranking ignores. */
  const Stopwords: set<string> := {
    "a", "an", "and", "are", "as", "at", "be", "but", "by", "for", "if", "in",
    "into", "is", "it", "no", "not", "of", "on", "or", "such", "that", "the",
    "their", "then", "there", "these", "they", "this", "to", "was", "will",
    "with"
  }

  /** A character of the class `[a-z0-9]`. */
  predicate IsWordChar(c: char)
  {
    'a' <= c <= 'z' || '0' <= c <= '9'
  }

  predicate IsWord(s: string)
  {
    forall c | c in s :: IsWordChar(c)
  }

  /** What the ranking accepts as a token. */
  predicate IsToken(t: string)
  {
    |t| > 0 && IsWord(t) && t !in Stopwords
  }

  /** `toLowerCase` on one character, for the ASCII range. */
  function LowerChar(c: char): char
  {
    if 'A' <= c <= 'Z' then (c as int + 32) as char else c
  }

  function ToLower(s: string): string
  {
    seq(|s|, i requires 0 <= i < |s| => LowerChar(s[i]))
  }

  /** Lower-casing twice is lower-casing once. */
  lemma {:induction false} ToLowerIdempotent(s: string)
    ensures ToLower(ToLower(s)) == ToLower(s)
  {
    forall i | 0 <= i < |s|
      ensures ToLower(ToLower(s))[i] == ToLower(s)[i]
    {
    }
  }

  /** The characters of `s` that belong to `[a-z0-9]`, in order. */
  function WordChars(s: string): string
  {
    if |s| == 0 then ""
    else (if IsWordChar(s[0]) then [s[0]] else "") + WordChars(s[1..])
  }

  function Concat(pieces: seq<string>): string
  {
    if |pieces| == 0 then "" else pieces[0] + Concat(pieces[1..])
  }

  /** `s.split(/[^a-z0-9]+/)`: the runs of word characters between maximal
      runs of other characters. A run of separators at the start or the end
      of `s` yields an empty piece there, as in JavaScript. */
  function SplitWords(s: string): (pieces: seq<string>)
    ensures |pieces| >= 1
    ensures forall i | 0 <= i < |pieces| :: IsWord(pieces[i])
  {
    if |s| == 0 then [""]
    else
      var rest := SplitWords(s[1..]);
      if IsWordChar(s[0]) then [[s[0]] + rest[0]] + rest[1..]
      else if |s| > 1 && !IsWordChar(s[1]) then rest
      else [""] + rest
  }

  /** No word character is lost or invented by the split: the pieces,
      concatenated, are exactly the word characters of the text. */
  lemma {:induction false} SplitWordsKeepsWordChars(s: string)
    ensures Concat(SplitWords(s)) == WordChars(s)
  {
    if |s| > 0 {
      var rest := SplitWords(s[1..]);
      SplitWordsKeepsWordChars(s[1..]);
      assert rest == [rest[0]] + rest[1..];
      if IsWordChar(s[0]) {
        var pieces := SplitWords(s);
        assert pieces[1..] == rest[1..];
        assert Concat(pieces) == [s[0]] + rest[0] + Concat(rest[1..]);
      } else if |s| > 1 && !IsWordChar(s[1]) {
      } else {
        assert ([""] + rest)[1..] == rest;
      }
    }
  }

  /** `w` stands at position `p` of `s` as a maximal run of `[a-z0-9]`:
      the start of `s` or a separator comes before it, and the end of `s`
      or a separator after it. */
  ghost predicate RunAt(s: string, p: int, w: string)
  {
    && 0 <= p && p + |w| <= |s| && s[p..p + |w|] == w && IsWord(w)
    && (p == 0 || !IsWordChar(s[p - 1]))
    && (p + |w| == |s| || !IsWordChar(s[p + |w|]))
  }

  /** Every word of `ws` stands somewhere in `s` after its start as a
      maximal run. */
  ghost predicate LaterRuns(s: string, ws: seq<string>)
  {
    forall w | w in ws :: exists p | 0 < p :: RunAt(s, p, w)
  }

  /** The split breaks only at separators: its first piece is the maximal
      run that starts the text, and every later piece is a maximal run that
      follows a separator. With `SplitWordsKeepsWordChars`, the pieces are
      the word runs of the text, in order. */
  lemma {:induction false} SplitWordsRuns(s: string)
    ensures RunAt(s, 0, SplitWords(s)[0])
    ensures LaterRuns(s, SplitWords(s)[1..])
  {
    if |s| > 0 {
      var t := s[1..];
      var rest := SplitWords(t);
      var pieces := SplitWords(s);
      SplitWordsRuns(t);
      LaterRunsShift(s, rest[1..]);
      if IsWordChar(s[0]) {
        RunExtend(s, rest[0]);
        assert pieces[1..] == rest[1..];
      } else if |s| > 1 && !IsWordChar(s[1]) {
        assert s[0..0] == rest[0];
      } else {
        assert s[0..0] == pieces[0];
        RunShift(s, 0, rest[0]);
        assert pieces[1..] == [rest[0]] + rest[1..];
      }
    }
  }

  /** Later runs of the rest of `s` are later runs of `s`. */
  lemma LaterRunsShift(s: string, ws: seq<string>)
    requires |s| > 0 && LaterRuns(s[1..], ws)
    ensures LaterRuns(s, ws)
  {
    forall w | w in ws ensures exists p | 0 < p :: RunAt(s, p, w) {
      var q :| 0 < q && RunAt(s[1..], q, w);
      RunShift(s, q, w);
    }
  }

  /** A run one place into `s` is a run of `s` one place further on, once
      a separator or an earlier position comes before it. */
  lemma RunShift(s: string, p: int, w: string)
    requires |s| > 0 && RunAt(s[1..], p, w) && (p > 0 || !IsWordChar(s[0]))
    ensures RunAt(s, p + 1, w)
  {
    assert s[p + 1..p + 1 + |w|] == s[1..][p..p + |w|];
    if p > 0 {
      assert s[p] == s[1..][p - 1];
    }
    if p + |w| < |s| - 1 {
      assert s[p + 1 + |w|] == s[1..][p + |w|];
    }
  }

  /** A word character in front of the first run of the rest of `s` makes
      the first run of `s`. */
  lemma RunExtend(s: string, w: string)
    requires |s| > 0 && IsWordChar(s[0]) && RunAt(s[1..], 0, w)
    ensures RunAt(s, 0, [s[0]] + w)
  {
    assert s[0..1 + |w|] == [s[0]] + s[1..][0..|w|];
    if 1 + |w| < |s| {
      assert s[1 + |w|] == s[1..][|w|];
    }
  }

  /** The `#tokenize` pipeline. */
  function Tokenize(text: string): seq<string>
  {
    var pieces := SplitWords(ToLower(text));
    Filter(Filter(pieces, (p: string) => |p| > 0), (p: string) => p !in Stopwords)
  }

  /** A piece of the split text is a token exactly when it is non-empty and
      not a stopword; every token is a non-empty run of `[a-z0-9]` that is
      not a stopword. */
  lemma TokenizeMembers(text: string)
    ensures forall t :: t in Tokenize(text) <==> t in SplitWords(ToLower(text)) && |t| > 0 && t !in Stopwords
    ensures forall t | t in Tokenize(text) :: IsToken(t)
  {
    var pieces := SplitWords(ToLower(text));
    var nonEmpty := Filter(pieces, (p: string) => |p| > 0);
    FilterSpec(pieces, (p: string) => |p| > 0);
    FilterSpec(nonEmpty, (p: string) => p !in Stopwords);
  }

  /** Tokenising ignores case. */
  lemma {:induction false} TokenizeIgnoresCase(text: string)
    ensures Tokenize(ToLower(text)) == Tokenize(text)
  {
    ToLowerIdempotent(text);
  }
}
