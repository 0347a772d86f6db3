/** The Python `str` operations that the text-rewriting code relies on, over
    `seq<char>`: find/rfind, `in`, replace, count, split, join and lower. */
module Strings {

  /** `pat` occurs in `s` starting at index `i`. */
  predicate OccursAt(s: string, pat: string, i: int)
  {
    0 <= i && i + |pat| <= |s| && forall k :: 0 <= k < |pat| ==> s[i + k] == pat[k]
  }

  /** Python's `pat in s`. */
  predicate Contains(s: string, pat: string)
  {
    exists i :: 0 <= i <= |s| && OccursAt(s, pat, i)
  }

  /** Python's `s.startswith(p)`. */
  predicate StartsWith(s: string, p: string)
  {
    |p| <= |s| && s[..|p|] == p
  }

  /** Python's `s.find(pat, start)` for a non-empty pattern: the first
      occurrence at or after `start`, or -1. */
  function Find(s: string, pat: string, start: nat): (r: int)
    requires |pat| > 0
    ensures r == -1 || (start <= r && OccursAt(s, pat, r))
    decreases |s| - start
  {
    if start + |pat| > |s| then -1
    else if OccursAt(s, pat, start) then start
    else Find(s, pat, start + 1)
  }

  /** Find gives the first occurrence, and -1 only when there is none. */
  lemma {:induction false} FindFirst(s: string, pat: string, start: nat)
    requires |pat| > 0
    ensures var r := Find(s, pat, start);
            (r == -1 ==> forall k :: start <= k <= |s| ==> !OccursAt(s, pat, k))
            && (r != -1 ==> forall k :: start <= k < r ==> !OccursAt(s, pat, k))
    decreases |s| - start
  {
    if start + |pat| <= |s| && !OccursAt(s, pat, start) {
      FindFirst(s, pat, start + 1);
    }
  }

  /** Python's `s.find(c, start)` for one character. */
  function FindChar(s: string, c: char, start: nat): (r: int)
    ensures r == -1 || (start <= r < |s| && s[r] == c)
    decreases |s| - start
  {
    if start >= |s| then -1
    else if s[start] == c then start
    else FindChar(s, c, start + 1)
  }

  /** FindChar gives the first occurrence, and -1 only when there is none. */
  lemma {:induction false} FindCharFirst(s: string, c: char, start: nat)
    ensures var r := FindChar(s, c, start);
            (r == -1 ==> forall k :: start <= k < |s| ==> s[k] != c)
            && (r != -1 ==> forall k :: start <= k < r ==> s[k] != c)
    decreases |s| - start
  {
    if start < |s| && s[start] != c {
      FindCharFirst(s, c, start + 1);
    }
  }

  /** Python's `s.rfind(c, 0, end)` for one character: the last occurrence
      before `end`, or -1. */
  function RFindChar(s: string, c: char, end: int): (r: int)
    requires end <= |s|
    ensures r == -1 || (0 <= r < end && s[r] == c)
    decreases end
  {
    if end <= 0 then -1
    else if s[end - 1] == c then end - 1
    else RFindChar(s, c, end - 1)
  }

  /** RFindChar gives the last occurrence, and -1 only when there is none. */
  lemma {:induction false} RFindCharLast(s: string, c: char, end: int)
    requires end <= |s|
    ensures var r := RFindChar(s, c, end);
            (r == -1 ==> forall k :: 0 <= k < end ==> s[k] != c)
            && (r != -1 ==> forall k :: r < k < end ==> s[k] != c)
    decreases end
  {
    if end > 0 && s[end - 1] != c {
      RFindCharLast(s, c, end - 1);
    }
  }

  /** Python's `s.replace(pat, rep)` for a non-empty pattern: every
      non-overlapping occurrence, scanning from the left. */
  function Replace(s: string, pat: string, rep: string): string
    requires |pat| > 0
    decreases |s|
  {
    if |s| < |pat| then s
    else if OccursAt(s, pat, 0) then rep + Replace(s[|pat|..], pat, rep)
    else [s[0]] + Replace(s[1..], pat, rep)
  }

  /** Python's `s.count(pat)` for a non-empty pattern. */
  function CountOf(s: string, pat: string): nat
    requires |pat| > 0
    decreases |s|
  {
    if |s| < |pat| then 0
    else if OccursAt(s, pat, 0) then 1 + CountOf(s[|pat|..], pat)
    else CountOf(s[1..], pat)
  }

  /** A string in which `pat` does not occur is left as it is by Replace. */
  lemma {:induction false} ReplaceAbsent(s: string, pat: string, rep: string)
    requires |pat| > 0
    requires !Contains(s, pat)
    ensures Replace(s, pat, rep) == s
    ensures CountOf(s, pat) == 0
    decreases |s|
  {
    if |s| >= |pat| {
      assert !OccursAt(s, pat, 0);
      assert s == [s[0]] + s[1..];
      if Contains(s[1..], pat) {
        var i :| 0 <= i <= |s[1..]| && OccursAt(s[1..], pat, i);
        assert OccursAt(s, pat, i + 1);
      }
      ReplaceAbsent(s[1..], pat, rep);
    }
  }

  /** Replace on `s[i..]` rewrites the first occurrence, at `k`, and carries
      on after it. */
  lemma {:induction false} ReplaceFirst(s: string, pat: string, rep: string, i: nat, k: nat)
    requires |pat| > 0 && i <= k
    requires OccursAt(s, pat, k)
    requires forall j :: i <= j < k ==> !OccursAt(s, pat, j)
    ensures Replace(s[i..], pat, rep) == s[i..k] + rep + Replace(s[k + |pat|..], pat, rep)
    decreases k - i
  {
    if i == k {
      ReplaceAt(s, pat, rep, k);
      assert s[i..k] == [];
    } else {
      assert !OccursAt(s, pat, i);
      ReplaceSkip(s, pat, rep, i);
      ReplaceFirst(s, pat, rep, i + 1, k);
      ConsSlice(s, i, k, rep + Replace(s[k + |pat|..], pat, rep));
    }
  }

  /** An occurrence at `k` is replaced. */
  lemma ReplaceAt(s: string, pat: string, rep: string, k: nat)
    requires |pat| > 0 && OccursAt(s, pat, k)
    ensures Replace(s[k..], pat, rep) == rep + Replace(s[k + |pat|..], pat, rep)
  {
    assert OccursAt(s[k..], pat, 0);
    assert s[k..][|pat|..] == s[k + |pat|..];
  }

  /** A position where `pat` does not occur, with room for it, is kept. */
  lemma ReplaceSkip(s: string, pat: string, rep: string, i: nat)
    requires |pat| > 0 && i + |pat| <= |s| && !OccursAt(s, pat, i)
    ensures Replace(s[i..], pat, rep) == [s[i]] + Replace(s[i + 1..], pat, rep)
  {
    assert !OccursAt(s[i..], pat, 0);
    assert s[i..][1..] == s[i + 1..];
  }

  lemma ConsSlice(s: string, i: nat, k: nat, rest: string)
    requires i < k <= |s|
    ensures [s[i]] + (s[i + 1..k] + rest) == s[i..k] + rest
  {
    assert [s[i]] + s[i + 1..k] == s[i..k];
  }

  /** Python's `s.replace(c, "")` for one character. */
  function RemoveChar(s: string, c: char): (r: string)
    ensures c !in r
    ensures forall x :: x in r <==> x in s && x != c
  {
    if s == [] then []
    else if s[0] == c then RemoveChar(s[1..], c)
    else [s[0]] + RemoveChar(s[1..], c)
  }

  /** Python's `s.split(sep)` for a one-character separator: always at least
      one piece, empty pieces kept. */
  function SplitOn(s: string, sep: char): (r: seq<string>)
    ensures |r| >= 1
    ensures sep in s ==> |r| >= 2
    ensures sep !in s ==> r == [s]
    ensures forall i :: 0 <= i < |r| ==> sep !in r[i]
  {
    if s == [] then [[]]
    else
      var rest := SplitOn(s[1..], sep);
      assert s == [s[0]] + s[1..];
      if s[0] == sep then [[]] + rest
      else [[s[0]] + rest[0]] + rest[1..]
  }

  /** The text before the first `c`; all of `s` when `c` does not occur. */
  function UpToChar(s: string, c: char): (r: string)
    ensures c !in r
    ensures |r| <= |s| && r == s[..|r|]
    ensures c in s ==> |r| < |s| && s[|r|] == c
    ensures c !in s ==> r == s
  {
    if s == [] || s[0] == c then []
    else
      assert s == [s[0]] + s[1..];
      [s[0]] + UpToChar(s[1..], c)
  }

  /** The first piece of a split is the text before the first separator, and
      the other pieces are the split of what follows that separator. */
  lemma {:induction false} SplitOnHead(s: string, sep: char)
    ensures SplitOn(s, sep)[0] == UpToChar(s, sep)
    ensures sep in s ==> SplitOn(s, sep)[1..] == SplitOn(s[|UpToChar(s, sep)| + 1..], sep)
  {
    if s != [] {
      var tail := s[1..];
      SplitOnHead(tail, sep);
      assert s == [s[0]] + tail;
      if s[0] != sep && sep in s {
        assert sep in tail;
        var n := |UpToChar(tail, sep)|;
        assert |UpToChar(s, sep)| == n + 1;
        assert s[n + 2..] == tail[n + 1..];
      }
    }
  }

  /** Python's `sep.join(words)`. */
  function Join(words: seq<string>, sep: string): string
  {
    if words == [] then []
    else if |words| == 1 then words[0]
    else words[0] + sep + Join(words[1..], sep)
  }

  /** Splitting on a character and joining with it again gives back the text. */
  lemma {:induction false} JoinSplitOn(s: string, sep: char)
    ensures Join(SplitOn(s, sep), [sep]) == s
  {
    if s != [] {
      var rest := SplitOn(s[1..], sep);
      JoinSplitOn(s[1..], sep);
      if s[0] == sep {
        assert SplitOn(s, sep) == [[]] + rest;
        assert ([[]] + rest)[1..] == rest;
      } else {
        JoinHead(s[0], rest, [sep]);
      }
    }
  }

  lemma JoinHead(c: char, words: seq<string>, sep: string)
    requires |words| >= 1
    ensures Join([[c] + words[0]] + words[1..], sep) == [c] + Join(words, sep)
  {
    var w := [[c] + words[0]] + words[1..];
    if |words| > 1 {
      assert w[1..] == words[1..];
    }
  }

  /** The characters Python's argument-less `split()` treats as whitespace
      (those for which `str.isspace` holds): the ASCII tab to carriage return,
      the four separators 1C..1F and space, then NEL, no-break space and the
      Unicode space and line/paragraph separators. */
  predicate IsSpace(c: char)
  {
    ('\U{09}' <= c <= '\U{0D}') || ('\U{1C}' <= c <= '\U{20}')
    || c == '\U{85}' || c == '\U{A0}' || c == '\U{1680}'
    || ('\U{2000}' <= c <= '\U{200A}') || c == '\U{2028}' || c == '\U{2029}'
    || c == '\U{202F}' || c == '\U{205F}' || c == '\U{3000}'
  }

  /** Python's `s.split()`: the maximal runs of non-whitespace characters. */
  function SplitWords(s: string): (r: seq<string>)
    ensures forall i :: 0 <= i < |r| ==> |r[i]| > 0 && forall k :: 0 <= k < |r[i]| ==> !IsSpace(r[i][k])
    decreases |s|
  {
    var t := DropSpaces(s);
    if t == [] then []
    else
      var w := TakeWord(t);
      [w] + SplitWords(t[|w|..])
  }

  function DropSpaces(s: string): (r: string)
    ensures |r| <= |s|
    ensures r == [] || !IsSpace(r[0])
  {
    if s != [] && IsSpace(s[0]) then DropSpaces(s[1..]) else s
  }

  function TakeWord(s: string): (r: string)
    ensures |r| <= |s| && r == s[..|r|]
    ensures forall k :: 0 <= k < |r| ==> !IsSpace(r[k])
    ensures s != [] && !IsSpace(s[0]) ==> |r| > 0
  {
    if s == [] || IsSpace(s[0]) then [] else [s[0]] + TakeWord(s[1..])
  }

  /** Python's `str.lower` on the letters A-Z; every other character is
      kept as it is. */
  function Lower(s: string): (r: string)
    ensures |r| == |s|
    ensures forall i :: 0 <= i < |s| ==> r[i] == LowerChar(s[i])
  {
    if s == [] then [] else [LowerChar(s[0])] + Lower(s[1..])
  }

  function LowerChar(c: char): char
  {
    if 'A' <= c <= 'Z' then (c as int + 32) as char else c
  }
}
