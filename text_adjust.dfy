/** Text rewriting for event snippets (scripts/events_module/text_adjust.py):
    replacing an abbreviation outside `{...}` pronoun tags, inserting a Clan
    name with its article fixed, recognising a "_list" tag and the guards in
    front of pronoun replacement. */
module TextAdjust {
  import opened Common
  import opened Strings

  // ---------------------------------------------------------------------------
  // selective_replace
  // ---------------------------------------------------------------------------

  /** The brace test of selective_replace as written: some "{" before `index`
      and a "}" strictly after it, with the first "}" from `index` on counting. */
  predicate InsideBracesAsWritten(text: string, index: int)
  {
    0 <= index <= |text| &&
    var startBrace := RFindChar(text, '{', index);
    var endBrace := FindChar(text, '}', index);
    startBrace != -1 && endBrace != -1 && startBrace < index < endBrace
  }

  predicate IsBrace(c: char) { c == '{' || c == '}' }

  /** Index of the last brace character before `k`, or -1. */
  function LastBraceBefore(t: string, k: int): (r: int)
    requires k <= |t|
    ensures r == -1 || (0 <= r < k && IsBrace(t[r]))
    decreases k
  {
    if k <= 0 then -1 else if IsBrace(t[k - 1]) then k - 1 else LastBraceBefore(t, k - 1)
  }

  /** No brace lies between LastBraceBefore and `k`. */
  lemma {:induction false} LastBraceBeforeIsLast(t: string, k: int)
    requires k <= |t|
    ensures forall j :: LastBraceBefore(t, k) < j < k && 0 <= j ==> !IsBrace(t[j])
    decreases k
  {
    if k > 0 && !IsBrace(t[k - 1]) {
      LastBraceBeforeIsLast(t, k - 1);
    }
  }

  /** Index of the first brace character at or after `k`, or -1. */
  function FirstBraceFrom(t: string, k: nat): (r: int)
    ensures r == -1 || (k <= r < |t| && IsBrace(t[r]))
    decreases |t| - k
  {
    if k >= |t| then -1 else if IsBrace(t[k]) then k else FirstBraceFrom(t, k + 1)
  }

  /** No brace lies between `k` and FirstBraceFrom, nor after `k` at all when
      it reports -1. */
  lemma {:induction false} FirstBraceFromIsFirst(t: string, k: nat)
    ensures var r := FirstBraceFrom(t, k);
            (r == -1 ==> forall j :: k <= j < |t| ==> !IsBrace(t[j]))
            && (r != -1 ==> forall j :: k <= j < r ==> !IsBrace(t[j]))
    decreases |t| - k
  {
    if k < |t| && !IsBrace(t[k]) {
      FirstBraceFromIsFirst(t, k + 1);
    }
  }

  /** The evidently intended brace test: `index` lies inside a `{...}` group,
      i.e. the nearest brace before it opens and the nearest one after it closes. */
  predicate InsideBraceGroup(text: string, index: int)
  {
    0 <= index <= |text| &&
    var s := LastBraceBefore(text, index);
    var e := FirstBraceFrom(text, index);
    s != -1 && text[s] == '{' && e != -1 && e > index && text[e] == '}'
  }

  /** The intended test means what it says: there is a `{` before and a `}`
      after `index` with no brace character between them. */
  lemma InsideBraceGroupMeaning(t: string, k: int)
    requires 0 <= k <= |t|
    ensures InsideBraceGroup(t, k) <==>
              exists s, e :: 0 <= s < k < e < |t| && t[s] == '{' && t[e] == '}'
                             && forall j :: s < j < e ==> !IsBrace(t[j])
  {
    LastBraceBeforeIsLast(t, k);
    FirstBraceFromIsFirst(t, k);
    if InsideBraceGroup(t, k) {
      var s, e := LastBraceBefore(t, k), FirstBraceFrom(t, k);
      forall j | s < j < e ensures !IsBrace(t[j]) {
        if j >= k {
          assert k <= j < e;
        }
      }
    }
    if exists s, e :: 0 <= s < k < e < |t| && t[s] == '{' && t[e] == '}'
                      && forall j :: s < j < e ==> !IsBrace(t[j]) {
      var s, e :| 0 <= s < k < e < |t| && t[s] == '{' && t[e] == '}'
                  && forall j :: s < j < e ==> !IsBrace(t[j]);
      var s' := LastBraceBefore(t, k);
      var e' := FirstBraceFrom(t, k);
      assert s' == s by {
        assert IsBrace(t[s]);
      }
      assert e' == e by {
        assert e' != -1 && e' <= e;
      }
    }
  }

  /** Everything the intended test skips, the code as written skips too. */
  lemma InsideGroupImpliesAsWritten(t: string, k: int)
    requires InsideBraceGroup(t, k)
    ensures InsideBracesAsWritten(t, k)
  {
    var s, e := LastBraceBefore(t, k), FirstBraceFrom(t, k);
    LastBraceBeforeIsLast(t, k);
    FirstBraceFromIsFirst(t, k);
    var sb := RFindChar(t, '{', k);
    var eb := FindChar(t, '}', k);
    RFindCharLast(t, '{', k);
    FindCharFirst(t, '}', k);
    assert sb >= s;
    assert eb != -1 && eb <= e;
    assert IsBrace(t[eb]) && t[e] == '}';
  }

  /** The brace test in use: as written, or as evidently intended. */
  predicate Inside(intended: bool, text: string, index: int)
  {
    if intended then InsideBraceGroup(text, index) else InsideBracesAsWritten(text, index)
  }

  /** Neither brace test fires in a text without "{". */
  lemma NoOpenBraceNotInside(intended: bool, text: string, index: int)
    requires '{' !in text
    ensures !Inside(intended, text, index)
  {
    if 0 <= index <= |text| {
      var s := LastBraceBefore(text, index);
      if s != -1 {
        assert text[s] in text;
      }
    }
  }

  /** `t` with the `n` characters at `index` replaced by `rep`. */
  function Splice(t: string, index: nat, n: nat, rep: string): (r: string)
    requires index + n <= |t|
    ensures |r| == |t| - n + |rep|
  {
    t[..index] + rep + t[index + n..]
  }

  lemma SpliceParts(t: string, index: nat, n: nat, rep: string)
    requires index + n <= |t|
    ensures var r := Splice(t, index, n, rep);
            r[..index + |rep|] == t[..index] + rep && r[index + |rep|..] == t[index + n..]
  {
  }

  /** Where the scan of selective_replace stands: the current text and the
      position to search from. */
  datatype Scan = Scan(text: string, i: nat)

  /** What selective_replace does with the occurrence of `pat` at `index`:
      step over it when the brace test holds there (`inside`), else replace it
      and carry on after the replacement. */
  function Advance(text: string, pat: string, rep: string, index: nat, inside: bool): (next: Scan)
    requires |pat| > 0 && index + |pat| <= |text|
    ensures next.i <= |next.text|
    ensures |next.text| - next.i == |text| - index - |pat|
  {
    if inside then Scan(text, index + |pat|)
    else Scan(Splice(text, index, |pat|, rep), index + |rep|)
  }

  /** selective_replace from the scan position `sc` with the chosen brace
      test: the scan advances over each occurrence of `pat` found from `sc.i`
      on, and stops when there is none left or the end of the text is reached. */
  function SelectiveReplaced(sc: Scan, pat: string, rep: string, intended: bool): string
    requires |pat| > 0 && sc.i <= |sc.text|
    decreases |sc.text| - sc.i
  {
    if sc.i == |sc.text| then sc.text
    else
      var index := Find(sc.text, pat, sc.i);
      if index == -1 then sc.text
      else SelectiveReplaced(Advance(sc.text, pat, rep, index, Inside(intended, sc.text, index)), pat, rep, intended)
  }

  /** selective_replace, the loop of the source. */
  method SelectiveReplace(text: string, pattern: string, replacement: string) returns (r: string)
    requires |pattern| > 0
    ensures r == SelectiveReplaced(Scan(text, 0), pattern, replacement, false)
  {
    ghost var goal := SelectiveReplaced(Scan(text, 0), pattern, replacement, false);
    var t := text;
    var i: nat := 0;
    ghost var sc := Scan(t, i);
    while i < |t|
      invariant sc == Scan(t, i) && i <= |t|
      invariant SelectiveReplaced(sc, pattern, replacement, false) == goal
      decreases |t| - i
    {
      var index := Find(t, pattern, i);
      if index == -1 {
        NothingFoundStep(sc, pattern, replacement, false);
        break;
      }
      var startBrace := RFindChar(t, '{', index);
      var endBrace := FindChar(t, '}', index);
      var inside := startBrace != -1 && endBrace != -1 && startBrace < index < endBrace;
      AsWrittenBraceTest(t, index);
      FoundStep(sc, pattern, replacement, false, index);
      sc := Advance(t, pattern, replacement, index, inside);
      if inside {
        i := index + |pattern|;
      } else {
        t := Splice(t, index, |pattern|, replacement);
        i := index + |replacement|;
      }
    }
    r := t;
  }

  /** The brace test of the loop is the as-written test. */
  lemma AsWrittenBraceTest(t: string, index: nat)
    requires index <= |t|
    ensures Inside(false, t, index) <==>
              (RFindChar(t, '{', index) != -1 && FindChar(t, '}', index) != -1
               && RFindChar(t, '{', index) < index < FindChar(t, '}', index))
  {
  }

  /** Nothing found from the scan position on: the scan stops. */
  lemma NothingFoundStep(sc: Scan, pat: string, rep: string, intended: bool)
    requires |pat| > 0 && sc.i < |sc.text| && Find(sc.text, pat, sc.i) == -1
    ensures SelectiveReplaced(sc, pat, rep, intended) == sc.text
  {
  }

  /** One round of the scan: the occurrence found from the scan position on
      is handed to Advance. */
  lemma FoundStep(sc: Scan, pat: string, rep: string, intended: bool, index: int)
    requires |pat| > 0 && sc.i < |sc.text|
    requires index == Find(sc.text, pat, sc.i) && index != -1
    ensures index + |pat| <= |sc.text|
    ensures SelectiveReplaced(sc, pat, rep, intended)
            == SelectiveReplaced(Advance(sc.text, pat, rep, index, Inside(intended, sc.text, index)), pat, rep, intended)
  {
  }

  /** A text in which `pat` does not occur comes back unchanged, whatever the
      brace test. */
  lemma AbsentPatternUnchanged(text: string, pat: string, rep: string, intended: bool)
    requires |pat| > 0 && !Contains(text, pat)
    ensures SelectiveReplaced(Scan(text, 0), pat, rep, intended) == text
  {
  }

  /** selective_replace with the intended brace test. */
  function SelectiveReplaceIntended(text: string, pattern: string, replacement: string): string
    requires |pattern| > 0
  {
    SelectiveReplaced(Scan(text, 0), pattern, replacement, true)
  }

  /** No occurrence of `pat` from `i` on: the rest of the text is what
      Replace leaves alone. */
  lemma NothingFoundIsReplaceAbsent(text: string, pat: string, rep: string, i: nat)
    requires |pat| > 0 && i <= |text|
    requires Find(text, pat, i) == -1
    ensures Replace(text[i..], pat, rep) == text[i..]
  {
    var s := text[i..];
    FindFirst(text, pat, i);
    if Contains(s, pat) {
      var k :| 0 <= k <= |s| && OccursAt(s, pat, k);
      assert OccursAt(text, pat, i + k);
    }
    ReplaceAbsent(s, pat, rep);
  }

  /** The first occurrence from `i` on, at `index`, is where Replace on the
      rest of the text makes its first change. */
  lemma FoundIsReplaceFirst(text: string, pat: string, rep: string, i: nat, index: int)
    requires |pat| > 0 && i <= |text|
    requires index == Find(text, pat, i) && index != -1
    ensures Replace(text[i..], pat, rep) == text[i..index] + rep + Replace(text[index + |pat|..], pat, rep)
  {
    FindFirst(text, pat, i);
    ReplaceFirst(text, pat, rep, i, index);
  }

  /** Outside any pronoun tag, either brace test gives Python's plain
      `str.replace`, as long as no "{" is brought in by the replacement. */
  lemma {:induction false} SelectiveIsReplaceWithoutBraces(sc: Scan, pat: string, rep: string, intended: bool)
    requires |pat| > 0 && sc.i <= |sc.text|
    requires '{' !in sc.text && '{' !in rep
    ensures SelectiveReplaced(sc, pat, rep, intended) == sc.text[..sc.i] + Replace(sc.text[sc.i..], pat, rep)
    decreases |sc.text| - sc.i
  {
    var text, i := sc.text, sc.i;
    if i == |text| {
      assert text[i..] == [];
    } else {
      var index := Find(text, pat, i);
      if index == -1 {
        NothingFoundWithoutBraces(sc, pat, rep, intended);
      } else {
        var next := Scan(Splice(text, index, |pat|, rep), index + |rep|);
        FoundWithoutBraces(sc, pat, rep, intended, index, next);
        SpliceNoOpenBrace(text, index, |pat|, rep);
        SelectiveIsReplaceWithoutBraces(next, pat, rep, intended);
        FoundThenReplace(text, pat, rep, i, index, next);
      }
    }
  }

  lemma NothingFoundWithoutBraces(sc: Scan, pat: string, rep: string, intended: bool)
    requires |pat| > 0 && sc.i < |sc.text| && Find(sc.text, pat, sc.i) == -1
    ensures SelectiveReplaced(sc, pat, rep, intended) == sc.text[..sc.i] + Replace(sc.text[sc.i..], pat, rep)
  {
    NothingFoundStep(sc, pat, rep, intended);
    NothingFoundIsReplaceAbsent(sc.text, pat, rep, sc.i);
    assert sc.text == sc.text[..sc.i] + sc.text[sc.i..];
  }

  /** In a text without "{", the occurrence found is replaced. */
  lemma FoundWithoutBraces(sc: Scan, pat: string, rep: string, intended: bool, index: int, next: Scan)
    requires |pat| > 0 && sc.i < |sc.text| && '{' !in sc.text
    requires index == Find(sc.text, pat, sc.i) && index != -1
    requires index + |pat| <= |sc.text| && next == Scan(Splice(sc.text, index, |pat|, rep), index + |rep|)
    ensures SelectiveReplaced(sc, pat, rep, intended) == SelectiveReplaced(next, pat, rep, intended)
  {
    NoOpenBraceNotInside(intended, sc.text, index);
    assert Advance(sc.text, pat, rep, index, false) == next;
    FoundStep(sc, pat, rep, intended, index);
  }

  lemma SpliceNoOpenBrace(t: string, index: nat, n: nat, rep: string)
    requires index + n <= |t| && '{' !in t && '{' !in rep
    ensures '{' !in Splice(t, index, n, rep)
  {
    assert Splice(t, index, n, rep) == t[..index] + rep + t[index + n..];
  }

  /** Replacing the occurrence found from `i` on and running Replace after the
      replacement builds the same text as running Replace from `i` on. */
  lemma FoundThenReplace(text: string, pat: string, rep: string, i: nat, index: int, next: Scan)
    requires |pat| > 0 && i <= |text|
    requires index == Find(text, pat, i) && index != -1
    requires index + |pat| <= |text| && next == Scan(Splice(text, index, |pat|, rep), index + |rep|)
    ensures next.i <= |next.text|
    ensures next.text[..next.i] + Replace(next.text[next.i..], pat, rep) == text[..i] + Replace(text[i..], pat, rep)
  {
    FoundIsReplaceFirst(text, pat, rep, i, index);
    SpliceTailReplace(text, pat, rep, index, next);
    SpliceThenReplace(text, i, index, |pat|, rep, next,
                      Replace(text[i..], pat, rep), Replace(text[index + |pat|..], pat, rep));
  }

  /** After the splice, Replace carries on with the text that followed the
      occurrence. */
  lemma SpliceTailReplace(text: string, pat: string, rep: string, index: nat, next: Scan)
    requires |pat| > 0 && index + |pat| <= |text|
    requires next == Scan(Splice(text, index, |pat|, rep), index + |rep|)
    ensures next.i <= |next.text|
    ensures Replace(next.text[next.i..], pat, rep) == Replace(text[index + |pat|..], pat, rep)
  {
    SpliceParts(text, index, |pat|, rep);
    assert next.text[next.i..] == text[index + |pat|..];
  }

  /** The sequence algebra of FoundThenReplace. */
  lemma SpliceThenReplace(text: string, i: nat, index: nat, n: nat, rep: string, next: Scan, x: string, y: string)
    requires i <= index && index + n <= |text|
    requires next == Scan(Splice(text, index, n, rep), index + |rep|)
    requires x == text[i..index] + rep + y
    ensures next.i <= |next.text|
    ensures next.text[..next.i] + y == text[..i] + x
  {
    SpliceParts(text, index, n, rep);
    assert text[..index] == text[..i] + text[i..index];
  }

  /** selective_replace as written leaves a bare abbreviation alone when it sits
      between two tags, as "{}a{}" shows; the intended test replaces it. */
  lemma BetweenTagsIsSkipped()
    ensures SelectiveReplaced(Scan("{}a{}", 0), "a", "b", false) == "{}a{}"
    ensures SelectiveReplaceIntended("{}a{}", "a", "b") == "{}b{}"
  {
    var t := "{}a{}";
    assert t[0] == '{' && t[1] == '}' && t[2] == 'a' && t[3] == '{' && t[4] == '}';
    assert t[0..1] != "a" && t[1..2] != "a" && t[2..3] == "a";
    assert Find(t, "a", 0) == 2;
    assert t[3..4] != "a" && t[4..5] != "a";
    assert Find(t, "a", 3) == -1;
    assert RFindChar(t, '{', 2) == 0;
    assert FindChar(t, '}', 2) == 4;
    assert Inside(false, t, 2);
    assert LastBraceBefore(t, 2) == 1;
    assert !Inside(true, t, 2);
    var t' := "{}b{}";
    assert t[..2] + "b" + t[3..] == t';
    assert t'[3] == '{' && t'[4] == '}';
    assert t'[3..4] != "a" && t'[4..5] != "a";
    assert Find(t', "a", 3) == -1;
  }

  // ---------------------------------------------------------------------------
  // _replace_clan_name
  // ---------------------------------------------------------------------------

  /** The Clan name starts with one of the capital vowels A, E, I, O, U (the
      inner loop of the source acts at most once, for the matching vowel). */
  predicate StartsWithVowel(clanName: string)
  {
    |clanName| > 0 && clanName[0] in ['A', 'E', 'I', 'O', 'U']
  }

  /** The position at which Python's `list.insert(i, x)` puts `x` in a list of
      length `n`: a negative `i` counts from the end, and the result is
      clamped to `0..n`. */
  function InsertIndex(n: nat, i: int): (k: nat)
    ensures k <= n
    ensures 0 <= i <= n ==> k == i
    ensures i < 0 && 0 <= n + i ==> k == n + i
    ensures n < i ==> k == n
    ensures n + i < 0 ==> k == 0
  {
    if i < 0 then (if i + n < 0 then 0 else i + n) else (if i > n then n else i)
  }

  /** Python's `list.insert(i, x)`: `x` lands at `InsertIndex(|s|, i)`, with
      the elements before and after it in their old order. */
  function PyInsert(s: seq<string>, i: int, x: string): (r: seq<string>)
    ensures |r| == |s| + 1
    ensures var k := InsertIndex(|s|, i);
            r[k] == x && r[..k] == s[..k] && r[k + 1..] == s[k..]
  {
    var idx := InsertIndex(|s|, i);
    s[..idx] + [x] + s[idx..]
  }

  /** One round of the outer loop body on the split words `modify`, as written:
      `pos` moves to the last of the abbreviation, "abbr's" and "abbr." found as
      a word; if the word at `pos - 1` (Python index, so -1 is the last word) is
      "a", the FIRST "a" of the list is removed and "an" is inserted at
      `pos - 1`. None stands for the IndexError of an out-of-range `pos - 1`. */
  function ArticleRound(words: seq<string>, pos: int, abbr: string): Option<(seq<string>, int)>
  {
    var pos1 := if abbr in words then IndexOf(words, abbr) else pos;
    var pos2 := if abbr + "'s" in words then IndexOf(words, abbr + "'s") else pos1;
    var pos3 := if abbr + "." in words then IndexOf(words, abbr + ".") else pos2;
    var prev := pos3 - 1;
    if !(-|words| <= prev < |words|) then None
    else
      var w := words[if prev < 0 then prev + |words| else prev];
      if w == "a" then Some((PyInsert(Remove(words, "a"), prev, "an"), pos3))
      else Some((words, pos3))
  }

  /** The loop of _replace_clan_name from a text `t` and position `pos`, with
      `n` rounds to go, followed by the final replace. None is an IndexError. */
  function ClanNameRounds(t: string, pos: int, n: nat, abbr: string, clanName: string): Option<string>
    requires |abbr| > 0
    decreases n
  {
    if n == 0 then Some(Replace(t, abbr, clanName))
    else if Contains(t, abbr) && StartsWithVowel(clanName) then
      match ArticleRound(SplitWords(t), pos, abbr)
      case None => None
      case Some(next) => ClanNameRounds(Join(next.0, " "), next.1, n - 1, abbr, clanName)
    else ClanNameRounds(t, pos, n - 1, abbr, clanName)
  }

  /** _replace_clan_name: one article-fixing round per occurrence of the
      abbreviation, then every occurrence replaced by the Clan name. */
  method ReplaceClanName(text: string, abbreviation: string, clanName: string) returns (r: Option<string>)
    requires |abbreviation| > 0
    ensures r == ClanNameRounds(text, 0, CountOf(text, abbreviation), abbreviation, clanName)
  {
    var t := text;
    var pos := 0;
    var rounds := CountOf(text, abbreviation);
    ghost var goal := ClanNameRounds(t, pos, rounds, abbreviation, clanName);
    for x := 0 to rounds
      invariant ClanNameRounds(t, pos, rounds - x, abbreviation, clanName) == goal
    {
      var failed, t', pos' := ClanNameRound(t, pos, rounds - x, abbreviation, clanName);
      if failed {
        return None;
      }
      t, pos := t', pos';
    }
    r := Some(Replace(t, abbreviation, clanName));
  }

  /** One round of the loop of _replace_clan_name: it fails where ArticleRound
      raises the IndexError, and otherwise leaves the text and position the
      remaining rounds start from. */
  method ClanNameRound(t: string, pos: int, left: nat, abbreviation: string, clanName: string)
    returns (failed: bool, t': string, pos': int)
    requires |abbreviation| > 0 && left > 0
    ensures ClanNameRounds(t, pos, left, abbreviation, clanName) ==
            if failed then None else ClanNameRounds(t', pos', left - 1, abbreviation, clanName)
  {
    failed, t', pos' := false, t, pos;
    if Contains(t, abbreviation) && StartsWithVowel(clanName) {
      var words := SplitWords(t);
      match ArticleRound(words, pos, abbreviation) {
        case None =>
          RoundFails(t, pos, left, abbreviation, clanName);
          failed := true;
        case Some((modified, next)) =>
          t', pos' := Join(modified, " "), next;
          RoundTaken(t, pos, left, abbreviation, clanName, modified, t', pos');
      }
    } else {
      RoundSkipped(t, pos, left, abbreviation, clanName);
    }
  }

  /** A round where the abbreviation is in the text and the Clan name starts
      with a vowel runs ArticleRound on the words of the text, and the next
      round starts from the words it gives, joined with single spaces... */
  lemma RoundTaken(t: string, pos: int, n: nat, abbr: string, clanName: string,
                   words: seq<string>, t': string, pos': int)
    requires |abbr| > 0 && n > 0 && Contains(t, abbr) && StartsWithVowel(clanName)
    requires ArticleRound(SplitWords(t), pos, abbr) == Some((words, pos')) && t' == Join(words, " ")
    ensures ClanNameRounds(t, pos, n, abbr, clanName) == ClanNameRounds(t', pos', n - 1, abbr, clanName)
  {
  }

  /** ... unless ArticleRound raises the IndexError, which ends the loop. */
  lemma RoundFails(t: string, pos: int, n: nat, abbr: string, clanName: string)
    requires |abbr| > 0 && n > 0 && Contains(t, abbr) && StartsWithVowel(clanName)
    requires ArticleRound(SplitWords(t), pos, abbr).None?
    ensures ClanNameRounds(t, pos, n, abbr, clanName).None?
  {
  }

  /** Any other round leaves the text as it is. */
  lemma RoundSkipped(t: string, pos: int, n: nat, abbr: string, clanName: string)
    requires |abbr| > 0 && n > 0 && !(Contains(t, abbr) && StartsWithVowel(clanName))
    ensures ClanNameRounds(t, pos, n, abbr, clanName) == ClanNameRounds(t, pos, n - 1, abbr, clanName)
  {
  }

  /** A text without the abbreviation comes back as it is, whatever the Clan
      name and however many rounds are left. */
  lemma {:induction false} AbsentAbbreviationUnchanged(t: string, pos: int, n: nat, abbr: string, clanName: string)
    requires |abbr| > 0 && !Contains(t, abbr)
    ensures ClanNameRounds(t, pos, n, abbr, clanName) == Some(t)
    decreases n
  {
    if n == 0 {
      ReplaceAbsent(t, abbr, clanName);
    } else {
      AbsentAbbreviationUnchanged(t, pos, n - 1, abbr, clanName);
    }
  }

  /** A Clan name that does not start with a vowel is put in as it is. */
  lemma {:induction false} ConsonantNameIsPlainReplace(t: string, pos: int, n: nat, abbr: string, clanName: string)
    requires |abbr| > 0 && !StartsWithVowel(clanName)
    ensures ClanNameRounds(t, pos, n, abbr, clanName) == Some(Replace(t, abbr, clanName))
    decreases n
  {
    if n > 0 {
      ConsonantNameIsPlainReplace(t, pos, n - 1, abbr, clanName);
    }
  }

  /** When the abbreviation is a word of its own, preceded by "a", the round
      removes the FIRST "a" of the list, wherever it is, and puts "an" where
      the article stood. */
  lemma ArticleRoundAtAbbr(words: seq<string>, pos: int, abbr: string, k: nat)
    requires abbr in words && k == IndexOf(words, abbr)
    requires abbr + "'s" !in words && abbr + "." !in words
    requires 1 <= k && words[k - 1] == "a"
    ensures ArticleRound(words, pos, abbr) == Some((PyInsert(Remove(words, "a"), k - 1, "an"), k))
  {
  }

  /** In "a x a c_n" the round removes the leading "a" instead of the one in
      front of the abbreviation, giving "x a an c_n". */
  lemma ArticleRoundRemovesFirstA()
    ensures ArticleRound(["a", "x", "a", "c_n"], 0, "c_n") == Some((["x", "a", "an", "c_n"], 3))
  {
    var m := ["a", "x", "a", "c_n"];
    assert IndexOf(m, "c_n") == 3 by {
      assert m[0] != "c_n" && m[1] != "c_n" && m[2] != "c_n";
    }
    assert "c_n's" !in m && "c_n." !in m by {
      assert forall w | w in m :: |w| <= 3;
    }
    assert "c_n" + "'s" == "c_n's" && "c_n" + "." == "c_n.";
    ArticleRoundAtAbbr(m, 0, "c_n", 3);
    RemoveFirstAExample();
  }

  lemma RemoveFirstAExample()
    ensures PyInsert(Remove(["a", "x", "a", "c_n"], "a"), 2, "an") == ["x", "a", "an", "c_n"]
  {
    RemoveLeadingA();
    InsertAnExample();
  }

  lemma RemoveLeadingA()
    ensures Remove(["a", "x", "a", "c_n"], "a") == ["x", "a", "c_n"]
  {
    var m := ["a", "x", "a", "c_n"];
    RemoveAtIndex(m, "a");
    assert IndexOf(m, "a") == 0;
    SeqOfThree(m[1..], "x", "a", "c_n");
  }

  lemma InsertAnExample()
    ensures PyInsert(["x", "a", "c_n"], 2, "an") == ["x", "a", "an", "c_n"]
  {
    var removed := ["x", "a", "c_n"];
    var r := PyInsert(removed, 2, "an");
    assert r[..2] == removed[..2] && r[3..] == removed[2..];
    assert r[0] == removed[0] && r[1] == removed[1] && r[3] == removed[2];
    SeqOfFour(r, "x", "a", "an", "c_n");
  }

  /** A list of three elements is the display of those three. */
  lemma SeqOfThree<T>(r: seq<T>, a: T, b: T, c: T)
    requires |r| == 3 && r[0] == a && r[1] == b && r[2] == c
    ensures r == [a, b, c]
  {
  }

  /** A list of four elements is the display of those four. */
  lemma SeqOfFour<T>(r: seq<T>, a: T, b: T, c: T, d: T)
    requires |r| == 4 && r[0] == a && r[1] == b && r[2] == c && r[3] == d
    ensures r == [a, b, c, d]
  {
  }

  /** The word is the abbreviation, on its own or followed by "'s" or ".". */
  predicate IsAbbrWord(w: string, abbr: string)
  {
    w == abbr || w == abbr + "'s" || w == abbr + "."
  }

  /** The intended article fix: every "a" directly in front of the
      abbreviation becomes "an", and no other word changes. */
  function FixArticles(words: seq<string>, abbr: string): (r: seq<string>)
    ensures |r| == |words|
    ensures forall j :: 0 <= j < |words| ==> r[j] == FixedWord(words, j, abbr)
  {
    if words == [] then []
    else
      var rest := FixArticles(words[1..], abbr);
      var r := [FixedWord(words, 0, abbr)] + rest;
      assert forall j :: 0 < j < |words| ==> r[j] == rest[j - 1] == FixedWord(words[1..], j - 1, abbr);
      r
  }

  /** Word `j` after the intended fix: "an" for an "a" in front of the
      abbreviation, else the word itself. */
  function FixedWord(words: seq<string>, j: nat, abbr: string): string
    requires j < |words|
  {
    if words[j] == "a" && j + 1 < |words| && IsAbbrWord(words[j + 1], abbr) then "an" else words[j]
  }

  /** "an" is not a form of an abbreviation other than "a" and "an". */
  lemma AnIsNoAbbrWord(abbr: string)
    requires |abbr| > 0 && abbr != "a" && abbr != "an"
    ensures !IsAbbrWord("an", abbr)
  {
    assert |abbr + "'s"| > 2;
    assert (abbr + ".")[|abbr|] == '.';
    assert forall k :: 0 <= k < |"an"| ==> "an"[k] != '.';
  }

  /** Fixing the articles twice changes nothing more. */
  lemma FixArticlesIdempotent(words: seq<string>, abbr: string)
    requires |abbr| > 0 && abbr != "a" && abbr != "an"
    ensures FixArticles(FixArticles(words, abbr), abbr) == FixArticles(words, abbr)
  {
    var once := FixArticles(words, abbr);
    var twice := FixArticles(once, abbr);
    AnIsNoAbbrWord(abbr);
    forall j | 0 <= j < |words| ensures twice[j] == once[j] {
      if once[j] == "a" && j + 1 < |words| {
        assert "an" != "a";
        assert words[j] == "a";
        assert once[j + 1] == words[j + 1] || once[j + 1] == "an";
      }
    }
  }

  // ---------------------------------------------------------------------------
  // find_special_list_types
  // ---------------------------------------------------------------------------

  const ListTypes: seq<string> := ["omen_list", "prophecy_list", "dream_list", "clair_list", "story_list"]
  const Senses: seq<string> := ["sight", "sound", "smell", "emotional", "touch", "taste"]

  /** The list tag found in a snippet. */
  datatype ListTag = ListTag(senses: seq<string>, listType: string, catTag: Option<string>)

  /** The adjusted text and, when a list tag was recognised, the tag. */
  datatype ListResult = ListResult(text: string, tag: Option<ListTag>)

  /** The first word (split on single spaces) that contains "_list". */
  function FirstListWord(words: seq<string>): (r: Option<string>)
    ensures r.Some? ==> r.value in words && Contains(r.value, "_list")
    ensures r.Some? ==> forall j :: 0 <= j < IndexOf(words, r.value) ==> !Contains(words[j], "_list")
    ensures r.None? <==> forall i :: 0 <= i < |words| ==> !Contains(words[i], "_list")
  {
    if words == [] then None
    else if Contains(words[0], "_list") then Some(words[0])
    else FirstListWord(words[1..])
  }

  function FirstListType(listText: string, i: nat): (r: Option<string>)
    requires i <= |ListTypes|
    ensures r.Some? ==> r.value in ListTypes[i..] && Contains(listText, r.value)
    ensures r.Some? ==> forall k :: i <= k < IndexOf(ListTypes, r.value) ==> !Contains(listText, ListTypes[k])
    ensures r.None? <==> forall k :: i <= k < |ListTypes| ==> !Contains(listText, ListTypes[k])
    decreases |ListTypes| - i
  {
    if i == |ListTypes| then None
    else if Contains(listText, ListTypes[i]) then Some(ListTypes[i])
    else FirstListType(listText, i + 1)
  }

  /** The senses of `senses` whose "_sense" marker the tag holds, in the
      order of `senses` (the source tests `Senses` one after the other). */
  function SensesIn(listText: string, senses: seq<string>): (r: seq<string>)
    ensures forall s :: s in r <==> s in senses && Contains(listText, "_" + s)
    ensures |r| <= |senses|
  {
    if senses == [] then []
    else
      var rest := SensesIn(listText, senses[1..]);
      assert senses == [senses[0]] + senses[1..];
      if Contains(listText, "_" + senses[0]) then [senses[0]] + rest else rest
  }

  /** Over a list of distinct senses, the senses found keep that list's
      order, so none comes twice. */
  lemma {:induction false} SensesInOrder(listText: string, senses: seq<string>)
    requires NoDup(senses)
    ensures forall a, b :: 0 <= a < b < |SensesIn(listText, senses)| ==>
              IndexOf(senses, SensesIn(listText, senses)[a]) < IndexOf(senses, SensesIn(listText, senses)[b])
  {
    if senses != [] {
      var tail := senses[1..];
      var rest := SensesIn(listText, tail);
      assert NoDup(tail);
      SensesInOrder(listText, tail);
      TailIndexOf(senses, rest);
      if Contains(listText, "_" + senses[0]) {
        ConsInOrder(senses, 0, rest);
      }
    }
  }

  /** Elements of the tail of a duplicate-free list sit one place further on
      in the whole list. */
  lemma TailIndexOf(senses: seq<string>, rest: seq<string>)
    requires NoDup(senses) && senses != []
    requires forall k :: 0 <= k < |rest| ==> rest[k] in senses[1..]
    requires forall a, b :: 0 <= a < b < |rest| ==> IndexOf(senses[1..], rest[a]) < IndexOf(senses[1..], rest[b])
    ensures IndexOf(senses, senses[0]) == 0
    ensures forall k :: 0 <= k < |rest| ==> rest[k] in senses && 0 < IndexOf(senses, rest[k])
    ensures forall a, b :: 0 <= a < b < |rest| ==> IndexOf(senses, rest[a]) < IndexOf(senses, rest[b])
  {
    forall k | 0 <= k < |rest|
      ensures rest[k] in senses && IndexOf(senses, rest[k]) == 1 + IndexOf(senses[1..], rest[k])
    {
      var j :| 0 <= j < |senses[1..]| && senses[1..][j] == rest[k];
      assert senses[j + 1] == rest[k] && senses[0] != senses[j + 1];
    }
  }

  /** The six senses are distinct. */
  lemma SensesDistinct()
    ensures NoDup(Senses)
  {
    assert Senses[0][0] == 's' && Senses[0][1] == 'i';
    assert Senses[1][0] == 's' && Senses[1][1] == 'o';
    assert Senses[2][0] == 's' && Senses[2][1] == 'm';
    assert Senses[3][0] == 'e';
    assert Senses[4][0] == 't' && Senses[4][1] == 'o';
    assert Senses[5][0] == 't' && Senses[5][1] == 'a';
  }

  /** The senses of a list tag come in the order sight, sound, smell,
      emotional, touch, taste, each at most once. */
  lemma SensesInFixedOrder(listText: string)
    ensures var r := SensesIn(listText, Senses);
            forall a, b :: 0 <= a < b < |r| ==> IndexOf(Senses, r[a]) < IndexOf(Senses, r[b])
  {
    SensesDistinct();
    SensesInOrder(listText, Senses);
  }

  /** The tag word with "." and "," removed. */
  function ListText(bit: string): string
  {
    RemoveChar(RemoveChar(bit, '.'), ',')
  }

  /** find_special_list_types: the first space-separated word holding "_list",
      cleaned of "." and ",", names the list type (the first of the five it
      contains), its senses (each "_sense" it contains) and, after a "/", the
      cat; the word is replaced by the bare list type in the text. */
  function FindSpecialListTypes(text: string): (r: ListResult)
    ensures r.tag.None? ==> r.text == text
    ensures FirstListWord(SplitOn(text, ' ')).None? ==> r.tag.None?
    ensures r.tag.Some? ==>
              var listText := ListText(FirstListWord(SplitOn(text, ' ')).value);
              |listText| > 0
              && FirstListType(listText, 0) == Some(r.tag.value.listType)
              && Contains(listText, r.tag.value.listType)
              && (forall k :: 0 <= k < |Senses| ==>
                    (Senses[k] in r.tag.value.senses <==> Contains(listText, "_" + Senses[k])))
              && r.tag.value.senses == SensesIn(listText, Senses)
              && (r.tag.value.catTag.Some? <==> '/' in listText)
              && (r.tag.value.catTag.Some? ==>
                    |SplitOn(listText, '/')| > 1 && r.tag.value.catTag.value == SplitOn(listText, '/')[1])
              && r.text == Replace(text, listText, r.tag.value.listType)
    ensures FirstListWord(SplitOn(text, ' ')).Some? && FirstListType(ListText(FirstListWord(SplitOn(text, ' ')).value), 0).None?
            ==> r.tag.None?
  {
    var words := SplitOn(text, ' ');
    match FirstListWord(words)
    case None => ListResult(text, None)
    case Some(bit) =>
      var listText := ListText(bit);
      if |listText| == 0 then ListResult(text, None)
      else
        var partsOfTag := SplitOn(listText, '/');
        var catTag := if |partsOfTag| > 1 then Some(partsOfTag[1]) else None;
        match FirstListType(listText, 0)
        case None => ListResult(text, None)
        case Some(listType) =>
          var senses := SensesIn(listText, Senses);
          ListResult(Replace(text, listText, listType), Some(ListTag(senses, listType, catTag)))
  }

  // ---------------------------------------------------------------------------
  // pronoun_repl guards
  // ---------------------------------------------------------------------------

  /** What the guards at the top of pronoun_repl decide for a tag `{inner}`. */
  datatype PronounGuard =
    | KeepTag                          // the tag is returned untouched
    | IndexError                       // `inner_details[1]` does not exist
    | Pronounify(details: seq<string>) // go on to replace it, with the split details

  /** The guards of pronoun_repl: "{insert}" and tags naming a cat that was not
      passed are kept for later; a tag without "/" raises IndexError. */
  function PronounReplGuard(inner: string, knownCats: set<string>): (g: PronounGuard)
    ensures inner == "insert" ==> g == KeepTag
    ensures inner != "insert" ==> (g == IndexError <==> '/' !in inner)
    ensures g.Pronounify? ==> |g.details| >= 2 && g.details == SplitOn(inner, '/')
                              && (g.details[1] == "PLURAL" || g.details[1] in knownCats)
    ensures g == KeepTag && inner != "insert" ==>
              var d := SplitOn(inner, '/'); d[1] != "PLURAL" && d[1] !in knownCats
  {
    if inner == "insert" then KeepTag
    else
      var innerDetails := SplitOn(inner, '/');
      if |innerDetails| < 2 then IndexError
      else if innerDetails[1] != "PLURAL" && innerDetails[1] !in knownCats then KeepTag
      else Pronounify(innerDetails)
  }

  /** The plural marker is checked case-sensitively before the cats: a tag
      whose marker is "plural" is kept unless a cat is called "plural", even
      though the code after the guard accepts any case. */
  lemma LowerCasePluralIsKept(kind: string, rest: string, knownCats: set<string>)
    requires '/' !in kind && "plural" !in knownCats
    ensures PronounReplGuard(kind + "/plural/" + rest, knownCats) == KeepTag
  {
    var inner := kind + "/plural/" + rest;
    assert inner == kind + ['/'] + ("plural" + ['/'] + rest);
    assert inner[|kind|] == '/';
    assert inner != "insert" by { assert '/' !in "insert"; }
    SplitOnPrefix(kind, "plural" + ['/'] + rest, '/');
    SplitOnPrefix("plural", rest, '/');
    assert "plural" != "PLURAL" by { assert "plural"[0] != "PLURAL"[0]; }
  }

  lemma {:induction false} SplitOnPrefix(a: string, b: string, sep: char)
    requires sep !in a
    ensures SplitOn(a + [sep] + b, sep) == [a] + SplitOn(b, sep)
  {
    if a == [] {
      assert a + [sep] + b == [sep] + b;
      assert ([sep] + b)[1..] == b;
    } else {
      SplitOnPrefix(a[1..], b, sep);
      assert (a + [sep] + b)[1..] == a[1..] + [sep] + b;
      assert a == [a[0]] + a[1..];
    }
  }
}
