/** Whitespace normalisation of scraped text (`_clean_str`): every run of
    whitespace becomes one space and the ends are trimmed; values that are
    not strings pass through unchanged. */
module CleanStr {

  /** A value that reaches `_clean_str`: a string, an integer (the lyric id of
      a song row), or `None` (an HTML element without a single string child). */
  datatype Cell = Text(text: string) | Number(number: int) | Absent

  /** The ASCII whitespace set: what the pattern `\s` matches and what
      `strip()` removes. */
  predicate IsSpace(c: char) {
    c == ' ' || c == '\t' || c == '\n' || c == '\r' || c == '\U{000C}' || c == '\U{000B}'
  }

  /** `s.lstrip()`: the suffix of `s` left after its longest whitespace prefix
      (see TrimLeftIsSuffix). */
  function TrimLeft(s: string): (r: string)
    ensures |r| <= |s|
    ensures r == [] || !IsSpace(r[0])
    ensures s != [] && IsSpace(s[0]) ==> |r| < |s|
  {
    if s != [] && IsSpace(s[0]) then TrimLeft(s[1..]) else s
  }

  /** `s.rstrip()`: the prefix of `s` left after its longest whitespace suffix
      (see TrimRightIsPrefix). */
  function TrimRight(s: string): (r: string)
    ensures |r| <= |s|
    ensures r == [] || !IsSpace(r[|r| - 1])
  {
    if s != [] && IsSpace(s[|s| - 1]) then TrimRight(s[..|s| - 1]) else s
  }

  /** `s.strip()` */
  function Strip(s: string): string {
    TrimRight(TrimLeft(s))
  }

  /** `re.sub("\s+", " ", s)`: each maximal run of whitespace becomes one space. */
  function Collapse(s: string): string
    decreases |s|
  {
    if s == [] then []
    else if IsSpace(s[0]) then " " + Collapse(TrimLeft(s))
    else [s[0]] + Collapse(s[1..])
  }

  /** `_clean_str` on a string: substitute, then strip. */
  function Clean(s: string): string {
    Strip(Collapse(s))
  }

  /** `_clean_str` on any value: strings are cleaned, everything else is
      returned unchanged. */
  function CleanCell(c: Cell): (r: Cell)
    ensures r.Text? <==> c.Text?
    ensures !c.Text? ==> r == c
    ensures r.Text? ==> r.text == Clean(c.text)
    ensures r.Text? ==> IsNormalized(r.text) && NonSpace(r.text) == NonSpace(c.text)
  {
    match c
    case Text(s) =>
      CleanNormalized(s);
      CleanKeepsNonSpace(s);
      Text(Clean(s))
    case _ => c
  }

  lemma {:induction false} TrimLeftIsSuffix(s: string)
    ensures TrimLeft(s) == s[|s| - |TrimLeft(s)|..]
  {
    if s != [] && IsSpace(s[0]) {
      TrimLeftIsSuffix(s[1..]);
    }
  }

  lemma {:induction false} TrimRightIsPrefix(s: string)
    ensures TrimRight(s) == s[..|TrimRight(s)|]
  {
    if s != [] && IsSpace(s[|s| - 1]) {
      TrimRightIsPrefix(s[..|s| - 1]);
    }
  }

  /** A string that does not start with whitespace is its own left trim. */
  lemma {:induction false} TrimLeftNoSpace(s: string)
    requires s == [] || !IsSpace(s[0])
    ensures TrimLeft(s) == s
  {
  }

  lemma {:induction false} TrimLeftSpace(j: string)
    ensures TrimLeft(" " + j) == TrimLeft(j)
  {
    assert (" " + j)[1..] == j;
  }

  // ---------------------------------------------------------------------
  // The shape of a cleaned string

  /** No whitespace other than a plain space, and never two spaces in a row. */
  predicate SingleSpaced(s: string) {
    && (forall i :: 0 <= i < |s| && IsSpace(s[i]) ==> s[i] == ' ')
    && (forall i :: 0 <= i < |s| - 1 && s[i] == ' ' ==> s[i + 1] != ' ')
  }

  /** What `_clean_str` promises of a string result: single-spaced, with no
      whitespace at either end. */
  predicate IsNormalized(s: string) {
    && (s == [] || (!IsSpace(s[0]) && !IsSpace(s[|s| - 1])))
    && SingleSpaced(s)
  }

  /** `s` with every whitespace character deleted. */
  function NonSpace(s: string): string {
    if s == [] then []
    else if IsSpace(s[0]) then NonSpace(s[1..])
    else [s[0]] + NonSpace(s[1..])
  }

  lemma {:induction false} NonSpaceConcat(a: string, b: string)
    ensures NonSpace(a + b) == NonSpace(a) + NonSpace(b)
  {
    if a != [] {
      assert (a + b)[0] == a[0] && (a + b)[1..] == a[1..] + b;
      NonSpaceConcat(a[1..], b);
    } else {
      assert a + b == b;
    }
  }

  lemma {:induction false} SingleSpacedCons(c: char, s: string)
    requires SingleSpaced(s)
    requires !IsSpace(c) || (c == ' ' && (s == [] || s[0] != ' '))
    ensures SingleSpaced([c] + s)
  {
  }

  lemma {:induction false} CollapseSingleSpaced(s: string)
    ensures SingleSpaced(Collapse(s))
    ensures s != [] && !IsSpace(s[0]) ==> Collapse(s) != [] && Collapse(s)[0] == s[0]
    decreases |s|
  {
    if s == [] {
    } else if IsSpace(s[0]) {
      var t := TrimLeft(s);
      CollapseSingleSpaced(t);
      SingleSpacedCons(' ', Collapse(t));
    } else {
      CollapseSingleSpaced(s[1..]);
      SingleSpacedCons(s[0], Collapse(s[1..]));
    }
  }

  lemma {:induction false} SingleSpacedSlice(s: string, lo: int, hi: int)
    requires 0 <= lo <= hi <= |s| && SingleSpaced(s)
    ensures SingleSpaced(s[lo..hi])
  {
  }

  /** The cleaned string has no whitespace at the ends, no tab, newline,
      carriage return, form feed or vertical tab, and no two spaces in a row. */
  lemma {:induction false} CleanNormalized(s: string)
    ensures IsNormalized(Clean(s))
  {
    CollapseSingleSpaced(s);
    StripNormalizes(Collapse(s));
  }

  lemma {:induction false} StripNormalizes(c: string)
    requires SingleSpaced(c)
    ensures IsNormalized(Strip(c))
  {
    var l := TrimLeft(c);
    TrimLeftIsSuffix(c);
    SingleSpacedSlice(c, |c| - |l|, |c|);
    var r := TrimRight(l);
    TrimRightIsPrefix(l);
    SingleSpacedSlice(l, 0, |r|);
    if r != [] {
      assert r[0] == l[0];
    }
  }

  lemma {:induction false} TrimLeftKeepsNonSpace(s: string)
    ensures NonSpace(TrimLeft(s)) == NonSpace(s)
  {
    if s != [] && IsSpace(s[0]) {
      TrimLeftKeepsNonSpace(s[1..]);
    }
  }

  lemma {:induction false} TrimRightKeepsNonSpace(s: string)
    ensures NonSpace(TrimRight(s)) == NonSpace(s)
  {
    if s != [] && IsSpace(s[|s| - 1]) {
      var init := s[..|s| - 1];
      TrimRightKeepsNonSpace(init);
      assert s == init + [s[|s| - 1]];
      NonSpaceConcat(init, [s[|s| - 1]]);
    }
  }

  lemma {:induction false} CollapseKeepsNonSpace(s: string)
    ensures NonSpace(Collapse(s)) == NonSpace(s)
    decreases |s|
  {
    if s == [] {
    } else if IsSpace(s[0]) {
      var t := TrimLeft(s);
      CollapseKeepsNonSpace(t);
      TrimLeftKeepsNonSpace(s);
      assert (" " + Collapse(t))[1..] == Collapse(t);
    } else {
      CollapseKeepsNonSpace(s[1..]);
      assert ([s[0]] + Collapse(s[1..]))[1..] == Collapse(s[1..]);
    }
  }

  /** Cleaning only deletes or replaces whitespace: every other character is
      kept, in its original order. */
  lemma {:induction false} CleanKeepsNonSpace(s: string)
    ensures NonSpace(Clean(s)) == NonSpace(s)
  {
    CollapseKeepsNonSpace(s);
    TrimLeftKeepsNonSpace(Collapse(s));
    TrimRightKeepsNonSpace(TrimLeft(Collapse(s)));
  }

  lemma {:induction false} CollapseFixpoint(s: string)
    requires SingleSpaced(s)
    requires s == [] || s[0] != ' '
    ensures Collapse(s) == s
    decreases |s|, 1
  {
    if s != [] {
      SingleSpacedSlice(s, 1, |s|);
      assert !IsSpace(s[0]);
      if |s| > 1 && s[1] == ' ' {
        CollapseSpaceRun(s[1..]);
      } else {
        CollapseFixpoint(s[1..]);
      }
      assert Collapse(s) == [s[0]] + Collapse(s[1..]);
    }
  }

  lemma {:induction false} CollapseSpaceRun(s: string)
    requires SingleSpaced(s) && s != [] && s[0] == ' '
    ensures Collapse(s) == s
    decreases |s|, 0
  {
    SingleSpacedSlice(s, 1, |s|);
    assert s[1..] == [] || !IsSpace(s[1..][0]);
    TrimLeftNoSpace(s[1..]);
    assert TrimLeft(s) == s[1..];
    CollapseFixpoint(s[1..]);
  }

  lemma {:induction false} StripFixpoint(s: string)
    requires IsNormalized(s)
    ensures Strip(s) == s
  {
    TrimLeftNoSpace(s);
  }

  /** A string is left unchanged by cleaning exactly when it is already
      normalised: the normal forms are the fixed points of `Clean`. */
  lemma {:induction false} CleanFixedPoints(s: string)
    ensures Clean(s) == s <==> IsNormalized(s)
  {
    CleanNormalized(s);
    if IsNormalized(s) {
      CollapseFixpoint(s);
      StripFixpoint(s);
    }
  }

  // ---------------------------------------------------------------------
  // Reference definition: `" ".join(s.split())`

  /** The longest prefix of `s` that holds no whitespace (see
      WordPrefixIsWord). */
  function WordPrefix(s: string): (w: string)
    ensures |w| <= |s|
    ensures |w| == |s| || IsSpace(s[|w|])
  {
    if s == [] || IsSpace(s[0]) then [] else [s[0]] + WordPrefix(s[1..])
  }

  /** `s.split()`: the maximal whitespace-free runs of `s`, in order. */
  function Words(s: string): seq<string>
    decreases |s|
  {
    var t := TrimLeft(s);
    if t == [] then []
    else
      var w := WordPrefix(t);
      [w] + Words(t[|w|..])
  }

  /** `" ".join(ws)` */
  function Join(ws: seq<string>): string {
    if ws == [] then []
    else if |ws| == 1 then ws[0]
    else ws[0] + (" " + Join(ws[1..]))
  }

  /** A non-empty string free of whitespace. */
  predicate IsWord(w: string) {
    w != [] && forall i :: 0 <= i < |w| ==> !IsSpace(w[i])
  }

  predicate AllWords(ws: seq<string>) {
    forall i :: 0 <= i < |ws| ==> IsWord(ws[i])
  }

  lemma {:induction false} WordPrefixIsWord(s: string)
    ensures WordPrefix(s) == s[..|WordPrefix(s)|]
    ensures s != [] && !IsSpace(s[0]) ==> IsWord(WordPrefix(s))
  {
    if s != [] && !IsSpace(s[0]) {
      WordPrefixIsWord(s[1..]);
      var w' := WordPrefix(s[1..]);
      assert WordPrefix(s) == [s[0]] + w';
      forall i | 0 <= i < |w'| + 1
        ensures !IsSpace(([s[0]] + w')[i])
      {
        if i > 0 {
          assert ([s[0]] + w')[i] == s[1..][i - 1];
        }
      }
    }
  }

  lemma {:induction false} AllWordsCons(w: string, ws: seq<string>)
    requires IsWord(w) && AllWords(ws)
    ensures AllWords([w] + ws)
  {
  }

  lemma {:induction false} AllWordsTail(ws: seq<string>)
    requires ws != [] && AllWords(ws)
    ensures AllWords(ws[1..])
  {
  }

  lemma {:induction false} ConsTail<T>(s: seq<T>)
    requires s != []
    ensures [s[0]] + s[1..] == s
  {
  }

  /** The words of a string that starts with a word: that word, then the
      words of what follows it. */
  lemma {:induction false} WordsOfWordStart(t: string)
    requires t != [] && !IsSpace(t[0])
    ensures Words(t) == [WordPrefix(t)] + Words(t[|WordPrefix(t)|..])
  {
    TrimLeftNoSpace(t);
  }

  lemma {:induction false} WordsSkipSpace(s: string)
    ensures Words(s) == Words(TrimLeft(s))
  {
    var t := TrimLeft(s);
    TrimLeftNoSpace(t);
  }

  lemma {:induction false} WordsAreWords(s: string)
    ensures AllWords(Words(s))
    decreases |s|
  {
    WordsSkipSpace(s);
    var t := TrimLeft(s);
    if t != [] {
      WordsOfWordStart(t);
      WordPrefixIsWord(t);
      var w := WordPrefix(t);
      WordsAreWords(t[|w|..]);
      AllWordsCons(w, Words(t[|w|..]));
    }
  }

  /** Collapsing a string that starts with a word keeps that word and goes
      on after it. */
  lemma {:induction false} CollapseWord(t: string)
    requires t != [] && !IsSpace(t[0])
    ensures Collapse(t) == WordPrefix(t) + Collapse(t[|WordPrefix(t)|..])
    decreases |t|
  {
    var rest := t[1..];
    var w' := WordPrefix(rest);
    assert Collapse(t) == [t[0]] + Collapse(rest);
    if rest != [] && !IsSpace(rest[0]) {
      assert WordPrefix(t) == [t[0]] + w';
      CollapseWord(rest);
      assert t[|WordPrefix(t)|..] == rest[|w'|..];
    } else {
      assert w' == [];
      assert WordPrefix(t) == [t[0]];
    }
  }

  lemma {:induction false} TrimRightConcat(a: string, b: string)
    requires TrimRight(b) != []
    ensures TrimRight(a + b) == a + TrimRight(b)
    decreases |b|
  {
    if IsSpace(b[|b| - 1]) {
      var init := b[..|b| - 1];
      assert (a + b)[..|a + b| - 1] == a + init;
      TrimRightConcat(a, init);
    } else {
      assert (a + b)[|a + b| - 1] == b[|b| - 1];
    }
  }

  lemma {:induction false} TrimRightWord(w: string)
    requires IsWord(w)
    ensures TrimRight(w) == w
    ensures TrimRight(w + " ") == w
  {
    assert !IsSpace(w[|w| - 1]);
    assert (w + " ")[..|w|] == w;
  }

  lemma {:induction false} JoinStartsWithWord(ws: seq<string>)
    requires ws != [] && AllWords(ws)
    ensures Join(ws) != [] && Join(ws)[0] == ws[0][0]
  {
    assert IsWord(ws[0]);
  }

  /** For a string that does not start with whitespace, collapsing and then
      trimming the right end gives the space-joined words. */
  lemma {:induction false} CollapseTrimRight(t: string)
    requires t == [] || !IsSpace(t[0])
    ensures TrimRight(Collapse(t)) == Join(Words(t))
    decreases |t|
  {
    if t != [] {
      var w := WordPrefix(t);
      var rest := t[|w|..];
      CollapseWord(t);
      WordsOfWordStart(t);
      WordPrefixIsWord(t);
      if rest == [] || TrimLeft(rest) == [] {
        LastWord(w, Collapse(t), Words(t), rest);
      } else {
        var t' := TrimLeft(rest);
        WordsSkipSpace(rest);
        assert Collapse(rest) == " " + Collapse(t');
        CollapseTrimRight(t');
        WordsAreWords(t');
        JoinStep(w, Collapse(rest), Collapse(t'), Words(t'));
      }
    }
  }

  /** The last word: nothing but whitespace follows it. */
  lemma {:induction false} LastWord(w: string, c: string, ws: seq<string>, rest: string)
    requires IsWord(w)
    requires c == w + Collapse(rest) && ws == [w] + Words(rest)
    requires rest == [] || (IsSpace(rest[0]) && TrimLeft(rest) == [])
    ensures TrimRight(c) == Join(ws)
  {
  }

  /** A word, a space, then collapsed text whose right trim is the join of
      further words. */
  lemma {:induction false} JoinStep(w: string, r: string, c: string, ws: seq<string>)
    requires r == " " + c
    requires TrimRight(c) == Join(ws) && ws != [] && AllWords(ws)
    ensures TrimRight(w + r) == Join([w] + ws)
  {
    JoinStartsWithWord(ws);
    TrimRightConcat(" ", c);
    TrimRightConcat(w, r);
    assert ([w] + ws)[1..] == ws;
  }

  /** `_clean_str(s) == " ".join(s.split())`: the cleaned string is the words
      of `s`, in order, separated by single spaces. */
  lemma {:induction false} CleanIsJoinWords(s: string)
    ensures Clean(s) == Join(Words(s))
  {
    TrimLeftCollapse(s);
    WordsSkipSpace(s);
    CollapseTrimRight(TrimLeft(s));
  }

  /** Trimming the left end commutes with collapsing whitespace runs. */
  lemma {:induction false} TrimLeftCollapse(s: string)
    ensures TrimLeft(Collapse(s)) == Collapse(TrimLeft(s))
  {
    var t := TrimLeft(s);
    CollapseSingleSpaced(t);
    TrimLeftNoSpace(Collapse(t));
    if s != [] && IsSpace(s[0]) {
      assert Collapse(s) == " " + Collapse(t);
      TrimLeftSpace(Collapse(t));
    } else {
      TrimLeftNoSpace(s);
    }
  }

  lemma {:induction false} WordPrefixOfWord(w: string, rest: string)
    requires forall i :: 0 <= i < |w| ==> !IsSpace(w[i])
    requires rest == [] || IsSpace(rest[0])
    ensures WordPrefix(w + rest) == w
  {
    if w != [] {
      assert (w + rest)[0] == w[0];
      assert (w + rest)[1..] == w[1..] + rest;
      WordPrefixOfWord(w[1..], rest);
    } else {
      assert w + rest == rest;
    }
  }

  lemma {:induction false} WordsOfWordThen(w: string, rest: string)
    requires IsWord(w)
    requires rest == [] || IsSpace(rest[0])
    ensures Words(w + rest) == [w] + Words(rest)
  {
    var t := w + rest;
    assert t[0] == w[0];
    WordPrefixOfWord(w, rest);
    WordsOfWordStart(t);
    assert t[|w|..] == rest;
  }

  lemma {:induction false} WordsOfSpaceThen(j: string)
    ensures Words(" " + j) == Words(j)
  {
    TrimLeftSpace(j);
    WordsSkipSpace(" " + j);
    WordsSkipSpace(j);
  }

  /** `" ".join(ws).split() == ws` for a list of words. */
  lemma {:induction false} WordsOfJoin(ws: seq<string>)
    requires AllWords(ws)
    ensures Words(Join(ws)) == ws
    decreases |ws|
  {
    if ws == [] {
    } else if |ws| == 1 {
      WordsOfWordThen(ws[0], []);
      assert ws[0] + [] == ws[0];
    } else {
      var j := Join(ws[1..]);
      assert Join(ws) == ws[0] + (" " + j);
      WordsOfWordThen(ws[0], " " + j);
      WordsOfSpaceThen(j);
      AllWordsTail(ws);
      WordsOfJoin(ws[1..]);
      ConsTail(ws);
    }
  }

  /** Applying `_clean_str` twice gives the same result as applying it once. */
  lemma {:induction false} CleanIdempotent(s: string)
    ensures Clean(Clean(s)) == Clean(s)
  {
    CleanIsJoinWords(s);
    CleanIsJoinWords(Clean(s));
    WordsAreWords(s);
    WordsOfJoin(Words(s));
  }

  /** Two strings clean to the same result exactly when they have the same
      words. */
  lemma {:induction false} CleanEqualIffSameWords(s: string, t: string)
    ensures Clean(s) == Clean(t) <==> Words(s) == Words(t)
  {
    CleanIsJoinWords(s);
    CleanIsJoinWords(t);
    WordsAreWords(s);
    WordsAreWords(t);
    WordsOfJoin(Words(s));
    WordsOfJoin(Words(t));
  }

  /** A non-string value, such as the integer lyric id of a song row, passes
      through `_clean_str` unchanged, and a cleaned string is a fixed point. */
  lemma {:induction false} CleanCellIdempotent(c: Cell)
    ensures CleanCell(CleanCell(c)) == CleanCell(c)
  {
    if c.Text? {
      CleanIdempotent(c.text);
    }
  }
}
