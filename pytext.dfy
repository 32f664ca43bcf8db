/** Pure models of the Python text primitives the OpenVZ module is built from:
    `str.strip()`, `str.split('\n')`, `re.split` on a run of one character class
    (`\s+` and `\W+`), `re.match('([0-9]+):(.*)', ...)`, `'sep'.join(...)`,
    Python truthiness and `str()` of the values a caller may pass.
    Text is a Python 3 `str`; the character classes are the ASCII parts of its classes. */
module PyText {

  datatype Option<T> = None | Some(value: T)

  // ---------------------------------------------------------------------------
  // Character classes
  // ---------------------------------------------------------------------------

  /** The ASCII characters for which `str.isspace()` holds; `\s` matches the same ones. */
  predicate IsSpace(c: char) {
    c == ' ' || (9 <= c as int <= 13) || (28 <= c as int <= 31)
  }

  predicate IsDigit(c: char) {
    '0' <= c <= '9'
  }

  /** A word character in the ASCII sense: `[A-Za-z0-9_]`. */
  predicate IsWordChar(c: char) {
    ('a' <= c <= 'z') || ('A' <= c <= 'Z') || IsDigit(c) || c == '_'
  }

  predicate AllDigits(s: string) {
    forall i :: 0 <= i < |s| ==> IsDigit(s[i])
  }

  predicate AllSpace(s: string) {
    forall i :: 0 <= i < |s| ==> IsSpace(s[i])
  }

  /** Whitespace that stays within one line: the padding between the columns of a text table. */
  predicate Blank(w: string) {
    AllSpace(w) && '\n' !in w
  }

  /** Non-empty runs of in-line whitespace, one per gap between two columns. */
  predicate BlankRuns(gaps: seq<string>) {
    forall i :: 0 <= i < |gaps| ==> gaps[i] != [] && Blank(gaps[i])
  }

  /** The two separator patterns the module splits on. */
  datatype Pattern =
    | Spaces    // `\s+`
    | NonWord   // `\W+`

  predicate IsSep(p: Pattern, c: char) {
    match p
    case Spaces => IsSpace(c)
    case NonWord => !IsWordChar(c)
  }

  predicate NoSep(p: Pattern, s: string) {
    forall i :: 0 <= i < |s| ==> !IsSep(p, s[i])
  }

  predicate AllSep(p: Pattern, s: string) {
    forall i :: 0 <= i < |s| ==> IsSep(p, s[i])
  }

  // ---------------------------------------------------------------------------
  // str.strip()
  // ---------------------------------------------------------------------------

  /** `r` is what is left of `s` after some leading whitespace, and does not itself start with
      whitespace. */
  predicate LeftStripped(s: string, r: string) {
    |r| <= |s| && r == s[|s| - |r|..] && (r == [] || !IsSpace(r[0])) &&
    forall i :: 0 <= i < |s| - |r| ==> IsSpace(s[i])
  }

  /** One more leading whitespace character leaves the same remainder. */
  lemma LeftStrippedCons(s: string, r: string)
    requires s != [] && IsSpace(s[0]) && LeftStripped(s[1..], r)
    ensures LeftStripped(s, r)
  {
    var t := s[1..];
    assert t[|t| - |r|..] == s[|s| - |r|..];
    forall i | 0 < i < |s| - |r| ensures IsSpace(s[i]) {
      assert s[i] == t[i - 1];
    }
  }

  /** `s.lstrip()`: no longer than `s`, and not starting with whitespace; `TrimStartSpec` says
      it is the suffix of `s` left after its leading whitespace. */
  function TrimStart(s: string): (r: string)
    ensures |r| <= |s| && (r == [] || !IsSpace(r[0]))
  {
    if s != [] && IsSpace(s[0]) then TrimStart(s[1..]) else s
  }

  /** What `lstrip()` removes is whitespace only. */
  lemma {:induction false} TrimStartSpec(s: string)
    ensures LeftStripped(s, TrimStart(s))
  {
    if s != [] && IsSpace(s[0]) {
      TrimStartSpec(s[1..]);
      LeftStrippedCons(s, TrimStart(s));
    }
  }

  /** `r` is what is left of `s` before some trailing whitespace, and does not itself end with
      whitespace. */
  predicate RightStripped(s: string, r: string) {
    |r| <= |s| && r == s[..|r|] && (r == [] || !IsSpace(r[|r| - 1])) &&
    forall i :: |r| <= i < |s| ==> IsSpace(s[i])
  }

  /** One more trailing whitespace character leaves the same remainder. */
  lemma RightStrippedSnoc(s: string, r: string)
    requires s != [] && IsSpace(s[|s| - 1]) && RightStripped(s[..|s| - 1], r)
    ensures RightStripped(s, r)
  {
    var t := s[..|s| - 1];
    assert t[..|r|] == s[..|r|];
    forall i | |r| <= i < |s| - 1 ensures IsSpace(s[i]) {
      assert s[i] == t[i];
    }
  }

  /** `s.rstrip()`: no longer than `s`, starting where `s` starts and not ending with
      whitespace; `TrimEndSpec` says it is the prefix of `s` before its trailing whitespace. */
  function TrimEnd(s: string): (r: string)
    ensures |r| <= |s| && (r == [] || (r[0] == s[0] && !IsSpace(r[|r| - 1])))
  {
    if s != [] && IsSpace(s[|s| - 1]) then TrimEnd(s[..|s| - 1]) else s
  }

  /** What `rstrip()` removes is whitespace only. */
  lemma {:induction false} TrimEndSpec(s: string)
    ensures RightStripped(s, TrimEnd(s))
  {
    if s != [] && IsSpace(s[|s| - 1]) {
      TrimEndSpec(s[..|s| - 1]);
      RightStrippedSnoc(s, TrimEnd(s));
    }
  }

  /** A string with no whitespace at either end: what `strip()` returns. */
  predicate Tight(s: string) {
    s == [] || (!IsSpace(s[0]) && !IsSpace(s[|s| - 1]))
  }

  /** `s.strip()`: `s` with the whitespace at both ends removed, and nothing else. */
  function Strip(s: string): (r: string)
    ensures Tight(r)
  {
    TrimEnd(TrimStart(s))
  }

  /** A string of whitespace only strips to the empty string. */
  lemma StripAllSpace(s: string)
    requires AllSpace(s)
    ensures Strip(s) == []
  {
    var r := Strip(s);
    StripSpec(s);
  }

  /** `strip()` removes whitespace at the two ends and nothing else. */
  lemma StripSpec(s: string)
    ensures exists i :: StrippedAt(s, Strip(s), i)
  {
    var t := TrimStart(s);
    TrimStartSpec(s);
    TrimEndSpec(t);
    StrippedInside(s, t, TrimEnd(t));
    assert StrippedAt(s, Strip(s), |s| - |t|);
  }

  /** A suffix `t` of `s` after whitespace, and a prefix `r` of `t` before whitespace: `r` is
      `s` stripped at the offset where `t` starts. */
  lemma StrippedInside(s: string, t: string, r: string)
    requires |t| <= |s| && t == s[|s| - |t|..] && forall i :: 0 <= i < |s| - |t| ==> IsSpace(s[i])
    requires |r| <= |t| && r == t[..|r|] && forall i :: |r| <= i < |t| ==> IsSpace(t[i])
    ensures StrippedAt(s, r, |s| - |t|)
  {
    var i := |s| - |t|;
    assert r == s[i..i + |r|];
    assert forall j :: i + |r| <= j < |s| ==> s[j] == t[j - i];
  }

  /** `r` sits at offset `i` of `s`, and every character of `s` around it is whitespace. */
  predicate StrippedAt(s: string, r: string, i: nat) {
    i + |r| <= |s| && r == s[i..i + |r|] &&
    (forall k :: 0 <= k < i ==> IsSpace(s[k])) &&
    (forall k :: i + |r| <= k < |s| ==> IsSpace(s[k]))
  }

  /** Leading whitespace in front of a string that does not start with whitespace is what `lstrip()` removes. */
  lemma {:induction false} TrimStartPadded(pad: string, t: string)
    requires AllSpace(pad) && (t == [] || !IsSpace(t[0]))
    ensures TrimStart(pad + t) == t
  {
    if pad == [] {
      assert pad + t == t;
    } else {
      assert (pad + t)[0] == pad[0];
      assert (pad + t)[1..] == pad[1..] + t;
      TrimStartPadded(pad[1..], t);
    }
  }

  /** Leading whitespace in front of a tight, non-empty string is all that `strip()` removes. */
  lemma StripPadded(pad: string, t: string)
    requires AllSpace(pad) && t != [] && Tight(t)
    ensures Strip(pad + t) == t
  {
    TrimStartPadded(pad, t);
  }

  // ---------------------------------------------------------------------------
  // 'sep'.join(...)
  // ---------------------------------------------------------------------------

  /** `sep.join(ts)` */
  function Join(ts: seq<string>, sep: string): string {
    if |ts| == 0 then ""
    else if |ts| == 1 then ts[0]
    else ts[0] + sep + Join(ts[1..], sep)
  }

  /** The joined string starts with the first piece and ends with the last. */
  lemma {:induction false} JoinEnds(ts: seq<string>, sep: string)
    requires |ts| > 0
    ensures |ts[0]| <= |Join(ts, sep)| && Join(ts, sep)[..|ts[0]|] == ts[0]
    ensures |ts[|ts| - 1]| <= |Join(ts, sep)|
    ensures Join(ts, sep)[|Join(ts, sep)| - |ts[|ts| - 1]|..] == ts[|ts| - 1]
  {
    if |ts| > 1 {
      JoinEnds(ts[1..], sep);
      var r := Join(ts, sep);
      assert r == ts[0] + sep + Join(ts[1..], sep);
      assert r[..|ts[0]|] == ts[0];
    }
  }

  // ---------------------------------------------------------------------------
  // str.split('\n')
  // ---------------------------------------------------------------------------

  /** `s.split('\n')`: every newline ends one piece; adjacent newlines give empty pieces. */
  function SplitLines(s: string): (r: seq<string>)
    ensures |r| >= 1
  {
    if s == [] then [""]
    else
      var t := SplitLines(s[1..]);
      if s[0] == '\n' then [""] + t
      else [[s[0]] + t[0]] + t[1..]
  }

  /** No piece contains a newline, and the first piece runs up to the first newline. */
  lemma {:induction false} SplitLinesShape(s: string)
    ensures forall i :: 0 <= i < |SplitLines(s)| ==> '\n' !in SplitLines(s)[i]
    ensures var r0 := SplitLines(s)[0];
      |r0| <= |s| && r0 == s[..|r0|] && (|r0| == |s| || s[|r0|] == '\n')
  {
    if s != [] {
      SplitLinesShape(s[1..]);
    }
  }

  /** A newline at the end of the text adds one empty piece after the others. */
  lemma {:induction false} SplitLinesNewline(s: string)
    ensures SplitLines(s + "\n") == SplitLines(s) + [""]
  {
    if s != [] {
      assert (s + "\n")[0] == s[0] && (s + "\n")[1..] == s[1..] + "\n";
      SplitLinesNewline(s[1..]);
      var t := SplitLines(s[1..]);
      assert (t + [""])[0] == t[0] && (t + [""])[1..] == t[1..] + [""];
    }
  }

  /** Prefixing a newline-free string extends the first piece only. */
  lemma {:induction false} SplitLinesPrepend(a: string, s: string)
    requires '\n' !in a
    ensures SplitLines(a + s) == [a + SplitLines(s)[0]] + SplitLines(s)[1..]
  {
    if a != [] {
      assert (a + s)[1..] == a[1..] + s;
      SplitLinesPrepend(a[1..], s);
      assert [a[0]] + (a[1..] + SplitLines(s)[0]) == a + SplitLines(s)[0];
    } else {
      assert a + s == s;
      assert a + SplitLines(s)[0] == SplitLines(s)[0];
      assert SplitLines(s) == [SplitLines(s)[0]] + SplitLines(s)[1..];
    }
  }

  /** A newline-free line followed by a newline is split off as one whole piece. */
  lemma SplitLinesCons(a: string, s: string)
    requires '\n' !in a
    ensures SplitLines(a + "\n" + s) == [a] + SplitLines(s)
  {
    SplitLinesPrepend(a, "\n" + s);
    assert a + "\n" + s == a + ("\n" + s);
    assert ("\n" + s)[0] == '\n' && ("\n" + s)[1..] == s;
    assert SplitLines("\n" + s) == [""] + SplitLines(s);
    assert a + "" == a;
  }

  /** Joining the pieces again with newlines gives back the original text. */
  lemma {:induction false} JoinSplitLines(s: string)
    ensures Join(SplitLines(s), "\n") == s
  {
    if s != [] {
      var t := SplitLines(s[1..]);
      JoinSplitLines(s[1..]);
      if s[0] == '\n' {
        assert s == "" + "\n" + s[1..];
      } else {
        if |t| == 1 {
          assert s == [s[0]] + t[0];
        } else {
          assert ([[s[0]] + t[0]] + t[1..])[1..] == t[1..];
          assert t[1..] == t[1..][..];
          assert Join(t, "\n") == t[0] + "\n" + Join(t[1..], "\n");
          assert s == [s[0]] + s[1..];
        }
      }
    }
  }

  /** Splitting a newline-joined list of newline-free lines gives back the lines. */
  lemma {:induction false} SplitLinesJoin(ls: seq<string>)
    requires |ls| >= 1
    requires forall i :: 0 <= i < |ls| ==> '\n' !in ls[i]
    ensures SplitLines(Join(ls, "\n")) == ls
  {
    if |ls| == 1 {
      SplitLinesPrepend(ls[0], "");
      assert ls[0] + "" == ls[0];
    } else {
      SplitLinesJoin(ls[1..]);
      SplitLinesCons(ls[0], Join(ls[1..], "\n"));
    }
  }

  // ---------------------------------------------------------------------------
  // re.split on `\s+` and `\W+`
  // ---------------------------------------------------------------------------

  /** `re.split(p, s)` where `p` is a run of one character class. A separator run at
      the start or the end of `s` produces an empty first or last token; tokens between
      two runs are never empty. */
  function ReSplit(p: Pattern, s: string): (r: seq<string>)
    ensures |r| >= 1
  {
    if s == [] then [""]
    else
      var t := ReSplit(p, s[1..]);
      if !IsSep(p, s[0]) then [[s[0]] + t[0]] + t[1..]
      else if |s| > 1 && IsSep(p, s[1]) then t
      else [""] + t
  }

  /** The shape of a split: tokens carry no separator, tokens between two runs are non-empty,
      the first token is the longest separator-free prefix, the last token is empty only when
      `s` ends in a separator, and there is a single token exactly when `s` has no separator. */
  lemma ReSplitShape(p: Pattern, s: string)
    ensures var r := ReSplit(p, s);
      (forall i :: 0 <= i < |r| ==> NoSep(p, r[i])) &&
      (forall i :: 0 < i < |r| - 1 ==> r[i] != []) &&
      (|r[0]| <= |s| && r[0] == s[..|r[0]|] && (|r[0]| == |s| || IsSep(p, s[|r[0]|]))) &&
      (s != [] && !IsSep(p, s[|s| - 1]) ==> r[|r| - 1] != []) &&
      (|r| == 1 <==> NoSep(p, s))
  {
    ReSplitTokens(p, s);
    ReSplitFirst(p, s);
    ReSplitLast(p, s);
  }

  /** Unfolding of `ReSplit` by the kind of its first character. */
  lemma ReSplitUnfold(p: Pattern, s: string)
    requires s != []
    ensures var t := ReSplit(p, s[1..]);
      ReSplit(p, s) ==
        if !IsSep(p, s[0]) then [[s[0]] + t[0]] + t[1..]
        else if |s| > 1 && IsSep(p, s[1]) then t
        else [""] + t
  {
  }

  /** Tokens carry no separator, and a token between two others is never empty. */
  lemma {:induction false} ReSplitTokens(p: Pattern, s: string)
    ensures var r := ReSplit(p, s);
      (forall i :: 0 <= i < |r| ==> NoSep(p, r[i])) &&
      (forall i :: 0 < i < |r| - 1 ==> r[i] != [])
  {
    if s != [] {
      var t := ReSplit(p, s[1..]);
      ReSplitTokens(p, s[1..]);
      ReSplitUnfold(p, s);
      if !IsSep(p, s[0]) {
        var r := [[s[0]] + t[0]] + t[1..];
        assert NoSep(p, r[0]);
        assert forall i :: 0 < i < |r| ==> r[i] == t[i];
      } else if !(|s| > 1 && IsSep(p, s[1])) {
        var r := [""] + t;
        assert forall i :: 0 < i < |r| ==> r[i] == t[i - 1];
        ReSplitFirst(p, s[1..]);
        assert |s| > 1 ==> s[1..][0] == s[1];
        assert |r| > 2 ==> t[0] != [];
      }
    }
  }

  /** `f` is the longest separator-free prefix of `s`. */
  predicate FirstToken(p: Pattern, s: string, f: string) {
    |f| <= |s| && f == s[..|f|] && NoSep(p, f) && (|f| == |s| || IsSep(p, s[|f|]))
  }

  /** A leading non-separator extends the longest separator-free prefix by one character. */
  lemma FirstTokenCons(p: Pattern, s: string, f: string)
    requires s != [] && !IsSep(p, s[0]) && FirstToken(p, s[1..], f)
    ensures FirstToken(p, s, [s[0]] + f)
  {
    var n := |f|;
    assert f == s[1..n + 1];
    assert [s[0]] + s[1..n + 1] == s[..n + 1];
    assert n < |s| - 1 ==> s[1..][n] == s[n + 1];
  }

  /** A string has no separator exactly when its first character is none and its rest has none. */
  lemma NoSepCons(p: Pattern, s: string)
    requires s != []
    ensures NoSep(p, s) <==> !IsSep(p, s[0]) && NoSep(p, s[1..])
  {
    assert forall i :: 1 <= i < |s| ==> s[i] == s[1..][i - 1];
  }

  /** The first token is the longest separator-free prefix; there is one token exactly when
      there is no separator at all. */
  lemma {:induction false} ReSplitFirst(p: Pattern, s: string)
    ensures var r := ReSplit(p, s);
      FirstToken(p, s, r[0]) && (|r| == 1 <==> NoSep(p, s))
  {
    if s != [] {
      var t := ReSplit(p, s[1..]);
      ReSplitFirst(p, s[1..]);
      ReSplitUnfold(p, s);
      NoSepCons(p, s);
      if !IsSep(p, s[0]) {
        FirstTokenCons(p, s, t[0]);
      } else if |s| > 1 && IsSep(p, s[1]) {
        assert s[1..][0] == s[1];
        assert t[0] == [];
      }
    }
  }

  /** A string ending in a non-separator ends with a non-empty token. */
  lemma {:induction false} ReSplitLast(p: Pattern, s: string)
    ensures var r := ReSplit(p, s);
      s != [] && !IsSep(p, s[|s| - 1]) ==> r[|r| - 1] != []
  {
    if s != [] && !IsSep(p, s[|s| - 1]) {
      var t := ReSplit(p, s[1..]);
      ReSplitUnfold(p, s);
      if |s| > 1 {
        assert s[1..][|s[1..]| - 1] == s[|s| - 1];
        ReSplitLast(p, s[1..]);
      }
    }
  }

  /** A leading non-separator character belongs to the first token. */
  lemma ReSplitCons(p: Pattern, c: char, s: string)
    requires !IsSep(p, c)
    ensures ReSplit(p, [c] + s) == [[c] + ReSplit(p, s)[0]] + ReSplit(p, s)[1..]
  {
    assert ([c] + s)[1..] == s;
  }

  /** Prefixing a separator-free string extends the first token only. */
  lemma {:induction false} ReSplitPrepend(p: Pattern, a: string, s: string)
    requires NoSep(p, a)
    ensures ReSplit(p, a + s) == [a + ReSplit(p, s)[0]] + ReSplit(p, s)[1..]
  {
    var t := ReSplit(p, s);
    if a != [] {
      assert a + s == [a[0]] + (a[1..] + s);
      ReSplitPrepend(p, a[1..], s);
      ReSplitCons(p, a[0], a[1..] + s);
      assert [a[0]] + (a[1..] + t[0]) == a + t[0];
    } else {
      assert a + s == s;
      assert a + t[0] == t[0];
      assert t == [t[0]] + t[1..];
    }
  }

  /** A non-empty separator run closes the token before it; the rest splits on its own. */
  lemma {:induction false} ReSplitSepRun(p: Pattern, sep: string, w: string)
    requires sep != [] && AllSep(p, sep)
    requires w == [] || !IsSep(p, w[0])
    ensures ReSplit(p, sep + w) == [""] + ReSplit(p, w)
  {
    var s := sep + w;
    assert s[0] == sep[0];
    if |sep| == 1 {
      assert s[1..] == w;
    } else {
      assert s[1] == sep[1];
      assert s[1..] == sep[1..] + w;
      ReSplitSepRun(p, sep[1..], w);
    }
  }

  /** A separator-free token followed by a separator run is split off as one whole token. */
  lemma ReSplitTokenThenRun(p: Pattern, t: string, sep: string, rest: string)
    requires NoSep(p, t) && sep != [] && AllSep(p, sep)
    requires rest == [] || !IsSep(p, rest[0])
    ensures ReSplit(p, t + sep + rest) == [t] + ReSplit(p, rest)
  {
    ReSplitSepRun(p, sep, rest);
    ReSplitPrepend(p, t, sep + rest);
    assert t + sep + rest == t + (sep + rest);
    assert t + "" == t;
  }

  /** The tokens a split can produce: free of separators, and non-empty between two runs. */
  predicate SplitShaped(p: Pattern, ts: seq<string>) {
    |ts| >= 1 &&
    (forall i :: 0 <= i < |ts| ==> NoSep(p, ts[i])) &&
    (forall i :: 0 < i < |ts| - 1 ==> ts[i] != [])
  }

  /** Separator runs: each gap is non-empty and made of separators only. */
  predicate SepRuns(p: Pattern, gaps: seq<string>) {
    forall i :: 0 <= i < |gaps| ==> gaps[i] != [] && AllSep(p, gaps[i])
  }

  /** The tokens `ts` laid out with `gaps[i]` between `ts[i]` and `ts[i + 1]`: a line of fields
      with any spacing. It starts with the first token and ends with the last. */
  function JoinWith(ts: seq<string>, gaps: seq<string>): (r: string)
    requires |ts| == |gaps| + 1
    ensures ts[0] != [] ==> r != [] && r[0] == ts[0][0]
    ensures var last := ts[|ts| - 1]; last != [] ==> r != [] && r[|r| - 1] == last[|last| - 1]
    decreases |ts|
  {
    if |ts| == 1 then ts[0]
    else
      var rest := JoinWith(ts[1..], gaps[1..]);
      assert ts[1..][|ts[1..]| - 1] == ts[|ts| - 1];
      ts[0] + gaps[0] + rest
  }

  /** A character that is in no token and in no gap is not in the laid-out line. */
  lemma {:induction false} JoinWithAvoids(ts: seq<string>, gaps: seq<string>, c: char)
    requires |ts| == |gaps| + 1
    requires forall i :: 0 <= i < |ts| ==> c !in ts[i]
    requires forall i :: 0 <= i < |gaps| ==> c !in gaps[i]
    ensures c !in JoinWith(ts, gaps)
    decreases |ts|
  {
    if |ts| > 1 {
      JoinWithAvoids(ts[1..], gaps[1..], c);
    }
  }

  /** A laid-out line whose first token is separator-free, and non-empty when more follow,
      does not start with a separator. */
  lemma JoinWithStart(p: Pattern, ts: seq<string>, gaps: seq<string>)
    requires |ts| == |gaps| + 1 && NoSep(p, ts[0]) && (|ts| > 1 ==> ts[0] != [])
    ensures JoinWith(ts, gaps) == [] || !IsSep(p, JoinWith(ts, gaps)[0])
  {
  }

  /** One step of the induction below: the first token and its gap come off, the rest splits as
      before. */
  lemma ReSplitJoinWithStep(p: Pattern, ts: seq<string>, gaps: seq<string>)
    requires |ts| > 1 && |ts| == |gaps| + 1 && NoSep(p, ts[0]) && gaps[0] != [] && AllSep(p, gaps[0])
    requires ReSplit(p, JoinWith(ts[1..], gaps[1..])) == ts[1..]
    requires JoinWith(ts[1..], gaps[1..]) == [] || !IsSep(p, JoinWith(ts[1..], gaps[1..])[0])
    ensures ReSplit(p, JoinWith(ts, gaps)) == ts
  {
    var rest := JoinWith(ts[1..], gaps[1..]);
    ReSplitTokenThenRun(p, ts[0], gaps[0], rest);
    assert JoinWith(ts, gaps) == ts[0] + gaps[0] + rest;
    assert [ts[0]] + ts[1..] == ts;
  }

  /** Splitting tokens laid out with separator runs of any length gives back exactly those
      tokens: `re.split` is the inverse of the layout. */
  lemma {:induction false} ReSplitJoinWith(p: Pattern, ts: seq<string>, gaps: seq<string>)
    requires |ts| == |gaps| + 1 && SplitShaped(p, ts) && SepRuns(p, gaps)
    ensures ReSplit(p, JoinWith(ts, gaps)) == ts
    decreases |ts|
  {
    if |ts| == 1 {
      ReSplitPrepend(p, ts[0], "");
      assert ts[0] + "" == ts[0];
    } else {
      assert SplitShaped(p, ts[1..]);
      assert SepRuns(p, gaps[1..]);
      ReSplitJoinWith(p, ts[1..], gaps[1..]);
      JoinWithStart(p, ts[1..], gaps[1..]);
      ReSplitJoinWithStep(p, ts, gaps);
    }
  }

  /** A non-empty string with no whitespace at either end splits into non-empty tokens only. */
  lemma TightTokensNonEmpty(p: Pattern, s: string)
    requires s != [] && !IsSep(p, s[0]) && !IsSep(p, s[|s| - 1])
    ensures forall i :: 0 <= i < |ReSplit(p, s)| ==> ReSplit(p, s)[i] != []
  {
    ReSplitShape(p, s);
  }

  // ---------------------------------------------------------------------------
  // re.match('([0-9]+):(.*)', s)
  // ---------------------------------------------------------------------------

  /** The length of the longest all-digit prefix of `s`. */
  function DigitRun(s: string): (n: nat)
    ensures n <= |s| && AllDigits(s[..n]) && (n == |s| || !IsDigit(s[n]))
  {
    if s != [] && IsDigit(s[0]) then
      var n := 1 + DigitRun(s[1..]);
      assert s[..n] == [s[0]] + s[1..][..n - 1];
      n
    else
      0
  }

  /** The digit run of digits followed by a non-digit is exactly those digits. */
  lemma {:induction false} DigitRunOf(id: string, rest: string)
    requires AllDigits(id) && (rest == [] || !IsDigit(rest[0]))
    ensures DigitRun(id + rest) == |id|
  {
    if id == [] {
      assert id + rest == rest;
    } else {
      assert (id + rest)[0] == id[0];
      assert (id + rest)[1..] == id[1..] + rest;
      DigitRunOf(id[1..], rest);
    }
  }

  /** `re.match('([0-9]+):(.*)', s)`: on a match, `Some((group(1), group(2)))`.
      The pattern is anchored at the start; `.` stops at the first newline. */
  function MatchIdPrefix(s: string): (r: Option<(string, string)>)
    ensures r.Some? ==> var id := r.value.0;
      id != [] && AllDigits(id) && |id| < |s| && s[..|id|] == id && s[|id|] == ':' &&
      '\n' !in r.value.1
  {
    var k := DigitRun(s);
    if 0 < k < |s| && s[k] == ':' then
      SplitLinesShape(s[k + 1..]);
      Some((s[..k], SplitLines(s[k + 1..])[0]))
    else
      None
  }

  /** The match succeeds exactly when `s` starts with one or more digits and a colon;
      group 1 is then those digits and group 2 the rest of the first line. */
  lemma MatchIdPrefixSpec(s: string)
    ensures MatchIdPrefix(s).Some? <==> exists k :: 0 < k < |s| && AllDigits(s[..k]) && s[k] == ':'
    ensures MatchIdPrefix(s).Some? ==>
      var id := MatchIdPrefix(s).value.0;
      0 < |id| < |s| && AllDigits(id) && s[..|id|] == id && s[|id|] == ':' &&
      MatchIdPrefix(s).value.1 == SplitLines(s[|id| + 1..])[0]
  {
  }

  /** A header `digits:rest` is recognised, with the digits as group 1 and the rest of the line as group 2. */
  lemma MatchIdPrefixOf(id: string, rest: string)
    requires id != [] && AllDigits(id) && '\n' !in rest
    ensures MatchIdPrefix(id + ":" + rest) == Some((id, rest))
  {
    var s := id + ":" + rest;
    assert s == id + (":" + rest);
    DigitRunOf(id, ":" + rest);
    assert s[..|id|] == id && s[|id|] == ':';
    assert s[|id| + 1..] == rest;
    SplitLinesPrepend(rest, "");
    assert rest + "" == rest;
  }

  // ---------------------------------------------------------------------------
  // Python values, truthiness, str()
  // ---------------------------------------------------------------------------

  function DigitChar(d: nat): (c: char)
    requires d < 10
    ensures IsDigit(c) && c as int - '0' as int == d
  {
    ('0' as int + d) as char
  }

  /** `str(n)` for a non-negative `int`: decimal digits without leading zeros. */
  function NatToDecimal(n: nat): (r: string)
    ensures r != [] && AllDigits(r)
    ensures |r| > 1 ==> r[0] != '0'
  {
    if n < 10 then [DigitChar(n)] else NatToDecimal(n / 10) + [DigitChar(n % 10)]
  }

  /** The number a string of decimal digits denotes (int(s) for such a string). */
  function DecimalValue(s: string): nat
    requires AllDigits(s)
  {
    if s == [] then 0 else 10 * DecimalValue(s[..|s| - 1]) + (s[|s| - 1] as int - '0' as int)
  }

  /** `str(n)` is read back as `n`. */
  lemma {:induction false} DecimalRoundTrip(n: nat)
    ensures DecimalValue(NatToDecimal(n)) == n
  {
    if n >= 10 {
      var r := NatToDecimal(n);
      assert r[..|r| - 1] == NatToDecimal(n / 10);
      DecimalRoundTrip(n / 10);
    }
  }

  /** `str(i)` for any `int`: a minus sign exactly for a negative number, then the decimal
      digits of its magnitude, which read back as that magnitude. */
  function IntToDecimal(i: int): (r: string)
    ensures r != [] && (r[0] == '-' <==> i < 0)
    ensures i >= 0 ==> AllDigits(r) && DecimalValue(r) == i
    ensures i < 0 ==> AllDigits(r[1..]) && DecimalValue(r[1..]) == -i
  {
    if i < 0 then
      var d := NatToDecimal(-i);
      DecimalRoundTrip(-i);
      assert ("-" + d)[1..] == d;
      "-" + d
    else
      DecimalRoundTrip(i);
      NatToDecimal(i)
  }

  /** The Python values a caller can pass where the module takes an optional id. */
  datatype PyValue = PyNone | PyInt(i: int) | PyStr(s: string)

  /** Python truthiness: `None`, `0` and `''` are false, and every other value is true. */
  predicate Truthy(v: PyValue): (b: bool)
    ensures !b <==> v == PyNone || v == PyInt(0) || v == PyStr("")
  {
    match v
    case PyNone => false
    case PyInt(i) => i != 0
    case PyStr(s) => s != []
  }

  /** `str(v)`: a string is itself, and a non-negative integer is the digits that read back as it. */
  function Str(v: PyValue): (r: string)
    ensures v.PyStr? ==> r == v.s
    ensures v.PyInt? && v.i >= 0 ==> r != [] && AllDigits(r) && DecimalValue(r) == v.i
  {
    match v
    case PyNone => "None"
    case PyInt(i) => IntToDecimal(i)
    case PyStr(s) => s
  }
}
