/** The layout of `/proc/user_beancounters` as `get_beancounters` reads it, and the proof that
    parsing a file laid out this way yields exactly the table it was written from. A block per
    container: a header line `<id>:<first row>` and one line per further row, each row a
    resource name followed by its held, maxheld, barrier, limit and failcnt numbers. The
    padding in front of the id, after the colon, in front of each row and between the columns
    is any run of in-line whitespace, as the kernel pads its columns to align them. */
module BeancounterFile {
  import opened PyText
  import opened OpenVz

  /** One resource row of a container's block. */
  datatype Row = Row(name: string, entry: Entry)

  /** The whitespace between the six columns of a row. */
  type RowGaps = g: seq<string> | |g| == 5 witness [" ", " ", " ", " ", " "]

  /** A row as it stands on its line: the padding in front of it and between its columns. */
  datatype Line = Line(pad: string, row: Row, gaps: RowGaps)

  /** One container's block: the header line `<indent><id>:` followed by the first row, then
      one line per further row. */
  datatype Block = Block(indent: string, id: string, first: Line, more: seq<Line>)

  /** A field the file can hold: a non-empty run of word characters. */
  predicate Token(t: string) {
    t != [] && NoSep(NonWord, t)
  }

  function Fields(r: Row): seq<string> {
    [r.name, r.entry.held, r.entry.maxheld, r.entry.barrier, r.entry.limit, r.entry.failcnt]
  }

  predicate ValidRow(r: Row) {
    Token(r.name) && Token(r.entry.held) && Token(r.entry.maxheld) &&
    Token(r.entry.barrier) && Token(r.entry.limit) && Token(r.entry.failcnt)
  }

  predicate ValidLine(l: Line) {
    ValidRow(l.row) && Blank(l.pad) && BlankRuns(l.gaps)
  }

  predicate ValidLines(ls: seq<Line>) {
    forall i :: 0 <= i < |ls| ==> ValidLine(ls[i])
  }

  predicate ValidBlock(b: Block) {
    Blank(b.indent) && b.id != [] && AllDigits(b.id) && ValidLine(b.first) && ValidLines(b.more)
  }

  predicate ValidBlocks(bs: seq<Block>) {
    forall i :: 0 <= i < |bs| ==> ValidBlock(bs[i])
  }

  // ---------------------------------------------------------------------------
  // Rendering
  // ---------------------------------------------------------------------------

  /** The six columns of a row with its gaps between them. */
  function RowText(l: Line): string {
    JoinWith(Fields(l.row), l.gaps)
  }

  /** The header line of a block: the id and a colon, then the first row. */
  function HeaderLine(b: Block): string {
    b.indent + b.id + ":" + b.first.pad + RowText(b.first)
  }

  /** A continuation line, indented past the id column. */
  function RowLine(l: Line): string {
    l.pad + RowText(l)
  }

  function RowLines(ls: seq<Line>): seq<string> {
    if ls == [] then [] else [RowLine(ls[0])] + RowLines(ls[1..])
  }

  function BlockLines(b: Block): seq<string> {
    [HeaderLine(b)] + RowLines(b.more)
  }

  function BodyLines(bs: seq<Block>): seq<string> {
    if bs == [] then [] else BlockLines(bs[0]) + BodyLines(bs[1..])
  }

  /** The whole file: the version line, the column-title line, then the blocks. */
  function Render(version: string, titles: string, bs: seq<Block>): string {
    Join([version, titles] + BodyLines(bs), "\n")
  }

  // ---------------------------------------------------------------------------
  // What the file means
  // ---------------------------------------------------------------------------

  /** Rows stored in order under their names; a later row of the same name wins. */
  function AddRows(m: Counters, ls: seq<Line>): Counters
    decreases |ls|
  {
    if ls == [] then m else AddRows(m[ls[0].row.name := ls[0].row.entry], ls[1..])
  }

  function CountersOf(b: Block): Counters {
    AddRows(map[b.first.row.name := b.first.row.entry], b.more)
  }

  /** Blocks stored in order under their ids; a later block of the same id replaces the earlier. */
  function AddBlocks(t: Table, bs: seq<Block>): Table
    decreases |bs|
  {
    if bs == [] then t else AddBlocks(t[bs[0].id := CountersOf(bs[0])], bs[1..])
  }

  function TableOf(bs: seq<Block>): Table {
    AddBlocks(map[], bs)
  }

  // ---------------------------------------------------------------------------
  // Lines of one row
  // ---------------------------------------------------------------------------

  lemma TokenAvoids(t: string, c: char)
    requires Token(t) && !IsWordChar(c)
    ensures c !in t
  {
  }

  /** What the loop relies on in a row's text `t`: it splits back into the fields of `r`, is
      stripped already, and holds neither a newline nor a colon. */
  predicate RowTextOk(t: string, r: Row) {
    t != [] && Tight(t) && '\n' !in t && ':' !in t && ReSplit(NonWord, t) == Fields(r)
  }

  /** In-line whitespace separates word tokens and holds neither a newline nor a colon. */
  lemma BlankRunsSeparate(gaps: seq<string>)
    requires BlankRuns(gaps)
    ensures SepRuns(NonWord, gaps)
    ensures forall i :: 0 <= i < |gaps| ==> '\n' !in gaps[i] && ':' !in gaps[i]
  {
    forall i, k | 0 <= i < |gaps| && 0 <= k < |gaps[i]| ensures IsSep(NonWord, gaps[i][k]) && gaps[i][k] != ':' {
      assert IsSpace(gaps[i][k]);
    }
  }

  /** A rendered row is one tight line without a colon, and `\W+` splits it into its six fields. */
  lemma RowTextShape(l: Line)
    requires ValidLine(l)
    ensures RowTextOk(RowText(l), l.row)
  {
    var fs := Fields(l.row);
    assert SplitShaped(NonWord, fs);
    BlankRunsSeparate(l.gaps);
    ReSplitJoinWith(NonWord, fs, l.gaps);
    var s := RowText(l);
    assert s[0] == fs[0][0];
    assert s[|s| - 1] == fs[5][|fs[5]| - 1];
    assert !IsSep(NonWord, fs[0][0]) && !IsSep(NonWord, fs[5][|fs[5]| - 1]);
    forall i | 0 <= i < |fs| ensures '\n' !in fs[i] && ':' !in fs[i] {
      TokenAvoids(fs[i], '\n');
      TokenAvoids(fs[i], ':');
    }
    JoinWithAvoids(fs, l.gaps, '\n');
    JoinWithAvoids(fs, l.gaps, ':');
  }

  /** The counter name and the entry the loop reads from a row's text are the row's own. */
  lemma RowTextParses(t: string, r: Row)
    requires RowTextOk(t, r)
    ensures CounterName(t) == r.name && ParseBeancountersLine(t) == Ok(r.entry)
  {
  }

  /** A text holding no colon is never a header. */
  lemma NoColonNoHeader(s: string)
    requires ':' !in s
    ensures MatchIdPrefix(s).None?
  {
    MatchIdPrefixSpec(s);
  }

  /** An indented row is read as a counter line. */
  lemma PaddedRowStep(st: ParseState, pad: string, t: string, r: Row)
    requires AllSpace(pad) && RowTextOk(t, r)
    ensures Step(st, pad + t) == CounterStep(st, t)
  {
    StripPadded(pad, t);
    NoColonNoHeader(t);
    OtherLineStep(st, pad + t);
  }

  /** A continuation line writes its row into the current container. */
  lemma RowLineStep(st: ParseState, l: Line)
    requires ValidLine(l) && st.veid.Some? && st.veid.value in st.out
    ensures var id := st.veid.value;
      Step(st, RowLine(l)) == Ok(ParseState(st.veid, st.out[id := st.out[id][l.row.name := l.row.entry]]))
  {
    var t := RowText(l);
    RowTextShape(l);
    RowTextParses(t, l.row);
    PaddedRowStep(st, l.pad, t, l.row);
  }

  /** An indented header `<id>:<pad><t>` strips to `<id>:` followed by the padded `t`. */
  lemma HeaderTextStripped(indent: string, id: string, pad: string, t: string)
    requires AllSpace(indent) && id != [] && AllDigits(id) && t != [] && Tight(t)
    ensures Strip(indent + id + ":" + pad + t) == id + ":" + (pad + t)
  {
    var u := id + ":" + pad + t;
    assert u[0] == id[0];
    assert u[|u| - 1] == t[|t| - 1];
    assert indent + id + ":" + pad + t == indent + u;
    StripPadded(indent, u);
    assert u == id + ":" + (pad + t);
  }

  /** The loop reads `<id>` and `<pad><t>` out of an indented header line. */
  lemma HeaderTextMatch(indent: string, id: string, pad: string, t: string)
    requires AllSpace(indent) && id != [] && AllDigits(id) && t != [] && Tight(t)
    requires '\n' !in pad && '\n' !in t
    ensures MatchIdPrefix(Strip(indent + id + ":" + pad + t)) == Some((id, pad + t))
  {
    HeaderTextStripped(indent, id, pad, t);
    assert '\n' !in pad + t;
    MatchIdPrefixOf(id, pad + t);
  }

  /** A header line starts the block's container afresh with the block's first row. */
  lemma HeaderLineParses(st: ParseState, b: Block)
    requires ValidBlock(b)
    ensures Step(st, HeaderLine(b)) ==
      Ok(ParseState(Some(b.id), st.out[b.id := map[b.first.row.name := b.first.row.entry]]))
  {
    var t := RowText(b.first);
    RowTextShape(b.first);
    RowTextParses(t, b.first.row);
    HeaderTextMatch(b.indent, b.id, b.first.pad, t);
    StripPadded(b.first.pad, t);
    HeaderLineStep(st, HeaderLine(b), b.id, b.first.pad + t);
  }

  /** A second write to the same key hides the first. */
  lemma UpdateTwice<K, V>(m: map<K, V>, k: K, a: V, b: V)
    ensures m[k := a][k := b] == m[k := b]
  {
  }

  // ---------------------------------------------------------------------------
  // Running the loop over rendered lines
  // ---------------------------------------------------------------------------

  /** The loop over two stretches of lines is the loop over the first, then over the second. */
  lemma {:induction false} RunAppend(st: ParseState, a: seq<string>, b: seq<string>)
    ensures Run(st, a).Err? ==> Run(st, a + b) == Run(st, a)
    ensures Run(st, a).Ok? ==> Run(st, a + b) == Run(Run(st, a).value, b)
    decreases |a|
  {
    if a == [] {
      assert a + b == b;
    } else {
      assert (a + b)[0] == a[0] && (a + b)[1..] == a[1..] + b;
      var s := Step(st, a[0]);
      if s.Ok? {
        RunAppend(s.value, a[1..], b);
      }
    }
  }

  /** The loop's first turn on a line followed by more lines. */
  lemma RunFirst(st: ParseState, line: string, lines: seq<string>)
    ensures Step(st, line).Ok? ==> Run(st, [line] + lines) == Run(Step(st, line).value, lines)
  {
    var all := [line] + lines;
    RunAt(st, all, 0);
    assert all[0..] == all && all[0] == line && all[1..] == lines;
  }

  lemma {:induction false} RowLinesRun(st: ParseState, ls: seq<Line>)
    requires st.veid.Some? && st.veid.value in st.out && ValidLines(ls)
    ensures var id := st.veid.value;
      Run(st, RowLines(ls)) == Ok(ParseState(st.veid, st.out[id := AddRows(st.out[id], ls)]))
    decreases |ls|
  {
    var id := st.veid.value;
    if ls == [] {
      assert st.out[id := st.out[id]] == st.out;
    } else {
      var r := ls[0].row;
      RowLineStep(st, ls[0]);
      var next := ParseState(st.veid, st.out[id := st.out[id][r.name := r.entry]]);
      RunFirst(st, RowLine(ls[0]), RowLines(ls[1..]));
      assert ValidLines(ls[1..]) by {
        forall i | 0 <= i < |ls[1..]| ensures ValidLine(ls[1..][i]) {
          assert ls[1..][i] == ls[i + 1];
        }
      }
      RowLinesRun(next, ls[1..]);
      UpdateTwice(st.out, id, st.out[id][r.name := r.entry], AddRows(st.out[id], ls));
    }
  }

  /** A block's lines set its container to exactly the block's rows. */
  lemma BlockLinesRun(st: ParseState, b: Block)
    requires ValidBlock(b)
    ensures Run(st, BlockLines(b)) == Ok(ParseState(Some(b.id), st.out[b.id := CountersOf(b)]))
  {
    HeaderLineParses(st, b);
    var first := map[b.first.row.name := b.first.row.entry];
    var next := ParseState(Some(b.id), st.out[b.id := first]);
    RunFirst(st, HeaderLine(b), RowLines(b.more));
    RowLinesRun(next, b.more);
    UpdateTwice(st.out, b.id, first, CountersOf(b));
  }

  lemma {:induction false} BodyLinesRun(st: ParseState, bs: seq<Block>)
    requires ValidBlocks(bs)
    ensures Run(st, BodyLines(bs)).Ok?
    ensures Run(st, BodyLines(bs)).value.out == AddBlocks(st.out, bs)
    decreases |bs|
  {
    if bs != [] {
      BlockLinesRun(st, bs[0]);
      RunAppend(st, BlockLines(bs[0]), BodyLines(bs[1..]));
      var next := ParseState(Some(bs[0].id), st.out[bs[0].id := CountersOf(bs[0])]);
      assert ValidBlocks(bs[1..]) by {
        forall i | 0 <= i < |bs[1..]| ensures ValidBlock(bs[1..][i]) {
          assert bs[1..][i] == bs[i + 1];
        }
      }
      BodyLinesRun(next, bs[1..]);
    }
  }

  // ---------------------------------------------------------------------------
  // The whole file
  // ---------------------------------------------------------------------------

  lemma {:induction false} RowLinesAvoidNewline(ls: seq<Line>)
    requires ValidLines(ls)
    ensures forall i :: 0 <= i < |RowLines(ls)| ==> '\n' !in RowLines(ls)[i]
    decreases |ls|
  {
    if ls != [] {
      RowTextShape(ls[0]);
      assert ValidLines(ls[1..]) by {
        forall i | 0 <= i < |ls[1..]| ensures ValidLine(ls[1..][i]) {
          assert ls[1..][i] == ls[i + 1];
        }
      }
      RowLinesAvoidNewline(ls[1..]);
    }
  }

  lemma {:induction false} BodyLinesAvoidNewline(bs: seq<Block>)
    requires ValidBlocks(bs)
    ensures forall i :: 0 <= i < |BodyLines(bs)| ==> '\n' !in BodyLines(bs)[i]
    decreases |bs|
  {
    if bs != [] {
      var b := bs[0];
      RowTextShape(b.first);
      RowLinesAvoidNewline(b.more);
      assert '\n' !in HeaderLine(b);
      assert ValidBlocks(bs[1..]) by {
        forall i | 0 <= i < |bs[1..]| ensures ValidBlock(bs[1..][i]) {
          assert bs[1..][i] == bs[i + 1];
        }
      }
      BodyLinesAvoidNewline(bs[1..]);
    }
  }

  /** Below the two leading lines, the loop sees exactly the rendered body. */
  lemma RenderedCounterLines(version: string, titles: string, bs: seq<Block>)
    requires '\n' !in version && '\n' !in titles && ValidBlocks(bs)
    ensures CounterLines(Render(version, titles, bs)) == BodyLines(bs)
    ensures |SplitLines(Render(version, titles, bs))| == |BodyLines(bs)| + 2
  {
    var ls := [version, titles] + BodyLines(bs);
    BodyLinesAvoidNewline(bs);
    SplitLinesJoin(ls);
    assert ls[2..] == BodyLines(bs);
  }

  /** Parsing a rendered file, whatever its padding, gives back the table it was rendered from. */
  lemma RenderRoundTrip(version: string, titles: string, bs: seq<Block>)
    requires '\n' !in version && '\n' !in titles && ValidBlocks(bs)
    ensures ParseBeancounters(Render(version, titles, bs)) == Ok(TableOf(bs))
  {
    RenderedCounterLines(version, titles, bs);
    BodyLinesRun(Start, bs);
  }
  /** A file that ends its last line with a newline has one more, empty, line for the loop. */
  lemma RenderedCounterLinesNewline(version: string, titles: string, bs: seq<Block>)
    requires '\n' !in version && '\n' !in titles && ValidBlocks(bs)
    ensures CounterLines(Render(version, titles, bs) + "\n") == BodyLines(bs) + [""]
  {
    var text := Render(version, titles, bs);
    RenderedCounterLines(version, titles, bs);
    SplitLinesNewline(text);
    var all := SplitLines(text);
    assert (all + [""])[2..] == all[2..] + [""];
  }

  /** The same round trip when the file ends with a newline, as the kernel writes it: the empty
      piece after the last newline changes nothing. */
  lemma RenderNewlineRoundTrip(version: string, titles: string, bs: seq<Block>)
    requires '\n' !in version && '\n' !in titles && ValidBlocks(bs)
    ensures ParseBeancounters(Render(version, titles, bs) + "\n") == Ok(TableOf(bs))
  {
    RenderedCounterLinesNewline(version, titles, bs);
    BodyLinesRun(Start, bs);
    RunAppend(Start, BodyLines(bs), [""]);
    var st := Run(Start, BodyLines(bs)).value;
    BlankLineKeepsState(st, "");
    assert Run(st, [""]) == Ok(st);
  }

  // ---------------------------------------------------------------------------
  // A worked example: two containers, the first with two counters
  // ---------------------------------------------------------------------------

  /** The padding of the example, in the kernel's style: ids right-aligned under an indent,
      continuation rows aligned under the first row, columns separated by several spaces. */
  const ExampleIndent: string := "      "
  const ExamplePad: string := "  "
  const ExampleRowPad: string := "         "
  const ExampleGaps: RowGaps := ["   ", "     ", "     ", "     ", "    "]

  function ExampleBlocks(): seq<Block> {
    [Block(ExampleIndent, "101",
           Line(ExamplePad, Row("kmemsize", Entry("100", "200", "300", "400", "0")), ExampleGaps),
           [Line(ExampleRowPad, Row("lockedpages", Entry("0", "0", "10", "10", "0")), ExampleGaps)]),
     Block(ExampleIndent, "102",
           Line(ExamplePad, Row("kmemsize", Entry("50", "60", "70", "80", "1")), ExampleGaps), [])]
  }

  lemma ExampleBlocksValid()
    ensures ValidBlocks(ExampleBlocks())
  {
    var bs := ExampleBlocks();
    ExampleRowsValid();
    ExampleSpacingValid();
    assert ValidLines(bs[0].more) && ValidLines(bs[1].more);
    assert ValidBlock(bs[0]) && ValidBlock(bs[1]);
  }

  lemma ExampleSpacingValid()
    ensures Blank(ExampleIndent) && Blank(ExamplePad) && Blank(ExampleRowPad)
    ensures BlankRuns(ExampleGaps)
  {
    var g := ExampleGaps;
    assert Blank(g[0]) && Blank(g[1]) && Blank(g[4]);
  }

  lemma ExampleRowsValid()
    ensures ValidRow(Row("kmemsize", Entry("100", "200", "300", "400", "0")))
    ensures ValidRow(Row("lockedpages", Entry("0", "0", "10", "10", "0")))
    ensures ValidRow(Row("kmemsize", Entry("50", "60", "70", "80", "1")))
  {
    assert Token("kmemsize") && Token("lockedpages");
    assert Token("0") && Token("1") && Token("10");
    assert Token("50") && Token("60") && Token("70") && Token("80");
    assert Token("100") && Token("200") && Token("300") && Token("400");
  }

  /** The table the example file stands for. */
  lemma ExampleTable()
    ensures TableOf(ExampleBlocks()) ==
      map["101" := map["kmemsize" := Entry("100", "200", "300", "400", "0"),
                       "lockedpages" := Entry("0", "0", "10", "10", "0")],
          "102" := map["kmemsize" := Entry("50", "60", "70", "80", "1")]]
  {
    var bs := ExampleBlocks();
    assert bs[1..][1..] == [];
    assert CountersOf(bs[0]) == map["kmemsize" := Entry("100", "200", "300", "400", "0"),
                                    "lockedpages" := Entry("0", "0", "10", "10", "0")] by {
      var m := map["kmemsize" := Entry("100", "200", "300", "400", "0")];
      assert bs[0].more[0].row == Row("lockedpages", Entry("0", "0", "10", "10", "0"));
      assert bs[0].more[1..] == [];
      assert AddRows(m, bs[0].more) == AddRows(m["lockedpages" := Entry("0", "0", "10", "10", "0")], []);
    }
    assert CountersOf(bs[1]) == map["kmemsize" := Entry("50", "60", "70", "80", "1")];
  }

  /** The queries the example answers, asked of the example's table. */
  lemma ExampleQueries(t: Table)
    requires t == map["101" := map["kmemsize" := Entry("100", "200", "300", "400", "0"),
                                   "lockedpages" := Entry("0", "0", "10", "10", "0")],
                      "102" := map["kmemsize" := Entry("50", "60", "70", "80", "1")]]
    ensures t.Keys == {"101", "102"} && t["101"].Keys == {"kmemsize", "lockedpages"}
    ensures SelectContainer(t, PyStr("102")) == OneContainer(map["kmemsize" := Entry("50", "60", "70", "80", "1")])
    ensures SelectContainer(t, PyStr("999")) == OneContainer(map[])
  {
    assert "999" != "101" && "999" != "102";
  }

  /** Container 101 keeps both its counters, 102 has only `kmemsize`; asking for 102 gives its
      counters, asking for an absent id gives an empty mapping rather than an error. */
  lemma ExampleFile(version: string, titles: string)
    requires '\n' !in version && '\n' !in titles
    ensures var r := ParseBeancounters(Render(version, titles, ExampleBlocks()));
      r.Ok? && r.value.Keys == {"101", "102"} &&
      r.value["101"].Keys == {"kmemsize", "lockedpages"} &&
      SelectContainer(r.value, PyStr("102")) ==
        OneContainer(map["kmemsize" := Entry("50", "60", "70", "80", "1")]) &&
      SelectContainer(r.value, PyStr("999")) == OneContainer(map[])
  {
    var bs := ExampleBlocks();
    ExampleBlocksValid();
    RenderRoundTrip(version, titles, bs);
    ExampleTable();
    ExampleQueries(TableOf(bs));
  }
}
