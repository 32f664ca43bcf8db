/** The OpenVZ host-inspection module: role detection from the `virtual` grain,
    the container listing produced by `vzlist`, and the per-container resource
    counters ("beancounters") of `/proc/user_beancounters`.
    The grains, the command runner and the file contents are parameters. */
module OpenVz {
  import opened PyText

  /** The Python exceptions the module lets escape. */
  datatype Error = IndexError | KeyError

  datatype Result<T> = Ok(value: T) | Err(error: Error)

  // ===========================================================================
  // Role predicates
  // ===========================================================================

  const VirtualGrain: string := "virtual"
  const HypervisorTag: string := "openvzhn"
  const ContainerTag: string := "openvzve"

  /** `__grains__['virtual'] == tag`; a missing grain is a `KeyError`. */
  function GrainIs(grains: map<string, string>, tag: string): (r: Result<bool>)
    ensures r.Err? <==> VirtualGrain !in grains
    ensures r.Err? ==> r.error == KeyError
    ensures r.Ok? ==> (r.value <==> grains[VirtualGrain] == tag)
  {
    if VirtualGrain in grains then Ok(grains[VirtualGrain] == tag) else Err(KeyError)
  }

  /** `is_openvz_hyper()`: whether this node is an OpenVZ hypervisor. */
  function IsOpenvzHyper(grains: map<string, string>): (r: Result<bool>)
    ensures r.Err? <==> VirtualGrain !in grains
    ensures r.Err? ==> r.error == KeyError
    ensures r.Ok? ==> (r.value <==> grains[VirtualGrain] == "openvzhn")
  {
    GrainIs(grains, HypervisorTag)
  }

  /** `is_openvz_ve()`: whether this node is an OpenVZ container. */
  function IsOpenvzVe(grains: map<string, string>): (r: Result<bool>)
    ensures r.Err? <==> VirtualGrain !in grains
    ensures r.Err? ==> r.error == KeyError
    ensures r.Ok? ==> (r.value <==> grains[VirtualGrain] == "openvzve")
  {
    GrainIs(grains, ContainerTag)
  }

  /** A node is never reported as both a hypervisor and a container, and the two
      predicates fail together. */
  lemma RolesExclusive(grains: map<string, string>)
    ensures !(IsOpenvzHyper(grains) == Ok(true) && IsOpenvzVe(grains) == Ok(true))
    ensures IsOpenvzHyper(grains).Err? <==> IsOpenvzVe(grains).Err?
  {
  }

  // ===========================================================================
  // Container listing
  // ===========================================================================

  /** One row of `vzlist`: CTID NPROC STATUS IP_ADDR HOSTNAME, kept as raw strings. */
  datatype VmInfo = VmInfo(ctid: string, nproc: string, status: string, ipAddr: string, hostname: string)

  /** The shell command `_list_vms` runs: all defined containers, or only the running ones. The
      two commands differ only in `vzlist`'s `-a` flag, and both drop the header line with
      `tail -n +2`. */
  function ListCommand(allVe: bool): (cmd: string)
    ensures cmd == "vzlist" + (if allVe then " -a" else "") + " | tail -n +2"
  {
    if allVe then "vzlist -a | tail -n +2" else "vzlist | tail -n +2"
  }

  /** One listing line: `re.split('\s+', line.strip())`, fields taken by position. It succeeds
      exactly when the line has at least five fields, and every field it keeps is then a non-empty
      run of non-whitespace; fewer fields is an `IndexError`. */
  function ParseVmLine(line: string): (r: Result<VmInfo>)
    ensures r.Ok? <==> |ReSplit(Spaces, Strip(line))| >= 5
    ensures r.Err? ==> r.error == IndexError
    ensures var f := ReSplit(Spaces, Strip(line));
      r.Ok? ==> r.value == VmInfo(f[0], f[1], f[2], f[3], f[4])
    ensures r.Ok? ==> ValidVm(r.value)
  {
    var s := Strip(line);
    var f := ReSplit(Spaces, s);
    if |f| < 5 then Err(IndexError)
    else
      ReSplitShape(Spaces, s);
      TightTokensNonEmpty(Spaces, s);
      Ok(VmInfo(f[0], f[1], f[2], f[3], f[4]))
  }

  /** `line` is a well-formed listing line and its record is `v`. */
  predicate ParsedAs(line: string, v: VmInfo) {
    ParseVmLine(line) == Ok(v)
  }

  /** `line` has at least five fields. */
  predicate WellFormedVmLine(line: string) {
    ParseVmLine(line).Ok?
  }

  /** All lines parsed in order: one valid record per line, or the error of the first failing
      line, which is always an `IndexError`. */
  function ParseVmLines(lines: seq<string>): (r: Result<seq<VmInfo>>)
    ensures r.Ok? ==> |r.value| == |lines| && forall i :: 0 <= i < |lines| ==> ValidVm(r.value[i])
    ensures r.Err? ==> r.error == IndexError
  {
    if lines == [] then Ok([])
    else
      match ParseVmLine(lines[0])
      case Err(e) => Err(e)
      case Ok(vm) =>
        match ParseVmLines(lines[1..])
        case Err(e) => Err(e)
        case Ok(rest) => Ok([vm] + rest)
  }

  /** The listing succeeds exactly when every line has five fields, and then it holds one
      record per line, in order. */
  lemma ParseVmLinesSpec(lines: seq<string>)
    ensures var r := ParseVmLines(lines);
      (r.Ok? <==> forall i :: 0 <= i < |lines| ==> WellFormedVmLine(lines[i])) &&
      (r.Ok? ==> forall i :: 0 <= i < |lines| ==> ParsedAs(lines[i], r.value[i]))
  {
    ParseVmLinesOk(lines);
    ParseVmLinesWellFormed(lines);
  }

  /** A successful listing holds, at each position, the record of the line there. */
  lemma {:induction false} ParseVmLinesOk(lines: seq<string>)
    ensures var r := ParseVmLines(lines);
      r.Ok? ==> forall i :: 0 <= i < |lines| ==> ParsedAs(lines[i], r.value[i])
  {
    var r := ParseVmLines(lines);
    if lines != [] && r.Ok? {
      var tail := lines[1..];
      ParseVmLinesOk(tail);
      var rest := ParseVmLines(tail).value;
      assert r.value == [ParseVmLine(lines[0]).value] + rest;
      forall i | 0 < i < |lines| ensures ParsedAs(lines[i], r.value[i]) {
        assert lines[i] == tail[i - 1] && r.value[i] == rest[i - 1];
      }
    }
  }

  /** The listing fails exactly when some line has fewer than five fields. */
  lemma {:induction false} ParseVmLinesWellFormed(lines: seq<string>)
    ensures ParseVmLines(lines).Ok? <==> forall i :: 0 <= i < |lines| ==> WellFormedVmLine(lines[i])
  {
    if lines != [] {
      var tail := lines[1..];
      ParseVmLinesWellFormed(tail);
      assert forall i :: 0 <= i < |tail| ==> tail[i] == lines[i + 1];
      if forall i :: 0 <= i < |lines| ==> WellFormedVmLine(lines[i]) {
        assert WellFormedVmLine(lines[0]);
        assert forall i :: 0 <= i < |tail| ==> WellFormedVmLine(tail[i]);
      } else {
        var k :| 0 <= k < |lines| && !WellFormedVmLine(lines[k]);
        if k > 0 {
          assert !WellFormedVmLine(tail[k - 1]);
        }
      }
    }
  }

  /** Lines each parsed as the corresponding record are parsed as the sequence of those records. */
  lemma ParsedLinesAre(lines: seq<string>, vms: seq<VmInfo>)
    requires |lines| == |vms|
    requires forall i :: 0 <= i < |lines| ==> ParsedAs(lines[i], vms[i])
    ensures ParseVmLines(lines) == Ok(vms)
  {
    ParseVmLinesSpec(lines);
    var r := ParseVmLines(lines);
    assert forall i :: 0 <= i < |lines| ==> WellFormedVmLine(lines[i]);
    assert r.Ok?;
    forall i | 0 <= i < |vms| ensures r.value[i] == vms[i] {
      assert ParsedAs(lines[i], r.value[i]) && ParsedAs(lines[i], vms[i]);
    }
    assert r.value == vms;
  }

  /** One line with fewer than five fields makes the whole listing fail. */
  lemma ParseVmLinesFails(lines: seq<string>, i: nat)
    requires i < |lines| && !WellFormedVmLine(lines[i])
    ensures ParseVmLines(lines) == Err(IndexError)
  {
    ParseVmLinesSpec(lines);
  }

  /** What `_list_vms` makes of the command output: `output.strip().split('\n')`, line by line.
      A successful listing is never empty, since even blank output is one line. */
  function VmListing(output: string): (r: Result<seq<VmInfo>>)
    ensures r.Ok? ==> |r.value| >= 1 && forall i :: 0 <= i < |r.value| ==> ValidVm(r.value[i])
  {
    ParseVmLines(SplitLines(Strip(output)))
  }

  /** The loop body of `_list_vms`: one line's fields, taken by position. */
  method ParseVmRow(line: string) returns (r: Result<VmInfo>)
    ensures r == ParseVmLine(line)
  {
    var veInfo := ReSplit(Spaces, Strip(line));
    if |veInfo| < 5 {
      return Err(IndexError);
    }
    r := Ok(VmInfo(veInfo[0], veInfo[1], veInfo[2], veInfo[3], veInfo[4]));
  }

  /** The loop of `_list_vms` over the command output: one record per line, in order. */
  method ParseListing(output: string) returns (r: Result<seq<VmInfo>>)
    ensures r == VmListing(output)
  {
    var vms: seq<VmInfo> := [];
    var lines := SplitLines(Strip(output));
    for i := 0 to |lines|
      invariant |vms| == i
      invariant forall j :: 0 <= j < i ==> ParsedAs(lines[j], vms[j])
    {
      var info := ParseVmRow(lines[i]);
      if info.Err? {
        ParseVmLinesFails(lines, i);
        return Err(IndexError);
      }
      vms := vms + [info.value];
    }
    ParsedLinesAre(lines, vms);
    r := Ok(vms);
  }

  /** `_list_vms(all_ve)`: runs the listing command and builds one record per output line. */
  method ListVms(allVe: bool, run: string -> string) returns (r: Result<seq<VmInfo>>)
    ensures r == VmListing(run(ListCommand(allVe)))
  {
    var cmd := ListCommand(allVe);
    r := ParseListing(run(cmd));
  }

  /** `list_vms()`: every defined container. */
  method ListAllVms(run: string -> string) returns (r: Result<seq<VmInfo>>)
    ensures r == VmListing(run("vzlist -a | tail -n +2"))
  {
    r := ListVms(true, run);
  }

  /** `list_active_vms()`: the running containers only. */
  method ListActiveVms(run: string -> string) returns (r: Result<seq<VmInfo>>)
    ensures r == VmListing(run("vzlist | tail -n +2"))
  {
    r := ListVms(false, run);
  }

  /** Output that is empty or only whitespace still gives one (empty) line, which fails. */
  lemma EmptyListingFails(output: string)
    requires AllSpace(output)
    ensures VmListing(output) == Err(IndexError)
  {
    StripAllSpace(output);
    assert SplitLines(Strip(output)) == [""];
    assert ParseVmLine("") == Err(IndexError);
  }

  predicate VmField(t: string) {
    t != [] && NoSep(Spaces, t)
  }

  /** A record every field of which is a non-empty, whitespace-free token. */
  predicate ValidVm(v: VmInfo) {
    VmField(v.ctid) && VmField(v.nproc) && VmField(v.status) && VmField(v.ipAddr) && VmField(v.hostname)
  }

  function VmFields(v: VmInfo): seq<string> {
    [v.ctid, v.nproc, v.status, v.ipAddr, v.hostname]
  }

  /** A line of whitespace-free fields, indented by whitespace and separated by runs of it, is
      read as its first five fields in order; any further fields are ignored. */
  lemma {:induction false} VmLineExtraFields(indent: string, ts: seq<string>, gaps: seq<string>)
    requires |ts| >= 5 && |ts| == |gaps| + 1
    requires forall i :: 0 <= i < |ts| ==> VmField(ts[i])
    requires AllSpace(indent) && SepRuns(Spaces, gaps)
    ensures ParseVmLine(indent + JoinWith(ts, gaps)) == Ok(VmInfo(ts[0], ts[1], ts[2], ts[3], ts[4]))
  {
    var t := JoinWith(ts, gaps);
    var last := ts[|ts| - 1];
    assert t[0] == ts[0][0];
    assert t[|t| - 1] == last[|last| - 1];
    StripPadded(indent, t);
    assert SplitShaped(Spaces, ts);
    ReSplitJoinWith(Spaces, ts, gaps);
  }

  /** The whitespace between the five columns of a `vzlist` row. */
  type VmGaps = g: seq<string> | |g| == 4 witness [" ", " ", " ", " "]

  /** How one row is laid out: the padding before it and between its columns. */
  datatype VmLayout = VmLayout(indent: string, gaps: VmGaps)

  predicate ValidVmLayout(l: VmLayout) {
    Blank(l.indent) && BlankRuns(l.gaps)
  }

  /** A listing line as `vzlist` prints it, in the given layout. */
  function VmRow(v: VmInfo, l: VmLayout): string {
    l.indent + JoinWith(VmFields(v), l.gaps)
  }

  function VmRows(vms: seq<VmInfo>, ls: seq<VmLayout>): (rows: seq<string>)
    requires |vms| == |ls|
    ensures |rows| == |vms| && forall i :: 0 <= i < |vms| ==> rows[i] == VmRow(vms[i], ls[i])
  {
    if vms == [] then [] else [VmRow(vms[0], ls[0])] + VmRows(vms[1..], ls[1..])
  }

  /** A row printed from valid fields, in any layout, stays on one line and is parsed back into
      the same record. */
  lemma VmRowRoundTrip(v: VmInfo, l: VmLayout)
    requires ValidVm(v) && ValidVmLayout(l)
    ensures '\n' !in VmRow(v, l)
    ensures ParsedAs(VmRow(v, l), v)
  {
    var fs := VmFields(v);
    assert forall i :: 0 <= i < |fs| ==> '\n' !in fs[i] by {
      forall i, k | 0 <= i < |fs| && 0 <= k < |fs[i]| ensures fs[i][k] != '\n' {
        assert !IsSep(Spaces, fs[i][k]);
      }
    }
    JoinWithAvoids(fs, l.gaps, '\n');
    VmLineExtraFields(l.indent, fs, l.gaps);
  }

  /** `line` is one line of a listing of `v` that ends in a field, not in whitespace. */
  predicate ListedAs(line: string, v: VmInfo) {
    line != [] && !IsSpace(line[|line| - 1]) && '\n' !in line && ParsedAs(line, v)
  }

  /** A printed row ends with the last character of the host name and is read back as its record. */
  lemma VmRowEnds(v: VmInfo, l: VmLayout)
    requires ValidVm(v) && ValidVmLayout(l)
    ensures ListedAs(VmRow(v, l), v)
  {
    var row := VmRow(v, l);
    var core := JoinWith(VmFields(v), l.gaps);
    assert row[|row| - 1] == core[|core| - 1];
    VmRowRoundTrip(v, l);
  }

  /** The listing text of records, one row per record, each in its own layout. */
  function VmTable(vms: seq<VmInfo>, ls: seq<VmLayout>): string
    requires |vms| == |ls|
  {
    Join(VmRows(vms, ls), "\n")
  }

  /** Moving the first line's indent out in front of the joined text. */
  lemma JoinIndentFirst(ls: seq<string>, pad: string, first: string)
    requires ls != [] && ls[0] == pad + first
    ensures Join(ls, "\n") == pad + Join([first] + ls[1..], "\n")
  {
    assert ([first] + ls[1..])[1..] == ls[1..];
  }

  /** Records printed one per line, in any layouts, are parsed back into the same records, in
      the same order. */
  lemma ListingRoundTrip(vms: seq<VmInfo>, ls: seq<VmLayout>)
    requires |vms| == |ls| >= 1
    requires forall i :: 0 <= i < |vms| ==> ValidVm(vms[i]) && ValidVmLayout(ls[i])
    ensures VmListing(VmTable(vms, ls)) == Ok(vms)
  {
    var rows := VmRows(vms, ls);
    var bare := ls[0 := VmLayout("", ls[0].gaps)];
    var lines := VmRows(vms, bare);
    var first := VmRow(vms[0], bare[0]);
    assert bare[1..] == ls[1..];
    assert rows[0] == ls[0].indent + first;
    assert lines == [first] + rows[1..];
    assert first[0] == vms[0].ctid[0];
    RowsListed(vms, bare);
    JoinIndentFirst(rows, ls[0].indent, first);
    ListingOfLines(ls[0].indent, lines, vms);
  }

  /** Every printed row is a listing line of its record. */
  lemma RowsListed(vms: seq<VmInfo>, ls: seq<VmLayout>)
    requires |vms| == |ls|
    requires forall i :: 0 <= i < |vms| ==> ValidVm(vms[i]) && ValidVmLayout(ls[i])
    ensures forall i :: 0 <= i < |vms| ==> ListedAs(VmRows(vms, ls)[i], vms[i])
  {
    forall i | 0 <= i < |vms| ensures ListedAs(VmRows(vms, ls)[i], vms[i]) {
      VmRowEnds(vms[i], ls[i]);
    }
  }

  /** Indented text whose lines each parse as the corresponding record lists those records. */
  lemma ListingOfLines(pad: string, lines: seq<string>, vms: seq<VmInfo>)
    requires AllSpace(pad) && |lines| == |vms| >= 1
    requires lines[0] != [] && !IsSpace(lines[0][0])
    requires forall i :: 0 <= i < |lines| ==> ListedAs(lines[i], vms[i])
    ensures VmListing(pad + Join(lines, "\n")) == Ok(vms)
  {
    var text := Join(lines, "\n");
    JoinEnds(lines, "\n");
    var last := lines[|lines| - 1];
    assert text[0] == lines[0][0];
    assert text[|text| - 1] == last[|last| - 1];
    StripPadded(pad, text);
    SplitLinesJoin(lines);
    ParsedLinesAre(lines, vms);
  }

  /** The listing line `  101   2 running 10.0.0.5 web1` (a right-aligned id, then single
      spaces) gives the record with those five fields, in that order. */
  lemma ExampleListingLine()
    ensures ParseVmLine("  " + ("101" + "   " + ("2" + " " + ("running" + " " + ("10.0.0.5" + " " + "web1"))))) ==
      Ok(VmInfo("101", "2", "running", "10.0.0.5", "web1"))
  {
    var ts := ["101", "2", "running", "10.0.0.5", "web1"];
    var gaps := ["   ", " ", " ", " "];
    ExampleFieldsValid(ts);
    assert SepRuns(Spaces, gaps);
    VmLineExtraFields("  ", ts, gaps);
    ExampleRowText(ts, gaps);
  }

  lemma ExampleFieldsValid(ts: seq<string>)
    requires ts == ["101", "2", "running", "10.0.0.5", "web1"]
    ensures forall i :: 0 <= i < |ts| ==> VmField(ts[i])
  {
    assert VmField("101") && VmField("2") && VmField("running");
    assert VmField("10.0.0.5") && VmField("web1");
    forall i | 0 <= i < |ts| ensures VmField(ts[i]) {
      assert ts[i] in {"101", "2", "running", "10.0.0.5", "web1"};
    }
  }

  lemma ExampleRowText(ts: seq<string>, gaps: seq<string>)
    requires ts == ["101", "2", "running", "10.0.0.5", "web1"] && gaps == ["   ", " ", " ", " "]
    ensures JoinWith(ts, gaps) == "101" + "   " + ("2" + " " + ("running" + " " + ("10.0.0.5" + " " + "web1")))
  {
    var t1, g1 := ts[1..], gaps[1..];
    var t2, g2 := t1[1..], g1[1..];
    var t3, g3 := t2[1..], g2[1..];
    assert t3 == ["10.0.0.5", "web1"] && g3 == [" "] && t3[1..] == ["web1"];
    assert JoinWith(t3, g3) == "10.0.0.5" + " " + "web1";
    assert t2 == ["running", "10.0.0.5", "web1"] && g2 == [" ", " "];
    assert JoinWith(t2, g2) == "running" + " " + JoinWith(t3, g3);
    assert t1 == ["2", "running", "10.0.0.5", "web1"] && g1 == [" ", " ", " "];
    assert JoinWith(t1, g1) == "2" + " " + JoinWith(t2, g2);
  }

  // ===========================================================================
  // Beancounters
  // ===========================================================================

  /** One resource counter of one container; held, maxheld, barrier, limit, failcnt as raw tokens. */
  datatype Entry = Entry(held: string, maxheld: string, barrier: string, limit: string, failcnt: string)

  /** counter name -> entry, for one container */
  type Counters = map<string, Entry>

  /** container id -> its counters */
  type Table = map<string, Counters>

  /** `_parse_beancounters_line(line)`: tokens 1..5 of `re.split('\W+', line)`, by position. */
  function ParseBeancountersLine(line: string): (r: Result<Entry>)
    ensures var v := ReSplit(NonWord, line);
      (r.Ok? <==> |v| >= 6) && (r.Err? ==> r.error == IndexError) &&
      (r.Ok? ==> r.value == Entry(v[1], v[2], v[3], v[4], v[5]))
  {
    var values := ReSplit(NonWord, line);
    if |values| < 6 then Err(IndexError)
    else Ok(Entry(values[1], values[2], values[3], values[4], values[5]))
  }

  /** The key a counter line is stored under: token 0 of `re.split('\W+', line)`,
      that is, the longest prefix of word characters. */
  function CounterName(line: string): (name: string)
    ensures |name| <= |line| && name == line[..|name|] && NoSep(NonWord, name)
    ensures |name| == |line| || !IsWordChar(line[|name|])
  {
    ReSplitShape(NonWord, line);
    ReSplit(NonWord, line)[0]
  }

  /** A counter line of whitespace-free word tokens separated by runs of non-word characters is
      read as its tokens 1 to 5, whatever follows them. */
  lemma {:induction false} BeancountersLineExtraFields(ts: seq<string>, gaps: seq<string>)
    requires |ts| >= 6 && |ts| == |gaps| + 1
    requires SplitShaped(NonWord, ts) && SepRuns(NonWord, gaps)
    ensures ParseBeancountersLine(JoinWith(ts, gaps)) == Ok(Entry(ts[1], ts[2], ts[3], ts[4], ts[5]))
  {
    ReSplitJoinWith(NonWord, ts, gaps);
  }

  /** The two variables of the parse loop: the current container id (`None` before the first
      header line) and the table built so far. */
  datatype ParseState = ParseState(veid: Option<string>, out: Table)

  const Start: ParseState := ParseState(None, map[])

  /** One iteration of the loop over the lines of `/proc/user_beancounters`. No container is
      ever removed, and only a header line changes the current id. */
  function Step(st: ParseState, raw: string): (r: Result<ParseState>)
    ensures r.Ok? ==> st.out.Keys <= r.value.out.Keys
    ensures r.Ok? && r.value.veid != st.veid ==> IsHeaderLine(raw) && r.value.veid.Some?
  {
    var line := Strip(raw);
    match MatchIdPrefix(line)
    case Some((id, rest)) => HeaderStep(st, id, rest)
    case None => if |line| == 0 then Ok(st) else CounterStep(st, line)
  }

  /** A header line `<id>:<rest>`: `out[veid] = {}`, then the counter on the rest of the line.
      It makes `id` current and gives it one counter, and touches no other container. */
  function HeaderStep(st: ParseState, id: string, rest: string): (r: Result<ParseState>)
    ensures r.Ok? <==> |ReSplit(NonWord, Strip(rest))| >= 6
    ensures r.Err? ==> r.error == IndexError
    ensures r.Ok? ==>
      r.value.veid == Some(id) && id in r.value.out && |r.value.out[id]| == 1 &&
      r.value.out == st.out[id := r.value.out[id]]
  {
    var body := Strip(rest);
    var counter := CounterName(body);
    match ParseBeancountersLine(body)
    case Err(e) => Err(e)
    case Ok(entry) => Ok(ParseState(Some(id), st.out[id := map[counter := entry]]))
  }

  /** A continuation line: `out[veid][counter] = _parse_beancounters_line(line)`. The right-hand
      side is evaluated first, so a short line fails with `IndexError` even before any header. */
  function CounterStep(st: ParseState, line: string): (r: Result<ParseState>)
    ensures r.Ok? ==> r.value.veid == st.veid && r.value.out.Keys == st.out.Keys
    ensures r.Err? ==> (r.error == IndexError <==> |ReSplit(NonWord, line)| < 6)
    ensures |ReSplit(NonWord, line)| < 6 ==> r == Err(IndexError)
    ensures r.Err? && r.error == KeyError ==> st.veid.None? || st.veid.value !in st.out
  {
    var counter := CounterName(line);
    match ParseBeancountersLine(line)
    case Err(e) => Err(e)
    case Ok(entry) =>
      match st.veid
      case None => Err(KeyError)
      case Some(id) =>
        if id in st.out then Ok(ParseState(st.veid, st.out[id := st.out[id][counter := entry]]))
        else Err(KeyError)
  }

  /** The loop over a sequence of lines; the first failing line ends it. Containers are only
      ever added, and once some id is current, some id stays current. */
  function Run(st: ParseState, lines: seq<string>): (r: Result<ParseState>)
    ensures r.Ok? ==> st.out.Keys <= r.value.out.Keys
    ensures r.Ok? && st.veid.Some? ==> r.value.veid.Some?
    decreases |lines|
  {
    if lines == [] then Ok(st)
    else
      match Step(st, lines[0])
      case Err(e) => Err(e)
      case Ok(next) => Run(next, lines[1..])
  }

  /** `inp.split('\n')[2:]`: the lines of the file from the third on; the version line and the
      column header are skipped. */
  function CounterLines(contents: string): (ls: seq<string>)
    ensures forall i :: 0 <= i < |ls| ==> '\n' !in ls[i]
  {
    SplitLinesShape(contents);
    var all := SplitLines(contents);
    if |all| <= 2 then [] else all[2..]
  }

  /** The table `get_beancounters` builds from the file contents: every key is a container id,
      a non-empty run of digits, and every container holds at least one counter. */
  function ParseBeancounters(contents: string): (r: Result<Table>)
    ensures r.Ok? ==> forall k :: k in r.value ==> k != [] && AllDigits(k) && r.value[k] != map[]
  {
    RunKeepsConsistent(Start, CounterLines(contents));
    match Run(Start, CounterLines(contents))
    case Err(e) => Err(e)
    case Ok(st) => Ok(st.out)
  }

  /** What `get_beancounters` returns: the whole table, or one container's counters. */
  datatype Beancounters = AllContainers(table: Table) | OneContainer(counters: Counters)

  /** `if ve_id: out = out[str(ve_id)]` with a missing key read as `{}`. */
  function SelectContainer(table: Table, veId: PyValue): (r: Beancounters)
    ensures r.AllContainers? <==> !Truthy(veId)
    ensures r.AllContainers? ==> r.table == table
    ensures r.OneContainer? && Str(veId) in table ==> r.counters == table[Str(veId)]
    ensures r.OneContainer? && Str(veId) !in table ==> r.counters == map[]
  {
    if Truthy(veId) then
      var key := Str(veId);
      OneContainer(if key in table then table[key] else map[])
    else
      AllContainers(table)
  }

  /** What `get_beancounters(ve_id)` returns; selecting a container never fails, so it fails
      exactly when the parse does, with the same error. */
  function BeancountersOf(contents: string, veId: PyValue): (r: Result<Beancounters>)
    ensures r.Err? <==> ParseBeancounters(contents).Err?
    ensures r.Err? ==> r.error == ParseBeancounters(contents).error
  {
    match ParseBeancounters(contents)
    case Err(e) => Err(e)
    case Ok(table) => Ok(SelectContainer(table, veId))
  }

  /** One turn of the loop: the first remaining line either fails or hands its state on. */
  lemma RunAt(st: ParseState, lines: seq<string>, i: nat)
    requires i < |lines|
    ensures Step(st, lines[i]).Err? ==> Run(st, lines[i..]) == Err(Step(st, lines[i]).error)
    ensures Step(st, lines[i]).Ok? ==> Run(st, lines[i..]) == Run(Step(st, lines[i]).value, lines[i + 1..])
  {
    assert lines[i..][0] == lines[i] && lines[i..][1..] == lines[i + 1..];
  }

  /** What `Step` does with a header line, in the order the loop performs it. */
  lemma HeaderLineStep(st: ParseState, raw: string, id: string, rest: string)
    requires MatchIdPrefix(Strip(raw)) == Some((id, rest))
    ensures var body := Strip(rest);
      var e := ParseBeancountersLine(body);
      var cleared := st.out[id := map[]];
      Step(st, raw) == if e.Err? then Err(e.error)
        else Ok(ParseState(Some(id), cleared[id := cleared[id][CounterName(body) := e.value]]))
  {
    var body := Strip(rest);
    var e := ParseBeancountersLine(body);
    var cleared := st.out[id := map[]];
    if e.Ok? {
      assert cleared[id := cleared[id][CounterName(body) := e.value]] == st.out[id := map[CounterName(body) := e.value]];
    }
  }

  /** What `Step` does with a line that is not a header. */
  lemma OtherLineStep(st: ParseState, raw: string)
    requires MatchIdPrefix(Strip(raw)).None?
    ensures Step(st, raw) == if |Strip(raw)| == 0 then Ok(st) else CounterStep(st, Strip(raw))
  {
  }

  /** One turn of the loop of `get_beancounters`: the loop variables after the line `raw`. */
  method ParseLine(veid: Option<string>, out: Table, raw: string) returns (r: Result<ParseState>)
    ensures r == Step(ParseState(veid, out), raw)
  {
    var line := Strip(raw);
    var lineWithVeid := MatchIdPrefix(line);
    if lineWithVeid.Some? {
      var id := lineWithVeid.value.0;
      HeaderLineStep(ParseState(veid, out), raw, id, lineWithVeid.value.1);
      var cleared := out[id := map[]];
      var body := Strip(lineWithVeid.value.1);
      var counter := CounterName(body);
      var entry := ParseBeancountersLine(body);
      if entry.Err? {
        return Err(entry.error);
      }
      return Ok(ParseState(Some(id), cleared[id := cleared[id][counter := entry.value]]));
    }
    OtherLineStep(ParseState(veid, out), raw);
    if |line| == 0 {
      return Ok(ParseState(veid, out));
    }
    var counter := CounterName(line);
    var entry := ParseBeancountersLine(line);
    if entry.Err? {
      return Err(entry.error);
    }
    if veid.None? || veid.value !in out {
      return Err(KeyError);
    }
    r := Ok(ParseState(veid, out[veid.value := out[veid.value][counter := entry.value]]));
  }

  /** The loop of `get_beancounters` over the counter lines, from no current id and an empty
      table. */
  method ParseLines(lines: seq<string>) returns (r: Result<ParseState>)
    ensures r == Run(Start, lines)
  {
    var out: Table := map[];
    var veid: Option<string> := None;
    var i := 0;
    while i < |lines|
      invariant 0 <= i <= |lines|
      invariant Run(Start, lines) == Run(ParseState(veid, out), lines[i..])
    {
      RunAt(ParseState(veid, out), lines, i);
      var next := ParseLine(veid, out, lines[i]);
      if next.Err? {
        return Err(next.error);
      }
      veid, out := next.value.veid, next.value.out;
      i := i + 1;
    }
    assert lines[i..] == [];
    r := Ok(ParseState(veid, out));
  }

  /** `get_beancounters(ve_id)` on the given contents of `/proc/user_beancounters`. */
  method GetBeancounters(contents: string, veId: PyValue) returns (r: Result<Beancounters>)
    ensures r == BeancountersOf(contents, veId)
  {
    var all := SplitLines(contents);
    var lines := if |all| <= 2 then [] else all[2..];
    assert lines == CounterLines(contents);
    var parsed := ParseLines(lines);
    if parsed.Err? {
      return Err(parsed.error);
    }
    r := Ok(SelectContainer(parsed.value.out, veId));
  }

  // ---------------------------------------------------------------------------
  // Properties of the beancounters loop
  // ---------------------------------------------------------------------------

  /** A line that starts, once stripped, with `<digits>:` — the first line of a container's block. */
  predicate IsHeaderLine(raw: string) {
    MatchIdPrefix(Strip(raw)).Some?
  }

  /** A stripped line that starts with a letter or `_`, as counter names do, is never a header. */
  lemma NameLineIsNotHeader(raw: string)
    requires Strip(raw) != [] && !IsDigit(Strip(raw)[0])
    ensures !IsHeaderLine(raw)
  {
  }

  /** A blank or whitespace-only line leaves both loop variables as they were. */
  lemma BlankLineKeepsState(st: ParseState, raw: string)
    requires AllSpace(raw)
    ensures Step(st, raw) == Ok(st)
  {
    StripAllSpace(raw);
    assert MatchIdPrefix(Strip(raw)).None?;
  }

  /** A header line makes its id current and replaces that id's counters by the one counter on
      the line; every other container is untouched. */
  lemma HeaderLineResets(st: ParseState, raw: string, id: string, rest: string)
    requires MatchIdPrefix(Strip(raw)) == Some((id, rest))
    ensures var fields := ReSplit(NonWord, Strip(rest));
      Step(st, raw).Ok? <==> |fields| >= 6
    ensures Step(st, raw).Err? ==> Step(st, raw).error == IndexError
    ensures Step(st, raw).Ok? ==>
      var next := Step(st, raw).value;
      var fields := ReSplit(NonWord, Strip(rest));
      next.veid == Some(id) && id in next.out &&
      next.out[id].Keys == {fields[0]} &&
      next.out[id][fields[0]] == Entry(fields[1], fields[2], fields[3], fields[4], fields[5]) &&
      next.out.Keys == st.out.Keys + {id} &&
      (forall k :: k in st.out && k != id ==> next.out[k] == st.out[k])
  {
  }

  /** A counter line after a header stores its entry under its name in the current container:
      one key is written, the rest of the table is untouched. */
  lemma CounterLineUpdates(st: ParseState, raw: string)
    requires !IsHeaderLine(raw) && Strip(raw) != []
    requires st.veid.Some? && st.veid.value in st.out
    requires |ReSplit(NonWord, Strip(raw))| >= 6
    ensures Step(st, raw).Ok?
    ensures var next := Step(st, raw).value;
      var id := st.veid.value;
      var f := ReSplit(NonWord, Strip(raw));
      next.veid == st.veid && next.out.Keys == st.out.Keys &&
      next.out[id].Keys == st.out[id].Keys + {f[0]} &&
      next.out[id][f[0]] == Entry(f[1], f[2], f[3], f[4], f[5]) &&
      (forall c :: c in st.out[id] && c != f[0] ==> next.out[id][c] == st.out[id][c]) &&
      (forall k :: k in st.out && k != id ==> next.out[k] == st.out[k])
  {
  }

  /** Before any header line, a non-blank line that is not a header fails: `IndexError` when it is
      too short, `KeyError` (no current container) otherwise. */
  lemma CounterBeforeHeaderFails(st: ParseState, raw: string)
    requires st.veid.None? && !IsHeaderLine(raw) && Strip(raw) != []
    ensures Step(st, raw).Err?
    ensures Step(st, raw).error == if |ReSplit(NonWord, Strip(raw))| < 6 then IndexError else KeyError
  {
  }

  /** A too-short line fails with `IndexError`, whatever the state. */
  lemma ShortLineFails(st: ParseState, raw: string)
    requires Strip(raw) != []
    requires var line := Strip(raw);
      match MatchIdPrefix(line)
      case Some((_, rest)) => |ReSplit(NonWord, Strip(rest))| < 6
      case None => |ReSplit(NonWord, line)| < 6
    ensures Step(st, raw) == Err(IndexError)
  {
  }

  /** The shape the loop keeps: before the first header the table is empty; afterwards the
      current id is a key; every key is a run of digits and every container has a counter. */
  predicate Consistent(st: ParseState) {
    (st.veid.None? ==> st.out == map[]) &&
    (st.veid.Some? ==> st.veid.value in st.out) &&
    (forall k :: k in st.out ==> k != [] && AllDigits(k) && st.out[k] != map[])
  }

  lemma StepKeepsConsistent(st: ParseState, raw: string)
    requires Consistent(st) && Step(st, raw).Ok?
    ensures Consistent(Step(st, raw).value)
  {
    var line := Strip(raw);
    var next := Step(st, raw).value;
    match MatchIdPrefix(line)
    case Some((id, rest)) =>
      assert next == HeaderStep(st, id, rest).value;
      assert |next.out[id]| == 1;
    case None =>
      if |line| != 0 {
        assert next == CounterStep(st, line).value;
        var id := st.veid.value;
        assert CounterName(line) in next.out[id];
        forall k | k in next.out ensures next.out[k] != map[] {
          if k != id {
            assert next.out[k] == st.out[k];
          }
        }
      }
  }

  /** Once a header has been seen, the loop can only fail with `IndexError`: `KeyError` needs a
      counter line before the first header. */
  lemma {:induction false} RunKeepsConsistent(st: ParseState, lines: seq<string>)
    requires Consistent(st)
    ensures Run(st, lines).Ok? ==> Consistent(Run(st, lines).value)
    ensures st.veid.Some? && Run(st, lines).Err? ==> Run(st, lines).error == IndexError
    decreases |lines|
  {
    if lines != [] {
      var s := Step(st, lines[0]);
      if s.Ok? {
        StepKeepsConsistent(st, lines[0]);
        RunKeepsConsistent(s.value, lines[1..]);
        assert st.veid.Some? ==> s.value.veid.Some?;
      }
    }
  }

  /** The version line and the column-header line play no part: any two lines may stand there. */
  lemma FirstTwoLinesIgnored(a: string, b: string, a': string, b': string, rest: string)
    requires '\n' !in a && '\n' !in b && '\n' !in a' && '\n' !in b'
    ensures ParseBeancounters(a + "\n" + (b + "\n" + rest)) ==
      ParseBeancounters(a' + "\n" + (b' + "\n" + rest))
    ensures CounterLines(a + "\n" + (b + "\n" + rest)) == SplitLines(rest)
  {
    SkippedLines(a, b, rest);
    SkippedLines(a', b', rest);
  }

  lemma SkippedLines(x: string, y: string, rest: string)
    requires '\n' !in x && '\n' !in y
    ensures CounterLines(x + "\n" + (y + "\n" + rest)) == SplitLines(rest)
  {
    var t := y + "\n" + rest;
    SplitLinesCons(y, rest);
    SplitLinesCons(x, t);
    CounterLinesAfter(x + "\n" + t, x, y, SplitLines(rest));
  }

  lemma CounterLinesAfter(contents: string, x: string, y: string, ls: seq<string>)
    requires SplitLines(contents) == [x] + ([y] + ls)
    ensures CounterLines(contents) == ls
  {
    assert ([x] + ([y] + ls))[2..] == ls;
  }

  /** A file of at most two lines holds no container. */
  lemma ShortFileIsEmpty(a: string, b: string)
    requires '\n' !in a && '\n' !in b
    ensures ParseBeancounters(a) == Ok(map[])
    ensures ParseBeancounters(a + "\n" + b) == Ok(map[])
  {
    SplitLinesCons(a, b);
    SplitLinesJoin([a]);
    SplitLinesJoin([b]);
  }

  /** A truthy id selects that container (empty when it is absent); a falsy id the whole table. */
  lemma SelectByInt(table: Table, n: int)
    ensures n == 0 ==> SelectContainer(table, PyInt(n)) == AllContainers(table)
    ensures n != 0 ==>
      (SelectContainer(table, PyInt(n)) ==
       OneContainer(if IntToDecimal(n) in table then table[IntToDecimal(n)] else map[]))
  {
  }

  /** A header `<n>:` creates the key `str(n)`. For a positive `n`, `get_beancounters(n)` looks
      up exactly that key; `0` is falsy, so `get_beancounters(0)` returns the whole table and the
      block `0:` is reachable only through the string id `"0"`. */
  lemma HeaderKeyIsIntId(n: nat, rest: string, table: Table)
    requires '\n' !in rest
    ensures var key := NatToDecimal(n);
      MatchIdPrefix(key + ":" + rest) == Some((key, rest)) &&
      (n > 0 ==> SelectContainer(table, PyInt(n)) == OneContainer(if key in table then table[key] else map[])) &&
      (n == 0 ==> SelectContainer(table, PyInt(n)) == AllContainers(table) &&
                  SelectContainer(table, PyStr(key)) == OneContainer(if key in table then table[key] else map[]))
  {
    MatchIdPrefixOf(NatToDecimal(n), rest);
  }
}
