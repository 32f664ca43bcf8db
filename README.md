# OpenVZ host inspection, modelled in Dafny

This project models `modules/openvz.py`, a Salt execution module for OpenVZ hosts. The module
does three things:

- It tells whether the node is an OpenVZ hypervisor (`is_openvz_hyper`) or an OpenVZ container
  (`is_openvz_ve`). It does this from the `virtual` grain.
- It lists the containers that `vzlist` prints (`_list_vms`, `list_vms`, `list_active_vms`). Each
  output line becomes a record of five raw string fields: ctid, nproc, status, ip_addr, hostname.
- It parses `/proc/user_beancounters` into a nested table: container id → counter name → entry
  (`get_beancounters`, `_parse_beancounters_line`). An entry holds held, maxheld, barrier, limit
  and failcnt as raw strings. An optional `ve_id` picks out one container.

The outside world enters the model as parameters:

- the grains are a `map<string, string>`;
- the command runner `__salt__["cmd.run"]` is a function `run: string -> string`;
- the contents of `/proc/user_beancounters` are a string.

Files:

- `pytext.dfy` (module `PyText`) models the Python 3 `str` primitives the module is built from,
  over ASCII characters:
  - `str.strip()`;
  - `str.split('\n')`;
  - `re.split` on `\s+` and on `\W+`, including the empty first or last token that a separator
    at either end of the string produces;
  - the anchored match `([0-9]+):(.*)`;
  - Python truthiness and `str()` of the id a caller passes.
- `openvz.dfy` (module `OpenVz`) models the module itself:
  - the role predicates;
  - the listing method `ListVms`, with its loop in `ParseListing`;
  - the beancounter method `GetBeancounters`, with its line loop in `ParseLines` over the
    current id `veid` and the table `out`.

  Each method is proved equal to a pure specification: `VmListing`, and `Run` over `Step`. The
  properties of the loops are lemmas about those functions.
- `beancounter_file.dfy` (module `BeancounterFile`) writes a table out as a beancounters file,
  with any whitespace padding before and between the columns, and proves that
  `get_beancounters` reads exactly that table back.

Errors follow Python's own exceptions. A line with too few fields makes the code index past the
end of a list, which raises `IndexError`. A missing key raises `KeyError`. The model returns these
as `Result.Err(IndexError)` and `Result.Err(KeyError)`.

## Model

| member | source | states |
|---|---|---|
| `OpenVz.GrainIs` | modules/openvz.py:14 | comparing the `virtual` grain with a tag is true exactly when the grain equals the tag, and a `KeyError` exactly when the grain is missing |
| `OpenVz.IsOpenvzHyper` | modules/openvz.py:10-14 | true exactly when the `virtual` grain is `openvzhn`; fails exactly when that grain is missing, and then with `KeyError` |
| `OpenVz.IsOpenvzVe` | modules/openvz.py:17-21 | true exactly when the `virtual` grain is `openvzve`; fails exactly when that grain is missing, and then with `KeyError` |
| `OpenVz.RolesExclusive` | modules/openvz.py:10-21 | the two role predicates are never both true, and they fail together |
| `OpenVz.ListCommand` | modules/openvz.py:26-29 | the two listing commands differ only in `vzlist`'s `-a` flag, given exactly when `all_ve` is set, and both drop the header with `tail -n +2` |
| `OpenVz.ParseVmLine` | modules/openvz.py:34-40 | a line succeeds exactly when its stripped `\s+` split has at least five fields, and then tokens 0–4 become ctid, nproc, status, ip_addr and hostname, in that order; it otherwise fails with `IndexError`; every field of a parsed record is non-empty and free of whitespace |
| `OpenVz.ParseVmLines` | modules/openvz.py:32-42 | a successful parse holds one record per line, each with valid fields; a failure is always `IndexError` |
| `OpenVz.ParseVmLinesSpec` | modules/openvz.py:32-42 | the listing succeeds exactly when every line has at least five fields; it then holds, at each position, the record of the line at that position |
| `OpenVz.ParseVmLinesOk` | modules/openvz.py:32-42 | a successful listing holds, at each position, the record parsed from the line at that position |
| `OpenVz.ParseVmLinesWellFormed` | modules/openvz.py:32-42 | the listing succeeds exactly when every line has at least five fields |
| `OpenVz.ParsedLinesAre` | modules/openvz.py:32-42 | lines that each parse as a given record parse as the sequence of those records |
| `OpenVz.ParseVmLinesFails` | modules/openvz.py:34-40 | one line with fewer than five fields fails the whole listing with `IndexError` |
| `OpenVz.VmListing` | modules/openvz.py:31-42 | a successful listing of any command output holds at least one record, and every record has valid fields |
| `OpenVz.ParseVmRow` | modules/openvz.py:34-40 | the loop body computes exactly the record (or `IndexError`) of one line |
| `OpenVz.ParseListing` | modules/openvz.py:30-42 | the loop over the stripped output's lines returns exactly the specification listing |
| `OpenVz.ListVms` | modules/openvz.py:25-42 | `_list_vms` returns exactly the specification listing of the output of the selected command |
| `OpenVz.ListAllVms` | modules/openvz.py:58-66 | `list_vms` runs `vzlist -a \| tail -n +2` and parses its output |
| `OpenVz.ListActiveVms` | modules/openvz.py:69-77 | `list_active_vms` runs `vzlist \| tail -n +2` and parses its output |
| `OpenVz.EmptyListingFails` | modules/openvz.py:32-36 | empty or all-whitespace output still yields one empty line, and so fails with `IndexError` |
| `OpenVz.VmLineExtraFields` | modules/openvz.py:34-40 | an indented line of five or more whitespace-free fields, separated by any whitespace runs, gives its first five fields in order; the rest are ignored |
| `OpenVz.VmRowRoundTrip` | modules/openvz.py:33-40 | a record of non-empty, whitespace-free fields printed as a `vzlist` row, with any in-line whitespace as indent and column gaps, stays on one line and parses back to the same record |
| `OpenVz.VmRowEnds` | modules/openvz.py:33-40 | such a printed row ends in its last field, not in whitespace, and parses back to its record |
| `OpenVz.RowsListed` | modules/openvz.py:32-40 | every row of a printed listing is a line of its own record |
| `OpenVz.ListingRoundTrip` | modules/openvz.py:30-42 | records printed one per line, each in its own layout, parse back to the same records in the same order |
| `OpenVz.ExampleListingLine` | modules/openvz.py:33-40 | the row `  101   2 running 10.0.0.5 web1` gives ctid `101`, nproc `2`, status `running`, ip_addr `10.0.0.5`, hostname `web1` |
| `OpenVz.ParseBeancountersLine` | modules/openvz.py:44-55 | succeeds exactly when the `\W+` split has at least six tokens, and returns tokens 1–5 as held, maxheld, barrier, limit, failcnt; otherwise `IndexError` |
| `OpenVz.BeancountersLineExtraFields` | modules/openvz.py:47-54 | a line of six or more word tokens separated by any non-word runs gives tokens 1–5 as its entry; the rest are ignored |
| `OpenVz.CounterName` | modules/openvz.py:102 | the counter name is the longest prefix of word characters of the line |
| `OpenVz.Step` | modules/openvz.py:94-109 | one iteration never removes a container, and only a header line changes the current id, always to some id |
| `OpenVz.HeaderStep` | modules/openvz.py:96-104 | a header succeeds exactly when its stripped rest has at least six `\W+` tokens, otherwise `IndexError`; it makes its id current with exactly one counter and leaves every other container as it was |
| `OpenVz.CounterStep` | modules/openvz.py:107-109 | a counter line keeps the current id and the set of containers; it fails with `IndexError` exactly when short, and with `KeyError` only when no container is current |
| `OpenVz.Run` | modules/openvz.py:93 | the loop over the lines never removes a container, and once an id is current one stays current |
| `OpenVz.CounterLines` | modules/openvz.py:93 | the lines the loop sees, from the third on, contain no newline |
| `OpenVz.ParseBeancounters` | modules/openvz.py:80-109 | every key of a parsed table is a non-empty run of digits, and every container holds at least one counter |
| `OpenVz.SelectContainer` | modules/openvz.py:111-116 | a falsy `ve_id` returns the whole table; a truthy one returns the counters stored under `str(ve_id)`, or `{}` when that key is absent |
| `OpenVz.BeancountersOf` | modules/openvz.py:80-116 | `get_beancounters` fails exactly when the parse fails, with the same error; the selection itself never fails |
| `OpenVz.ParseLine` | modules/openvz.py:94-109 | the loop body computes exactly one specification step on the current id and table |
| `OpenVz.ParseLines` | modules/openvz.py:93-109 | the loop over the lines returns exactly the specification run from no current id and an empty table |
| `OpenVz.GetBeancounters` | modules/openvz.py:80-116 | the method returns exactly the specification parse of the contents, followed by the `ve_id` selection |
| `OpenVz.HeaderLineStep` | modules/openvz.py:96-104 | on a header line the loop clears `out[veid]` and then stores the line's one counter, in that order |
| `OpenVz.BlankLineKeepsState` | modules/openvz.py:94-106 | a blank or whitespace-only line leaves the current id and the table unchanged |
| `OpenVz.NameLineIsNotHeader` | modules/openvz.py:96-97 | a stripped line that does not start with a digit is never taken for a header |
| `OpenVz.HeaderLineResets` | modules/openvz.py:96-104 | a header `<digits>:<rest>` makes `<digits>` current and replaces that id's counters with the single counter on `<rest>`, which drops those of an earlier header for the same id; other ids are untouched; fewer than six tokens is `IndexError` |
| `OpenVz.CounterLineUpdates` | modules/openvz.py:107-109 | a counter line writes exactly one key, its first `\W+` token, in the current container; the other counters and containers are unchanged (last write wins) |
| `OpenVz.CounterBeforeHeaderFails` | modules/openvz.py:89-109 | a counter line before any header fails: `IndexError` if short (the right-hand side runs first), otherwise `KeyError` |
| `OpenVz.ShortLineFails` | modules/openvz.py:47-54 | a header or counter line with fewer than six `\W+` tokens fails with `IndexError` in any state |
| `OpenVz.StepKeepsConsistent` | modules/openvz.py:93-109 | one line keeps the loop's shape: no table before the first header, the current id always a key, every key a run of digits, and every container non-empty |
| `OpenVz.RunKeepsConsistent` | modules/openvz.py:93-109 | the loop keeps that shape over any lines, and after the first header it can only fail with `IndexError` |
| `OpenVz.FirstTwoLinesIgnored` | modules/openvz.py:92-93 | the first two lines of the file never affect the result |
| `OpenVz.ShortFileIsEmpty` | modules/openvz.py:93 | a file of at most two lines parses to the empty table |
| `OpenVz.SelectByInt` | modules/openvz.py:111-116 | an integer `ve_id` of 0 selects the whole table; any other integer selects the counters under its decimal text, or `{}` |
| `OpenVz.HeaderKeyIsIntId` | modules/openvz.py:96-113 | a header `<n>:` creates the key `str(n)`; for a positive `n`, `get_beancounters(n)` looks up exactly that key; for `0`, `get_beancounters(0)` returns the whole table and only the string `"0"` selects that block |
| `BeancounterFile.BlankRunsSeparate` | modules/openvz.py:47 | in-line whitespace gaps are `\W+` separator runs and carry no newline and no colon |
| `BeancounterFile.RowTextShape` | modules/openvz.py:47 | a rendered counter row is non-empty, has no whitespace at either end, holds no newline or colon, and splits on `\W+` into exactly its six fields |
| `BeancounterFile.RowLineStep` | modules/openvz.py:107-109 | a padded counter row stores its entry under its name in the current container |
| `BeancounterFile.HeaderLineParses` | modules/openvz.py:96-104 | a padded `<id>:<row>` header starts that container afresh with exactly that row |
| `BeancounterFile.RunAppend` | modules/openvz.py:93 | the loop over two stretches of lines is the loop over the first, then over the second |
| `BeancounterFile.RunFirst` | modules/openvz.py:93 | a first line that parses hands its state on to the rest of the lines |
| `BeancounterFile.RowLinesRun` | modules/openvz.py:107-109 | a run of counter rows adds them in order to the current container |
| `BeancounterFile.BlockLinesRun` | modules/openvz.py:96-109 | a container's block of lines sets that container's counters to exactly the block's rows |
| `BeancounterFile.BodyLinesRun` | modules/openvz.py:93-109 | the blocks of a file are stored in order; a later block with the same id replaces an earlier one |
| `BeancounterFile.RenderedCounterLines` | modules/openvz.py:93 | after the two leading lines, the loop sees exactly the rendered blocks, and `split('\n')` yields two more pieces than there are block lines |
| `BeancounterFile.RenderRoundTrip` | modules/openvz.py:80-109 | parsing a rendered file, with any in-line whitespace before and between its columns, gives back exactly the table it was rendered from |
| `BeancounterFile.RenderedCounterLinesNewline` | modules/openvz.py:93 | when the file ends with a newline, the loop sees the rendered blocks and then one empty line |
| `BeancounterFile.RenderNewlineRoundTrip` | modules/openvz.py:80-109 | a rendered file that ends with a newline, as the kernel writes it, also parses back to exactly its table |
| `BeancounterFile.ExampleTable` | modules/openvz.py:89-109 | the two-container example stands for the table 101 → {kmemsize, lockedpages}, 102 → {kmemsize} |
| `BeancounterFile.ExampleFile` | modules/openvz.py:80-116 | on the example file, containers 101 and 102 appear; 101 keeps both counters; asking for 102 gives its single counter; asking for 999 gives `{}` |
| `PyText.TrimStart` | modules/openvz.py:94 | `lstrip()` never lengthens the text and leaves no whitespace at its start |
| `PyText.TrimStartSpec` | modules/openvz.py:94 | `lstrip()` removes exactly the leading whitespace run and keeps the rest |
| `PyText.TrimEnd` | modules/openvz.py:94 | `rstrip()` never lengthens the text, keeps its first character and leaves no whitespace at its end |
| `PyText.TrimEndSpec` | modules/openvz.py:94 | `rstrip()` removes exactly the trailing whitespace run and keeps the rest |
| `PyText.Strip` | modules/openvz.py:94 | `strip()` leaves no whitespace at either end |
| `PyText.StripSpec` | modules/openvz.py:94 | `strip()` removes whitespace at the two ends and nothing else |
| `PyText.StripAllSpace` | modules/openvz.py:94-106 | a whitespace-only line strips to the empty line |
| `PyText.StripPadded` | modules/openvz.py:34 | `strip()` of a non-empty text with no whitespace at either end, behind any whitespace padding, gives back that text |
| `PyText.SplitLines` | modules/openvz.py:93 | `split('\n')` always yields at least one piece; characterised by `SplitLinesShape`, `JoinSplitLines` and `SplitLinesJoin` |
| `PyText.SplitLinesShape` | modules/openvz.py:93 | `split('\n')` pieces hold no newline, and the first piece runs up to the first newline |
| `PyText.SplitLinesNewline` | modules/openvz.py:93 | a newline at the end of the text adds exactly one empty piece after the others |
| `PyText.JoinSplitLines` | modules/openvz.py:93 | joining the `split('\n')` pieces with newlines gives the text back |
| `PyText.SplitLinesJoin` | modules/openvz.py:32 | splitting newline-joined, newline-free lines gives those lines back |
| `PyText.ReSplit` | modules/openvz.py:47 | `re.split` always yields at least one token; characterised by `ReSplitShape` and `ReSplitJoinWith` |
| `PyText.ReSplitShape` | modules/openvz.py:47 | the `re.split` tokens hold no separator; tokens between two separator runs are non-empty; the first token is the longest separator-free prefix; there is an empty last token only when the text is empty or ends in a separator; there is a single token exactly when the text has no separator |
| `PyText.ReSplitFirst` | modules/openvz.py:102 | token 0 of a split is the longest separator-free prefix, which is empty when the text starts with a separator |
| `PyText.ReSplitSepRun` | modules/openvz.py:47 | a leading separator run produces an empty first token |
| `PyText.JoinWith` | modules/openvz.py:34 | a line of tokens laid out with gaps starts with the first token's first character and ends with the last token's last character |
| `PyText.ReSplitJoinWith` | modules/openvz.py:47 | splitting tokens laid out with separator runs of any length gives back exactly those tokens |
| `PyText.TightTokensNonEmpty` | modules/openvz.py:34 | a stripped, non-empty line splits into non-empty tokens only |
| `PyText.MatchIdPrefix` | modules/openvz.py:96 | on a match, group 1 is a non-empty digit run that the line starts with, followed by a colon, and group 2 holds no newline |
| `PyText.MatchIdPrefixSpec` | modules/openvz.py:96 | the match succeeds exactly when the line starts with one or more digits and a colon; group 1 is those digits, and group 2 is the rest of the line |
| `PyText.MatchIdPrefixOf` | modules/openvz.py:96-99 | `<digits>:<rest>` matches with group 1 the digits and group 2 the rest |
| `PyText.NatToDecimal` | modules/openvz.py:113 | `str(n)` is a non-empty run of decimal digits without a leading zero |
| `PyText.DecimalRoundTrip` | modules/openvz.py:113 | the decimal text `str(n)` reads back as `n` |
| `PyText.IntToDecimal` | modules/openvz.py:113 | `str(i)` starts with a minus sign exactly when `i` is negative, and its digits read back as the magnitude of `i` |
| `PyText.Str` | modules/openvz.py:113 | `str()` of a string is that string; of a non-negative integer it is digits that read back as that integer |
| `PyText.Truthy` | modules/openvz.py:111 | exactly `None`, `0` and `''` are falsy |

## Left out

- Reading `/proc/user_beancounters` is file I/O. The contents are a string parameter, so a
  missing or unreadable file (an `IOError` in Python) is not modelled.
- Running the listing command through `__salt__["cmd.run"]` is foreign process execution. The
  runner is a function parameter, so what `vzlist` and `tail` print, and a failing command, are
  not modelled.
- The grain lookup `__grains__` is framework state. The grains are a map parameter.
- Python's regular expressions are Unicode-aware by default. The model takes `\s`, `\W`, `[0-9]`
  and `strip()` over ASCII only. Non-ASCII letters and digits count as separators, and non-ASCII
  whitespace counts as an ordinary character.
- Text is modelled as a Python 3 `str`: `strip()` and `\s` also treat the separator characters
  `\x1c`–`\x1f` as whitespace. Under Python 2, where the output and the file are byte strings,
  neither `strip()` nor `\s` matches those four characters; that variant is not modelled.
- `SelectContainer`: `ve_id` is modelled as `None`, an `int` or a `str`. Other Python values
  (floats, lists and so on) have their own truthiness and `str()` and are not modelled.
- `HeaderKeyIsIntId`: a header `0:` (the host's own block) creates the key `"0"`, but the integer
  `0` is falsy, so `get_beancounters(0)` returns the whole table. That block is selected only by
  the string `"0"`. The model keeps this behaviour of the code.
- `ListVms`: an empty or all-whitespace command output fails with `IndexError`, as the code does:
  `''.split('\n')` is `['']`, and that one empty line has no fields. This is proved in
  `OpenVz.EmptyListingFails`.
- `ListVms`: a line with fewer than five fields fails with `IndexError`, as the code does, and the
  whole listing fails with it.
- `ListingRoundTrip`: rows are printed ending in their last field. Trailing whitespace after a
  row is read the same way by the code but is not part of the printed layout.
- `RenderRoundTrip`: rows are printed ending in their last field, and the file ends either with
  its last row or with one newline after it (`RenderNewlineRoundTrip`). Trailing whitespace after
  a row and blank lines between blocks are not part of the printed form.
- `GetBeancounters`: a counter line before any header fails, as the code does. It fails with
  `IndexError` when the line is short, because the right-hand side of the assignment is
  evaluated first. Otherwise it fails with `KeyError`, because `out[None]` is missing.
- The counter and listing fields stay raw strings, as in the code. No numeric reading of them is
  modelled.
