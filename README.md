# RADEX / pythonradex comparison script: text adapters and partner map

`run_radex_pythonradex.py` compares two radiative-transfer codes for molecular line emission.
It writes a RADEX input file, runs RADEX, reads the line fluxes out of RADEX's result file,
and then calls the pythonradex solver on the same configuration. This project models three
exact parts of the script and proves properties of them:

- `write_radex_inp` (module `RadexInput`) turns a run configuration into RADEX's fixed
  line-oriented input format. The open file handle becomes a sequence of lines that the
  method appends to. A loop over `freqrange` builds the frequency line. Numbers belong to an
  abstract type `N`. Their `"{:g}".format(x)` and `str(x)` renderings are passed in as the
  functions `formatG` and `toStr`.
- `read_rdx` (module `RadexOutput`) finds the header line of RADEX's result table: the first
  line whose last whitespace-separated token is `(erg/cm2/s)`. It then takes the
  second-to-last token of every later line. The lines are those `readlines()` returns. The
  result keeps each flux field's text. Each IndexError and the error of an unbound `ind`
  is an explicit `RdxError`.
- The collision-partner dictionary of `run_pythonradex` (module `CollisionPartners`) starts
  as `{part1name: part1dens}`. It is updated in place with `part2name` when a second partner
  is named.

`PyText.Split` models Python's `str.split()` with no separator, using the full set of
characters `str.isspace` accepts. `Outcomes` holds the `Option` and `Result` types that stand
for `None` and for raised exceptions.

Properties proved:
- the writer produces 11 or 13 line elements in a fixed order, each of which is one line of
  the file when no field text holds a line feed;
- the fifth line is the partner count;
- the last line is the `0` sentinel;
- every line ends with a space and a line feed;
- `part2dens` only matters when `part2name` is given;
- the sequence of line elements reads back field by field, with file and partner names verbatim;
- a named second partner whose density is `None` makes the writer raise after eight lines;
- the reader stops at the first header line;
- a successful read returns one field per later line, in order;
- the result is empty exactly when the header is the last line;
- every failure case is an error, never an empty result;
- the input file and the solver dictionary name the same partners;
- `str.split()` gives back the tokens it was built from when they are joined by spaces;
- the two equal-names case is where the two paths diverge.

Two consequences of the code are easy to miss. The model follows the code in both:
- Writing and reading back an input file does not recover the numbers themselves. `{:g}`
  keeps six significant digits (`1.2345678e12` is written `1.23457e+12`), so the round trip
  is proved for the rendered text of every field (`InputRoundTrip`).
- `freqrange` can have any length: the writer loops over it. With the default `(0, 0)` the
  frequency line is `"0 0  \n"` (`FreqLineOfPair`).

## Model

| member | source | states |
|---|---|---|
| `RadexInput.WriteRadexInp` | run_radex_pythonradex.py:17-62 | When `part2name` is None or `part2dens` is given, the lines written are `InputLines` of the configuration. A named second partner with density None raises TypeError, after exactly the eight lines `LinesBeforeTypeError` lists. |
| `RadexInput.InputLinesInOrder` | run_radex_pythonradex.py:38-62 | The lines come in this order: molecule file, output file, frequency line, tkin. Then the count line "1" or "2" with one name and one density line per partner. Then tbk, ntot, line width and "0". Each is the rendered value followed by " \n". |
| `RadexInput.InputLines` | run_radex_pythonradex.py:38-62 | The line elements of a run that does not raise: nine fixed ones plus a name and a density per partner block. |
| `RadexInput.FreqText` | run_radex_pythonradex.py:41-42 | The frequency loop writes nothing exactly when `freqrange` is empty. Otherwise its text ends with a space and has at least one character per element. |
| `RadexInput.OneLinePerElement` | run_radex_pythonradex.py:38-62 | When no field text holds a line feed, each line element's only line feed is its last character, so each element is one line of the file. |
| `RadexInput.NameWithLineFeed` | run_radex_pythonradex.py:54-55 | A partner name holding a line feed gives a line element that holds two line feeds, so the real file then has more lines than the model has elements. |
| `RadexInput.InputLinesShape` | run_radex_pythonradex.py:38-62 | There are 11 line elements without a second partner name and 13 with one. The fifth element is "1 \n" or "2 \n". The last element is "0 \n". Every element ends with " \n". |
| `RadexInput.Part2DensIgnored` | run_radex_pythonradex.py:47-56 | When `part2name` is None, any value of `part2dens` gives the same file and cannot make the writer raise. |
| `RadexInput.TypeErrorAfterEightLines` | run_radex_pythonradex.py:47-52 | The lines written before the TypeError are the first eight lines a complete two-partner run writes. |
| `RadexInput.LinesBeforeTypeError` | run_radex_pythonradex.py:38-51 | The partial file left by the TypeError has eight lines, and its fifth is the count "2". |
| `RadexInput.ParseInp` | run_radex_pythonradex.py:38-62 | Any sequence of line elements the reader accepts has one or two partner blocks, and laying its fields out again gives exactly those elements. |
| `RadexInput.ParseLinesOf` | run_radex_pythonradex.py:38-62 | Every one- or two-partner field record laid out as line elements reads back as the same record, whatever text its fields hold. |
| `RadexInput.InputRoundTrip` | run_radex_pythonradex.py:38-62 | Reading back the writer's line elements gives each argument as the text it was rendered as: file and partner names verbatim, the scalar numbers as their `{:g}` text, and the frequency bounds as the loop's `str()` text inside the single frequency field. There is one partner block per given name. |
| `RadexInput.FreqLineOfPair` | run_radex_pythonradex.py:41-43 | For a pair of bounds the frequency line is `str(lo) + " " + str(hi) + "  \n"`. |
| `RadexInput.FreqTextSplit` | run_radex_pythonradex.py:41-43 | For any continuation text, splitting the text of the frequency loop followed by that continuation gives each `str(x)` in order, then the split of the continuation. |
| `RadexInput.FreqLineTokens` | run_radex_pythonradex.py:41-43 | The frequency line splits into exactly the `str(x)` of the elements of `freqrange`, in order, provided each is a single token. |
| `PyText.SplitJoinSpaced` | run_radex_pythonradex.py:106 | Non-empty tokens without whitespace, each followed by a space, split back into the same tokens in order. |
| `PyText.Split` | run_radex_pythonradex.py:106 | `str.split()` returns only non-empty tokens without whitespace. It returns `[]` exactly when the line is all whitespace. |
| `PyText.SplitAfterToken` | run_radex_pythonradex.py:112 | A token followed by whitespace or by nothing is the first element of the split. |
| `RadexOutput.IsHeader` | run_radex_pythonradex.py:107 | A header line is never blank: its split is non-empty and holds the unit label `(erg/cm2/s)`. |
| `RadexOutput.SecondToLast` | run_radex_pythonradex.py:113 | On a line with two or more tokens, the field taken is one of the line's tokens. |
| `RadexOutput.ReadRdxSpec` | run_radex_pythonradex.py:94-115 | A successful read returns fewer fields than the file has lines, each a token. The unbound `ind` error means no line is a header. The IndexError of the first loop names a blank line. The IndexError of the second loop names a line with fewer than two tokens. |
| `RadexOutput.ScanForHeader` | run_radex_pythonradex.py:105-109 | The first loop ends as `ScanFrom` says: it binds `ind` at the first header, raises at a blank line met first, or runs out of lines. |
| `RadexOutput.ScanFrom` | run_radex_pythonradex.py:105-109 | Found(h): line h is a header and every earlier line has a last token that is not the unit label. BlankAt(b): the same, with line b blank. Exhausted: every line is such a skipped line. |
| `RadexOutput.CollectFluxes` | run_radex_pythonradex.py:111-113 | The second loop returns what `FluxesFrom` says for the lines after the header. |
| `RadexOutput.FluxesFrom` | run_radex_pythonradex.py:111-113 | Success holds exactly when every remaining line has two or more tokens. It then holds one second-to-last token per line, in order. Failure names the first line with fewer than two tokens. |
| `RadexOutput.ReadRdx` | run_radex_pythonradex.py:94-115 | The outcome of `read_rdx` on the file's lines is `ReadRdxSpec` of those lines. |
| `RadexOutput.ScanFindsFirstHeader` | run_radex_pythonradex.py:105-109 | The scan stops exactly at the first header line preceded only by non-blank lines. |
| `RadexOutput.ReadRdxSuccess` | run_radex_pythonradex.py:105-115 | With h the first header line, the read succeeds exactly when every later line has two or more tokens. The result then has one element per later line, each that line's second-to-last token, in file order. |
| `RadexOutput.ReadRdxNeedsHeader` | run_radex_pythonradex.py:105-111 | A successful read implies a first header line and flux fields on every later line. |
| `RadexOutput.EmptyResultIffHeaderLast` | run_radex_pythonradex.py:111-115 | The result is the empty list exactly when the first header is the file's last line. |
| `RadexOutput.NoHeaderRaises` | run_radex_pythonradex.py:105-111 | A file without a header line always raises. The error is the unbound `ind` exactly when no line is blank. |
| `RadexOutput.BlankBeforeHeaderRaises` | run_radex_pythonradex.py:105-107 | A blank line reached before any header raises IndexError at that line. |
| `RadexOutput.ResultAfterFirstHeaderOnly` | run_radex_pythonradex.py:105-113 | Whatever skipped lines come first, the outcome is that of the flux loop over the lines after the first header alone. Later header lines are read as data. |
| `RadexOutput.FluxesShift` | run_radex_pythonradex.py:111-113 | The flux loop sees only the lines it reads. Moving them within the file moves only the line number in a failure. |
| `CollisionPartners.CollPartnerDensities` | run_radex_pythonradex.py:133-135 | The dictionary is the in-order insertion of the partner pairs. Its keys are `part1name`, plus `part2name` when given. `part2name` maps to `part2dens`. `part1name` keeps `part1dens` unless the names are equal. It has two entries exactly when a different second name is given. |
| `CollisionPartners.DictOfPartnerPairs` | run_radex_pythonradex.py:133-135 | Inserting the partner pairs in order is the one-entry dictionary, updated with the second pair when there is one. |
| `CollisionPartners.DictFromPairsLastWins` | run_radex_pythonradex.py:133-135 | In a dictionary built by inserting pairs in order, a key holds the value of its last pair. |
| `CollisionPartners.DictFromPairs` | run_radex_pythonradex.py:133-135 | Inserting pairs in order gives a dictionary whose keys are exactly the pairs' names. |
| `CollisionPartners.PartnerPairs` | run_radex_pythonradex.py:133-135 | There are two partner pairs exactly when `part2name` is given, otherwise one. |
| `CollisionPartners.PartnerNamesAgree` | run_radex_pythonradex.py:133-135 | The partner names written to the RADEX input file are the names of `PartnerPairs`, in the same order. The dictionary's keys are exactly those names. |
| `CollisionPartners.EqualNamesDiverge` | run_radex_pythonradex.py:133-135 | When both partner names are equal, the input file declares two partners while the dictionary has a single entry holding `part2dens`. |

## Left out

- Running RADEX and timing the run (run_radex_pythonradex.py:82-92): these are process invocation, a change to `PATH` and wall-clock time.
- Opening and writing the real files (run_radex_pythonradex.py:36, 101-103). The code never closes either file. The model works on an in-memory sequence of line elements. `inpfilename` therefore plays no part, and writes are not buffered.
- WriteRadexInp: each element of the model is one line as the writer terminates it, and the real file is the elements joined together. Each element is one `inp.write` call, except the frequency line: the loop's `|freqrange|` writes and the closing `" \n"` write (run_radex_pythonradex.py:41-43) are joined into one element. The lemmas about line counts and reading back hold for the file's lines only when no field text holds a line feed (`OneLinePerElement`). `NameWithLineFeed` shows a name that breaks this.
- The default arguments of `write_radex_inp`, `read_rdx` and `run_pythonradex` (for example `freqrange=(0,0)` and `outfilename='hco+.rdx'`): the model has no defaults, so every argument is an explicit input.
- `float()` on the flux fields (run_radex_pythonradex.py:113) and `np.array`: these are foreign calls. The reader returns the text of each field, and the ValueError of a non-numeric field is not modelled.
- `"{:g}".format` and `str()` on numbers: they are parameters, not definitions.
- `run_pythonradex`'s `Nebula` construction and solve (run_radex_pythonradex.py:137-140): a third-party library.
- The flux formula (run_radex_pythonradex.py:143-147) and the conversions from cgs to SI units (run_radex_pythonradex.py:117, 175-179): floating-point arithmetic on library results. The unit-conversion example is left out too: it checks that a density of 1e4 cm⁻³ becomes 1e10 m⁻³.
- The background selection in `comparison` (run_radex_pythonradex.py:172-173): it is a float-equality test. When `tbk` is not 2.73, `ext_background` is unbound at line 179 and the call raises.
- Plotting (run_radex_pythonradex.py:181-183).
- Other TypeErrors of the writer are not modelled. One case is a non-string file or partner name meeting `+ " \n"`. Another is `tkin`, `tbk`, `ntot`, `line` or `part1dens` given as `None`. The configuration's types rule these out.
