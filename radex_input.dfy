/**
 * The RADEX input file that `write_radex_inp` produces, as the sequence of its lines.
 *
 * Every line the writer emits ends with a space and a line feed. Numbers are of an
 * abstract type `N`: the only things the writer does with them are `"{:g}".format(x)`
 * (passed in as `formatG`) and `str(x)` (passed in as `toStr`, used on the frequency range).
 */
module RadexInput {
  import opened Outcomes
  import opened PyText

  /** The keyword arguments of `write_radex_inp` that reach the file. */
  datatype RunConfig<N> = RunConfig(
    molfile: string,
    outfilename: string,
    freqrange: seq<N>,
    tkin: N,
    part1dens: N,
    part1name: string,
    part2name: Option<string>,
    part2dens: Option<N>,
    tbk: N,
    ntot: N,
    line: N)

  /**
   * `"{:g}".format(None)` raises TypeError: this happens when a second partner is named but
   * its density is left at `None`. `written` holds the lines already sent to the file.
   */
  datatype InpError = Part2DensIsNone(written: seq<string>)

  /** The fields of an input file as text, in file order: the schema both writer and reader follow. */
  datatype InpFields = InpFields(
    molfile: string,
    outfilename: string,
    freq: string,
    tkin: string,
    partners: seq<(string, string)>,
    tbk: string,
    ntot: string,
    line: string)

  /** Every line of the writer ends its text with a space and a line feed. */
  function Ln(s: string): (l: string)
  {
    s + " \n"
  }

  /** A terminated line ends as the writer ends it, and stripping the terminator gives the text back. */
  lemma LnStrip(s: string)
    ensures EndsLine(Ln(s)) && Ln(s)[..|Ln(s)| - 2] == s
  {
  }

  /** A terminated line is its stripped text with the terminator added back. */
  lemma LnOfStripped(l: string)
    requires EndsLine(l)
    ensures Ln(l[..|l| - 2]) == l
  {
    assert l[..|l| - 2] + " \n" == l;
  }

  /** A line as the writer terminates it. */
  predicate EndsLine(l: string)
  {
    |l| >= 2 && l[|l| - 2] == ' ' && l[|l| - 1] == '\n'
  }

  /** The text the loop over `freqrange` writes: each value followed by one space. */
  function FreqText<N>(xs: seq<N>, toStr: N -> string): (s: string)
    ensures s == "" <==> xs == []
    ensures xs != [] ==> s[|s| - 1] == ' '
    ensures |s| >= |xs|
  {
    if xs == [] then "" else FreqText(xs[..|xs| - 1], toStr) + toStr(xs[|xs| - 1]) + " "
  }

  /** `[str(x) for x in xs]`. */
  function Shown<N>(xs: seq<N>, toStr: N -> string): (r: seq<string>)
    ensures |r| == |xs|
    ensures forall i :: 0 <= i < |xs| ==> r[i] == toStr(xs[i])
  {
    if xs == [] then [] else Shown(xs[..|xs| - 1], toStr) + [toStr(xs[|xs| - 1])]
  }

  /** The writer formats `part2dens` whenever `part2name` is given. */
  predicate Complete<N>(cfg: RunConfig<N>)
  {
    cfg.part2name.Some? ==> cfg.part2dens.Some?
  }

  /** The file has one partner block or two. */
  predicate ValidFields(f: InpFields)
  {
    |f.partners| == 1 || |f.partners| == 2
  }

  function CountText(n: nat): string
    requires n == 1 || n == 2
  {
    if n == 1 then "1" else "2"
  }

  /** The text of each line of an input file, in order, before the terminator is added. */
  function Texts(f: InpFields): (t: seq<string>)
    requires ValidFields(f)
    ensures |t| == 9 + 2 * |f.partners|
  {
    var p := f.partners;
    if |p| == 1 then
      [f.molfile, f.outfilename, f.freq, f.tkin, CountText(1),
       p[0].0, p[0].1,
       f.tbk, f.ntot, f.line, "0"]
    else
      [f.molfile, f.outfilename, f.freq, f.tkin, CountText(2),
       p[0].0, p[0].1, p[1].0, p[1].1,
       f.tbk, f.ntot, f.line, "0"]
  }

  /** Terminates every text as the writer does. */
  function LnAll(t: seq<string>): (r: seq<string>)
    ensures |r| == |t|
    ensures forall i :: 0 <= i < |t| ==> r[i] == Ln(t[i])
  {
    seq(|t|, i requires 0 <= i < |t| => Ln(t[i]))
  }

  /** The line layout of an input file. */
  function LinesOf(f: InpFields): seq<string>
    requires ValidFields(f)
  {
    LnAll(Texts(f))
  }

  /** The text each argument is rendered as. */
  function Rendered<N>(cfg: RunConfig<N>, formatG: N -> string, toStr: N -> string): (f: InpFields)
    requires Complete(cfg)
    ensures ValidFields(f)
  {
    var first := [(cfg.part1name, formatG(cfg.part1dens))];
    var partners := if cfg.part2name.Some? then first + [(cfg.part2name.value, formatG(cfg.part2dens.value))] else first;
    InpFields(cfg.molfile, cfg.outfilename, FreqText(cfg.freqrange, toStr), formatG(cfg.tkin),
              partners, formatG(cfg.tbk), formatG(cfg.ntot), formatG(cfg.line))
  }

  /** The lines of the file `write_radex_inp` writes when it does not raise. */
  function InputLines<N>(cfg: RunConfig<N>, formatG: N -> string, toStr: N -> string): (r: seq<string>)
    requires Complete(cfg)
    ensures |r| == 9 + 2 * |Rendered(cfg, formatG, toStr).partners|
  {
    LinesOf(Rendered(cfg, formatG, toStr))
  }

  /**
   * The fixed field order: molecule file, output file, frequency line, tkin, partner count,
   * one name and density line per partner, then tbk, ntot, line width and the `0` sentinel.
   */
  lemma InputLinesInOrder<N>(cfg: RunConfig<N>, formatG: N -> string, toStr: N -> string)
    requires Complete(cfg)
    ensures InputLines(cfg, formatG, toStr) ==
      [Ln(cfg.molfile), Ln(cfg.outfilename), Ln(FreqText(cfg.freqrange, toStr)), Ln(formatG(cfg.tkin))]
      + (if cfg.part2name.None? then
           [Ln("1"), Ln(cfg.part1name), Ln(formatG(cfg.part1dens))]
         else
           [Ln("2"), Ln(cfg.part1name), Ln(formatG(cfg.part1dens)),
            Ln(cfg.part2name.value), Ln(formatG(cfg.part2dens.value))])
      + [Ln(formatG(cfg.tbk)), Ln(formatG(cfg.ntot)), Ln(formatG(cfg.line)), Ln("0")]
  {
    var t := Texts(Rendered(cfg, formatG, toStr));
    var head := [cfg.molfile, cfg.outfilename, FreqText(cfg.freqrange, toStr), formatG(cfg.tkin)];
    var tail := [formatG(cfg.tbk), formatG(cfg.ntot), formatG(cfg.line), "0"];
    var block := if cfg.part2name.None? then [CountText(1), cfg.part1name, formatG(cfg.part1dens)]
                 else [CountText(2), cfg.part1name, formatG(cfg.part1dens), cfg.part2name.value, formatG(cfg.part2dens.value)];
    assert t == head + block + tail;
    LnAllAppend(head, block);
    LnAllAppend(head + block, tail);
  }

  /**
   * 11 lines with one partner and 13 with two; the fifth line is the partner count,
   * which depends on `part2name` alone; the last line is the `0` sentinel; every line
   * ends with a space and a line feed.
   */
  lemma InputLinesShape<N>(cfg: RunConfig<N>, formatG: N -> string, toStr: N -> string)
    requires Complete(cfg)
    ensures var r := InputLines(cfg, formatG, toStr);
      && |r| == (if cfg.part2name.None? then 11 else 13)
      && r[4] == Ln(if cfg.part2name.None? then "1" else "2")
      && r[|r| - 1] == Ln("0")
      && forall i :: 0 <= i < |r| ==> EndsLine(r[i])
  {
    var t := Texts(Rendered(cfg, formatG, toStr));
    forall i | 0 <= i < |t|
      ensures EndsLine(LinesOf(Rendered(cfg, formatG, toStr))[i])
    {
      LnStrip(t[i]);
    }
    InputLinesInOrder(cfg, formatG, toStr);
  }

  /** A text holding no line feed. */
  predicate NoLineFeed(s: string)
  {
    forall j :: 0 <= j < |s| ==> s[j] != '\n'
  }

  /**
   * Each element of the model is one terminated line. When no field text holds a line feed,
   * the only line feed of each element is its terminator, so each element is exactly one line
   * of the file.
   */
  lemma OneLinePerElement(f: InpFields)
    requires ValidFields(f)
    requires forall k :: 0 <= k < |Texts(f)| ==> NoLineFeed(Texts(f)[k])
    ensures forall k :: 0 <= k < |LinesOf(f)| ==>
      |LinesOf(f)[k]| >= 1 && LinesOf(f)[k][|LinesOf(f)[k]| - 1] == '\n' &&
      NoLineFeed(LinesOf(f)[k][..|LinesOf(f)[k]| - 1])
  {
    var t := Texts(f);
    forall k | 0 <= k < |LinesOf(f)|
      ensures |LinesOf(f)[k]| >= 1 && LinesOf(f)[k][|LinesOf(f)[k]| - 1] == '\n' &&
        NoLineFeed(LinesOf(f)[k][..|LinesOf(f)[k]| - 1])
    {
      var l := LinesOf(f)[k];
      LnStrip(t[k]);
      assert l[..|l| - 1] == t[k] + " ";
    }
  }

  /**
   * A partner name holding a line feed: its element of the model spans two lines of the real
   * file, which then has twelve lines instead of eleven.
   */
  lemma NameWithLineFeed()
    ensures var cfg := RunConfig("hco+.dat", "hco+.rdx", [0, 0], 20, 10000, "H2\nHe", None, None, 3, 1, 2);
      var l := InputLines(cfg, (x: int) => "1", (x: int) => "0")[5];
      |l| == 7 && l[2] == '\n' && !NoLineFeed(l[..|l| - 1])
  {
    var cfg := RunConfig("hco+.dat", "hco+.rdx", [0, 0], 20, 10000, "H2\nHe", None, None, 3, 1, 2);
    InputLinesInOrder(cfg, (x: int) => "1", (x: int) => "0");
    var l := InputLines(cfg, (x: int) => "1", (x: int) => "0")[5];
    assert l == "H2\nHe \n";
    assert l[..|l| - 1][2] == '\n';
  }

  /** Terminating lines commutes with putting texts one after another. */
  lemma LnAllAppend(a: seq<string>, b: seq<string>)
    ensures LnAll(a + b) == LnAll(a) + LnAll(b)
  {
  }

  /** The lines written before `"{:g}".format(None)` raises on a missing second density. */
  function LinesBeforeTypeError<N>(cfg: RunConfig<N>, formatG: N -> string, toStr: N -> string): (r: seq<string>)
    requires cfg.part2name.Some?
    ensures |r| == 8 && r[4] == Ln("2")
  {
    [Ln(cfg.molfile), Ln(cfg.outfilename), Ln(FreqText(cfg.freqrange, toStr)), Ln(formatG(cfg.tkin)),
     Ln("2"), Ln(cfg.part1name), Ln(formatG(cfg.part1dens)), Ln(cfg.part2name.value)]
  }

  /**
   * `write_radex_inp`: the open file handle is the sequence `inp`, each terminated line is
   * appended to it, and the loop over `freqrange` builds the text of the frequency line.
   */
  method WriteRadexInp<N>(cfg: RunConfig<N>, formatG: N -> string, toStr: N -> string)
    returns (r: Result<seq<string>, InpError>)
    ensures Complete(cfg) ==> r == Success(InputLines(cfg, formatG, toStr))
    ensures !Complete(cfg) ==> r == Failure(Part2DensIsNone(LinesBeforeTypeError(cfg, formatG, toStr)))
  {
    var inp: seq<string> := [];
    inp := inp + [Ln(cfg.molfile)];
    inp := inp + [Ln(cfg.outfilename)];

    var freq := "";
    for i := 0 to |cfg.freqrange|
      invariant freq == FreqText(cfg.freqrange[..i], toStr)
    {
      assert cfg.freqrange[..i + 1][..i] == cfg.freqrange[..i];
      freq := freq + toStr(cfg.freqrange[i]) + " ";
    }
    assert cfg.freqrange[..|cfg.freqrange|] == cfg.freqrange;
    inp := inp + [Ln(freq)];

    inp := inp + [Ln(formatG(cfg.tkin))];
    ghost var head, block := inp, [];

    if cfg.part2name.Some? {
      inp := inp + [Ln("2")];
      inp := inp + [Ln(cfg.part1name)];
      inp := inp + [Ln(formatG(cfg.part1dens))];
      inp := inp + [Ln(cfg.part2name.value)];
      assert inp == LinesBeforeTypeError(cfg, formatG, toStr);
      if cfg.part2dens.None? {
        return Failure(Part2DensIsNone(inp));
      }
      inp := inp + [Ln(formatG(cfg.part2dens.value))];
      block := [Ln("2"), Ln(cfg.part1name), Ln(formatG(cfg.part1dens)),
                Ln(cfg.part2name.value), Ln(formatG(cfg.part2dens.value))];
    } else {
      inp := inp + [Ln("1")];
      inp := inp + [Ln(cfg.part1name)];
      inp := inp + [Ln(formatG(cfg.part1dens))];
      block := [Ln("1"), Ln(cfg.part1name), Ln(formatG(cfg.part1dens))];
    }
    assert inp == head + block;

    inp := inp + [Ln(formatG(cfg.tbk))];
    inp := inp + [Ln(formatG(cfg.ntot))];
    inp := inp + [Ln(formatG(cfg.line))];
    inp := inp + [Ln("0")];
    assert head == [Ln(cfg.molfile), Ln(cfg.outfilename), Ln(FreqText(cfg.freqrange, toStr)), Ln(formatG(cfg.tkin))];
    assert inp == head + block + [Ln(formatG(cfg.tbk)), Ln(formatG(cfg.ntot)), Ln(formatG(cfg.line)), Ln("0")];
    InputLinesInOrder(cfg, formatG, toStr);
    r := Success(inp);
  }

  /** Strips the writer's line terminator from every line; `None` if some line lacks it. */
  function UnlineAll(lines: seq<string>): (r: Option<seq<string>>)
    ensures r.Some? <==> forall i :: 0 <= i < |lines| ==> EndsLine(lines[i])
    ensures r.Some? ==> LnAll(r.value) == lines
  {
    if forall i :: 0 <= i < |lines| ==> EndsLine(lines[i]) then
      var t := seq(|lines|, i requires 0 <= i < |lines| => lines[i][..|lines[i]| - 2]);
      assert forall i :: 0 <= i < |lines| ==> Ln(t[i]) == lines[i] by {
        forall i | 0 <= i < |lines| { LnOfStripped(lines[i]); }
      }
      Some(t)
    else None
  }

  /** Reads the line texts back into fields, in the layout `Texts` gives them. */
  function FromTexts(t: seq<string>): (r: Option<InpFields>)
    ensures r.Some? ==> ValidFields(r.value) && Texts(r.value) == t
  {
    if |t| == 11 && t[4] == "1" && t[10] == "0" then
      Some(InpFields(t[0], t[1], t[2], t[3], [(t[5], t[6])], t[7], t[8], t[9]))
    else if |t| == 13 && t[4] == "2" && t[12] == "0" then
      Some(InpFields(t[0], t[1], t[2], t[3], [(t[5], t[6]), (t[7], t[8])], t[9], t[10], t[11]))
    else None
  }

  /** Reads an input file back into its fields, in the layout `LinesOf` writes. */
  function ParseInp(lines: seq<string>): (r: Option<InpFields>)
    ensures r.Some? ==> ValidFields(r.value) && LinesOf(r.value) == lines
  {
    match UnlineAll(lines)
    case None => None
    case Some(t) => FromTexts(t)
  }

  /** Stripping the terminators undoes adding them. */
  lemma UnlineLnAll(t: seq<string>)
    ensures UnlineAll(LnAll(t)) == Some(t)
  {
    var lines := LnAll(t);
    forall i | 0 <= i < |t|
      ensures EndsLine(lines[i])
    {
      LnStrip(t[i]);
    }
    var u := UnlineAll(lines).value;
    forall i | 0 <= i < |t|
      ensures u[i] == t[i]
    {
      LnStrip(t[i]);
    }
    assert u == t;
  }

  /** The field texts can be read back in order. */
  lemma FromTextsOfTexts(f: InpFields)
    requires ValidFields(f)
    ensures FromTexts(Texts(f)) == Some(f)
  {
    var p := f.partners;
    if |p| == 1 {
      assert p == [(p[0].0, p[0].1)];
    } else {
      assert p == [(p[0].0, p[0].1), (p[1].0, p[1].1)];
    }
  }

  /** The layout can be read back: no field is lost or reordered, whatever text it holds. */
  lemma ParseLinesOf(f: InpFields)
    requires ValidFields(f)
    ensures ParseInp(LinesOf(f)) == Some(f)
  {
    UnlineLnAll(Texts(f));
    FromTextsOfTexts(f);
  }

  /**
   * Writer followed by reader gives back every argument as the text it was rendered as:
   * file names and partner names verbatim, one partner block per given name.
   */
  lemma InputRoundTrip<N>(cfg: RunConfig<N>, formatG: N -> string, toStr: N -> string)
    requires Complete(cfg)
    ensures ParseInp(InputLines(cfg, formatG, toStr)) == Some(Rendered(cfg, formatG, toStr))
    ensures |Rendered(cfg, formatG, toStr).partners| == if cfg.part2name.Some? then 2 else 1
  {
    ParseLinesOf(Rendered(cfg, formatG, toStr));
  }

  /** Without a second partner name, `part2dens` does not reach the file and cannot make the writer raise. */
  lemma Part2DensIgnored<N>(cfg: RunConfig<N>, d: Option<N>, formatG: N -> string, toStr: N -> string)
    requires cfg.part2name.None?
    ensures Complete(cfg) && Complete(cfg.(part2dens := d))
    ensures InputLines(cfg, formatG, toStr) == InputLines(cfg.(part2dens := d), formatG, toStr)
  {
  }

  /** The writer raises on the ninth line: what it wrote is what a complete run writes first. */
  lemma TypeErrorAfterEightLines<N>(cfg: RunConfig<N>, d: N, formatG: N -> string, toStr: N -> string)
    requires cfg.part2name.Some?
    ensures LinesBeforeTypeError(cfg, formatG, toStr) == InputLines(cfg.(part2dens := Some(d)), formatG, toStr)[..8]
  {
  }

  /** The frequency line for a pair of bounds: `(0, 0)` gives `"0 0  \n"`. */
  lemma FreqLineOfPair<N>(lo: N, hi: N, toStr: N -> string)
    ensures Ln(FreqText([lo, hi], toStr)) == toStr(lo) + " " + toStr(hi) + "  \n"
  {
    assert [lo, hi][..1] == [lo];
    assert [lo][..0] == [];
    assert FreqText([lo], toStr) == toStr(lo) + " ";
  }

  /** Splitting the text of the frequency loop on whitespace gives back each `str(x)`. */
  lemma {:induction false} FreqTextSplit<N>(xs: seq<N>, toStr: N -> string, s: string)
    requires forall i :: 0 <= i < |xs| ==> IsToken(toStr(xs[i]))
    ensures Split(FreqText(xs, toStr) + s) == Shown(xs, toStr) + Split(s)
    decreases |xs|
  {
    if xs == [] {
      assert FreqText(xs, toStr) + s == s;
    } else {
      var ys, x := xs[..|xs| - 1], xs[|xs| - 1];
      var t := toStr(x);
      assert forall i :: 0 <= i < |ys| ==> ys[i] == xs[i];
      calc {
        Split(FreqText(xs, toStr) + s);
        { assert FreqText(xs, toStr) + s == FreqText(ys, toStr) + (t + (" " + s)); }
        Split(FreqText(ys, toStr) + (t + (" " + s)));
        { FreqTextSplit(ys, toStr, t + (" " + s)); }
        Shown(ys, toStr) + Split(t + (" " + s));
        { SplitAfterToken(t, " " + s); }
        Shown(ys, toStr) + ([t] + Split(" " + s));
        { SplitAfterBlank(" ", s); }
        Shown(ys, toStr) + ([t] + Split(s));
        { assert Shown(xs, toStr) == Shown(ys, toStr) + [t]; }
        Shown(xs, toStr) + Split(s);
      }
    }
  }

  /** The frequency line holds one whitespace-separated value per element of `freqrange`. */
  lemma FreqLineTokens<N>(xs: seq<N>, toStr: N -> string)
    requires forall i :: 0 <= i < |xs| ==> IsToken(toStr(xs[i]))
    ensures Split(Ln(FreqText(xs, toStr))) == Shown(xs, toStr)
  {
    FreqTextSplit(xs, toStr, " \n");
    SplitAfterBlank(" \n", "");
    assert " \n" + "" == " \n";
  }
}
