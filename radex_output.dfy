/**
 * `read_rdx`: the line fluxes in a RADEX output file, as the raw text of each flux field.
 *
 * The reader looks for the first line whose last whitespace-separated token is the unit label
 * `(erg/cm2/s)`, and takes the second-to-last token of every line after it. `float()` on that
 * token is not modelled: the result keeps the token text.
 */
module RadexOutput {
  import opened Outcomes
  import opened PyText

  /** The unit label that ends the header line of RADEX's result table. */
  const HeaderUnit: string := "(erg/cm2/s)"

  /** The exceptions `read_rdx` raises, with the index of the line concerned. */
  datatype RdxError =
    | IndNeverBound                    // no header line: `ind` is unbound after the scan
    | LastTokenOfBlank(line: nat)      // `w[-1]` on a blank line met during the scan
    | NoSecondToLast(line: nat)        // `w[-2]` on a line after the header with fewer than two tokens

  /** The header line: its last token is the unit label. */
  predicate IsHeader(line: string)
    ensures IsHeader(line) ==> Split(line) != [] && HeaderUnit in Split(line)
  {
    var w := Split(line);
    |w| > 0 && w[|w| - 1] == HeaderUnit
  }

  /** A line the scan passes over: it has a last token, and that token is not the unit label. */
  predicate Skipped(line: string)
  {
    Split(line) != [] && !IsHeader(line)
  }

  /** A data line: it has a second-to-last token. */
  predicate IsDataRow(line: string)
  {
    |Split(line)| >= 2
  }

  /** The flux field of a data line. */
  function SecondToLast(line: string): (t: string)
    requires IsDataRow(line)
    ensures IsToken(t) && t in Split(line)
  {
    var w := Split(line);
    w[|w| - 2]
  }

  /** `h` is where the scan stops: a header line with only skipped lines before it. */
  ghost predicate IsFirstHeader(lines: seq<string>, h: nat)
  {
    h < |lines| && IsHeader(lines[h]) && forall j :: 0 <= j < h ==> Skipped(lines[j])
  }

  /** How the scan of the first loop ends. */
  datatype Scan = Found(ind: nat) | BlankAt(at: nat) | Exhausted

  /** The first loop of `read_rdx`, from line `i` on. */
  function ScanFrom(lines: seq<string>, i: nat): (s: Scan)
    requires i <= |lines|
    ensures s.Found? ==> i <= s.ind < |lines| && IsHeader(lines[s.ind])
                         && forall j :: i <= j < s.ind ==> Skipped(lines[j])
    ensures s.BlankAt? ==> i <= s.at < |lines| && Split(lines[s.at]) == []
                           && forall j :: i <= j < s.at ==> Skipped(lines[j])
    ensures s.Exhausted? ==> forall j :: i <= j < |lines| ==> Skipped(lines[j])
    decreases |lines| - i
  {
    if i == |lines| then Exhausted
    else if Split(lines[i]) == [] then BlankAt(i)
    else if IsHeader(lines[i]) then Found(i)
    else ScanFrom(lines, i + 1)
  }

  /** The second loop of `read_rdx`, from line `k` on. */
  function FluxesFrom(lines: seq<string>, k: nat): (r: Result<seq<string>, RdxError>)
    requires k <= |lines|
    ensures r.Success? <==> forall j :: k <= j < |lines| ==> IsDataRow(lines[j])
    ensures r.Success? ==> |r.value| == |lines| - k
                           && forall j :: 0 <= j < |r.value| ==> r.value[j] == SecondToLast(lines[k + j])
    ensures r.Failure? ==> r.error.NoSecondToLast? && k <= r.error.line < |lines|
                           && !IsDataRow(lines[r.error.line])
                           && forall j :: k <= j < r.error.line ==> IsDataRow(lines[j])
    decreases |lines| - k
  {
    if k == |lines| then Success([])
    else if !IsDataRow(lines[k]) then Failure(NoSecondToLast(k))
    else
      match FluxesFrom(lines, k + 1)
      case Success(rest) => Success([SecondToLast(lines[k])] + rest)
      case Failure(e) => Failure(e)
  }

  /** What `read_rdx` returns or raises on the lines of the file. */
  function ReadRdxSpec(lines: seq<string>): (r: Result<seq<string>, RdxError>)
    ensures r.Success? ==> |r.value| < |lines| && forall j :: 0 <= j < |r.value| ==> IsToken(r.value[j])
    ensures r == Failure(IndNeverBound) ==> forall j :: 0 <= j < |lines| ==> !IsHeader(lines[j])
    ensures r.Failure? && r.error.LastTokenOfBlank? ==> r.error.line < |lines| && Split(lines[r.error.line]) == []
    ensures r.Failure? && r.error.NoSecondToLast? ==> r.error.line < |lines| && !IsDataRow(lines[r.error.line])
  {
    match ScanFrom(lines, 0)
    case Exhausted => Failure(IndNeverBound)
    case BlankAt(b) => Failure(LastTokenOfBlank(b))
    case Found(h) => FluxesFrom(lines, h + 1)
  }

  /** Puts the fluxes already collected in front of what the rest of the loop yields. */
  function Prepend(acc: seq<string>, r: Result<seq<string>, RdxError>): Result<seq<string>, RdxError>
  {
    match r
    case Success(rest) => Success(acc + rest)
    case Failure(e) => Failure(e)
  }

  lemma PrependNothing(r: Result<seq<string>, RdxError>)
    ensures Prepend([], r) == r
  {
    if r.Success? {
      assert [] + r.value == r.value;
    }
  }

  lemma PrependOneMore(acc: seq<string>, t: string, r: Result<seq<string>, RdxError>)
    ensures Prepend(acc + [t], r) == Prepend(acc, Prepend([t], r))
  {
    if r.Success? {
      assert (acc + [t]) + r.value == acc + ([t] + r.value);
    }
  }

  /**
   * The first loop of `read_rdx`: an index loop that binds `ind` at the header line and
   * breaks, and raises at a blank line (`w[-1]` of an empty split).
   */
  method ScanForHeader(lines: seq<string>) returns (s: Scan)
    ensures s == ScanFrom(lines, 0)
  {
    var ind: Option<nat> := None;
    for i := 0 to |lines|
      invariant ind == None
      invariant ScanFrom(lines, i) == ScanFrom(lines, 0)
    {
      var w := Split(lines[i]);
      if |w| == 0 {
        return BlankAt(i);
      }
      if w[|w| - 1] == HeaderUnit {
        ind := Some(i);
        break;
      }
    }
    s := if ind.Some? then Found(ind.value) else Exhausted;
  }

  /** The second loop of `read_rdx`: one flux field appended per line from `start` on. */
  method CollectFluxes(lines: seq<string>, start: nat) returns (r: Result<seq<string>, RdxError>)
    requires start <= |lines|
    ensures r == FluxesFrom(lines, start)
  {
    var result: seq<string> := [];
    PrependNothing(FluxesFrom(lines, start));
    for k := start to |lines|
      invariant Prepend(result, FluxesFrom(lines, k)) == FluxesFrom(lines, start)
    {
      var w := Split(lines[k]);
      if |w| < 2 {
        return Failure(NoSecondToLast(k));
      }
      PrependOneMore(result, w[|w| - 2], FluxesFrom(lines, k + 1));
      result := result + [w[|w| - 2]];
    }
    assert result + [] == result;
    r := Success(result);
  }

  /** `read_rdx` on the lines `outfile.readlines()` returned. */
  method ReadRdx(lines: seq<string>) returns (r: Result<seq<string>, RdxError>)
    ensures r == ReadRdxSpec(lines)
  {
    var scan := ScanForHeader(lines);
    match scan
    case Exhausted => r := Failure(IndNeverBound);
    case BlankAt(b) => r := Failure(LastTokenOfBlank(b));
    case Found(ind) => r := CollectFluxes(lines, ind + 1);
  }

  /** Every line after `h` has a flux field. */
  ghost predicate DataRowsAfter(lines: seq<string>, h: nat)
  {
    forall j :: h < j < |lines| ==> IsDataRow(lines[j])
  }

  /** From line `i`, the scan passes over skipped lines and stops at the header after them. */
  lemma {:induction false} ScanReachesHeader(lines: seq<string>, i: nat, h: nat)
    requires i <= h < |lines| && IsHeader(lines[h])
    requires forall j :: i <= j < h ==> Skipped(lines[j])
    ensures ScanFrom(lines, i) == Found(h)
    decreases h - i
  {
    if i < h {
      assert Skipped(lines[i]);
      ScanReachesHeader(lines, i + 1, h);
    }
  }

  /** The scan stops at the first header line; a later one is read as data. */
  lemma ScanFindsFirstHeader(lines: seq<string>, h: nat)
    requires IsFirstHeader(lines, h)
    ensures ScanFrom(lines, 0) == Found(h)
  {
    ScanReachesHeader(lines, 0, h);
  }

  /**
   * `read_rdx` returns exactly when there is a first header line and every later line has
   * at least two tokens; it then returns one field per later line, in file order, each the
   * line's second-to-last token.
   */
  lemma ReadRdxSuccess(lines: seq<string>, h: nat)
    requires IsFirstHeader(lines, h)
    ensures ReadRdxSpec(lines).Success? <==> DataRowsAfter(lines, h)
    ensures ReadRdxSpec(lines).Success? ==>
      var v := ReadRdxSpec(lines).value;
      |v| == |lines| - h - 1 && forall j :: 0 <= j < |v| ==> v[j] == SecondToLast(lines[h + 1 + j])
  {
    ScanFindsFirstHeader(lines, h);
  }

  /** A result comes only from a file that has a header line. */
  lemma ReadRdxNeedsHeader(lines: seq<string>)
    requires ReadRdxSpec(lines).Success?
    ensures exists h :: IsFirstHeader(lines, h) && DataRowsAfter(lines, h)
  {
    var h := ScanFrom(lines, 0).ind;
    assert IsFirstHeader(lines, h);
  }

  /** The result is empty exactly when the header is the file's last line. */
  lemma EmptyResultIffHeaderLast(lines: seq<string>)
    ensures ReadRdxSpec(lines) == Success([]) <==> |lines| > 0 && IsFirstHeader(lines, |lines| - 1)
  {
    if |lines| > 0 && IsFirstHeader(lines, |lines| - 1) {
      ScanFindsFirstHeader(lines, |lines| - 1);
    }
  }

  /** Without a header line, `ind` is never bound: the reader raises rather than return nothing. */
  lemma NoHeaderRaises(lines: seq<string>)
    requires forall j :: 0 <= j < |lines| ==> !IsHeader(lines[j])
    ensures ReadRdxSpec(lines).Failure?
    ensures ReadRdxSpec(lines).error == IndNeverBound <==> forall j :: 0 <= j < |lines| ==> Split(lines[j]) != []
  {
  }

  /** From line `i`, the scan passes over skipped lines and raises at the blank line after them. */
  lemma {:induction false} ScanReachesBlank(lines: seq<string>, i: nat, b: nat)
    requires i <= b < |lines| && Split(lines[b]) == []
    requires forall j :: i <= j < b ==> Skipped(lines[j])
    ensures ScanFrom(lines, i) == BlankAt(b)
    decreases b - i
  {
    if i < b {
      assert Skipped(lines[i]);
      ScanReachesBlank(lines, i + 1, b);
    }
  }

  /** The scan raises at the first blank line when no header comes before it. */
  lemma BlankBeforeHeaderRaises(lines: seq<string>, b: nat)
    requires b < |lines| && Split(lines[b]) == []
    requires forall j :: 0 <= j < b ==> Skipped(lines[j])
    ensures ReadRdxSpec(lines) == Failure(LastTokenOfBlank(b))
  {
    ScanReachesBlank(lines, 0, b);
  }

  /** The same outcome, with the line index of a failure moved `d` lines down. */
  function Offset(r: Result<seq<string>, RdxError>, d: nat): Result<seq<string>, RdxError>
  {
    match r
    case Success(_) => r
    case Failure(IndNeverBound) => r
    case Failure(LastTokenOfBlank(l)) => Failure(LastTokenOfBlank(l + d))
    case Failure(NoSecondToLast(l)) => Failure(NoSecondToLast(l + d))
  }

  /**
   * Only lines after the first header are read as data: whatever the skipped prefix holds,
   * the outcome is that of the flux loop over the rest of the file alone.
   */
  lemma ResultAfterFirstHeaderOnly(pre: seq<string>, header: string, post: seq<string>)
    requires forall j :: 0 <= j < |pre| ==> Skipped(pre[j])
    requires IsHeader(header)
    ensures ReadRdxSpec(pre + [header] + post) == Offset(FluxesFrom(post, 0), |pre| + 1)
  {
    var lines := pre + [header] + post;
    assert IsFirstHeader(lines, |pre|) by {
      assert lines[|pre|] == header;
      assert forall j :: 0 <= j < |pre| ==> lines[j] == pre[j];
    }
    ScanFindsFirstHeader(lines, |pre|);
    assert lines[|pre| + 1..] == post[0..];
    FluxesShift(lines, |pre| + 1, post, 0);
  }

  /** The flux loop depends only on the lines it reads, up to where they sit in the file. */
  lemma {:induction false} FluxesShift(a: seq<string>, i: nat, b: seq<string>, j: nat)
    requires j <= i <= |a| && j <= |b| && a[i..] == b[j..]
    ensures FluxesFrom(a, i) == Offset(FluxesFrom(b, j), i - j)
    decreases |a| - i
  {
    if i < |a| {
      assert a[i] == a[i..][0] == b[j..][0] == b[j];
      assert a[i + 1..] == a[i..][1..] == b[j..][1..] == b[j + 1..];
      FluxesShift(a, i + 1, b, j + 1);
    } else {
      assert |b[j..]| == 0;
    }
  }
}
