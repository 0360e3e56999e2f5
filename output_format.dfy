/**
 * The predictions file: one line per prediction, the predicted category in
 * decimal followed by a newline, and the file object it is written to.
 */
module OutputFormat {

  datatype Option<T> = None | Some(value: T)

  predicate IsDigit(c: char)
  {
    '0' <= c <= '9'
  }

  function DigitChar(d: nat): (c: char)
    requires d < 10
    ensures IsDigit(c)
  {
    ('0' as int + d) as char
  }

  function DigitValue(c: char): (d: nat)
    requires IsDigit(c)
    ensures d < 10
  {
    c as int - '0' as int
  }

  /** Decimal rendering of a non-negative integer, most significant digit first. */
  function Decimal(n: nat): (s: string)
    ensures |s| > 0
    ensures forall i :: 0 <= i < |s| ==> IsDigit(s[i])
    ensures s[0] == '0' <==> n == 0
    ensures n == 0 ==> s == "0"
    decreases n
  {
    if n < 10 then [DigitChar(n)] else Decimal(n / 10) + [DigitChar(n % 10)]
  }

  /** Reads a decimal numeral; `None` for the empty string or a non-digit. */
  function ParseDecimal(s: string): (r: Option<nat>)
    decreases |s|
  {
    if s == [] || !IsDigit(s[|s| - 1]) then None
    else if |s| == 1 then Some(DigitValue(s[0]))
    else
      match ParseDecimal(s[..|s| - 1])
      case None => None
      case Some(high) => Some(high * 10 + DigitValue(s[|s| - 1]))
  }

  /** The line written for one prediction. */
  function Line(prediction: nat): (l: string)
    ensures |l| >= 2 && l[|l| - 1] == '\n'
  {
    Decimal(prediction) + "\n"
  }

  /** The file content after writing the lines of `ps`, in order. */
  function Content(ps: seq<nat>): string
  {
    if ps == [] then "" else Line(ps[0]) + Content(ps[1..])
  }

  /** Index of the first newline in `s`, or `|s|` when there is none. */
  function FirstNewline(s: string): (k: nat)
    ensures k <= |s|
    ensures forall i :: 0 <= i < k ==> s[i] != '\n'
    ensures k < |s| ==> s[k] == '\n'
  {
    if s == [] || s[0] == '\n' then 0 else 1 + FirstNewline(s[1..])
  }

  /**
   * Reads a predictions file back: every line must be a decimal numeral
   * ended by a newline; `None` otherwise.
   */
  function ParseLines(s: string): (r: Option<seq<nat>>)
    decreases |s|
  {
    if s == [] then Some([])
    else
      var k := FirstNewline(s);
      if k == |s| then None
      else
        match ParseDecimal(s[..k])
        case None => None
        case Some(p) =>
          match ParseLines(s[k + 1..])
          case None => None
          case Some(ps) => Some([p] + ps)
  }

  lemma {:induction false} DecimalRoundTrip(n: nat)
    ensures ParseDecimal(Decimal(n)) == Some(n)
    decreases n
  {
    if n >= 10 {
      var s := Decimal(n);
      assert s[..|s| - 1] == Decimal(n / 10);
      DecimalRoundTrip(n / 10);
    }
  }

  /** A line is the prediction's numeral and one newline, and reading the numeral gives the prediction back. */
  lemma LineRoundTrip(p: nat)
    ensures var l := Line(p);
            (forall i :: 0 <= i < |l| - 1 ==> IsDigit(l[i])) &&
            ParseDecimal(l[..|l| - 1]) == Some(p)
  {
    DecimalRoundTrip(p);
    assert Line(p)[..|Line(p)| - 1] == Decimal(p);
  }

  /** Decimal is one-to-one: distinct predictions are written as distinct lines. */
  lemma DecimalInjective(m: nat, n: nat)
    ensures Decimal(m) == Decimal(n) ==> m == n
  {
    if Decimal(m) == Decimal(n) {
      DecimalRoundTrip(m);
      DecimalRoundTrip(n);
    }
  }

  /** Appending one line to the file extends the content by that line. */
  lemma {:induction false} ContentAppend(ps: seq<nat>, p: nat)
    ensures Content(ps + [p]) == Content(ps) + Line(p)
    decreases |ps|
  {
    if ps == [] {
      assert [p][1..] == [];
    } else {
      assert (ps + [p])[1..] == ps[1..] + [p];
      ContentAppend(ps[1..], p);
    }
  }

  /**
   * The file determines the predictions: reading it back yields exactly the
   * written predictions, one per line, in writing order.
   */
  lemma {:induction false} ContentRoundTrip(ps: seq<nat>)
    ensures ParseLines(Content(ps)) == Some(ps)
    decreases |ps|
  {
    if ps != [] {
      ParseLinesLine(ps[0], Content(ps[1..]));
      ContentRoundTrip(ps[1..]);
      assert [ps[0]] + ps[1..] == ps;
    }
  }

  /** Reading a file that starts with a prediction's line reads that prediction, then the rest. */
  lemma ParseLinesLine(p: nat, rest: string)
    ensures ParseLines(Line(p) + rest) ==
              if ParseLines(rest).Some? then Some([p] + ParseLines(rest).value) else None
  {
    var l := Line(p);
    var s := l + rest;
    var k := |l| - 1;
    assert s[k] == '\n' && s[..k] == l[..k] && s[k + 1..] == rest;
    LineRoundTrip(p);
    assert FirstNewline(s) == k by {
      forall i | 0 <= i < k
        ensures s[i] != '\n'
      {
        assert s[i] == l[i] && IsDigit(l[i]);
      }
      FirstNewlineAt(s, k);
    }
  }

  lemma FirstNewlineAt(s: string, k: nat)
    requires k < |s| && s[k] == '\n'
    requires forall i :: 0 <= i < k ==> s[i] != '\n'
    ensures FirstNewline(s) == k
  {
  }

  /** An output file opened for writing ("w" mode): it starts empty. */
  class OutputFile {
    var content: string
    var closed: bool

    constructor Open()
      ensures content == [] && !closed
    {
      content := [];
      closed := false;
    }

    method Write(s: string)
      requires !closed
      modifies this
      ensures content == old(content) + s && !closed
    {
      content := content + s;
    }

    method Close()
      modifies this
      ensures content == old(content) && closed
    {
      closed := true;
    }
  }
}
