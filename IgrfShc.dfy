/** The reader of spherical-harmonic coefficient (SHC) tables used by the
    IGRF evaluator: comment lines, one parameter line per model and a flat
    list of numbers that is reshaped into a time vector and a row-major
    coefficient matrix. */
module IgrfShc {
  import opened Wrappers
  import opened Numerics

  /** `Split(separators, StringSplitOptions.RemoveEmptyEntries)`, with the
      piece read so far in `current`. */
  function SplitFrom(s: string, separators: set<char>, current: string): (pieces: seq<string>)
    ensures forall i :: 0 <= i < |pieces| ==> |pieces[i]| > 0
    ensures (forall j :: 0 <= j < |current| ==> current[j] !in separators) ==>
              forall i, j :: 0 <= i < |pieces| && 0 <= j < |pieces[i]| ==> pieces[i][j] !in separators
    decreases |s|
  {
    if |s| == 0 then (if current == "" then [] else [current])
    else if s[0] in separators then (if current == "" then [] else [current]) + SplitFrom(s[1..], separators, "")
    else SplitFrom(s[1..], separators, current + [s[0]])
  }

  function Split(s: string, separators: set<char>): (pieces: seq<string>)
    ensures forall i :: 0 <= i < |pieces| ==> |pieces[i]| > 0
    ensures forall i, j :: 0 <= i < |pieces| && 0 <= j < |pieces[i]| ==> pieces[i][j] !in separators
  {
    SplitFrom(s, separators, "")
  }

  function Concat(pieces: seq<string>): string
  {
    if |pieces| == 0 then "" else pieces[0] + Concat(pieces[1..])
  }

  /** The characters of `s` that are not separators, in order. */
  function WithoutSeparators(s: string, separators: set<char>): string
  {
    if |s| == 0 then "" else (if s[0] in separators then "" else [s[0]]) + WithoutSeparators(s[1..], separators)
  }

  lemma ConcatAppend(a: seq<string>, b: seq<string>)
    ensures Concat(a + b) == Concat(a) + Concat(b)
  {
    if |a| == 0 {
      assert a + b == b;
    } else {
      assert (a + b)[0] == a[0];
      assert (a + b)[1..] == a[1..] + b;
      ConcatAppend(a[1..], b);
    }
  }

  /** Splitting loses nothing but the separators: the pieces, joined, are
      the input with its separators removed. */
  lemma {:induction false} SplitFromKeepsText(s: string, separators: set<char>, current: string)
    ensures Concat(SplitFrom(s, separators, current)) == current + WithoutSeparators(s, separators)
    decreases |s|
  {
    if |s| == 0 {
    } else if s[0] in separators {
      var head := if current == "" then [] else [current];
      ConcatAppend(head, SplitFrom(s[1..], separators, ""));
      SplitFromKeepsText(s[1..], separators, "");
    } else {
      SplitFromKeepsText(s[1..], separators, current + [s[0]]);
    }
  }

  lemma SplitKeepsText(s: string, separators: set<char>)
    ensures Concat(Split(s, separators)) == WithoutSeparators(s, separators)
  {
    SplitFromKeepsText(s, separators, "");
  }

  /** `Select(double.Parse).ToArray()`: every token parsed, or the first
      failure as FormatException. */
  function ParseAll(tokens: seq<string>, parse: string -> Option<real>): (r: Result<seq<real>>)
    ensures r.Success? <==> forall i :: 0 <= i < |tokens| ==> parse(tokens[i]).Some?
    ensures r.Success? ==> |r.value| == |tokens| && forall i :: 0 <= i < |tokens| ==> r.value[i] == parse(tokens[i]).value
    ensures r.Failure? ==> r.error == FormatException
  {
    if |tokens| == 0 then Success([])
    else match parse(tokens[0])
      case None => Failure(FormatException)
      case Some(x) =>
        match ParseAll(tokens[1..], parse)
        case Failure(e) => Failure(e)
        case Success(rest) => Success([x] + rest)
  }

  /** `Select(Convert.ToInt32)` over a parameter line. */
  function ToInt32All(nums: seq<real>): (r: Result<seq<int>>)
    ensures r.Success? <==> forall i :: 0 <= i < |nums| ==> ToInt32(nums[i]).Success?
    ensures r.Success? ==> |r.value| == |nums| && forall i :: 0 <= i < |nums| ==> r.value[i] == ToInt32(nums[i]).value
    ensures r.Failure? ==> r.error == OverflowException
  {
    if |nums| == 0 then Success([])
    else match ToInt32(nums[0])
      case Failure(e) => Failure(e)
      case Success(x) =>
        match ToInt32All(nums[1..])
        case Failure(e) => Failure(e)
        case Success(rest) => Success([x] + rest)
  }

  /** An entry of the `values` list: the model name or a parameter. */
  datatype ParamValue = Name(name: string) | Int(value: int)

  /** The state of the loop over lines: whether a comment has been seen
      yet, the model name, the parameter values and the data numbers. */
  datatype Scan = Scan(firstLine: bool, name: string, values: seq<ParamValue>, dataList: seq<real>)

  const DefaultName := "SHC Name Unknown"

  /** `line.StartsWith("#")`, taken as an ordinal test of the first
      character. */
  predicate IsComment(line: string)
  {
    |line| > 0 && line[0] == '#'
  }

  /** A parameter line's contribution: the current name, then its seven
      integers. */
  function ParameterEntry(name: string, ints: seq<int>): (entry: seq<ParamValue>)
    ensures |entry| == |ints| + 1 && entry[0] == Name(name)
    ensures forall i :: 0 <= i < |ints| ==> entry[i + 1] == Int(ints[i])
  {
    [Name(name)] + seq(|ints|, i requires 0 <= i < |ints| => Int(ints[i]))
  }

  /** One line. A comment is skipped (with `nameFromComment`, the first one
      becomes the name); any other line is split at spaces and parsed; with
      exactly seven numbers it is a parameter line, otherwise its numbers
      are appended to the data. */
  function ScanLine(s: Scan, line: string, parse: string -> Option<real>, nameFromComment: bool): (r: Result<Scan>)
    ensures IsComment(line) ==> r.Success? && r.value.values == s.values && r.value.dataList == s.dataList
    ensures r.Success? ==> s.values <= r.value.values && s.dataList <= r.value.dataList
    ensures r.Success? ==> r.value.values == s.values || r.value.dataList == s.dataList
    ensures r.Success? && !nameFromComment ==> r.value.name == s.name
    ensures IsComment(line) && nameFromComment && s.firstLine ==> r == Success(s.(name := line, firstLine := false))
    ensures IsComment(line) && !(nameFromComment && s.firstLine) ==> r == Success(s)
    ensures !IsComment(line) ==>
      var p := ParseAll(Split(line, {' '}), parse);
      && (p.Failure? ==> r == Failure(p.error))
      && (p.Success? && |p.value| != 7 ==> r == Success(s.(dataList := s.dataList + p.value)))
      && (p.Success? && |p.value| == 7 && ToInt32All(p.value).Failure? ==> r == Failure(ToInt32All(p.value).error))
      && (p.Success? && |p.value| == 7 && ToInt32All(p.value).Success? ==>
            r == Success(s.(values := s.values + ParameterEntry(s.name, ToInt32All(p.value).value))))
  {
    if IsComment(line) then
      Success(if nameFromComment && s.firstLine then s.(name := line, firstLine := false) else s)
    else match ParseAll(Split(line, {' '}), parse)
      case Failure(e) => Failure(e)
      case Success(nums) =>
        if |nums| == 7 then
          match ToInt32All(nums)
          case Failure(e) => Failure(e)
          case Success(ints) => Success(s.(values := s.values + ParameterEntry(s.name, ints)))
        else Success(s.(dataList := s.dataList + nums))
  }

  /** All lines in order; the first failing line's exception ends the scan. */
  function ScanLines(lines: seq<string>, parse: string -> Option<real>, start: Scan, nameFromComment: bool): (r: Result<Scan>)
    ensures r.Success? ==> start.values <= r.value.values && start.dataList <= r.value.dataList
  {
    if |lines| == 0 then Success(start)
    else match ScanLines(lines[..|lines| - 1], parse, start, nameFromComment)
      case Failure(e) => Failure(e)
      case Success(s) => ScanLine(s, lines[|lines| - 1], parse, nameFromComment)
  }

  /** Scanning a + b is scanning a and then b from where a left off. */
  lemma {:induction false} ScanLinesAppend(a: seq<string>, b: seq<string>, parse: string -> Option<real>, start: Scan, nameFromComment: bool)
    ensures ScanLines(a + b, parse, start, nameFromComment) ==
      match ScanLines(a, parse, start, nameFromComment)
      case Failure(e) => Failure(e)
      case Success(s) => ScanLines(b, parse, s, nameFromComment)
  {
    if |b| == 0 {
      assert a + b == a;
    } else {
      ScanLinesAppend(a, b[..|b| - 1], parse, start, nameFromComment);
      assert (a + b)[..|a + b| - 1] == a + b[..|b| - 1];
      assert (a + b)[|a + b| - 1] == b[|b| - 1];
    }
  }

  /** The `values` list is made of whole parameter entries: a name then
      seven integers, repeated. */
  predicate Grouped(values: seq<ParamValue>)
  {
    |values| % 8 == 0
    && (forall g :: 0 <= g < |values| / 8 ==> values[8 * g].Name?)
    && (forall i :: 0 <= i < |values| && i % 8 != 0 ==> values[i].Int?)
  }

  /** Every integer in the list fits in 32 bits. */
  predicate Int32Values(values: seq<ParamValue>)
  {
    forall i :: 0 <= i < |values| && values[i].Int? ==> IsInt32(values[i].value)
  }

  lemma GroupedAppend(values: seq<ParamValue>, name: string, ints: seq<int>)
    requires Grouped(values) && |ints| == 7
    ensures Grouped(values + ParameterEntry(name, ints))
    ensures (Int32Values(values) && forall i :: 0 <= i < 7 ==> IsInt32(ints[i])) ==>
              Int32Values(values + ParameterEntry(name, ints))
  {
    var v := values + ParameterEntry(name, ints);
    forall g | 0 <= g < |v| / 8 ensures v[8 * g].Name? {
      if g < |values| / 8 { assert v[8 * g] == values[8 * g]; }
      else { assert 8 * g == |values|; }
    }
    forall i | 0 <= i < |v| && i % 8 != 0 ensures v[i].Int? {
      if i >= |values| { assert v[i] == Int(ints[i - |values| - 1]); }
    }
    if Int32Values(values) && forall i :: 0 <= i < 7 ==> IsInt32(ints[i]) {
      forall i | 0 <= i < |v| && v[i].Int? ensures IsInt32(v[i].value) {
        if i > |values| { assert v[i] == Int(ints[i - |values| - 1]); }
      }
    }
  }

  /** Whatever the lines, the values come in whole parameter entries. */
  lemma {:induction false} ScanGroupsValues(lines: seq<string>, parse: string -> Option<real>, start: Scan, nameFromComment: bool)
    requires Grouped(start.values) && Int32Values(start.values)
    requires ScanLines(lines, parse, start, nameFromComment).Success?
    ensures Grouped(ScanLines(lines, parse, start, nameFromComment).value.values)
    ensures Int32Values(ScanLines(lines, parse, start, nameFromComment).value.values)
  {
    if |lines| > 0 {
      var prefix := lines[..|lines| - 1];
      ScanGroupsValues(prefix, parse, start, nameFromComment);
      var s := ScanLines(prefix, parse, start, nameFromComment).value;
      var line := lines[|lines| - 1];
      if !IsComment(line) {
        var nums := ParseAll(Split(line, {' '}), parse).value;
        if |nums| == 7 {
          GroupedAppend(s.values, s.name, ToInt32All(nums).value);
        }
      }
    }
  }

  /** The name is the first comment line, verbatim; until one is seen the
      starting name is used. */
  lemma {:induction false} ScanNameIsFirstComment(lines: seq<string>, parse: string -> Option<real>, start: Scan)
    requires start.firstLine
    requires ScanLines(lines, parse, start, true).Success?
    ensures var s := ScanLines(lines, parse, start, true).value;
      (s.firstLine <==> forall i :: 0 <= i < |lines| ==> !IsComment(lines[i]))
      && (s.firstLine ==> s.name == start.name)
      && (!s.firstLine ==> exists i :: 0 <= i < |lines| && IsComment(lines[i]) && s.name == lines[i]
                                       && forall j :: 0 <= j < i ==> !IsComment(lines[j]))
  {
    if |lines| > 0 {
      var prefix := lines[..|lines| - 1];
      ScanNameIsFirstComment(prefix, parse, start);
      var s := ScanLines(prefix, parse, start, true).value;
      var s' := ScanLines(lines, parse, start, true).value;
      assert forall i :: 0 <= i < |prefix| ==> prefix[i] == lines[i];
      if !s.firstLine {
        var i :| 0 <= i < |prefix| && IsComment(prefix[i]) && s.name == prefix[i]
                 && forall j :: 0 <= j < i ==> !IsComment(prefix[j]);
        assert s'.name == lines[i];
      } else if IsComment(lines[|lines| - 1]) {
        assert s'.name == lines[|lines| - 1];
      }
    }
  }

  /** File-style scanning (comments skipped) never changes the name. */
  lemma {:induction false} ScanKeepsNameWithoutComments(lines: seq<string>, parse: string -> Option<real>, start: Scan)
    requires ScanLines(lines, parse, start, false).Success?
    ensures ScanLines(lines, parse, start, false).value.name == start.name
  {
    if |lines| > 0 {
      ScanKeepsNameWithoutComments(lines[..|lines| - 1], parse, start);
    }
  }

  /** The keys paired with the first eight collected values. */
  const ShcKeys: seq<string> := ["SHC", "nmin", "nmax", "N", "order", "step", "start_year", "end_year"]

  function Min(a: int, b: int): int
  {
    if a <= b then a else b
  }

  /** `keys.Zip(values).ToDictionary(...)`. */
  function Parameters(values: seq<ParamValue>): (p: map<string, ParamValue>)
    ensures forall k :: 0 <= k < Min(|ShcKeys|, |values|) ==> ShcKeys[k] in p && p[ShcKeys[k]] == values[k]
    ensures forall key :: key in p ==> exists k :: 0 <= k < Min(|ShcKeys|, |values|) && ShcKeys[k] == key
  {
    map k | 0 <= k < Min(|ShcKeys|, |values|) :: ShcKeys[k] := values[k]
  }

  /** `(int)parameters[key]`. */
  function IntParameter(p: map<string, ParamValue>, key: string): (r: Result<int>)
    ensures r.Success? <==> key in p && p[key].Int?
    ensures r.Success? ==> r.value == p[key].value
    ensures key !in p ==> r == Failure(KeyNotFoundException)
  {
    if key !in p then Failure(KeyNotFoundException)
    else match p[key]
      case Name(_) => Failure(InvalidCastException)
      case Int(v) => Success(v)
  }

  lemma ParametersInt32(values: seq<ParamValue>)
    requires Int32Values(values)
    ensures forall key :: key in Parameters(values) && Parameters(values)[key].Int? ==> IsInt32(Parameters(values)[key].value)
  {
  }

  /** Every key after "SHC" holds an integer, so the casts never fail. */
  lemma ParametersAreInts(values: seq<ParamValue>, key: string)
    requires Grouped(values)
    requires key in Parameters(values) && key != "SHC"
    ensures IntParameter(Parameters(values), key).Success?
  {
    var k :| 0 <= k < Min(|ShcKeys|, |values|) && ShcKeys[k] == key;
    assert 0 < k < 8;
    HeaderFieldIsInt(values, k);
  }

  lemma HeaderFieldIsInt(values: seq<ParamValue>, k: int)
    requires Grouped(values) && 0 < k < 8 && k < |values|
    ensures values[k].Int?
  {
    assert k % 8 != 0;
  }

  /** `Take(n)` and `Skip(n)`. */
  function Take(s: seq<real>, n: int): (t: seq<real>)
    ensures |t| == if n <= 0 then 0 else Min(n, |s|)
    ensures forall i :: 0 <= i < |t| ==> t[i] == s[i]
  {
    if n <= 0 then [] else if n >= |s| then s else s[..n]
  }

  function Skip(s: seq<real>, n: int): (t: seq<real>)
    ensures |t| == |s| - (if n <= 0 then 0 else Min(n, |s|))
  {
    if n <= 0 then s else if n >= |s| then [] else s[n..]
  }

  lemma TakeSkip(s: seq<real>, n: int)
    ensures Take(s, n) + Skip(s, n) == s
  {
  }

  /** The loaded model: time vector, coefficients (one row per
      coefficient, one column per time) and the parameter dictionary. */
  datatype ShcModel = ShcModel(time: seq<real>, coeffs: array2<real>, parameters: map<string, ParamValue>)

  /** The exception the reshape throws for `n` = parameters["N"], if any:
      the divisor n + 2 (32-bit) is zero, or an array dimension is negative. */
  function ReshapeError(dataLength: int, n: int): (e: Option<Exception>)
    requires IsInt32(n) && 0 <= dataLength
    ensures 0 <= n <= Int32Max - 2 ==> e.None?
    ensures n == -2 ==> e == Some(DivideByZeroException)
    ensures n < 0 && n != -2 ==> e == Some(OverflowException)
  {
    var d := Wrap32(n + 2);
    if d == 0 then Some(DivideByZeroException)
    else if TruncDiv(dataLength, d) < 0 || n < 0 then Some(OverflowException)
    else None
  }

  /** The coefficient matrix's row count: whole rows of n + 2 numbers
      (degree, order, then n values) after the time vector. */
  function RowCount(coeffsLength: int, n: int): (rows: int)
    requires IsInt32(n) && 0 <= coeffsLength && Wrap32(n + 2) != 0
  {
    TruncDiv(coeffsLength, Wrap32(n + 2))
  }

  lemma DivBounds(a: int, b: int)
    requires 0 <= a && 0 < b
    ensures (a / b) * b <= a < (a / b) * b + b
  {
  }

  /** Every row read stays inside the data, and only a trailing partial
      row (fewer than n + 2 numbers) is left over. */
  lemma ReshapeInBounds(coeffsLength: int, n: int, i: int, j: int)
    requires 0 <= n <= Int32Max - 2 && 0 <= coeffsLength
    requires 0 <= i < coeffsLength / (n + 2) && 0 <= j < n
    ensures 0 <= Offset(n, i, j) < coeffsLength
  {
    DivBounds(coeffsLength, n + 2);
    var rows := coeffsLength / (n + 2);
    assert i * (n + 2) <= (rows - 1) * (n + 2);
    assert (rows - 1) * (n + 2) == rows * (n + 2) - (n + 2);
  }

  lemma ReshapeDropsOnlyPartialRow(coeffsLength: int, n: int)
    requires 0 <= n <= Int32Max - 2 && 0 <= coeffsLength
    ensures RowCount(coeffsLength, n) * (n + 2) <= coeffsLength < (RowCount(coeffsLength, n) + 1) * (n + 2)
  {
    DivBounds(coeffsLength, n + 2);
  }

  /** The model holds the first n numbers as times and reads row i,
      column j of the matrix from position n + i(n+2) + j + 2 of the data. */
  ghost predicate ReshapedFrom(m: ShcModel, dataList: seq<real>, n: int)
    reads m.coeffs
    requires IsInt32(n) && n >= 0 && ReshapeError(|Skip(dataList, n)|, n).None?
  {
    var coeffsData := Skip(dataList, n);
    m.time == Take(dataList, n)
    && m.coeffs.Length0 == RowCount(|coeffsData|, n) && m.coeffs.Length1 == n
    && forall i, j :: 0 <= i < m.coeffs.Length0 && 0 <= j < m.coeffs.Length1 ==>
         Offset(n, i, j) < |coeffsData| && m.coeffs[i, j] == coeffsData[Offset(n, i, j)]
  }

  /** Where row i, column j of the matrix sits in the data after the times. */
  function Offset(n: int, i: int, j: int): int
  {
    i * (n + 2) + j + 2
  }

  /** The coefficient rows the reshape reads out of the data after the
      times: row i holds the n values that follow its degree and order.
      When n + 2 wraps past int.MaxValue the reshape yields no row. */
  function ReshapedSeries(coeffsData: seq<real>, n: nat): (series: seq<seq<real>>)
    requires n <= Int32Max
    ensures forall i :: 0 <= i < |series| ==> |series[i]| == n
    ensures 0 < n + 2 <= Int32Max ==> |series| * (n + 2) <= |coeffsData| < |series| * (n + 2) + (n + 2)
  {
    if n > Int32Max - 2 then []
    else
      var rows := |coeffsData| / (n + 2);
      DivBounds(|coeffsData|, n + 2);
      seq(rows, i requires 0 <= i < rows => ReshapedRow(coeffsData, n, i))
  }

  /** Row i of the reshape: the n values after its degree and order. */
  function ReshapedRow(coeffsData: seq<real>, n: nat, i: nat): (row: seq<real>)
    requires n <= Int32Max - 2 && i < |coeffsData| / (n + 2)
    ensures |row| == n
    ensures forall j :: 0 <= j < n ==> Offset(n, i, j) < |coeffsData| && row[j] == coeffsData[Offset(n, i, j)]
  {
    RowInBounds(|coeffsData|, n, i);
    seq(n, j requires 0 <= j < n => coeffsData[Offset(n, i, j)])
  }

  lemma RowInBounds(coeffsLength: int, n: int, i: int)
    requires 0 <= n <= Int32Max - 2 && 0 <= coeffsLength && 0 <= i < coeffsLength / (n + 2)
    ensures forall j :: 0 <= j < n ==> 0 <= Offset(n, i, j) < coeffsLength
  {
    forall j | 0 <= j < n {
      ReshapeInBounds(coeffsLength, n, i, j);
    }
  }

  /** A bad-sized N that does not throw leaves no room for any row. */
  lemma WrappedWidthHasNoRows(coeffsLength: int, n: int)
    requires IsInt32(n) && 0 <= coeffsLength && Int32Max - 2 < n
    requires ReshapeError(coeffsLength, n).None?
    ensures RowCount(coeffsLength, n) == 0
  {
  }

  /** Copies the n values of row i. */
  method CopyRow(coeffs: array2<real>, coeffsData: seq<real>, n: int, i: int)
    requires 0 <= i < coeffs.Length0 && coeffs.Length1 == n
    requires forall j :: 0 <= j < n ==> 0 <= Offset(n, i, j) < |coeffsData|
    modifies coeffs
    ensures forall j :: 0 <= j < n ==> coeffs[i, j] == coeffsData[Offset(n, i, j)]
    ensures forall i', j :: 0 <= i' < coeffs.Length0 && i' != i && 0 <= j < n ==> coeffs[i', j] == old(coeffs[i', j])
  {
    for j := 0 to n
      invariant forall j' :: 0 <= j' < j ==> coeffs[i, j'] == coeffsData[Offset(n, i, j')]
      invariant forall i', j' :: 0 <= i' < coeffs.Length0 && i' != i && 0 <= j' < n ==> coeffs[i', j'] == old(coeffs[i', j'])
    {
      coeffs[i, j] := coeffsData[Offset(n, i, j)];
    }
  }

  /** The nested loops that copy the rows out of the flat data. */
  method FillCoefficients(coeffsData: seq<real>, n: int, rows: int) returns (coeffs: array2<real>)
    requires 0 <= n <= Int32Max - 2 && rows == |coeffsData| / (n + 2)
    ensures fresh(coeffs) && coeffs.Length0 == rows && coeffs.Length1 == n
    ensures forall i, j :: 0 <= i < rows && 0 <= j < n ==>
              Offset(n, i, j) < |coeffsData| && coeffs[i, j] == coeffsData[Offset(n, i, j)]
  {
    forall i, j | 0 <= i < rows && 0 <= j < n ensures 0 <= Offset(n, i, j) < |coeffsData| {
      ReshapeInBounds(|coeffsData|, n, i, j);
    }
    coeffs := new real[rows, n];
    for i := 0 to rows
      invariant forall i', j :: 0 <= i' < i && 0 <= j < n ==> coeffs[i', j] == coeffsData[Offset(n, i', j)]
    {
      CopyRow(coeffs, coeffsData, n, i);
    }
  }

  /** What the reshape yields from the data and the parameters: the
      missing "N" key's exception, the exception of a bad N, or the
      reshaped model. */
  ghost predicate ReshapeOutcome(r: Result<ShcModel>, dataList: seq<real>, parameters: map<string, ParamValue>)
    reads if r.Success? then {r.value.coeffs} else {}
    requires forall key :: key in parameters && parameters[key].Int? ==> IsInt32(parameters[key].value)
  {
    match IntParameter(parameters, "N")
    case Failure(e) => r == Failure(e)
    case Success(n) =>
      match ReshapeError(|Skip(dataList, n)|, n)
      case Some(e) => r == Failure(e)
      case None => r.Success? && r.value.parameters == parameters && n >= 0 && ReshapedFrom(r.value, dataList, n)
  }

  /** The reshape that follows the line loop. */
  method Reshape(dataList: seq<real>, parameters: map<string, ParamValue>) returns (r: Result<ShcModel>)
    requires forall key :: key in parameters && parameters[key].Int? ==> IsInt32(parameters[key].value)
    ensures ReshapeOutcome(r, dataList, parameters)
    ensures r.Success? ==> fresh(r.value.coeffs)
  {
    var nParameter := IntParameter(parameters, "N");
    if nParameter.Failure? { return Failure(nParameter.error); }
    var n := nParameter.value;
    var time := Take(dataList, n);
    var coeffsData := Skip(dataList, n);
    var d := Wrap32(n + 2);
    if d == 0 { return Failure(DivideByZeroException); }
    var rows := TruncDiv(|coeffsData|, d);
    if rows < 0 || n < 0 { return Failure(OverflowException); }
    var coeffs: array2<real>;
    if d > 0 {
      coeffs := FillCoefficients(coeffsData, n, rows);
    } else {
      // n + 2 wrapped around, which leaves no room for a row
      coeffs := new real[rows, n];
    }
    return Success(ShcModel(time, coeffs, parameters));
  }

  /** A failure in one line ends the scan with that line's exception. */
  lemma {:induction false} ScanFailureStops(lines: seq<string>, k: nat, parse: string -> Option<real>, start: Scan, nameFromComment: bool)
    requires k <= |lines| && ScanLines(lines[..k], parse, start, nameFromComment).Failure?
    ensures ScanLines(lines, parse, start, nameFromComment) == ScanLines(lines[..k], parse, start, nameFromComment)
    decreases |lines|
  {
    if k < |lines| {
      var prefix := lines[..|lines| - 1];
      assert prefix[..k] == lines[..k];
      ScanFailureStops(prefix, k, parse, start, nameFromComment);
    } else {
      assert lines[..k] == lines;
    }
  }

  /** The foreach over the lines, with its `firstLine` flag and the
      `values` and `dataList` lists it appends to. */
  method ScanShcLines(lines: seq<string>, parse: string -> Option<real>, start: Scan, nameFromComment: bool)
    returns (r: Result<Scan>)
    ensures r == ScanLines(lines, parse, start, nameFromComment)
  {
    var firstLine, name, values, dataList := start.firstLine, start.name, start.values, start.dataList;
    for i := 0 to |lines|
      invariant ScanLines(lines[..i], parse, start, nameFromComment) == Success(Scan(firstLine, name, values, dataList))
    {
      var line := lines[i];
      assert lines[..i + 1][..i] == lines[..i];
      if IsComment(line) {
        if nameFromComment && firstLine {
          name := line;
          firstLine := false;
        }
        continue;
      }
      var readLine := ParseAll(Split(line, {' '}), parse);
      if readLine.Failure? {
        ScanFailureStops(lines, i + 1, parse, start, nameFromComment);
        return Failure(readLine.error);
      }
      if |readLine.value| == 7 {
        var ints := ToInt32All(readLine.value);
        if ints.Failure? {
          ScanFailureStops(lines, i + 1, parse, start, nameFromComment);
          return Failure(ints.error);
        }
        values := values + ParameterEntry(name, ints.value);
      } else {
        dataList := dataList + readLine.value;
      }
    }
    assert lines[..|lines|] == lines;
    return Success(Scan(firstLine, name, values, dataList));
  }

  /** The two embedded models; any other value has no table. */
  const Igrf13Model := 0
  const Igrf14Model := 1

  /** The lines of a text: split at line breaks, empty lines dropped. */
  function TextLines(data: string): seq<string>
  {
    Split(data, {'\n', '\r'})
  }

  /** The scans of the two loaders: an embedded table names the model by
      its first comment; a file is named by its file name. */
  function InternalScan(data: string, parse: string -> Option<real>): Result<Scan>
  {
    ScanLines(TextLines(data), parse, Scan(true, DefaultName, [], []), true)
  }

  function FileScan(fileName: string, lines: seq<string>, parse: string -> Option<real>): Result<Scan>
  {
    ScanLines(lines, parse, Scan(true, fileName, [], []), false)
  }

  /** The tail both loaders share: pair the keys with the values, then
      reshape. */
  method Unpack(scan: Scan) returns (r: Result<ShcModel>)
    requires Int32Values(scan.values)
    ensures forall key :: key in Parameters(scan.values) && Parameters(scan.values)[key].Int? ==>
              IsInt32(Parameters(scan.values)[key].value)
    ensures ReshapeOutcome(r, scan.dataList, Parameters(scan.values))
    ensures r.Success? ==> fresh(r.value.coeffs)
  {
    var parameters := Parameters(scan.values);
    ParametersInt32(scan.values);
    r := Reshape(scan.dataList, parameters);
  }

  /** `LoadInternalShcModel`: picks the embedded table (the texts are
      parameters here), scans its lines and reshapes the data. */
  method LoadInternalShcModel(model: int, igrf13Text: string, igrf14Text: string, parse: string -> Option<real>)
    returns (r: Result<ShcModel>)
    ensures model != Igrf13Model && model != Igrf14Model ==> r == Failure(ArgumentOutOfRangeException)
    ensures model == Igrf13Model || model == Igrf14Model ==>
              var scan := InternalScan(if model == Igrf13Model then igrf13Text else igrf14Text, parse);
              (scan.Failure? ==> r == Failure(scan.error))
              && (scan.Success? ==> Int32Values(scan.value.values) && ReshapeOutcome(r, scan.value.dataList, Parameters(scan.value.values)))
    ensures r.Success? ==> fresh(r.value.coeffs)
  {
    var data: string;
    if model == Igrf13Model {
      data := igrf13Text;
    } else if model == Igrf14Model {
      data := igrf14Text;
    } else {
      return Failure(ArgumentOutOfRangeException);
    }
    var lines := TextLines(data);
    var scan := ScanShcLines(lines, parse, Scan(true, DefaultName, [], []), true);
    if scan.Failure? { return Failure(scan.error); }
    ScanGroupsValues(lines, parse, Scan(true, DefaultName, [], []), true);
    r := Unpack(scan.value);
  }

  /** `LoadShcFile`: the file's lines (reading the file is not modelled)
      are scanned with comments skipped and the file name as the model
      name, then reshaped. */
  method LoadShcFile(fileName: string, lines: seq<string>, parse: string -> Option<real>) returns (r: Result<ShcModel>)
    ensures var scan := FileScan(fileName, lines, parse);
      (scan.Failure? ==> r == Failure(scan.error))
      && (scan.Success? ==> Int32Values(scan.value.values) && ReshapeOutcome(r, scan.value.dataList, Parameters(scan.value.values)))
    ensures r.Success? ==> fresh(r.value.coeffs)
  {
    var scan := ScanShcLines(lines, parse, Scan(true, fileName, [], []), false);
    if scan.Failure? { return Failure(scan.error); }
    ScanGroupsValues(lines, parse, Scan(true, fileName, [], []), false);
    r := Unpack(scan.value);
  }
}
