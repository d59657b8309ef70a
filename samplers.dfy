/** The two temperature readers. Each takes the already decoded text of its
    backend (the lines of the Areca hardware report, the `|`-separated fields
    of the hddtemp daemon's answer), picks the temperature fields, and folds
    them into a Reading. */
module Samplers {
  import opened Text
  import opened Readings

  /** A line of the Areca report that describes a drive. */
  predicate IsHddLine(line: string) {
    |line| >= 3 && line[..3] == "HDD"
  }

  /** Every line the Areca reader will consume, read from the last line up
      to the first drive line with fewer than five fields, has a numeric
      fifth field (otherwise `int()` raises). */
  predicate ArecaParsable(lines: seq<string>)
    decreases |lines|
  {
    if |lines| == 0 then true
    else
      var line, rest := lines[|lines| - 1], lines[..|lines| - 1];
      if !IsHddLine(line) then ArecaParsable(rest)
      else if |Fields(line)| < 5 then true
      else IsInteger(Fields(line)[4]) && ArecaParsable(rest)
  }

  /** The temperatures the Areca reader takes, in the order it takes them:
      from the last line backwards, the fifth field of each drive line,
      stopping at a drive line too short to have one. */
  function ArecaTemps(lines: seq<string>): seq<int>
    requires ArecaParsable(lines)
    decreases |lines|
  {
    if |lines| == 0 then []
    else
      var line, rest := lines[|lines| - 1], lines[..|lines| - 1];
      if !IsHddLine(line) then ArecaTemps(rest)
      else if |Fields(line)| < 5 then []
      else [ParseInt(Fields(line)[4])] + ArecaTemps(rest)
  }

  /** Reads the Areca report (`readArecaTemps`): pops lines off the end,
      folds in each drive's temperature, and falls back when none was read. */
  method ReadArecaTemps(output: seq<string>) returns (r: Reading)
    requires ArecaParsable(output)
    ensures r == Aggregate(ArecaTemps(output))
  {
    r := Empty;
    var lines := output;
    ghost var done: seq<int> := [];
    while |lines| > 0
      invariant ArecaParsable(lines)
      invariant done + ArecaTemps(lines) == ArecaTemps(output)
      invariant r == Accumulated(done)
    {
      var line := lines[|lines| - 1];
      ghost var before := lines;
      lines := lines[..|lines| - 1];
      if IsHddLine(line) {
        var fields := Fields(line);
        if |fields| < 5 {
          assert ArecaTemps(before) == [];
          break;
        }
        var temp := ParseInt(fields[4]);
        r := Add(r, temp);
        assert (done + [temp])[..|done|] == done;
        done := done + [temp];
      }
    }
    assert done == ArecaTemps(output);
    assert r == Accumulated(ArecaTemps(output));
    if r.count > 0 {
      r := r.(avg := r.avg / r.count as real);
    } else {
      r := Fallback;
    }
  }

  /** Every field the hddtemp reader converts is numeric: those at 3, 8, 13, ... */
  predicate SmartParsable(fields: seq<string>) {
    forall i :: 3 <= i < |fields| && i % 5 == 3 ==> IsInteger(fields[i])
  }

  /** The temperatures at `index`, `index + 5`, `index + 10`, ... */
  function SmartTempsFrom(fields: seq<string>, index: nat): seq<int>
    requires SmartParsable(fields) && index >= 3 && index % 5 == 3
    decreases |fields| - index
  {
    if index >= |fields| then []
    else [ParseInt(fields[index])] + SmartTempsFrom(fields, index + 5)
  }

  /** The temperatures the hddtemp reader takes. */
  function SmartTemps(fields: seq<string>): seq<int>
    requires SmartParsable(fields)
  {
    SmartTempsFrom(fields, 3)
  }

  /** Reads the hddtemp answer (`readSmartTemps`): walks the fields with a
      stride of five from index 3, and falls back when none was read. */
  method ReadSmartTemps(fields: seq<string>) returns (r: Reading)
    requires SmartParsable(fields)
    ensures r == Aggregate(SmartTemps(fields))
  {
    r := Empty;
    var index := 3;
    ghost var done: seq<int> := [];
    while index < |fields|
      invariant index >= 3 && index % 5 == 3
      invariant done + SmartTempsFrom(fields, index) == SmartTemps(fields)
      invariant r == Accumulated(done)
      decreases |fields| - index
    {
      var temp := ParseInt(fields[index]);
      r := Add(r, temp);
      assert (done + [temp])[..|done|] == done;
      done := done + [temp];
      index := index + 5;
    }
    assert done == SmartTemps(fields);
    if r.count > 0 {
      r := r.(avg := r.avg / r.count as real);
    } else {
      r := Fallback;
    }
  }

  lemma {:induction false} SmartTempsFromAt(fields: seq<string>, index: nat)
    requires SmartParsable(fields) && index >= 3 && index % 5 == 3
    ensures |SmartTempsFrom(fields, index)| == if index < |fields| then (|fields| - index + 4) / 5 else 0
    ensures forall k :: 0 <= k < |SmartTempsFrom(fields, index)| ==>
      index + 5 * k < |fields| && SmartTempsFrom(fields, index)[k] == ParseInt(fields[index + 5 * k])
    decreases |fields| - index
  {
    if index < |fields| {
      SmartTempsFromAt(fields, index + 5);
      var ts := SmartTempsFrom(fields, index);
      forall k | 0 <= k < |ts|
        ensures index + 5 * k < |fields| && ts[k] == ParseInt(fields[index + 5 * k])
      {
        if k > 0 {
          assert ts[k] == SmartTempsFrom(fields, index + 5)[k - 1];
          assert index + 5 * k == (index + 5) + 5 * (k - 1);
        }
      }
    }
  }

  /** The hddtemp reader takes exactly the fields at 3, 8, 13, ...: one
      temperature per index `3 + 5k` inside the field list, in order. */
  lemma SmartTempsAt(fields: seq<string>)
    requires SmartParsable(fields)
    ensures |SmartTemps(fields)| == (|fields| + 1) / 5
    ensures forall k :: 0 <= k < |SmartTemps(fields)| ==>
      3 + 5 * k < |fields| && SmartTemps(fields)[k] == ParseInt(fields[3 + 5 * k])
  {
    SmartTempsFromAt(fields, 3);
  }

  /** The Areca reader ignores everything above the last drive line that is
      too short to hold a temperature. */
  lemma {:induction false} ArecaStopsAtShortLine(above: seq<string>, line: string, below: seq<string>)
    requires IsHddLine(line) && |Fields(line)| < 5
    requires ArecaParsable(below)
    ensures ArecaParsable(above + [line] + below)
    ensures ArecaTemps(above + [line] + below) == ArecaTemps(below)
    decreases |below|
  {
    var all := above + [line] + below;
    if |below| == 0 {
      assert all[..|all| - 1] == above;
    } else {
      var last, rest := below[|below| - 1], below[..|below| - 1];
      assert all[..|all| - 1] == above + [line] + rest;
      assert all[|all| - 1] == last;
      if !IsHddLine(last) || |Fields(last)| >= 5 {
        ArecaStopsAtShortLine(above, line, rest);
      }
    }
  }

  /** A drive line has a numeric fifth field. */
  predicate HddLineReadable(line: string) {
    IsHddLine(line) ==> |Fields(line)| >= 5 && IsInteger(Fields(line)[4])
  }

  predicate AllHddLinesReadable(lines: seq<string>) {
    forall i :: 0 <= i < |lines| ==> HddLineReadable(lines[i])
  }

  /** The drive temperatures of the report, top to bottom. */
  function HddTemps(lines: seq<string>): seq<int>
    requires AllHddLinesReadable(lines)
    decreases |lines|
  {
    if |lines| == 0 then []
    else
      (if IsHddLine(lines[0]) then [ParseInt(Fields(lines[0])[4])] else [])
      + HddTemps(lines[1..])
  }

  function Reverse<T>(s: seq<T>): seq<T>
    decreases |s|
  {
    if |s| == 0 then [] else Reverse(s[1..]) + [s[0]]
  }

  lemma {:induction false} HddTempsAppend(lines: seq<string>, line: string)
    requires AllHddLinesReadable(lines) && HddLineReadable(line)
    ensures AllHddLinesReadable(lines + [line])
    ensures HddTemps(lines + [line]) ==
      HddTemps(lines) + (if IsHddLine(line) then [ParseInt(Fields(line)[4])] else [])
    decreases |lines|
  {
    var all := lines + [line];
    assert forall i :: 0 <= i < |lines| ==> lines[i] == all[i];
    if |lines| > 0 {
      assert all[1..] == lines[1..] + [line];
      assert forall i :: 0 <= i < |all[1..]| ==> all[1..][i] == all[i + 1];
      HddTempsAppend(lines[1..], line);
    }
  }

  lemma {:induction false} ReverseAppendOne<T>(s: seq<T>, x: T)
    ensures Reverse(s + [x]) == [x] + Reverse(s)
    decreases |s|
  {
    if |s| > 0 {
      assert (s + [x])[1..] == s[1..] + [x];
      ReverseAppendOne(s[1..], x);
    }
  }

  /** Without a short drive line the Areca reader takes every drive's
      temperature, bottom to top. */
  lemma {:induction false} ArecaReadsEveryDrive(lines: seq<string>)
    requires AllHddLinesReadable(lines)
    ensures ArecaParsable(lines)
    ensures ArecaTemps(lines) == Reverse(HddTemps(lines))
    decreases |lines|
  {
    if |lines| > 0 {
      var line, rest := lines[|lines| - 1], lines[..|lines| - 1];
      assert lines == rest + [line];
      assert HddLineReadable(lines[|lines| - 1]);
      assert forall i :: 0 <= i < |rest| ==> rest[i] == lines[i];
      HddTempsAppend(rest, line);
      ArecaReadsEveryDrive(rest);
      if IsHddLine(line) {
        var temp := ParseInt(Fields(line)[4]);
        assert ArecaTemps(lines) == [temp] + ArecaTemps(rest);
        assert HddTemps(lines) == HddTemps(rest) + [temp];
        ReverseAppendOne(HddTemps(rest), temp);
      } else {
        assert ArecaTemps(lines) == ArecaTemps(rest);
        assert HddTemps(lines) == HddTemps(rest) + [];
        assert HddTemps(rest) + [] == HddTemps(rest);
      }
    }
  }
}
