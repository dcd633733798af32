/**
 * The minimap mod's waypoint data: the colour and dimension constants, the
 * in-memory record ("PyPoint"), the colon-delimited line each record is
 * stored as, the layout of a waypoint file, and the store that keeps one
 * list of records per dimension.
 */
module Waypoints {
  import opened Builtins
  import opened CoordinateConverter

  // ---------------------------------------------------------------------
  // Constants
  // ---------------------------------------------------------------------

  // XaeroWaypointColors: the mod's 16-entry colour palette.
  const BLACK: int := 0
  const DARK_BLUE: int := 1
  const DARK_GREEN: int := 2
  const DARK_AQUA: int := 3
  const DARK_RED: int := 4
  const DARK_PURPLE: int := 5
  const GOLD: int := 6
  const GRAY: int := 7
  const DARK_GRAY: int := 8
  const BLUE: int := 9
  const GREEN: int := 10
  const AQUA: int := 11
  const RED: int := 12
  const LIGHT_PURPLE: int := 13
  const YELLOW: int := 14
  const WHITE: int := 15

  const COLORS: seq<int> := [BLACK, DARK_BLUE, DARK_GREEN, DARK_AQUA, DARK_RED, DARK_PURPLE,
    GOLD, GRAY, DARK_GRAY, BLUE, GREEN, AQUA, RED, LIGHT_PURPLE, YELLOW, WHITE]

  /** The palette entries are the distinct integers 0 to 15, in palette order. */
  lemma ColorsAreIndices()
    ensures |COLORS| == 16
    ensures forall i :: 0 <= i < |COLORS| ==> COLORS[i] == i
  {
  }

  // The storage-location key of each dimension.
  const OVERWORLD: string := "dim%0"
  const NETHER: string := "dim%-1"
  const THE_END: string := "dim%1"

  lemma DimensionKeysDistinct()
    ensures OVERWORLD != NETHER && NETHER != THE_END && OVERWORLD != THE_END
  {
    assert OVERWORLD[4] != NETHER[4];
    assert NETHER[4] != THE_END[4];
    assert OVERWORLD[4] != THE_END[4];
  }

  predicate IsDimension(d: string) { d == OVERWORLD || d == NETHER || d == THE_END }

  /** The middle one of the three comment lines at the top of every waypoint file. */
  const FORMAT_LINE: string :=
    "#waypoint:name:initials:x:y:z:" + "color:disabled:type:set:" + "rotate_on_tp:tp_yaw:" + "visibility_type:destination"

  /** The three comment lines at the top of every waypoint file. */
  const WAYPOINT_FORMAT_MESSAGE: string := "#\n" + FORMAT_LINE + "\n#\n"

  lemma NoNewlineInFormatLine()
    ensures '\n' !in FORMAT_LINE
  {
    assert '\n' !in "#waypoint:name:initials:x:y:z:";
    assert '\n' !in "color:disabled:type:set:";
    assert '\n' !in "rotate_on_tp:tp_yaw:";
    assert '\n' !in "visibility_type:destination";
  }

  // ---------------------------------------------------------------------
  // The record
  // ---------------------------------------------------------------------

  /** A value of the record's dictionary: a Python str, int or float. */
  datatype Value = Str(s: string) | Num(n: Number)

  predicate IsFloat(v: Value) { v.Num? && v.n.Float? }

  /** The record's keys, in the order both producers insert them. */
  const KEYS: seq<string> := ["name", "initials", "x", "y", "z", "color", "disabled", "type",
    "set", "rotate_on_tp", "tp_yaw", "visibility_type", "destination"]

  const X: nat := 2
  const Y: nat := 3
  const Z: nat := 4

  /** A record: the dictionary's values, listed in the order of KEYS. */
  type PyPoint = seq<Value>

  predicate IsCoordinateKey(k: nat) { X <= k <= Z }

  /** A record with all thirteen keys, whose only floats are coordinates
      (the two producers never store a float anywhere else). */
  predicate Storable(p: PyPoint)
  {
    |p| == |KEYS| && forall k :: 0 <= k < |p| && !IsCoordinateKey(k) ==> !IsFloat(p[k])
  }

  predicate AllStorable(ps: seq<PyPoint>)
  {
    forall j :: 0 <= j < |ps| ==> Storable(ps[j])
  }

  /** Python's `int(v)`: parses a str, truncates a float toward zero. */
  function PyIntOf(v: Value): Result<int>
  {
    match v
    case Str(s) => PyInt(s)
    case Num(Int(i)) => Ok(i)
    case Num(Float(f)) => Ok(Trunc(f))
  }

  /** Python's `str(v)` for a str or an int. */
  function PyStr(v: Value): string
    requires !IsFloat(v)
  {
    match v
    case Str(s) => s
    case Num(n) => IntToString(n.i)
  }

  /** `str(round(int(v)))`; `round` of an int is that int. */
  function CoordinateText(v: Value): string
    requires PyIntOf(v).Ok?
  {
    IntToString(PyIntOf(v).value)
  }

  predicate CoordinatesConvert(p: PyPoint)
    requires |p| == |KEYS|
  {
    PyIntOf(p[X]).Ok? && PyIntOf(p[Y]).Ok? && PyIntOf(p[Z]).Ok?
  }

  /** The text a field has once the record is converted for writing. */
  function FieldText(p: PyPoint, k: nat): string
    requires Storable(p) && CoordinatesConvert(p) && k < |KEYS|
  {
    if IsCoordinateKey(k) then CoordinateText(p[k]) else PyStr(p[k])
  }

  function Fields(p: PyPoint): (r: seq<string>)
    requires Storable(p) && CoordinatesConvert(p)
    ensures |r| == |KEYS| && forall k :: 0 <= k < |KEYS| ==> r[k] == FieldText(p, k)
  {
    seq(|KEYS|, k requires 0 <= k < |KEYS| => FieldText(p, k))
  }

  /** The record once every value has been replaced by its text. */
  function Stringified(p: PyPoint): (r: PyPoint)
    requires Storable(p) && CoordinatesConvert(p)
    ensures |r| == |KEYS| && forall k :: 0 <= k < |KEYS| ==> r[k] == Str(FieldText(p, k))
  {
    seq(|KEYS|, k requires 0 <= k < |KEYS| => Str(FieldText(p, k)))
  }

  /** The line `convertPyPointToXaero` returns, or the ValueError `int` raises
      on a coordinate that is not an integer literal. */
  function XaeroLine(p: PyPoint): Result<string>
    requires Storable(p)
  {
    if CoordinatesConvert(p) then Ok("waypoint:" + Join(Fields(p), ':')) else Err(ValueError)
  }

  // ---------------------------------------------------------------------
  // The line codec
  // ---------------------------------------------------------------------

  /** `convertXaeroToPyPoint`: colon fields 1 to 13 become the values of the
      keys in order, field 0 is dropped, fields after 13 are ignored, and a
      line with fewer than 14 fields raises IndexError. */
  function ConvertXaeroToPyPoint(line: string): (r: Result<PyPoint>)
    ensures r.Ok? ==> Storable(r.value)
    ensures r.Err? ==> r.error == IndexError
    ensures r.Ok? <==> |Split(line, ':')| >= 14
    ensures r.Ok? ==> forall k :: 0 <= k < |KEYS| ==> r.value[k] == Str(Split(line, ':')[k + 1])
  {
    var d := Split(line, ':');
    if |d| < 14 then Err(IndexError)
    else Ok(seq(|KEYS|, k requires 0 <= k < |KEYS| => Str(d[k + 1])))
  }

  /** The dictionary as `convertPyPointToXaero` leaves it: every value
      turned to text when the conversion succeeds, otherwise the coordinates
      before the one whose `int` raised turned to text and the rest intact. */
  function ConvertedInPlace(p: PyPoint): (r: PyPoint)
    requires Storable(p)
    ensures |r| == |p|
    ensures CoordinatesConvert(p) ==> r == Stringified(p)
    ensures forall k :: 0 <= k < |p| && !IsCoordinateKey(k) && !CoordinatesConvert(p) ==> r[k] == p[k]
  {
    if PyIntOf(p[X]).Err? then p
    else if PyIntOf(p[Y]).Err? then p[X := Str(CoordinateText(p[X]))]
    else if PyIntOf(p[Z]).Err? then p[X := Str(CoordinateText(p[X]))][Y := Str(CoordinateText(p[Y]))]
    else Stringified(p)
  }

  /** `convertPyPointToXaero`: x, y and z are first replaced by
      `str(round(int(.)))`, then every value by its `str`, in place; the line
      is "waypoint:" and the values joined with `:`.  `after` is the
      dictionary as the call leaves it, also when `int` raises part way. */
  method ConvertPyPointToXaero(p: PyPoint) returns (line: Result<string>, after: PyPoint)
    requires Storable(p)
    ensures line == XaeroLine(p)
    ensures after == ConvertedInPlace(p)
  {
    after := p;
    var x := PyIntOf(after[X]);
    if x.Err? {
      return Err(x.error), after;
    }
    after := after[X := Str(IntToString(x.value))];
    var y := PyIntOf(after[Y]);
    if y.Err? {
      return Err(y.error), after;
    }
    after := after[Y := Str(IntToString(y.value))];
    var z := PyIntOf(after[Z]);
    if z.Err? {
      return Err(z.error), after;
    }
    after := after[Z := Str(IntToString(z.value))];
    var k := 0;
    while k < |after|
      invariant 0 <= k <= |after| == |KEYS|
      invariant forall j :: 0 <= j < k ==> after[j] == Str(FieldText(p, j))
      invariant forall j :: k <= j < |KEYS| && IsCoordinateKey(j) ==> after[j] == Str(FieldText(p, j))
      invariant forall j :: k <= j < |KEYS| && !IsCoordinateKey(j) ==> after[j] == p[j]
    {
      after := after[k := Str(PyStr(after[k]))];
      k := k + 1;
    }
    var values := seq(|after|, j requires 0 <= j < |after| => after[j].s);
    assert values == Fields(p);
    line := Ok("waypoint:" + Join(values, ':'));
  }

  /** The record read from colon fields `d` has the fields' texts back,
      provided its coordinates are canonical integers. */
  lemma FieldsOfRead(d: seq<string>, p: PyPoint)
    requires |d| >= 14 && p == seq(|KEYS|, k requires 0 <= k < |KEYS| => Str(d[k + 1]))
    requires IsCanonicalDecimal(d[3]) && IsCanonicalDecimal(d[4]) && IsCanonicalDecimal(d[5])
    ensures Storable(p) && CoordinatesConvert(p)
    ensures Fields(p) == d[1..14]
  {
    CanonicalDecimalParses(d[3]);
    CanonicalDecimalParses(d[4]);
    CanonicalDecimalParses(d[5]);
    forall k | 0 <= k < |KEYS| ensures Fields(p)[k] == d[1..14][k] {
      if IsCoordinateKey(k) {
        assert FieldText(p, k) == IntToString(PyInt(d[k + 1]).value);
      }
    }
  }

  /** A line of fourteen colon fields that starts with "waypoint" and has
      canonical integer coordinates is written back exactly as it was read. */
  lemma LineRoundTrip(line: string)
    requires var d := Split(line, ':');
      |d| == 14 && d[0] == "waypoint" &&
      IsCanonicalDecimal(d[3]) && IsCanonicalDecimal(d[4]) && IsCanonicalDecimal(d[5])
    ensures ConvertXaeroToPyPoint(line).Ok?
    ensures XaeroLine(ConvertXaeroToPyPoint(line).value) == Ok(line)
  {
    var d := Split(line, ':');
    var p := ConvertXaeroToPyPoint(line).value;
    FieldsOfRead(d, p);
    assert d[1..14] == d[1..];
    JoinSplit(line, ':');
    JoinCons(d[0], d[1..], ':');
    assert [d[0]] + d[1..] == d;
    assert line == d[0] + [':'] + Join(d[1..], ':');
    assert "waypoint:" == d[0] + [':'];
    assert XaeroLine(p) == Ok("waypoint:" + Join(Fields(p), ':'));
  }

  /** A record whose field texts hold no colon is read back from its line as
      the record with every value turned to text. */
  lemma PointRoundTrip(p: PyPoint)
    requires Storable(p) && CoordinatesConvert(p)
    requires forall k :: 0 <= k < |KEYS| ==> ':' !in FieldText(p, k)
    ensures ConvertXaeroToPyPoint(XaeroLine(p).value) == Ok(Stringified(p))
  {
    var parts := ["waypoint"] + Fields(p);
    assert forall i :: 0 <= i < |parts| ==> ':' !in parts[i] by {
      forall i | 0 <= i < |parts| ensures ':' !in parts[i] {
        if i > 0 {
          assert parts[i] == FieldText(p, i - 1);
        }
      }
    }
    JoinCons("waypoint", Fields(p), ':');
    SplitJoin(parts, ':');
    var line := XaeroLine(p).value;
    assert line == "waypoint" + [':'] + Join(Fields(p), ':');
    assert Join(parts, ':') == line;
    assert Split(line, ':') == parts;
    var r := ConvertXaeroToPyPoint(line);
    assert r.Ok?;
    forall k | 0 <= k < |KEYS| ensures r.value[k] == Stringified(p)[k] {
      assert parts[k + 1] == FieldText(p, k);
      assert r.value[k] == Str(parts[k + 1]);
    }
    assert |r.value| == |Stringified(p)|;
    assert r.value == Stringified(p);
  }

  /** Converting a record a second time, after the first conversion has
      rewritten it in place, gives the same line and leaves it unchanged. */
  lemma ConversionIdempotent(p: PyPoint)
    requires Storable(p) && CoordinatesConvert(p)
    ensures Storable(Stringified(p)) && CoordinatesConvert(Stringified(p))
    ensures XaeroLine(Stringified(p)) == XaeroLine(p)
    ensures Stringified(Stringified(p)) == Stringified(p)
  {
    var q := Stringified(p);
    forall k | 0 <= k < |KEYS| && IsCoordinateKey(k)
      ensures PyIntOf(q[k]) == PyIntOf(p[k])
    {
      IntToStringParses(PyIntOf(p[k]).value);
    }
    assert Storable(q) && CoordinatesConvert(q);
    forall k | 0 <= k < |KEYS| ensures FieldText(q, k) == FieldText(p, k) {
    }
    assert Fields(q) == Fields(p);
  }

  /** After `overworldToNether`, the stored x is the overworld x divided by 8
      rounded toward zero, because of the `int()` applied when writing. */
  lemma NetherCoordinateStored(p: PyPoint, c: Coordinates)
    requires Storable(p) && CoordinatesConvert(p)
    requires |c| >= 2 && c[0].Int? && p[X] == Num(OverworldToNether(c)[0])
    ensures FieldText(p, X) == IntToString(TruncDiv8(c[0].i))
  {
    TruncOfDiv8(c[0].i);
  }

  // ---------------------------------------------------------------------
  // The file layout
  // ---------------------------------------------------------------------

  /** Each record line followed by a newline. */
  function FileBody(lines: seq<string>): string
  {
    if lines == [] then "" else FileBody(lines[..|lines| - 1]) + lines[|lines| - 1] + "\n"
  }

  /** `split("\n")[3:-1]`: the lines after the three header lines, without
      the text after the last newline. */
  function RecordLines(content: string): seq<string>
  {
    var all := Split(content, '\n');
    if |all| - 1 > 3 then all[3..|all| - 1] else []
  }

  /** The number of leading records that convert; the index where writing raises. */
  function FirstFailure(ps: seq<PyPoint>): (k: nat)
    requires AllStorable(ps)
    ensures k <= |ps|
    ensures forall j :: 0 <= j < k ==> XaeroLine(ps[j]).Ok?
    ensures k < |ps| ==> XaeroLine(ps[k]).Err?
  {
    if ps == [] then 0
    else if XaeroLine(ps[0]).Err? then 0
    else 1 + FirstFailure(ps[1..])
  }

  predicate AllConvert(ps: seq<PyPoint>)
    requires AllStorable(ps)
  {
    forall j :: 0 <= j < |ps| ==> XaeroLine(ps[j]).Ok?
  }

  function LinesOf(ps: seq<PyPoint>): (r: seq<string>)
    requires AllStorable(ps) && AllConvert(ps)
    ensures |r| == |ps| && forall j :: 0 <= j < |ps| ==> r[j] == XaeroLine(ps[j]).value
  {
    seq(|ps|, j requires 0 <= j < |ps| => XaeroLine(ps[j]).value)
  }

  lemma {:induction false} FirstFailureAt(ps: seq<PyPoint>, i: nat)
    requires AllStorable(ps) && i <= |ps|
    requires forall j :: 0 <= j < i ==> XaeroLine(ps[j]).Ok?
    requires i < |ps| ==> XaeroLine(ps[i]).Err?
    ensures FirstFailure(ps) == i
  {
    if i > 0 {
      assert XaeroLine(ps[0]).Ok?;
      FirstFailureAt(ps[1..], i - 1);
    }
  }

  /** What a write leaves in the file: the header and the lines of the
      records before the first one that raises. */
  function WrittenContent(ps: seq<PyPoint>): string
    requires AllStorable(ps)
  {
    WAYPOINT_FORMAT_MESSAGE + FileBody(LinesOf(ps[..FirstFailure(ps)]))
  }

  /** The exception a write ends with, if any. */
  function WriteFailure(ps: seq<PyPoint>): Option<PyError>
    requires AllStorable(ps)
  {
    if FirstFailure(ps) == |ps| then None else Some(XaeroLine(ps[FirstFailure(ps)]).error)
  }

  /** Writing one more line after a header and a body extends the body. */
  lemma ContentAppend(header: string, lines: seq<string>, l: string)
    ensures header + FileBody(lines) + l + "\n" == header + FileBody(lines + [l])
  {
    assert (lines + [l])[..|lines|] == lines;
  }

  /** When record i is the first that raises, the write leaves the lines
      before it, and ends with its exception. */
  lemma WrittenUpTo(ps: seq<PyPoint>, i: nat, lines: seq<string>)
    requires AllStorable(ps) && i <= |ps|
    requires forall j :: 0 <= j < i ==> XaeroLine(ps[j]).Ok?
    requires i < |ps| ==> XaeroLine(ps[i]).Err?
    requires |lines| == i && forall j :: 0 <= j < i ==> lines[j] == XaeroLine(ps[j]).value
    ensures WrittenContent(ps) == WAYPOINT_FORMAT_MESSAGE + FileBody(lines)
    ensures WriteFailure(ps) == if i == |ps| then None else Some(XaeroLine(ps[i]).error)
  {
    FirstFailureAt(ps, i);
    LinesOfPrefix(ps, i, lines);
  }

  lemma LinesOfPrefix(ps: seq<PyPoint>, i: nat, lines: seq<string>)
    requires AllStorable(ps) && i <= |ps|
    requires forall j :: 0 <= j < i ==> XaeroLine(ps[j]).Ok?
    requires |lines| == i && forall j :: 0 <= j < i ==> lines[j] == XaeroLine(ps[j]).value
    ensures AllConvert(ps[..i]) && LinesOf(ps[..i]) == lines
  {
  }

  /** `writeXaeroWaypointFile`: the header, then one line per record. The
      file's path is not modelled; `content` is what the file holds. */
  method WriteXaeroWaypointFile(pyPoints: seq<PyPoint>) returns (content: string, failure: Option<PyError>)
    requires AllStorable(pyPoints)
    ensures content == WrittenContent(pyPoints)
    ensures failure == WriteFailure(pyPoints)
  {
    content := WAYPOINT_FORMAT_MESSAGE;
    ghost var lines: seq<string> := [];
    var i := 0;
    while i < |pyPoints|
      invariant 0 <= i <= |pyPoints| && |lines| == i
      invariant forall j :: 0 <= j < i ==> XaeroLine(pyPoints[j]).Ok? && lines[j] == XaeroLine(pyPoints[j]).value
      invariant content == WAYPOINT_FORMAT_MESSAGE + FileBody(lines)
    {
      var line, _ := ConvertPyPointToXaero(pyPoints[i]);
      if line.Err? {
        WrittenUpTo(pyPoints, i, lines);
        return content, Some(line.error);
      }
      ContentAppend(WAYPOINT_FORMAT_MESSAGE, lines, line.value);
      content := content + line.value + "\n";
      lines := lines + [line.value];
      i := i + 1;
    }
    WrittenUpTo(pyPoints, i, lines);
    failure := None;
  }

  predicate AllLinesConvert(lines: seq<string>)
  {
    forall j :: 0 <= j < |lines| ==> ConvertXaeroToPyPoint(lines[j]).Ok?
  }

  function PointsOf(lines: seq<string>): (r: seq<PyPoint>)
    requires AllLinesConvert(lines)
    ensures |r| == |lines| && forall j :: 0 <= j < |lines| ==> r[j] == ConvertXaeroToPyPoint(lines[j]).value
  {
    seq(|lines|, j requires 0 <= j < |lines| => ConvertXaeroToPyPoint(lines[j]).value)
  }

  /** `parseXaeroWaypointFile`: `None` for a missing file, otherwise the record
      of every record line in order; a line of fewer than 14 fields raises. */
  method ParseXaeroWaypointFile(file: Option<string>) returns (r: Result<Option<seq<PyPoint>>>)
    ensures file.None? ==> r == Ok(None)
    ensures file.Some? && AllLinesConvert(RecordLines(file.value)) ==>
      r == Ok(Some(PointsOf(RecordLines(file.value))))
    ensures file.Some? && !AllLinesConvert(RecordLines(file.value)) ==> r == Err(IndexError)
  {
    if file.None? {
      return Ok(None);
    }
    var waypointsData := RecordLines(file.value);
    var newPyPoints: seq<PyPoint> := [];
    var i := 0;
    while i < |waypointsData|
      invariant 0 <= i <= |waypointsData|
      invariant AllLinesConvert(waypointsData[..i])
      invariant newPyPoints == PointsOf(waypointsData[..i])
    {
      var p := ConvertXaeroToPyPoint(waypointsData[i]);
      if p.Err? {
        return Err(p.error);
      }
      newPyPoints := newPyPoints + [p.value];
      i := i + 1;
      assert waypointsData[..i] == waypointsData[..i - 1] + [waypointsData[i - 1]];
    }
    assert waypointsData[..i] == waypointsData;
    r := Ok(Some(newPyPoints));
  }

  lemma {:induction false} FileBodyFront(l: string, rest: seq<string>)
    ensures FileBody([l] + rest) == l + "\n" + FileBody(rest)
    decreases |rest|
  {
    if rest != [] {
      var all := [l] + rest;
      assert all[..|all| - 1] == [l] + rest[..|rest| - 1];
      FileBodyFront(l, rest[..|rest| - 1]);
    } else {
      assert [l][..0] == [];
    }
  }

  lemma {:induction false} FileBodySplits(lines: seq<string>)
    requires forall j :: 0 <= j < |lines| ==> '\n' !in lines[j]
    ensures Split(FileBody(lines), '\n') == lines + [""]
  {
    if lines != [] {
      FileBodySplits(lines[1..]);
      FileBodyFront(lines[0], lines[1..]);
      assert [lines[0]] + lines[1..] == lines;
      SplitAfterField(lines[0], '\n', FileBody(lines[1..]));
    }
  }

  /** Parsing the written content recovers the record lines in order,
      including when there are none. */
  lemma {:induction false} RecordLinesOfContent(lines: seq<string>)
    requires forall j :: 0 <= j < |lines| ==> '\n' !in lines[j]
    ensures RecordLines(WAYPOINT_FORMAT_MESSAGE + FileBody(lines)) == lines
  {
    var h1, h2, h3 := "#", FORMAT_LINE, "#";
    NoNewlineInFormatLine();
    var body := FileBody(lines);
    assert WAYPOINT_FORMAT_MESSAGE + body == h1 + "\n" + (h2 + "\n" + (h3 + "\n" + body));
    FileBodySplits(lines);
    SplitAfterField(h3, '\n', body);
    SplitAfterField(h2, '\n', h3 + "\n" + body);
    SplitAfterField(h1, '\n', h2 + "\n" + (h3 + "\n" + body));
    var all := [h1] + ([h2] + ([h3] + (lines + [""])));
    assert all[3..|all| - 1] == lines;
  }

  /** Writing records whose texts hold no colon or newline and reading the
      file back gives the records with every value turned to text. */
  lemma FileRoundTrip(ps: seq<PyPoint>)
    requires AllStorable(ps) && AllConvert(ps)
    requires forall j, k :: 0 <= j < |ps| && 0 <= k < |KEYS| ==>
      ':' !in FieldText(ps[j], k) && '\n' !in FieldText(ps[j], k)
    ensures AllLinesConvert(RecordLines(WrittenContent(ps)))
    ensures PointsOf(RecordLines(WrittenContent(ps))) == seq(|ps|, j requires 0 <= j < |ps| => Stringified(ps[j]))
  {
    assert FirstFailure(ps) == |ps|;
    assert ps[..|ps|] == ps;
    var lines := LinesOf(ps);
    forall j | 0 <= j < |lines| ensures '\n' !in lines[j] {
      NoNewlineInLine(ps[j]);
    }
    RecordLinesOfContent(lines);
    forall j | 0 <= j < |ps| ensures ConvertXaeroToPyPoint(lines[j]) == Ok(Stringified(ps[j])) {
      PointRoundTrip(ps[j]);
    }
  }

  lemma NoNewlineInLine(p: PyPoint)
    requires Storable(p) && CoordinatesConvert(p)
    requires forall k :: 0 <= k < |KEYS| ==> '\n' !in FieldText(p, k)
    ensures '\n' !in XaeroLine(p).value
  {
    NoSeparatorInJoin(Fields(p), ':', '\n');
  }

  lemma {:induction false} NoSeparatorInJoin(parts: seq<string>, sep: char, c: char)
    requires c != sep
    requires forall i :: 0 <= i < |parts| ==> c !in parts[i]
    ensures c !in Join(parts, sep)
  {
    if |parts| > 1 {
      NoSeparatorInJoin(parts[1..], sep, c);
    }
  }

  // ---------------------------------------------------------------------
  // The store
  // ---------------------------------------------------------------------

  /** A file write: the dimension whose file was rewritten, what it holds
      afterwards, and the exception that interrupted the write, if any. */
  datatype FileWrite = FileWrite(dimension: string, content: string, failure: Option<PyError>)

  /** The three lists of records a store holds, one per dimension. */
  datatype Lists = Lists(overworld: seq<PyPoint>, nether: seq<PyPoint>, theEnd: seq<PyPoint>)

  predicate ListsStorable(ls: Lists)
  {
    AllStorable(ls.overworld) && AllStorable(ls.nether) && AllStorable(ls.theEnd)
  }

  /** The list kept for a dimension key. */
  function ListOf(ls: Lists, dimension: string): seq<PyPoint>
    requires IsDimension(dimension)
  {
    if dimension == OVERWORLD then ls.overworld
    else if dimension == NETHER then ls.nether
    else ls.theEnd
  }

  /** The lists after `addWaypoint(p, dimension)`. */
  function Appended(ls: Lists, p: PyPoint, dimension: string): (r: Lists)
    ensures IsDimension(dimension) ==> ListOf(r, dimension) == ListOf(ls, dimension) + [p]
    ensures forall d :: IsDimension(d) && d != dimension ==> ListOf(r, d) == ListOf(ls, d)
    ensures !IsDimension(dimension) ==> r == ls
  {
    DimensionKeysDistinct();
    if dimension == OVERWORLD then ls.(overworld := ls.overworld + [p])
    else if dimension == NETHER then ls.(nether := ls.nether + [p])
    else if dimension == THE_END then ls.(theEnd := ls.theEnd + [p])
    else ls
  }

  /** The file write `addWaypoint` performs once the lists are `ls`. */
  function WriteOf(ls: Lists, dimension: string): (w: Option<FileWrite>)
    requires ListsStorable(ls)
    ensures w.Some? <==> IsDimension(dimension)
  {
    if IsDimension(dimension) then
      var l := ListOf(ls, dimension);
      Some(FileWrite(dimension, WrittenContent(l), WriteFailure(l)))
    else None
  }

  /** Appending a storable record keeps every list storable. */
  lemma AppendedStorable(ls: Lists, p: PyPoint, dimension: string)
    requires ListsStorable(ls) && Storable(p)
    ensures ListsStorable(Appended(ls, p, dimension))
  {
    var r := Appended(ls, p, dimension);
    assert r.overworld == ls.overworld || r.overworld == ls.overworld + [p];
    assert r.nether == ls.nether || r.nether == ls.nether + [p];
    assert r.theEnd == ls.theEnd || r.theEnd == ls.theEnd + [p];
  }

  /** The records of one map, one list per dimension. Reading the files
      and choosing the map are not modelled: the constructor takes the lists. */
  class XaeroWaypoints {
    var waypointsOverworld: seq<PyPoint>
    var waypointsNether: seq<PyPoint>
    var waypointsTheEnd: seq<PyPoint>

    function Contents(): Lists
      reads this
    {
      Lists(waypointsOverworld, waypointsNether, waypointsTheEnd)
    }

    ghost predicate Valid()
      reads this
    {
      ListsStorable(Contents())
    }

    constructor(overworld: seq<PyPoint>, nether: seq<PyPoint>, theEnd: seq<PyPoint>)
      requires ListsStorable(Lists(overworld, nether, theEnd))
      ensures Valid()
      ensures Contents() == Lists(overworld, nether, theEnd)
    {
      waypointsOverworld := overworld;
      waypointsNether := nether;
      waypointsTheEnd := theEnd;
    }

    /** `addWaypoint`: appends the record to the list of the given dimension
        and rewrites that dimension's file; an unknown key changes nothing. */
    method AddWaypoint(pyPoint: PyPoint, dimension: string) returns (written: Option<FileWrite>)
      requires Valid() && Storable(pyPoint)
      modifies this
      ensures Valid()
      ensures Contents() == Appended(old(Contents()), pyPoint, dimension)
      ensures written == WriteOf(Contents(), dimension)
    {
      AppendedStorable(Contents(), pyPoint, dimension);
      if dimension == OVERWORLD {
        waypointsOverworld := waypointsOverworld + [pyPoint];
        var content, failure := WriteXaeroWaypointFile(waypointsOverworld);
        written := Some(FileWrite(OVERWORLD, content, failure));
      } else if dimension == NETHER {
        waypointsNether := waypointsNether + [pyPoint];
        var content, failure := WriteXaeroWaypointFile(waypointsNether);
        written := Some(FileWrite(NETHER, content, failure));
      } else if dimension == THE_END {
        waypointsTheEnd := waypointsTheEnd + [pyPoint];
        var content, failure := WriteXaeroWaypointFile(waypointsTheEnd);
        written := Some(FileWrite(THE_END, content, failure));
      } else {
        written := None;
      }
    }
  }
}
