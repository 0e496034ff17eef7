/** The script's driver (multi_router.py): which argument is the fixed
    location and which is the file of many locations, which search box each
    of them goes into, the per-row loop that looks every row up and converts
    its distance and duration, and the lines of the output file.

    The browser is an oracle: whether the search boxes appear within the
    wait, and what the directions page shows for the two boxes' contents. */
module Router {
  import opened Common
  import opened PyText
  import opened Duration

  /** The contents of the page's two search boxes: index 0 is the source, index 1 the destination. */
  datatype SearchBoxes = SearchBoxes(source: string, destination: string)

  /** The boxes of a freshly opened directions page. */
  const Blank := SearchBoxes("", "")

  /** The box `fill_search_box` types into: the first for a source, the second otherwise. */
  function BoxIndex(isSrc: bool): nat {
    if isSrc then 0 else 1
  }

  function Box(b: SearchBoxes, index: nat): string
    requires index < 2
  {
    if index == 0 then b.source else b.destination
  }

  datatype Filled = Filled(boxes: SearchBoxes, ok: bool)

  /** `fill_search_box`: when the boxes appear within the wait (`ready`), the
      box chosen by the role gets `name` and the call reports success; on a
      timeout nothing is typed and it reports failure. */
  function FillSearchBox(boxes: SearchBoxes, name: string, isSrc: bool, ready: bool): (f: Filled)
    ensures f.ok == ready
    ensures ready ==> Box(f.boxes, BoxIndex(isSrc)) == name
    ensures Box(f.boxes, BoxIndex(!isSrc)) == Box(boxes, BoxIndex(!isSrc))
    ensures !ready ==> f.boxes == boxes
  {
    if !ready then Filled(boxes, false)
    else if isSrc then Filled(boxes.(source := name), true)
    else Filled(boxes.(destination := name), true)
  }

  /** What the page shows after a search: the distance and duration texts of
      the first trip, a reported unreachable destination, no result within the
      wait, or a trip block that lacks one of the expected inner elements. */
  datatype Lookup =
    | Rendered(distance: string, duration: string)
    | Unreachable
    | LoadTooSlow
    | IncompleteTrip

  /** The browser as an oracle. `rowBoxReady(k)` says whether the boxes appear
      for the fill of input row `k`; `trip` gives what the page shows for the
      boxes' contents. */
  datatype Env = Env(fixedBoxReady: bool, rowBoxReady: nat -> bool, trip: SearchBoxes -> Lookup)

  /** A run after the role swap: the location typed once, the file of many
      locations, and whether those many locations are the sources. */
  datatype Job = Job(fixed: string, csvName: string, srcMany: bool)

  /** One cell of an output line: a string, the token handed to `float()`,
      an integer, or Python's `None`. */
  datatype Cell = Text(text: string) | Float(literal: string) | Int(value: int) | NoneValue

  const Header: seq<Cell> := [Text("locations"), Text("distance_mi"), Text("time_min")]

  /** The output file's name: the input file's name without its last four
      characters, followed by "_dist_time.csv". */
  function OutputName(csvName: string): (r: string)
    ensures |r| >= 14 && r[|r| - 14..] == "_dist_time.csv"
    ensures r != csvName
    ensures r[..|r| - 14] == DropLast4(csvName)
  {
    DropLast4(csvName) + "_dist_time.csv"
  }

  lemma OutputNameOfCsv(stem: string)
    ensures OutputName(stem + ".csv") == stem + "_dist_time.csv"
  {
    assert (stem + ".csv")[..|stem|] == stem;
  }

  lemma OutputNameExample()
    ensures OutputName("cities.csv") == "cities_dist_time.csv"
  {
    OutputNameOfCsv("cities");
    assert "cities" + ".csv" == "cities.csv";
  }

  /** The line written for one looked-up row (multi_router.py:68-81): the
      distance and duration are converted only when the page rendered both;
      otherwise both cells stay `None`. A conversion that raises, or a trip
      block missing an element, ends the run. */
  function ConvertTrip(name: string, lookup: Lookup): (r: Result<seq<Cell>>)
    ensures r.Ok? ==> |r.value| == 3 && r.value[0] == Text(name)
    ensures (lookup.Unreachable? || lookup.LoadTooSlow?) ==> r == Ok([Text(name), NoneValue, NoneValue])
    ensures lookup.IncompleteTrip? ==> r == Err(TripFieldMissing)
    ensures lookup.Rendered? ==>
      (r.Ok? <==> |Split(lookup.distance)| > 0 && DurationMinutes(lookup.duration).Ok?)
    ensures lookup.Rendered? && r.Ok? ==>
      r.value[1] == Float(Split(lookup.distance)[0]) &&
      r.value[2] == Int(DurationMinutes(lookup.duration).value)
  {
    match lookup
    case Unreachable => Ok([Text(name), NoneValue, NoneValue])
    case LoadTooSlow => Ok([Text(name), NoneValue, NoneValue])
    case IncompleteTrip => Err(TripFieldMissing)
    case Rendered(distance, duration) =>
      var ds := Split(distance);
      if |ds| == 0 then Err(NoDistanceToken)
      else match DurationMinutes(duration)
        case Err(e) => Err(e)
        case Ok(minutes) => Ok([Text(name), Float(ds[0]), Int(minutes)])
  }

  /** The statements of multi_router.py:71-78 for one looked-up row: the
      conversion of the distance, then the duration, only when both are present. */
  method ConvertRow(name: string, lookup: Lookup) returns (r: Result<seq<Cell>>)
    ensures r == ConvertTrip(name, lookup)
  {
    match lookup {
      case IncompleteTrip =>
        return Err(TripFieldMissing);
      case Rendered(distance, duration) =>
        var ds := Split(distance);
        if |ds| == 0 {
          return Err(NoDistanceToken);
        }
        var minutes := ConvertDuration(duration);
        if minutes.Err? {
          return Err(minutes.error);
        }
        return Ok([Text(name), Float(ds[0]), Int(minutes.value)]);
      case Unreachable =>
        return Ok([Text(name), NoneValue, NoneValue]);
      case LoadTooSlow =>
        return Ok([Text(name), NoneValue, NoneValue]);
    }
  }

  /** The boxes after the one-time fill and the fills of the first `j` input
      rows; a row fill never touches the box of the fixed location. */
  function BoxesAfter(job: Job, input: seq<seq<string>>, env: Env, j: nat): (b: SearchBoxes)
    requires j <= |input|
    ensures env.fixedBoxReady ==> Box(b, BoxIndex(!job.srcMany)) == job.fixed
  {
    if j == 0 then FillSearchBox(Blank, job.fixed, !job.srcMany, env.fixedBoxReady).boxes
    else
      var prev := BoxesAfter(job, input, env, j - 1);
      if input[j - 1] == [] then prev
      else FillSearchBox(prev, input[j - 1][0], job.srcMany, env.rowBoxReady(j - 1)).boxes
  }

  /** The line for input row `k`, or the error that ends the run there. */
  function RowLine(job: Job, input: seq<seq<string>>, env: Env, k: nat): (r: Result<seq<Cell>>)
    requires k < |input|
    ensures input[k] == [] ==> r == Err(EmptyCsvRow)
    ensures r.Ok? ==> input[k] != [] && |r.value| == 3 && r.value[0] == Text(input[k][0])
  {
    if input[k] == [] then Err(EmptyCsvRow)
    else ConvertTrip(input[k][0], env.trip(BoxesAfter(job, input, env, k + 1)))
  }

  /** How a run ends: the one-time fill timed out (no file is read or
      written), or an output file was written, possibly cut short by an error. */
  datatype Outcome =
    | SearchBoxesMissing
    | Written(file: string, lines: seq<seq<Cell>>, crash: Option<Failure>)

  /** The run of `job` over the file contents `files(job.csvName)`: the header,
      then the line of every input row in order, up to the first row whose
      processing raises; a run that raises keeps the lines written before. */
  ghost predicate Describes(o: Outcome, job: Job, files: string -> seq<seq<string>>, env: Env) {
    if !env.fixedBoxReady then o == SearchBoxesMissing
    else
      o.Written? && o.file == OutputName(job.csvName) &&
      RunLines(o.lines, o.crash, job, files(job.csvName), env)
  }

  /** The lines written over `input` and the error that stopped the loop, if any. */
  predicate RunLines(lines: seq<seq<Cell>>, crash: Option<Failure>, job: Job, input: seq<seq<string>>, env: Env) {
    1 <= |lines| <= |input| + 1 && lines[0] == Header &&
    (forall k :: 0 <= k < |lines| - 1 ==> RowLine(job, input, env, k) == Ok(lines[k + 1])) &&
    (crash.None? <==> |lines| == |input| + 1) &&
    (crash.Some? ==> RowLine(job, input, env, |lines| - 1) == Err(crash.value))
  }

  /** The lines written for the first `i` rows, all of which converted. */
  predicate LinesSoFar(lines: seq<seq<Cell>>, job: Job, input: seq<seq<string>>, env: Env, i: nat) {
    i <= |input| && |lines| == i + 1 && lines[0] == Header &&
    forall k :: 0 <= k < i ==> RowLine(job, input, env, k) == Ok(lines[k + 1])
  }

  /** A loop that stops at row `i` with error `e` has produced the lines of a run. */
  lemma StoppedRunLines(lines: seq<seq<Cell>>, job: Job, input: seq<seq<string>>, env: Env, i: nat, e: Failure)
    requires LinesSoFar(lines, job, input, env, i) && i < |input|
    requires RowLine(job, input, env, i) == Err(e)
    ensures RunLines(lines, Some(e), job, input, env)
  {
  }

  /** A loop that got through every row has produced the lines of a run. */
  lemma FinishedRunLines(lines: seq<seq<Cell>>, job: Job, input: seq<seq<string>>, env: Env)
    requires LinesSoFar(lines, job, input, env, |input|)
    ensures RunLines(lines, None, job, input, env)
  {
  }

  /** The loop of multi_router.py:66-81, from the boxes the one-time fill left:
      each row is typed into its box (the result of the fill is ignored), looked
      up, converted and appended, until a row raises. */
  method WriteRows(job: Job, input: seq<seq<string>>, env: Env, start: SearchBoxes)
    returns (lines: seq<seq<Cell>>, crash: Option<Failure>)
    requires start == BoxesAfter(job, input, env, 0)
    ensures RunLines(lines, crash, job, input, env)
  {
    lines := [Header];
    var boxes := start;
    var i := 0;
    while i < |input|
      invariant LinesSoFar(lines, job, input, env, i)
      invariant boxes == BoxesAfter(job, input, env, i)
    {
      var row := input[i];
      if |row| == 0 {
        StoppedRunLines(lines, job, input, env, i, EmptyCsvRow);
        return lines, Some(EmptyCsvRow);
      }
      var name := row[0];
      var rowFill := FillSearchBox(boxes, name, job.srcMany, env.rowBoxReady(i));
      boxes := rowFill.boxes;
      var lookup := env.trip(boxes);
      var cells := ConvertRow(name, lookup);
      assert cells == RowLine(job, input, env, i);
      if cells.Err? {
        StoppedRunLines(lines, job, input, env, i, cells.error);
        return lines, Some(cells.error);
      }
      lines := lines + [cells.value];
      i := i + 1;
    }
    FinishedRunLines(lines, job, input, env);
    crash := None;
  }

  /** `find_one_to_many`: swap the roles for a many-to-one run, fill the fixed
      location once (returning at once if that fails), then look up and write
      every row of the file in order. */
  method FindOneToMany(srcName: string, csvName: string, srcMany: bool,
                       files: string -> seq<seq<string>>, env: Env) returns (o: Outcome)
    ensures Describes(o, if srcMany then Job(csvName, srcName, true) else Job(srcName, csvName, false), files, env)
  {
    var fixed, many := srcName, csvName;
    if srcMany {
      fixed, many := many, fixed;
    }
    var fixedFill := FillSearchBox(Blank, fixed, !srcMany, env.fixedBoxReady);
    if !fixedFill.ok {
      return SearchBoxesMissing;
    }
    var input := files(many);
    var outName := OutputName(many);
    var lines, crash := WriteRows(Job(fixed, many, srcMany), input, env, fixedFill.boxes);
    return Written(outName, lines, crash);
  }

  /** `find_many_to_one`: the first argument is the file of sources, the
      second the fixed destination. */
  method FindManyToOne(csvName: string, srcName: string,
                       files: string -> seq<seq<string>>, env: Env) returns (o: Outcome)
    ensures Describes(o, Job(srcName, csvName, true), files, env)
  {
    o := FindOneToMany(csvName, srcName, true, files, env);
  }

  /** The mode test of the script's entry point: `arg[-4:] == '.csv'`. */
  predicate IsCsvName(arg: string) {
    Last4(arg) == ".csv"
  }

  /** The run the command line `prog a1 a2` starts. */
  function CommandLineJob(a1: string, a2: string): (j: Job)
    ensures j.srcMany <==> |a1| >= 4 && a1[|a1| - 4..] == ".csv"
    ensures multiset{j.fixed, j.csvName} == multiset{a1, a2}
    ensures j.srcMany ==> j.csvName == a1
    ensures !j.srcMany ==> j.fixed == a1
  {
    IsCsvNameIffSuffix(a1);
    if IsCsvName(a1) then Job(a2, a1, true) else Job(a1, a2, false)
  }

  /** The script's entry point: `argv[0]` is the program, `argv[1]` and
      `argv[2]` its two arguments; a missing one raises IndexError. */
  method RunCommandLine(argv: seq<string>, files: string -> seq<seq<string>>, env: Env)
    returns (r: Result<Outcome>)
    ensures |argv| < 2 ==> r == Err(ArgumentMissing(1))
    ensures |argv| == 2 ==> r == Err(ArgumentMissing(2))
    ensures |argv| > 2 ==> r.Ok? && Describes(r.value, CommandLineJob(argv[1], argv[2]), files, env)
  {
    if |argv| < 2 {
      return Err(ArgumentMissing(1));
    }
    var manyToOne := Last4(argv[1]) == ".csv";
    if |argv| == 2 {
      return Err(ArgumentMissing(2));
    }
    var o;
    if manyToOne {
      o := FindManyToOne(argv[1], argv[2], files, env);
    } else {
      o := FindOneToMany(argv[1], argv[2], false, files, env);
    }
    return Ok(o);
  }

  /** Two loop results over the same input write the same number of lines:
      each stops at the first row that raises, if any. */
  lemma RunLineCountsAgree(lines1: seq<seq<Cell>>, crash1: Option<Failure>,
                           lines2: seq<seq<Cell>>, crash2: Option<Failure>,
                           job: Job, input: seq<seq<string>>, env: Env)
    requires RunLines(lines1, crash1, job, input, env) && RunLines(lines2, crash2, job, input, env)
    ensures |lines1| == |lines2|
  {
    var m := if |lines1| < |lines2| then |lines1| - 1 else |lines2| - 1;
    if m < |input| {
      ghost var line := RowLine(job, input, env, m);
    }
  }

  /** The description of a run leaves exactly one outcome possible. */
  lemma DescribesUnique(o1: Outcome, o2: Outcome, job: Job, files: string -> seq<seq<string>>, env: Env)
    requires Describes(o1, job, files, env) && Describes(o2, job, files, env)
    ensures o1 == o2
  {
    if env.fixedBoxReady {
      var input := files(job.csvName);
      RunLineCountsAgree(o1.lines, o1.crash, o2.lines, o2.crash, job, input, env);
      forall k | 0 <= k < |o1.lines|
        ensures o1.lines[k] == o2.lines[k]
      {
        if k > 0 {
          assert RowLine(job, input, env, k - 1) == Ok(o1.lines[k]);
        }
      }
      assert o1.lines == o2.lines;
      assert o1.crash == o2.crash;
    }
  }

  /** A timeout of the one-time fill, and only that, ends the run without
      reading the file of many locations or writing an output file. */
  lemma FixedFillTimeoutEndsRun(o: Outcome, job: Job, files: string -> seq<seq<string>>, env: Env)
    requires Describes(o, job, files, env)
    ensures o == SearchBoxesMissing <==> !env.fixedBoxReady
    ensures o.Written? ==> o.file == OutputName(job.csvName)
  {
  }

  /** Every written line after the header belongs to the input row at the
      same position and is labelled with that row's first column; a run that
      raises nothing writes exactly one line per input row. */
  lemma WrittenLinesFollowInput(o: Outcome, job: Job, files: string -> seq<seq<string>>, env: Env)
    requires Describes(o, job, files, env) && o.Written?
    ensures o.lines[0] == Header
    ensures |o.lines| - 1 <= |files(job.csvName)|
    ensures o.crash.None? ==> |o.lines| == |files(job.csvName)| + 1
    ensures forall k :: 0 <= k < |o.lines| - 1 ==>
      files(job.csvName)[k] != [] && |o.lines[k + 1]| == 3 && o.lines[k + 1][0] == Text(files(job.csvName)[k][0])
  {
    var input := files(job.csvName);
    forall k | 0 <= k < |o.lines| - 1
      ensures input[k] != [] && |o.lines[k + 1]| == 3 && o.lines[k + 1][0] == Text(input[k][0])
    {
      assert RowLine(job, input, env, k) == Ok(o.lines[k + 1]);
    }
  }

  /** In the lines of a run, a row the page reports unreachable, or that does
      not load in time, is written with both values `None`, and the run goes on
      to the next row. */
  lemma NoResultRowIsWrittenAndRunContinues(lines: seq<seq<Cell>>, crash: Option<Failure>, job: Job,
                                             input: seq<seq<string>>, env: Env, k: nat)
    requires RunLines(lines, crash, job, input, env)
    requires k < |input| && k < |lines| && input[k] != []
    requires env.trip(BoxesAfter(job, input, env, k + 1)).Unreachable? ||
             env.trip(BoxesAfter(job, input, env, k + 1)).LoadTooSlow?
    ensures k + 1 < |lines|
    ensures lines[k + 1] == [Text(input[k][0]), NoneValue, NoneValue]
  {
    assert RowLine(job, input, env, k) == Ok([Text(input[k][0]), NoneValue, NoneValue]);
  }

  /** The name of the last of the first `j` rows whose fill succeeded, or the
      empty text of a fresh box if there is none. */
  function LastFilledName(input: seq<seq<string>>, env: Env, j: nat): string
    requires j <= |input|
  {
    if j == 0 then ""
    else if input[j - 1] != [] && env.rowBoxReady(j - 1) then input[j - 1][0]
    else LastFilledName(input, env, j - 1)
  }

  /** The boxes with the fixed location in its box and `name` in the other. */
  function Oriented(job: Job, name: string): SearchBoxes {
    if job.srcMany then SearchBoxes(name, job.fixed) else SearchBoxes(job.fixed, name)
  }

  /** Throughout the loop the fixed location stays in its box (the destination
      box in a many-to-one run, the source box otherwise), and the other box
      holds the last row whose fill succeeded. */
  lemma {:induction false} BoxesHoldFixedAndLastFilled(job: Job, input: seq<seq<string>>, env: Env, j: nat)
    requires env.fixedBoxReady && j <= |input|
    ensures BoxesAfter(job, input, env, j) == Oriented(job, LastFilledName(input, env, j))
  {
    if j > 0 {
      BoxesHoldFixedAndLastFilled(job, input, env, j - 1);
    }
  }

  /** Row `k` is looked up between the fixed location and its own name when
      its fill succeeds; when the fill times out the failure is ignored and
      the row is looked up against whatever the earlier rows left in the box. */
  lemma RowLookupQuery(job: Job, input: seq<seq<string>>, env: Env, k: nat)
    requires env.fixedBoxReady && k < |input| && input[k] != []
    ensures env.rowBoxReady(k) ==>
      RowLine(job, input, env, k) == ConvertTrip(input[k][0], env.trip(Oriented(job, input[k][0])))
    ensures !env.rowBoxReady(k) ==>
      RowLine(job, input, env, k) == ConvertTrip(input[k][0], env.trip(Oriented(job, LastFilledName(input, env, k))))
  {
    BoxesHoldFixedAndLastFilled(job, input, env, k + 1);
  }

  /** The mode test is a plain suffix test: the last four characters are ".csv". */
  lemma IsCsvNameIffSuffix(arg: string)
    ensures IsCsvName(arg) <==> |arg| >= 4 && arg[|arg| - 4..] == ".csv"
  {
  }

  /** A first argument ending in ".csv" starts a many-to-one run: that file
      holds the sources, and throughout the run the second argument sits in
      box 1 (destination) while the rows are typed into box 0 (source).
      Otherwise the second argument is the file, the first sits in box 0 and
      the rows go into box 1. */
  lemma CommandLineRoles(a1: string, a2: string, input: seq<seq<string>>, env: Env, j: nat)
    requires env.fixedBoxReady && j <= |input|
    ensures |a1| >= 4 && a1[|a1| - 4..] == ".csv" ==>
      CommandLineJob(a1, a2).csvName == a1 &&
      BoxesAfter(CommandLineJob(a1, a2), input, env, j) == SearchBoxes(LastFilledName(input, env, j), a2)
    ensures !(|a1| >= 4 && a1[|a1| - 4..] == ".csv") ==>
      CommandLineJob(a1, a2).csvName == a2 &&
      BoxesAfter(CommandLineJob(a1, a2), input, env, j) == SearchBoxes(a1, LastFilledName(input, env, j))
  {
    BoxesHoldFixedAndLastFilled(CommandLineJob(a1, a2), input, env, j);
  }

  /** `prog "A" b.csv` types "A" once into the source box and each row of
      b.csv into the destination box; `prog a.csv "B"` types "B" once into the
      destination box and each row of a.csv into the source box. */
  lemma CommandLineExamples(row: string)
    ensures CommandLineJob("A", "b.csv") == Job("A", "b.csv", false)
    ensures Oriented(CommandLineJob("A", "b.csv"), row) == SearchBoxes("A", row)
    ensures CommandLineJob("a.csv", "B") == Job("B", "a.csv", true)
    ensures Oriented(CommandLineJob("a.csv", "B"), row) == SearchBoxes(row, "B")
  {
    assert Last4("A") == "A";
    assert Last4("a.csv") == ".csv";
  }
}
