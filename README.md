# multi_router: distance and time from one location to many, modelled in Dafny

`multi_router.py` drives a browser through Google Maps directions to get the
distance and travel time between one fixed location and every location listed
in a CSV file, in either direction, and writes one CSV line per listed
location. This project models the decisions the script makes around the
browser, and proves what they guarantee:

- **Mode and roles** (`Router.CommandLineJob`, `Router.FindOneToMany`,
  `Router.FindManyToOne`): `argv[1][-4:] == '.csv'` selects a many-to-one run,
  in which the roles are swapped, the fixed location goes into search box 1
  (destination) and every row into box 0 (source); otherwise the fixed location
  goes into box 0 and the rows into box 1.
- **Search boxes** (`Router.FillSearchBox`, `Router.BoxesAfter`): a fill types
  into the chosen box only when the boxes appear within the wait. The one-time
  fill is checked; a per-row fill's result is ignored, so after a timeout the row
  is looked up against whatever the earlier rows left in the box.
- **Duration text** (`Duration.DurationMinutes`, `Duration.ConvertDuration`):
  Python's `str.split()` is modelled with the full `str.isspace` set, and
  `int()` exactly for tokens of ASCII characters (sign, digits, single
  underscores between digits), and the step-by-step conversion of
  lines 73-78 is proved equal to the specification, whose forms
  ("H h M min", "M min", other units, errors) are proved as lemmas.
- **The row loop** (`Router.FindOneToMany`, `Router.WriteRows`): the output is the header, then
  one line per input row in input order, labelled with the row's first column;
  conversion happens only when the page rendered both values, otherwise both
  cells are `None`. Every uncaught Python exception (an empty CSV row, blank
  distance text, a malformed duration, a trip block missing an element) ends
  the run and keeps the lines already written.
- **Output name** (`Router.OutputName`): the input name without its last four
  characters, then `_dist_time.csv`; it never equals the input name.

The browser is an oracle (`Router.Env`): whether the search boxes appear for
the one-time fill and for the fill of each row, and what the directions page
shows (`Router.Lookup`: both texts, unreachable, too slow, or a trip block
lacking an element) for the current contents of the two boxes. The contents of
the CSV files are a function from file name to rows.

Three behaviours of the code are easy to miss, and the model keeps them:
- only `argv[1]` is tested for the `.csv` suffix; `argv[2]` is used as the file
  of destinations whatever its name;
- the third duration token is read only when there are exactly four tokens,
  and when it is read it must be an integer or the run ends (`1 h 20` gives 60,
  `1 h x min` ends the run);
- a distance/duration pair is either both present or both absent, because a
  missing inner element of a rendered trip block raises an exception the script
  does not catch.

## Model

| member | source | states |
|---|---|---|
| `PyText.Split` | multi_router.py:73 | `str.split()` yields only non-empty, whitespace-free tokens |
| `PyText.SplitJoinSpaced` | multi_router.py:73 | splitting a text made of tokens joined by single spaces gives back exactly those tokens |
| `PyText.ParseIntText` | multi_router.py:74 | `int(str(i)) == i` for every integer, and `str(i)` is one token |
| `PyText.ParseInt` | multi_router.py:74 | `int()` of a token succeeds only on a token starting with a digit or a sign, and a negative value only with a leading `-` |
| `PyText.NatTextWellFormed` | multi_router.py:74 | the decimal text of a natural number is one token of well-formed digits that `int()` reads back as that number |
| `PyText.ParseNegated` | multi_router.py:74 | `-` followed by well-formed digits is one token that `int()` reads as the negated digit value |
| `PyText.Last4` | multi_router.py:146 | `s[-4:]`: the last four characters, or the whole text when shorter |
| `PyText.DropLast4` | multi_router.py:58 | `s[:-4]`: the text without its last four characters, or empty when shorter |
| `PyText.SlicesSplitText` | multi_router.py:58 | for a text of at least four characters, `s[:-4] + s[-4:] == s` |
| `Duration.DurationMinutes` | multi_router.py:73-78 | the conversion succeeds exactly when there are at least two tokens, the first is an integer, and the third is an integer in the four-token form |
| `Duration.ConvertDuration` | multi_router.py:73-78 | the statement-by-statement conversion (assign, `*= 60`, `+=`) returns the specified minutes or the specified exception |
| `Duration.HoursAndMinutes` | multi_router.py:73-78 | "H h M min" gives H * 60 + M |
| `Duration.MinutesOnly` | multi_router.py:73-77 | "M min" gives M, unscaled, for any unit other than "h" |
| `Duration.HoursOnly` | multi_router.py:73-77 | "H h" gives H * 60 |
| `Duration.OtherUnitNotScaled` | multi_router.py:73-78 | only a second token exactly "h" scales; with another unit the first number is kept and the third is still added ("1 day 2 h" gives 3) |
| `Duration.ThirdTokenReadOnlyInFourTokenForm` | multi_router.py:77-78 | with two, three or five or more tokens the third token is never read |
| `Duration.DurationErrors` | multi_router.py:73-78 | for every text: no token raises at `t_split[0]`, a non-integer first token raises naming it, a lone integer token raises at `t_split[1]`, and in the four-token form a non-integer third token raises naming it |
| `Duration.DurationErrorShapes` | multi_router.py:73-78 | the same errors on texts built from tokens: `""`, `"x min"`, a lone integer, and `"H h x min"` for any non-integer token `x` |
| `Duration.DurationExamples` | multi_router.py:73-78 | two typical duration texts of the directions page: "1 h 20 min" gives 80 and "45 min" gives 45 |
| `Router.FillSearchBox` | multi_router.py:85-110 | on success the box chosen by the role (0 for a source, 1 otherwise) holds the name and the other box is unchanged; on a timeout nothing changes and failure is reported |
| `Router.OutputName` | multi_router.py:58 | the output name ends in `_dist_time.csv`, starts with the input name minus its last four characters, and never equals the input name |
| `Router.OutputNameOfCsv` | multi_router.py:58 | `stem.csv` becomes `stem_dist_time.csv` |
| `Router.OutputNameExample` | multi_router.py:58 | `cities.csv` becomes `cities_dist_time.csv` |
| `Router.ConvertTrip` | multi_router.py:68-81 | values are converted only when the page rendered both texts; an unreachable or slow row keeps both values `None`; the line is labelled with the row's name |
| `Router.ConvertRow` | multi_router.py:71-78 | the statement-by-statement conversion of one looked-up row yields exactly the line or error `ConvertTrip` specifies |
| `Router.BoxesAfter` | multi_router.py:51-125 | whenever the one-time fill succeeded, the fixed location's box (0 one-to-many, 1 many-to-one) still holds it after any number of row fills |
| `Router.RowLine` | multi_router.py:66-81 | an empty CSV row raises `IndexError`; a row that converts gives a three-cell line whose first cell is the row's first column |
| `Router.StoppedRunLines` | multi_router.py:66-81 | a loop that converted rows `0..i-1` and then raises at row `i` has written the lines of a run ending with that error |
| `Router.FinishedRunLines` | multi_router.py:66-81 | a loop that converted every row has written the lines of a run without error |
| `Router.WriteRows` | multi_router.py:66-81 | the row loop, from the boxes left by the one-time fill, writes the header and every row's line in order up to the first row that raises, and reports that row's error |
| `Router.FindOneToMany` | multi_router.py:35-82 | the run after the role swap: no output if the one-time fill times out, else the file `stem_dist_time.csv` with the header and one line per input row in order, up to the first row that raises, and that row's error |
| `Router.FindManyToOne` | multi_router.py:31-32 | the first argument is the file of sources and the second the fixed destination |
| `Router.CommandLineJob` | multi_router.py:146-150 | the first argument is the file exactly when it ends in `.csv`; the two arguments become the fixed location and the file, each used once |
| `Router.RunCommandLine` | multi_router.py:145-150 | a missing argument raises; otherwise the run chosen by the `.csv` test on the first argument |
| `Router.RunLineCountsAgree` | multi_router.py:66-81 | two loops over the same input and browser write the same number of lines |
| `Router.DescribesUnique` | multi_router.py:45-81 | the described outcome of a run is unique, so the run's contract determines its output completely |
| `Router.FixedFillTimeoutEndsRun` | multi_router.py:51-53 | a timeout of the one-time fill, and only that, ends the run with no file read or written |
| `Router.WrittenLinesFollowInput` | multi_router.py:63-81 | the header comes first; every following line belongs to the input row at the same position and is labelled with its first column; a run without error writes exactly one line per input row |
| `Router.NoResultRowIsWrittenAndRunContinues` | multi_router.py:125-142 | in the lines of a run, a row the page reports unreachable or too slow is written with both values `None`, and the run continues to the next row |
| `Router.BoxesHoldFixedAndLastFilled` | multi_router.py:45-125 | during the loop the fixed location stays in its box and the other box holds the last row whose fill succeeded |
| `Router.RowLookupQuery` | multi_router.py:125 | a row whose fill succeeds is looked up between the fixed location and itself, in the mode's orientation; after a failed fill it is looked up against the previous contents |
| `Router.IsCsvNameIffSuffix` | multi_router.py:146 | the mode test holds exactly when the argument's last four characters are `.csv` |
| `Router.CommandLineRoles` | multi_router.py:45-150 | for the command line's job, after the one-time fill and any number of row fills: a first argument ending in `.csv` is the file, the second argument stays in box 1 and box 0 holds the last row filled; otherwise the second argument is the file, the first stays in box 0 and box 1 holds the last row filled |
| `Router.CommandLineExamples` | multi_router.py:145-150 | `prog "A" b.csv` looks rows up as (A, row); `prog a.csv "B"` as (row, B) |

## Left out

- Browser launch, navigation, the `WebDriverWait` polling and its 10-second timeout, and the page's element lookups: they are calls into a third-party page, modelled only as the oracle `Router.Env`.
- Timing on the page: the oracle gives the result for the current box contents, so a trip block left over from the previous row and found before the page updates is not modelled.
- `fill_search_box` raising `IndexError` when fewer than two search boxes are present: the oracle's boxes either both appear or time out.
- `float()` of the distance: floating point is not modelled; the distance cell keeps the token handed to `float()`, and a token `float()` would reject is not detected.
- `int()` of Unicode decimal digits other than ASCII `0`-`9`: not modelled; such tokens are treated as non-integers.
- `PyText.ParseInt`: does not model the limit of 4300 digits that `int()` enforces on decimal text since CPython 3.11 (and in patched earlier releases); a longer token of digits is read as its value instead of raising `ValueError`.
- Reading the input CSV (quoting, dialect) and writing the output with `QUOTE_NONNUMERIC`, opening and closing the files: the input is a sequence of rows per file name and the output a sequence of lines of cells.
- The console messages, including the one that tells "unreachable" from "too slow": both give the same row.
- Exceptions of the browser, the file system and the process (launch failure, missing input file): they end the process outside the modelled run.
