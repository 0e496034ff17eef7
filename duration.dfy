/** The conversion of the page's duration text ("1 h 20 min", "45 min")
    into whole minutes (multi_router.py:73-78). */
module Duration {
  import opened Common
  import opened PyText

  /** The token lists the conversion accepts without raising: at least two
      tokens, an integer first, and an integer third when there are exactly four. */
  predicate WellFormedDuration(t: seq<string>) {
    |t| >= 2 && ParseInt(t[0]).Some? && (|t| == 4 ==> ParseInt(t[2]).Some?)
  }

  /** The minutes the script computes from a duration text, or the exception
      it raises first, following Python's order of evaluation: `t_split[0]`,
      `int(...)` of it, `t_split[1]`, then `int(t_split[2])` in the four-token form. */
  function DurationMinutes(text: string): (r: Result<int>)
    ensures r.Ok? <==> WellFormedDuration(Split(text))
  {
    var t := Split(text);
    if |t| == 0 then Err(NoDurationToken(0))
    else match ParseInt(t[0])
      case None => Err(NotAnInteger(t[0]))
      case Some(first) =>
        if |t| < 2 then Err(NoDurationToken(1))
        else
          var scaled := if t[1] == "h" then first * 60 else first;
          if |t| != 4 then Ok(scaled)
          else match ParseInt(t[2])
            case None => Err(NotAnInteger(t[2]))
            case Some(third) => Ok(scaled + third)
  }

  /** The statements of multi_router.py:73-78, one by one: assign the first
      number, multiply by 60 for an "h" unit, add the third token in the
      four-token form. */
  method ConvertDuration(text: string) returns (r: Result<int>)
    ensures r == DurationMinutes(text)
  {
    var tSplit := Split(text);
    if |tSplit| == 0 {
      return Err(NoDurationToken(0));
    }
    var first := ParseInt(tSplit[0]);
    if first.None? {
      return Err(NotAnInteger(tSplit[0]));
    }
    var travelTime := first.value;
    if |tSplit| < 2 {
      return Err(NoDurationToken(1));
    }
    if tSplit[1] == "h" {
      travelTime := travelTime * 60;
    }
    if |tSplit| == 4 {
      var third := ParseInt(tSplit[2]);
      if third.None? {
        return Err(NotAnInteger(tSplit[2]));
      }
      travelTime := travelTime + third.value;
    }
    return Ok(travelTime);
  }

  /** "H h M min" is H * 60 + M minutes, whatever the last unit word is. */
  lemma HoursAndMinutes(h: int, m: int, unit: string)
    requires IsToken(unit)
    ensures DurationMinutes(JoinSpaced([IntText(h), "h", IntText(m), unit])) == Ok(h * 60 + m)
  {
    ParseIntText(h);
    ParseIntText(m);
    var ts := [IntText(h), "h", IntText(m), unit];
    SplitJoinSpaced(ts);
  }

  /** "M min" is M minutes, unscaled, for any unit word other than "h". */
  lemma MinutesOnly(m: int, unit: string)
    requires IsToken(unit) && unit != "h"
    ensures DurationMinutes(JoinSpaced([IntText(m), unit])) == Ok(m)
  {
    ParseIntText(m);
    SplitJoinSpaced([IntText(m), unit]);
  }

  /** "H h" alone is H * 60 minutes. */
  lemma HoursOnly(h: int)
    ensures DurationMinutes(JoinSpaced([IntText(h), "h"])) == Ok(h * 60)
  {
    ParseIntText(h);
    SplitJoinSpaced([IntText(h), "h"]);
  }

  /** Only a second token exactly "h" scales: with any other unit word in the
      four-token form the first number is kept as it is and the third is still
      added, so "1 day 2 h" gives 3. */
  lemma OtherUnitNotScaled(a: int, unit: string, b: int, last: string)
    requires IsToken(unit) && IsToken(last) && unit != "h"
    ensures DurationMinutes(JoinSpaced([IntText(a), unit, IntText(b), last])) == Ok(a + b)
  {
    ParseIntText(a);
    ParseIntText(b);
    SplitJoinSpaced([IntText(a), unit, IntText(b), last]);
  }

  /** Outside the four-token form the third token is never read, even when it
      is not a number: "1 h x" gives 60 and "5 min x y z" gives 5. */
  lemma ThirdTokenReadOnlyInFourTokenForm(a: int, rest: seq<string>)
    requires |rest| >= 1 && |rest| != 3
    requires forall i :: 0 <= i < |rest| ==> IsToken(rest[i])
    ensures DurationMinutes(JoinSpaced([IntText(a)] + rest)) == Ok(if rest[0] == "h" then a * 60 else a)
  {
    ParseIntText(a);
    var ts := [IntText(a)] + rest;
    forall i | 0 <= i < |ts| ensures IsToken(ts[i]) {
      if i > 0 { assert ts[i] == rest[i - 1]; }
    }
    SplitJoinSpaced(ts);
    var t := Split(JoinSpaced(ts));
    assert t[0] == IntText(a) && t[1] == rest[0] && |t| != 4;
  }

  /** For every text: no tokens, a first token that is not an integer, a single
      token, or a non-integer third token in the four-token form each raise,
      and the error names the failing position or token. */
  lemma DurationErrors(text: string)
    ensures Split(text) == [] ==> DurationMinutes(text) == Err(NoDurationToken(0))
    ensures Split(text) != [] && ParseInt(Split(text)[0]).None? ==>
      DurationMinutes(text) == Err(NotAnInteger(Split(text)[0]))
    ensures |Split(text)| == 1 && ParseInt(Split(text)[0]).Some? ==>
      DurationMinutes(text) == Err(NoDurationToken(1))
    ensures |Split(text)| == 4 && ParseInt(Split(text)[0]).Some? && ParseInt(Split(text)[2]).None? ==>
      DurationMinutes(text) == Err(NotAnInteger(Split(text)[2]))
  {
  }

  /** Instances of those errors: an empty text, "x min", a lone number, "H h x min". */
  lemma DurationErrorShapes(a: int, bad: string)
    requires IsToken(bad) && ParseInt(bad).None?
    ensures DurationMinutes("") == Err(NoDurationToken(0))
    ensures DurationMinutes(JoinSpaced([bad, "min"])) == Err(NotAnInteger(bad))
    ensures DurationMinutes(IntText(a)) == Err(NoDurationToken(1))
    ensures DurationMinutes(JoinSpaced([IntText(a), "h", bad, "min"])) == Err(NotAnInteger(bad))
  {
    ParseIntText(a);
    DurationErrors("");
    SplitJoinSpaced([bad, "min"]);
    DurationErrors(JoinSpaced([bad, "min"]));
    SplitJoinSpaced([IntText(a)]);
    DurationErrors(IntText(a));
    SplitJoinSpaced([IntText(a), "h", bad, "min"]);
    DurationErrors(JoinSpaced([IntText(a), "h", bad, "min"]));
  }

  /** Two typical duration texts of the directions page. */
  lemma DurationExamples()
    ensures DurationMinutes("1 h 20 min") == Ok(80)
    ensures DurationMinutes("45 min") == Ok(45)
  {
    assert IntText(1) == "1";
    assert IntText(20) == "20";
    assert IntText(45) == "45";
    assert JoinSpaced(["1", "h", "20", "min"]) == "1 h 20 min";
    assert JoinSpaced(["45", "min"]) == "45 min";
    HoursAndMinutes(1, 20, "min");
    MinutesOnly(45, "min");
  }
}
