/** The names clients subscribe by. */
module Channels {
  import opened Wrappers
  import opened Windows
  import opened Keys

  datatype Channel = Channel(scope: Scope, period: Period) {

    function String(): string {
      scope.Name() + ":" + period.Name()
    }

    /** A board that exists. */
    predicate Known() {
      scope == GLOBAL || scope.game in SLUGS
    }
  }

  datatype Error = Malformed | UnknownPeriod | UnknownGame

  /** strings.Cut around the first colon. */
  function Cut(raw: string): Option<(string, string)> {
    if raw == "" then None
    else if raw[0] == ':' then Some(("", raw[1..]))
    else
      match Cut(raw[1..])
      case None => None
      case Some((before, after)) => Some(([raw[0]] + before, after))
  }

  /** An empty name means all-time, as in a query string. */
  function ParsePeriod(name: string): Option<Period> {
    if name == "" then Some(AllTime) else FindPeriod(name, PERIODS)
  }

  function FindPeriod(name: string, periods: seq<Period>): Option<Period> {
    if periods == [] then None
    else if periods[0].Name() == name then Some(periods[0])
    else FindPeriod(name, periods[1..])
  }

  function Parse(raw: string): Result<Channel, Error> {
    match Cut(raw)
    case None => Err(Malformed)
    case Some((scopeName, periodName)) =>
      if scopeName == "" || periodName == "" then Err(Malformed)
      else
        match ParsePeriod(periodName)
        case None => Err(UnknownPeriod)
        case Some(period) =>
          if scopeName == "global" then Ok(Channel(GLOBAL, period))
          else if scopeName !in SLUGS then Err(UnknownGame)
          else Ok(Channel(Scope(scopeName), period))
  }

  predicate HasColon(s: string) {
    exists i :: 0 <= i < |s| && s[i] == ':'
  }

  lemma {:induction false} CutSplits(raw: string)
    ensures Cut(raw).None? <==> !HasColon(raw)
    ensures Cut(raw).Some? ==>
              raw == Cut(raw).value.0 + ":" + Cut(raw).value.1 && !HasColon(Cut(raw).value.0)
  {
    if raw != "" && raw[0] != ':' {
      CutSplits(raw[1..]);
      assert HasColon(raw[1..]) ==> HasColon(raw) by {
        if i :| 0 <= i < |raw[1..]| && raw[1..][i] == ':' {
          assert raw[i + 1] == ':';
        }
      }
      assert HasColon(raw) ==> HasColon(raw[1..]) by {
        if i :| 0 <= i < |raw| && raw[i] == ':' {
          assert raw[1..][i - 1] == ':';
        }
      }
      assert raw == [raw[0]] + raw[1..];
    }
  }

  lemma {:induction false} CutFinds(before: string, after: string)
    requires !HasColon(before)
    ensures Cut(before + ":" + after) == Some((before, after))
  {
    var raw := before + ":" + after;
    if before == "" {
      assert raw[1..] == after;
    } else {
      assert raw[0] == before[0] != ':';
      assert raw[1..] == before[1..] + ":" + after;
      forall i | 0 <= i < |before[1..]| ensures before[1..][i] != ':' {
        assert before[1..][i] == before[i + 1];
      }
      CutFinds(before[1..], after);
      assert before == [before[0]] + before[1..];
    }
  }

  lemma NamesHaveNoColon(name: string)
    requires name in SLUGS || name == "global"
    ensures !HasColon(name) && name != "" && (name in SLUGS ==> name != "global")
  {
    if name in SLUGS {
      var i :| 0 <= i < |SLUGS| && SLUGS[i] == name;
      assert SLUGS[0] == "reaction" && SLUGS[1] == "math-sprint" && SLUGS[2] == "memory";
      assert SLUGS[3] == "word-scramble" && SLUGS[4] == "number-guess";
      assert SLUGS[i][0] != 'g';
      assert "global"[0] == 'g';
    }
  }

  lemma PeriodNames(p: Period, name: string)
    ensures p.Name() != "" && ParsePeriod(p.Name()) == Some(p)
    ensures name != "" && ParsePeriod(name).Some? ==> ParsePeriod(name).value.Name() == name
  {
    assert AllTime.Name()[0] == 'a' && Daily.Name()[0] == 'd' && Weekly.Name()[0] == 'w' && Monthly.Name()[0] == 'm';
    assert PERIODS[1..] == [Daily, Weekly, Monthly];
    assert PERIODS[1..][1..] == [Weekly, Monthly];
    assert PERIODS[1..][1..][1..] == [Monthly];
    assert PERIODS[1..][1..][1..][1..] == [];
    FindPeriodNames(name, PERIODS);
    var q := p.Name();
    assert FindPeriod(q, [Monthly]) == if p == Monthly then Some(Monthly) else FindPeriod(q, []);
    assert FindPeriod(q, [Weekly, Monthly]) == if p == Weekly then Some(Weekly) else FindPeriod(q, [Monthly]);
    assert FindPeriod(q, [Daily, Weekly, Monthly]) == if p == Daily then Some(Daily) else FindPeriod(q, [Weekly, Monthly]);
  }

  lemma {:induction false} FindPeriodNames(name: string, periods: seq<Period>)
    ensures FindPeriod(name, periods).Some? ==> FindPeriod(name, periods).value.Name() == name
  {
    if periods != [] {
      FindPeriodNames(name, periods[1..]);
    }
  }

  /** Printing and parsing undo each other, both ways: a string parses to a channel exactly when it is
      the name of that channel and the channel's board exists. */
  lemma ParseIsInverse(raw: string, c: Channel)
    ensures Parse(raw) == Ok(c) <==> c.Known() && c.String() == raw
  {
    CutSplits(raw);
    PeriodNames(c.period, if Cut(raw).Some? then Cut(raw).value.1 else "");
    if c.Known() && c.String() == raw {
      NamesHaveNoColon(c.scope.Name());
      CutFinds(c.scope.Name(), c.period.Name());
    }
    if Parse(raw) == Ok(c) && c.scope.game in SLUGS {
      NamesHaveNoColon(c.scope.game);
    }
  }

  /** What the names look like. */
  lemma KnownNames()
    ensures Channel(GLOBAL, Daily).String() == "global:daily"
    ensures Channel(Scope("memory"), AllTime).String() == "memory:all-time"
  {
    assert "global" + ":" == "global:" && "global:" + "daily" == "global:daily";
    assert "memory" + ":" == "memory:" && "memory:" + "all-time" == "memory:all-time";
  }
}
