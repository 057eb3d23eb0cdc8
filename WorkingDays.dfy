/**
 * A person's working-day configuration is a comma-separated string such as
 * "Mon,Tue,Wed,Thu,Fri". Two parsers read it: one counts the non-empty tokens,
 * the other keeps only the recognised three-letter weekday abbreviations.
 * They disagree on unrecognised tokens ("Mon,InvalidDay,Wed" counts 3 days but
 * recognises only Mon and Wed); the model keeps that asymmetry.
 */
module WorkingDays {
  import opened Base
  import opened Calendar

  // ---------------------------------------------------------------------
  // Tokenising: split on ',' and trim white space
  // ---------------------------------------------------------------------

  /** Splits on every comma; like Rust's `str::split(',')` it yields one
      (possibly empty) piece more than there are commas. */
  function Split(s: string): (parts: seq<string>)
    ensures |parts| >= 1
    decreases |s|
  {
    if |s| == 0 then [""]
    else if s[0] == ',' then [""] + Split(s[1..])
    else
      var rest := Split(s[1..]);
      [[s[0]] + rest[0]] + rest[1..]
  }

  /** Joins pieces with commas; the inverse of Split. */
  function Join(parts: seq<string>): string
    requires |parts| >= 1
    decreases |parts|
  {
    if |parts| == 1 then parts[0] else parts[0] + "," + Join(parts[1..])
  }

  predicate NoComma(t: string)
  {
    forall i :: 0 <= i < |t| ==> t[i] != ','
  }

  lemma JoinCons(x: string, tail: seq<string>)
    ensures Join([x] + tail) == if tail == [] then x else x + "," + Join(tail)
  {
    if tail != [] {
      assert ([x] + tail)[1..] == tail;
    }
  }

  lemma JoinExtendFirst(c: char, a: string, tail: seq<string>)
    ensures Join([[c] + a] + tail) == [c] + Join([a] + tail)
  {
    JoinCons([c] + a, tail);
    JoinCons(a, tail);
    if tail != [] {
      var j := Join(tail);
      assert ([c] + a) + "," + j == [c] + (a + "," + j);
    }
  }

  /** Splitting and re-joining gives back the configuration string. */
  lemma {:induction false} JoinSplit(s: string)
    ensures Join(Split(s)) == s
    decreases |s|
  {
    if |s| > 0 {
      JoinSplit(s[1..]);
      var rest := Split(s[1..]);
      if s[0] == ',' {
        JoinCons("", rest);
      } else {
        JoinExtendFirst(s[0], rest[0], rest[1..]);
        assert rest == [rest[0]] + rest[1..];
      }
      assert s == [s[0]] + s[1..];
    }
  }

  /** No piece of a split contains a comma. */
  lemma {:induction false} SplitPiecesNoComma(s: string)
    ensures forall k :: 0 <= k < |Split(s)| ==> NoComma(Split(s)[k])
    decreases |s|
  {
    if |s| > 0 {
      SplitPiecesNoComma(s[1..]);
      var rest := Split(s[1..]);
      var parts := Split(s);
      forall k | 0 <= k < |parts| ensures NoComma(parts[k]) {
        if k > 0 {
          assert parts[k] == rest[k - (if s[0] == ',' then 1 else 0)];
        } else if s[0] != ',' {
          assert NoComma(rest[0]);
          assert parts[0] == [s[0]] + rest[0];
        }
      }
    }
  }

  /** Joining comma-free pieces and splitting again gives back the pieces. */
  lemma {:induction false} SplitJoin(parts: seq<string>)
    requires |parts| >= 1
    requires forall k :: 0 <= k < |parts| ==> NoComma(parts[k])
    ensures Split(Join(parts)) == parts
    decreases |parts|
  {
    if |parts| == 1 {
      SplitPiece(parts[0]);
    } else {
      var p := parts[0];
      SplitJoin(parts[1..]);
      SplitPrefix(p, Join(parts[1..]));
    }
  }

  /** A comma-free piece splits into itself. */
  lemma {:induction false} SplitPiece(p: string)
    requires NoComma(p)
    ensures Split(p) == [p]
    decreases |p|
  {
    if |p| > 0 {
      SplitPiece(p[1..]);
      assert [p[0]] + p[1..] == p;
    }
  }

  /** Splitting `p + "," + rest`, for a comma-free p, yields p followed by the
      pieces of rest. */
  lemma {:induction false} SplitPrefix(p: string, rest: string)
    requires NoComma(p)
    ensures Split(p + "," + rest) == [p] + Split(rest)
    decreases |p|
  {
    if |p| == 0 {
      assert p + "," + rest == [','] + rest;
      assert ([','] + rest)[1..] == rest;
    } else {
      SplitPrefix(p[1..], rest);
      var s := p + "," + rest;
      assert s[0] == p[0];
      assert s[1..] == p[1..] + "," + rest;
      assert [p[0]] + p[1..] == p;
    }
  }

  /** White space as Rust's `char::is_whitespace` defines it (Unicode White_Space). */
  predicate IsWhitespace(c: char)
  {
    c == ' ' || ('\t' <= c <= '\r')
    || c == '\U{85}' || c == '\U{A0}' || c == '\U{1680}'
    || ('\U{2000}' <= c <= '\U{200A}')
    || c == '\U{2028}' || c == '\U{2029}' || c == '\U{202F}' || c == '\U{205F}'
    || c == '\U{3000}'
  }

  function TrimStart(s: string): string
    decreases |s|
  {
    if |s| > 0 && IsWhitespace(s[0]) then TrimStart(s[1..]) else s
  }

  function TrimEnd(s: string): string
    decreases |s|
  {
    if |s| > 0 && IsWhitespace(s[|s| - 1]) then TrimEnd(s[..|s| - 1]) else s
  }

  /** Rust's `str::trim`: drops leading and trailing white space. */
  function Trim(s: string): string
  {
    TrimEnd(TrimStart(s))
  }

  /** TrimStart removes a prefix of white space and leaves a string that does
      not start with white space. */
  lemma {:induction false} TrimStartShape(s: string)
    ensures var t := TrimStart(s);
      |t| <= |s| && t == s[|s| - |t|..]
      && (|t| > 0 ==> !IsWhitespace(t[0]))
      && forall i :: 0 <= i < |s| - |t| ==> IsWhitespace(s[i])
    decreases |s|
  {
    if |s| > 0 && IsWhitespace(s[0]) {
      TrimStartShape(s[1..]);
    }
  }

  /** TrimEnd removes a suffix of white space and leaves a string that does not
      end with white space. */
  lemma {:induction false} TrimEndShape(s: string)
    ensures var t := TrimEnd(s);
      |t| <= |s| && t == s[..|t|]
      && (|t| > 0 ==> !IsWhitespace(t[|t| - 1]))
      && forall i :: |t| <= i < |s| ==> IsWhitespace(s[i])
    decreases |s|
  {
    if |s| > 0 && IsWhitespace(s[|s| - 1]) {
      TrimEndShape(s[..|s| - 1]);
    }
  }

  lemma {:induction false} TrimStartFixed(s: string)
    requires |s| == 0 || !IsWhitespace(s[0])
    ensures TrimStart(s) == s
  {
  }

  /** A trimmed token has no white space at either end, so trimming it again
      changes nothing. */
  lemma TrimIdempotent(s: string)
    ensures Trim(Trim(s)) == Trim(s)
  {
    var a := TrimStart(s);
    var t := TrimEnd(a);
    TrimStartShape(s);
    TrimEndShape(a);
    TrimStartFixed(t);
    TrimEndFixed(t);
  }

  lemma {:induction false} TrimEndFixed(s: string)
    requires |s| == 0 || !IsWhitespace(s[|s| - 1])
    ensures TrimEnd(s) == s
  {
  }

  // ---------------------------------------------------------------------
  // The two parsers
  // ---------------------------------------------------------------------

  /** The weekday a trimmed token names, if it is one of the seven abbreviations. */
  function Recognise(token: string): Option<Weekday>
  {
    if token == "Mon" then Some(Mon)
    else if token == "Tue" then Some(Tue)
    else if token == "Wed" then Some(Wed)
    else if token == "Thu" then Some(Thu)
    else if token == "Fri" then Some(Fri)
    else if token == "Sat" then Some(Sat)
    else if token == "Sun" then Some(Sun)
    else None
  }

  function Abbreviation(w: Weekday): string
  {
    match w
    case Mon => "Mon" case Tue => "Tue" case Wed => "Wed" case Thu => "Thu"
    case Fri => "Fri" case Sat => "Sat" case Sun => "Sun"
  }

  /** Number of tokens whose trimmed form is non-empty. */
  function CountNonEmpty(tokens: seq<string>): (n: nat)
    ensures n <= |tokens|
    decreases |tokens|
  {
    if tokens == [] then 0
    else CountNonEmpty(tokens[..|tokens| - 1]) + (if Trim(tokens[|tokens| - 1]) != "" then 1 else 0)
  }

  /** The recognised weekdays among the tokens, in token order, repeats kept. */
  function RecognisedDays(tokens: seq<string>): seq<Weekday>
    decreases |tokens|
  {
    if tokens == [] then []
    else
      var init := RecognisedDays(tokens[..|tokens| - 1]);
      match Recognise(Trim(tokens[|tokens| - 1]))
      case Some(w) => init + [w]
      case None => init
  }

  /** parse_working_days_count. */
  function ParseWorkingDaysCount(workingDays: string): (n: nat)
    ensures n <= |Split(workingDays)|
    ensures |ParseWorkingDaysSet(workingDays)| <= n
  {
    RecognisedNoMoreThanCounted(Split(workingDays));
    CountNonEmpty(Split(workingDays))
  }

  /** parse_working_days_set (a Vec in the source, so repeats are kept): a
      weekday is in it exactly when some comma-separated token trims to its
      abbreviation. */
  function ParseWorkingDaysSet(workingDays: string): (days: seq<Weekday>)
    ensures forall w :: w in days <==> NamesDay(Split(workingDays), w)
  {
    RecognisedMembershipAll(Split(workingDays));
    RecognisedDays(Split(workingDays))
  }

  /** is_working_day: the day's weekday is among the configured ones; with
      none configured no day is a working day. */
  predicate IsWorkingDay(day: int, workingDaysSet: seq<Weekday>)
    ensures workingDaysSet == [] ==> !IsWorkingDay(day, workingDaysSet)
  {
    WeekdayOf(day) in workingDaysSet
  }

  /** A schedule repeats every week. */
  lemma WorkingDayWeekly(day: int, k: int, workingDaysSet: seq<Weekday>)
    ensures IsWorkingDay(day + 7 * k, workingDaysSet) == IsWorkingDay(day, workingDaysSet)
  {
    WeekdayPeriodic(day, k);
  }

  // ---------------------------------------------------------------------
  // Properties
  // ---------------------------------------------------------------------

  lemma RecogniseAbbreviation(token: string, w: Weekday)
    ensures Recognise(token) == Some(w) <==> token == Abbreviation(w)
  {
  }

  /** Every recognised token is counted: the set never has more entries than
      the count, and has exactly as many when every non-empty token is a
      weekday abbreviation. */
  lemma {:induction false} RecognisedNoMoreThanCounted(tokens: seq<string>)
    ensures |RecognisedDays(tokens)| <= CountNonEmpty(tokens)
    ensures |RecognisedDays(tokens)| == CountNonEmpty(tokens) <==> AllRecognised(tokens)
    decreases |tokens|
  {
    if tokens != [] {
      var init := tokens[..|tokens| - 1];
      var last := tokens[|tokens| - 1];
      RecognisedNoMoreThanCounted(init);
      if Recognise(Trim(last)).Some? {
        assert Trim(last) != "";
      }
      AllRecognisedSnoc(init, last);
      assert init + [last] == tokens;
    }
  }

  /** Every token with a non-empty trimmed form names a weekday. */
  ghost predicate AllRecognised(tokens: seq<string>)
  {
    forall k :: 0 <= k < |tokens| && Trim(tokens[k]) != "" ==> Recognise(Trim(tokens[k])).Some?
  }

  lemma AllRecognisedSnoc(init: seq<string>, last: string)
    ensures AllRecognised(init + [last])
            <==> AllRecognised(init) && (Trim(last) != "" ==> Recognise(Trim(last)).Some?)
  {
    var ts := init + [last];
    if AllRecognised(ts) {
      forall k | 0 <= k < |init| && Trim(init[k]) != "" ensures Recognise(Trim(init[k])).Some? {
        assert ts[k] == init[k];
      }
      assert ts[|init|] == last;
    }
  }

  /** A weekday is in the parsed set exactly when some token trims to its
      abbreviation. */
  lemma {:induction false} RecognisedMembership(tokens: seq<string>, w: Weekday)
    ensures w in RecognisedDays(tokens)
            <==> exists k :: 0 <= k < |tokens| && Trim(tokens[k]) == Abbreviation(w)
    decreases |tokens|
  {
    if tokens != [] {
      var init := tokens[..|tokens| - 1];
      var last := tokens[|tokens| - 1];
      RecognisedMembership(init, w);
      RecogniseAbbreviation(Trim(last), w);
      if w in RecognisedDays(tokens) {
        if w in RecognisedDays(init) {
          var k :| 0 <= k < |init| && Trim(init[k]) == Abbreviation(w);
          assert tokens[k] == init[k];
        } else {
          assert Trim(tokens[|tokens| - 1]) == Abbreviation(w);
        }
      } else {
        forall k | 0 <= k < |tokens| ensures Trim(tokens[k]) != Abbreviation(w) {
          if k < |init| {
            assert tokens[k] == init[k];
          }
        }
      }
    }
  }

  /** Does some token trim to the weekday's abbreviation? */
  ghost predicate NamesDay(tokens: seq<string>, w: Weekday)
  {
    exists k :: 0 <= k < |tokens| && Trim(tokens[k]) == Abbreviation(w)
  }

  lemma RecognisedMembershipAll(tokens: seq<string>)
    ensures forall w :: w in RecognisedDays(tokens) <==> NamesDay(tokens, w)
  {
    forall w: Weekday
      ensures w in RecognisedDays(tokens) <==> exists k :: 0 <= k < |tokens| && Trim(tokens[k]) == Abbreviation(w)
    {
      RecognisedMembership(tokens, w);
    }
  }

  /** The working-day count and set of a string built from comma-free tokens
      are those of the tokens themselves. */
  lemma ParseJoined(tokens: seq<string>)
    requires |tokens| >= 1
    requires forall k :: 0 <= k < |tokens| ==> NoComma(tokens[k])
    ensures ParseWorkingDaysCount(Join(tokens)) == CountNonEmpty(tokens)
    ensures ParseWorkingDaysSet(Join(tokens)) == RecognisedDays(tokens)
  {
    SplitJoin(tokens);
  }

  /** is_working_day is false for every day when no weekday is configured. */
  lemma EmptyScheduleHasNoWorkingDay(day: int)
    ensures !IsWorkingDay(day, ParseWorkingDaysSet(""))
    ensures ParseWorkingDaysCount("") == 0
  {
    assert Split("") == [""];
    assert Trim("") == "";
  }

  lemma TrimPlain(t: string)
    requires |t| > 0 && !IsWhitespace(t[0]) && !IsWhitespace(t[|t| - 1])
    ensures Trim(t) == t
  {
    TrimStartFixed(t);
    TrimEndFixed(t);
  }

  /** A three-token configuration parses token by token. */
  lemma ParseThreeTokens(a: string, b: string, c: string)
    requires NoComma(a) && NoComma(b) && NoComma(c)
    ensures ParseWorkingDaysCount(a + "," + b + "," + c) == CountNonEmpty([a, b, c])
    ensures ParseWorkingDaysSet(a + "," + b + "," + c) == RecognisedDays([a, b, c])
  {
    var ts := [a, b, c];
    assert ts[1..] == [b, c] && ts[2..] == [c] && [b, c][1..] == [c];
    assert Join([c]) == c;
    assert Join([b, c]) == b + "," + c;
    assert Join(ts) == a + "," + (b + "," + c);
    assert a + "," + (b + "," + c) == a + "," + b + "," + c;
    ParseJoined(ts);
  }

  lemma UnrecognisedTokenList()
    ensures CountNonEmpty(["Mon", "InvalidDay", "Wed"]) == 3
    ensures RecognisedDays(["Mon", "InvalidDay", "Wed"]) == [Mon, Wed]
  {
    TrimPlain("Mon"); TrimPlain("InvalidDay"); TrimPlain("Wed");
    assert ["Mon", "InvalidDay", "Wed"][..2] == ["Mon", "InvalidDay"];
    assert ["Mon", "InvalidDay"][..1] == ["Mon"];
    assert ["Mon"][..0] == [];
    assert CountNonEmpty(["Mon"]) == 1;
    assert CountNonEmpty(["Mon", "InvalidDay"]) == 2;
    assert RecognisedDays(["Mon"]) == [Mon];
    assert Recognise("InvalidDay") == None;
    assert RecognisedDays(["Mon", "InvalidDay"]) == [Mon];
  }

  /** An unrecognised token still counts as a working day but is left out of
      the set of recognised weekdays. */
  lemma UnrecognisedTokenExample()
    ensures ParseWorkingDaysCount("Mon,InvalidDay,Wed") == 3
    ensures ParseWorkingDaysSet("Mon,InvalidDay,Wed") == [Mon, Wed]
  {
    assert "Mon,InvalidDay,Wed" == "Mon" + "," + "InvalidDay" + "," + "Wed";
    ParseThreeTokens("Mon", "InvalidDay", "Wed");
    UnrecognisedTokenList();
  }

  lemma TrimLeadingSpace(t: string)
    requires |t| > 0 && !IsWhitespace(t[0]) && !IsWhitespace(t[|t| - 1])
    ensures Trim(" " + t) == t
  {
    assert (" " + t)[1..] == t;
    TrimPlain(t);
  }

  lemma SpacedTokenList()
    ensures CountNonEmpty(["Mon", " Tue", " Wed"]) == 3
    ensures RecognisedDays(["Mon", " Tue", " Wed"]) == [Mon, Tue, Wed]
  {
    TrimPlain("Mon");
    TrimLeadingSpace("Tue");
    TrimLeadingSpace("Wed");
    assert ["Mon", " Tue", " Wed"][..2] == ["Mon", " Tue"];
    assert ["Mon", " Tue"][..1] == ["Mon"];
    assert ["Mon"][..0] == [];
    assert CountNonEmpty(["Mon"]) == 1;
    assert CountNonEmpty(["Mon", " Tue"]) == 2;
    assert RecognisedDays(["Mon"]) == [Mon];
    assert RecognisedDays(["Mon", " Tue"]) == [Mon, Tue];
  }

  /** White space around the tokens is ignored by both parsers. */
  lemma SpacedTokensExample()
    ensures ParseWorkingDaysCount("Mon, Tue, Wed") == 3
    ensures ParseWorkingDaysSet("Mon, Tue, Wed") == [Mon, Tue, Wed]
  {
    assert "Mon, Tue, Wed" == "Mon" + "," + " Tue" + "," + " Wed";
    ParseThreeTokens("Mon", " Tue", " Wed");
    SpacedTokenList();
  }

  /** Monday 2024-01-08 is a working day of a Monday-to-Friday schedule,
      Saturday 2024-01-06 is not, and is one of a weekend-only schedule. */
  lemma ScheduleExamples()
    ensures IsWorkingDay(DayNumber(2024, 1, 8), [Mon, Tue, Wed, Thu, Fri])
    ensures !IsWorkingDay(DayNumber(2024, 1, 6), [Mon, Tue, Wed, Thu, Fri])
    ensures IsWorkingDay(DayNumber(2024, 1, 6), [Sat, Sun])
    ensures !IsWorkingDay(DayNumber(2024, 1, 8), [])
  {
    assert DayNumber(2024, 1, 8) == 738893;
    assert WeekdayOf(738893) == Mon;
    assert WeekdayOf(738891) == Sat;
  }
}
