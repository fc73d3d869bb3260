/**
  Properties of the `-d` resolver that relate several calls or hold for whole
  families of arguments: the range test's priority, what unrecognised tokens
  do, which windows are ordered and which are not.
 */
module DateHandlingFacts {
  import opened Optional
  import opened DateTimes
  import opened Tokens
  import opened DateHandling

  /** The whole-day window of a single calendar day. */
  function DayWindow(day: int): Window {
    Window(DateTime(day, 0), DateTime(day, MicrosPerDay - 1))
  }

  /**
    A bare integer is a day count exactly when it does not exceed the range
    limit, negative ones included; above the limit it falls through to the
    date tests, whatever the position.
   */
  lemma BareIntegerRole(cfg: Config, idx: nat, n: int)
    ensures n <= cfg.rangeLimit ==> Classify(cfg, idx, ShowInt(n)) == Range(n)
    ensures n > cfg.rangeLimit ==> !Classify(cfg, idx, ShowInt(n)).Range?
    ensures n > cfg.rangeLimit && IsDate(cfg, ShowInt(n)) ==>
              Classify(cfg, idx, ShowInt(n)) == (if idx == 0 then From else To)
  {
    ParseShowInt(n);
  }

  /** A token that is neither a range nor a date leaves all three slots as they were. */
  lemma UnrecognisedStep(cfg: Config, s: Slots, idx: nat, tok: string)
    requires !IsRange(cfg, tok) && !IsDate(cfg, tok)
    ensures Assign(cfg, s, idx, tok) == s
  {
  }

  /**
    Inserting an unrecognised token anywhere after the first position changes
    no slot: the tokens after it shift right, but none of them is at
    position 0 before or after.
   */
  lemma {:induction false} InsertUnrecognised(cfg: Config, toks: seq<string>, k: nat, tok: string)
    requires 1 <= k <= |toks|
    requires !IsRange(cfg, tok) && !IsDate(cfg, tok)
    ensures Scan(cfg, toks[..k] + [tok] + toks[k..]) == Scan(cfg, toks)
    decreases |toks|
  {
    var longer := toks[..k] + [tok] + toks[k..];
    if k == |toks| {
      assert longer[..|toks|] == toks;
      assert Scan(cfg, longer) == Assign(cfg, Scan(cfg, toks), |toks|, tok);
    } else {
      var last := |toks| - 1;
      var prefix := toks[..last];
      InsertUnrecognised(cfg, prefix, k, tok);
      var shorter := prefix[..k] + [tok] + prefix[k..];
      assert longer[..|longer| - 1] == shorter;
      assert longer[|longer| - 1] == toks[last];
      assert Classify(cfg, last + 1, toks[last]) == Classify(cfg, last, toks[last]);
    }
  }

  /** A window that starts no later than it ends. */
  predicate Ordered(w: Window) {
    LessEq(w.from, w.to)
  }

  /**
    With at most one date given, the window is ordered exactly when the day
    count is not negative, and then it holds exactly the instants of the day
    count plus one whole calendar days starting on its first day.
   */
  lemma OrderedIffRangeNonNegative(cfg: Config, now: DateTime, arg: Option<string>)
    requires var s := GetDateArguments(cfg, arg); s.from.None? || s.to.None?
    ensures var s := GetDateArguments(cfg, arg);
            var w := DateHandler(cfg, now, arg);
            && (Ordered(w) <==> RangeDays(s) >= 0)
            && (forall x :: Contains(w, x) <==> w.from.day <= x.day <= w.from.day + RangeDays(s))
  {
  }

  /** No argument at all is today's window: midnight to 23:59:59.999999 of the day of `now`. */
  lemma NoArgumentIsToday(cfg: Config, now: DateTime)
    ensures GetDateArguments(cfg, None) == NoSlots
    ensures DateHandler(cfg, now, None) == DayWindow(now.day)
  {
  }

  /** An argument none of whose tokens is recognised resolves as if there were no argument. */
  lemma AllUnrecognisedIsToday(cfg: Config, now: DateTime, arg: string)
    requires forall i :: 0 <= i < |Split(arg)| ==>
               !IsRange(cfg, Split(arg)[i]) && !IsDate(cfg, Split(arg)[i])
    ensures GetDateArguments(cfg, Some(arg)) == NoSlots
    ensures DateHandler(cfg, now, Some(arg)) == DayWindow(now.day)
  {
    var toks := Split(arg);
    ScanLastWins(cfg, toks);
    assert forall i :: 0 <= i < |toks| ==> !IsRangeAt(cfg, toks, i);
    assert forall i :: 0 <= i < |toks| ==> !IsToAt(cfg, toks, i);
  }

  /** A lone date token with no range gives the single whole day of that date. */
  lemma LoneDate(cfg: Config, now: DateTime, tok: string)
    requires Sep !in tok && !IsRange(cfg, tok) && IsDate(cfg, tok)
    ensures GetDateArguments(cfg, Some(tok)) == Slots(Some(tok), None, None)
    ensures DateHandler(cfg, now, Some(tok)) == DayWindow(ParseDate(cfg, tok).value.day)
  {
    SplitColonFree(tok);
    ScanSingle(cfg, tok);
  }

  /** Splitting `a:b` of two colon-free tokens gives exactly those two tokens. */
  lemma SplitPair(a: string, b: string)
    requires Sep !in a && Sep !in b
    ensures Split(a + [Sep] + b) == [a, b]
  {
    SplitCons(a, b);
    SplitColonFree(b);
  }

  /** The slots of a one-token argument. */
  lemma ScanSingle(cfg: Config, a: string)
    ensures Scan(cfg, [a]) == Assign(cfg, NoSlots, 0, a)
  {
    assert [a][..0] == [];
    assert Scan(cfg, [a]) == Assign(cfg, Scan(cfg, []), 0, a);
  }

  /** The slots of a two-token argument. */
  lemma ScanPair(cfg: Config, a: string, b: string)
    ensures Scan(cfg, [a, b]) == Assign(cfg, Assign(cfg, NoSlots, 0, a), 1, b)
  {
    assert [a, b][..1] == [a];
    assert Scan(cfg, [a, b]) == Assign(cfg, Scan(cfg, [a]), 1, b);
    ScanSingle(cfg, a);
  }

  /**
    `from:to`: both dates are used as parsed and snapped, so the window is
    ordered exactly when the first date's day is not after the second's.
    Two dates in reverse order give a window that ends before it starts.
   */
  lemma TwoDates(cfg: Config, now: DateTime, a: string, b: string)
    requires Sep !in a && Sep !in b
    requires !IsRange(cfg, a) && IsDate(cfg, a)
    requires !IsRange(cfg, b) && IsDate(cfg, b)
    ensures var da, db := ParseDate(cfg, a).value, ParseDate(cfg, b).value;
            var w := DateHandler(cfg, now, Some(a + [Sep] + b));
            && w == Window(DateTime(da.day, 0), DateTime(db.day, MicrosPerDay - 1))
            && (Ordered(w) <==> da.day <= db.day)
  {
    SplitPair(a, b);
    ScanPair(cfg, a, b);
  }

  /** `from:n`: the window runs from the date's day through `n` days later. */
  lemma DateThenRange(cfg: Config, now: DateTime, a: string, n: int)
    requires Sep !in a && !IsRange(cfg, a) && IsDate(cfg, a)
    requires n <= cfg.rangeLimit
    ensures var d := ParseDate(cfg, a).value;
            DateHandler(cfg, now, Some(a + [Sep] + ShowInt(n)))
              == Window(DateTime(d.day, 0), DateTime(d.day + n, MicrosPerDay - 1))
  {
    ParseShowInt(n);
    SplitPair(a, ShowInt(n));
    ScanPair(cfg, a, ShowInt(n));
  }

  /**
    `n:to`: a range at position 0 pushes the following date into the upper
    slot, so the window runs from `n` days before that date through it.
   */
  lemma RangeThenDate(cfg: Config, now: DateTime, n: int, b: string)
    requires Sep !in b && !IsRange(cfg, b) && IsDate(cfg, b)
    requires n <= cfg.rangeLimit
    ensures var d := ParseDate(cfg, b).value;
            DateHandler(cfg, now, Some(ShowInt(n) + [Sep] + b))
              == Window(DateTime(d.day - n, 0), DateTime(d.day, MicrosPerDay - 1))
  {
    ParseShowInt(n);
    SplitPair(ShowInt(n), b);
    ScanPair(cfg, ShowInt(n), b);
  }

  /**
    A lone day count anchors to `now`; a negative one (accepted, since only
    the upper limit is checked) gives a window that ends before it starts.
   */
  lemma LoneRange(cfg: Config, now: DateTime, n: int)
    requires n <= cfg.rangeLimit
    ensures var w := DateHandler(cfg, now, Some(ShowInt(n)));
            && w == Window(DateTime(now.day - n, 0), DateTime(now.day, MicrosPerDay - 1))
            && (Ordered(w) <==> n >= 0)
  {
    ParseShowInt(n);
    SplitColonFree(ShowInt(n));
    ScanSingle(cfg, ShowInt(n));
  }

  /** A parser under which `a` is a later day than `b`. */
  function ExampleParser(tok: string, dayFirst: bool, yearFirst: bool): Option<DateTime> {
    if tok == "a" then Some(DateTime(1, 0))
    else if tok == "b" then Some(DateTime(0, 0))
    else None
  }

  /** An argument `a:b` with the later date first resolves to a window that ends before it starts. */
  lemma ReversedDatesExample(now: DateTime)
    ensures !Ordered(DateHandler(Config(false, true, 30, ExampleParser), now, Some("a:b")))
  {
    var cfg := Config(false, true, 30, ExampleParser);
    assert !IsDigit('a') && !IsDigit('b');
    assert ParseInt("a") == None && ParseInt("b") == None;
    assert "a" + [Sep] + "b" == "a:b";
    TwoDates(cfg, now, "a", "b");
  }
}
