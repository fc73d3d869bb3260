/**
  The `-d` date-range resolver: a `:`-separated argument such as
  `2022/01/01:2022/01/05`, `2022/01/01:3` or `5` becomes an inclusive
  `(date_from, date_to)` pair of whole days.

  The fuzzy date parser, the configured flags and the current time are
  inputs: the parser is a field of `Config` and is always handed the
  configured day-first and year-first flags.
 */
module DateHandling {
  import opened Optional
  import opened DateTimes
  import opened Tokens

  /** The fuzzy date parser: token, day-first flag, year-first flag; `None` is its `ValueError`. */
  type Parser = (string, bool, bool) -> Option<DateTime>

  /** The process-wide settings the resolver reads. */
  datatype Config = Config(dayFirst: bool, yearFirst: bool, rangeLimit: int, parser: Parser)

  /** `parse_date`: the parser under the configured locale flags. */
  function ParseDate(cfg: Config, tok: string): Option<DateTime> {
    cfg.parser(tok, cfg.dayFirst, cfg.yearFirst)
  }

  /** `is_date_type(tok, 'range')`: an integer no greater than the range limit. */
  predicate IsRange(cfg: Config, tok: string) {
    match ParseInt(tok)
    case Some(n) => n <= cfg.rangeLimit
    case None => false
  }

  /** `is_date_type(tok, 'date')`: the parser accepts the token. */
  predicate IsDate(cfg: Config, tok: string) {
    ParseDate(cfg, tok).Some?
  }

  /** What a token at a given position contributes. */
  datatype Role = Range(days: int) | From | To | Unrecognized

  /**
    The ordered rule table applied to each token: the range test first, then
    a date at position 0 is the lower bound, then any other date is the upper
    bound, else the token is reported and skipped.
   */
  function Classify(cfg: Config, idx: nat, tok: string): (role: Role)
    ensures role.Range? <==> IsRange(cfg, tok)
    ensures role.Range? ==> ParseInt(tok) == Some(role.days) && role.days <= cfg.rangeLimit
    ensures role.From? <==> idx == 0 && !IsRange(cfg, tok) && IsDate(cfg, tok)
    ensures role.To? <==> idx > 0 && !IsRange(cfg, tok) && IsDate(cfg, tok)
    ensures role.Unrecognized? <==> !IsRange(cfg, tok) && !IsDate(cfg, tok)
  {
    if IsRange(cfg, tok) then Range(ParseInt(tok).value)
    else if idx == 0 && IsDate(cfg, tok) then From
    else if IsDate(cfg, tok) then To
    else Unrecognized
  }

  /** The three slots `get_date_arguments` fills: the two date tokens (unparsed) and the day count. */
  datatype Slots = Slots(from: Option<string>, to: Option<string>, range: Option<int>)

  const NoSlots: Slots := Slots(None, None, None)

  /** Every date token kept in a slot is one the parser accepts. */
  predicate Recognised(cfg: Config, s: Slots) {
    && (s.from.Some? ==> IsDate(cfg, s.from.value))
    && (s.to.Some? ==> IsDate(cfg, s.to.value))
  }

  /** The day count the defaulting table uses: 0 when no range token was given. */
  function RangeDays(s: Slots): int {
    s.range.GetOr(0)
  }

  /** One iteration of the token loop: the token's role overwrites its slot. */
  function Assign(cfg: Config, s: Slots, idx: nat, tok: string): Slots {
    match Classify(cfg, idx, tok)
    case Range(n) => s.(range := Some(n))
    case From => s.(from := Some(tok))
    case To => s.(to := Some(tok))
    case Unrecognized => s
  }

  predicate IsRangeAt(cfg: Config, toks: seq<string>, i: int) {
    0 <= i < |toks| && IsRange(cfg, toks[i])
  }

  /** Position `i` holds the last range token. */
  predicate LastRangeAt(cfg: Config, toks: seq<string>, i: int) {
    IsRangeAt(cfg, toks, i) && forall j :: i < j < |toks| ==> !IsRangeAt(cfg, toks, j)
  }

  /** Position `i` holds a token that goes to the upper-bound slot. */
  predicate IsToAt(cfg: Config, toks: seq<string>, i: int) {
    0 < i < |toks| && !IsRange(cfg, toks[i]) && IsDate(cfg, toks[i])
  }

  /** Position `i` holds the last upper-bound token. */
  predicate LastToAt(cfg: Config, toks: seq<string>, i: int) {
    IsToAt(cfg, toks, i) && forall j :: i < j < |toks| ==> !IsToAt(cfg, toks, j)
  }

  /** The lower-bound slot: the first token, when it is a date and not a range. */
  function FirstFrom(cfg: Config, toks: seq<string>): Option<string> {
    if |toks| > 0 && !IsRange(cfg, toks[0]) && IsDate(cfg, toks[0]) then Some(toks[0]) else None
  }

  /**
    The token loop of `get_date_arguments`, left to right: every kept date
    token is one the parser accepts, and the lower bound can only come from
    position 0.
   */
  function Scan(cfg: Config, toks: seq<string>): (r: Slots)
    ensures Recognised(cfg, r)
    ensures r.from == FirstFrom(cfg, toks)
    decreases |toks|
  {
    if |toks| == 0 then NoSlots
    else
      var k := |toks| - 1;
      assert k > 0 ==> FirstFrom(cfg, toks[..k]) == FirstFrom(cfg, toks);
      Assign(cfg, Scan(cfg, toks[..k]), k, toks[k])
  }

  /**
    Each slot ends up holding its last qualifying token: the range slot the
    last range token, the upper bound the last date token after position 0.
   */
  lemma {:induction false} ScanLastWins(cfg: Config, toks: seq<string>)
    ensures Scan(cfg, toks).range.None? <==> forall i :: 0 <= i < |toks| ==> !IsRangeAt(cfg, toks, i)
    ensures Scan(cfg, toks).range.Some? ==>
              exists i :: LastRangeAt(cfg, toks, i) && ParseInt(toks[i]) == Scan(cfg, toks).range
    ensures Scan(cfg, toks).to.None? <==> forall i :: 0 <= i < |toks| ==> !IsToAt(cfg, toks, i)
    ensures Scan(cfg, toks).to.Some? ==>
              exists i :: LastToAt(cfg, toks, i) && Scan(cfg, toks).to == Some(toks[i])
    decreases |toks|
  {
    if |toks| > 0 {
      var k := |toks| - 1;
      var prefix := toks[..k];
      var prev := Scan(cfg, prefix);
      var r := Scan(cfg, toks);
      ScanLastWins(cfg, prefix);
      assert r == Assign(cfg, prev, k, toks[k]);
      assert forall i :: 0 <= i < k ==> (IsRangeAt(cfg, prefix, i) <==> IsRangeAt(cfg, toks, i));
      assert forall i :: 0 <= i < k ==> (IsToAt(cfg, prefix, i) <==> IsToAt(cfg, toks, i));
      if IsRange(cfg, toks[k]) {
        assert LastRangeAt(cfg, toks, k);
      } else {
        assert r.range == prev.range;
        if prev.range.Some? {
          var i :| LastRangeAt(cfg, prefix, i) && ParseInt(prefix[i]) == prev.range;
          assert LastRangeAt(cfg, toks, i);
        }
      }
      if IsToAt(cfg, toks, k) {
        assert LastToAt(cfg, toks, k);
      } else {
        assert r.to == prev.to;
        if prev.to.Some? {
          var i :| LastToAt(cfg, prefix, i) && prev.to == Some(prefix[i]);
          assert LastToAt(cfg, toks, i);
        }
      }
    }
  }

  /** `get_date_arguments`: no argument leaves every slot empty. */
  function GetDateArguments(cfg: Config, arg: Option<string>): (r: Slots)
    ensures arg.None? ==> r == NoSlots
    ensures Recognised(cfg, r)
    ensures arg.Some? ==> r.from.Some? ==> Split(arg.value)[0] == r.from.value
  {
    match arg
    case None => NoSlots
    case Some(s) => Scan(cfg, Split(s))
  }

  /** A resolved `(date_from, date_to)` pair. */
  datatype Window = Window(from: DateTime, to: DateTime)

  /**
    The defaulting table of `date_handler`: a given date is used as parsed;
    with both given the range is ignored; with one given the other lies the
    range's number of days away from it; with none the upper side is `now`.
   */
  function Defaults(cfg: Config, now: DateTime, s: Slots): (w: Window)
    requires Recognised(cfg, s)
    ensures s.from.Some? ==> ParseDate(cfg, s.from.value) == Some(w.from)
    ensures s.to.Some? ==> ParseDate(cfg, s.to.value) == Some(w.to)
    ensures s.from.None? && s.to.None? ==> w.to == now
    ensures s.from.None? || s.to.None? ==>
              w.to.day - w.from.day == RangeDays(s) && w.from.time == w.to.time
  {
    var days := RangeDays(s);
    if s.from.Some? && s.to.Some? then
      Window(ParseDate(cfg, s.from.value).value, ParseDate(cfg, s.to.value).value)
    else if s.from.Some? then
      var from := ParseDate(cfg, s.from.value).value;
      Window(from, AddDays(from, days))
    else if s.to.Some? then
      var to := ParseDate(cfg, s.to.value).value;
      Window(AddDays(to, -days), to)
    else
      Window(AddDays(now, -days), now)
  }

  /** The window includes the instant `x`, both ends inclusive. */
  predicate Contains(w: Window, x: DateTime) {
    LessEq(w.from, x) && LessEq(x, w.to)
  }

  /** Widens a window to 00:00:00.000000 of its first day and 23:59:59.999999 of its last. */
  function Snap(w: Window): (r: Window)
    ensures r.from.day == w.from.day && r.to.day == w.to.day
    ensures r.from.time == 0 && r.to.time == MicrosPerDay - 1
    ensures forall x :: Contains(r, x) <==> w.from.day <= x.day <= w.to.day
  {
    Window(DateTime(w.from.day, 0), DateTime(w.to.day, MicrosPerDay - 1))
  }

  /** The snap is exactly the two `replace` calls: midnight on the lower side, 23:59:59.999999 on the upper. */
  lemma SnapIsReplace(w: Window)
    ensures Snap(w) == Window(Replace(w.from, StartOfDay), Replace(w.to, EndOfDay))
  {
    StartOfDayBound(w.from);
    EndOfDayBound(w.to);
  }

  /** `date_handler`: slots, then defaults, then the day-boundary snap. */
  function DateHandler(cfg: Config, now: DateTime, arg: Option<string>): (r: Window)
    ensures r.from.time == 0 && r.to.time == MicrosPerDay - 1
    ensures var s := GetDateArguments(cfg, arg);
            s.from.None? || s.to.None? ==> r.to.day - r.from.day == RangeDays(s)
  {
    Snap(Defaults(cfg, now, GetDateArguments(cfg, arg)))
  }
}
