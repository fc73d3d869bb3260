/**
  The two string operations the resolver applies to the raw `-d` argument:
  Python's `str.split(':')` and Python's `int(...)` on a token.
 */
module Tokens {
  import opened Optional
  import opened Arith

  const Sep: char := ':'

  /** `s.split(':')`: the maximal colon-free pieces of `s`, in order, empty ones included. */
  function Split(s: string): (r: seq<string>)
    ensures |r| >= 1
    ensures forall i :: 0 <= i < |r| ==> Sep !in r[i]
    decreases |s|
  {
    if |s| == 0 then [""]
    else
      var rest := Split(s[1..]);
      if s[0] == Sep then [""] + rest
      else [[s[0]] + rest[0]] + rest[1..]
  }

  /** `':'.join(toks)`. */
  function Join(toks: seq<string>): (s: string)
    requires |toks| >= 1
    decreases |toks|
  {
    if |toks| == 1 then toks[0] else toks[0] + [Sep] + Join(toks[1..])
  }

  /** Splitting loses nothing: joining the pieces back with ':' restores the argument. */
  lemma {:induction false} JoinSplit(s: string)
    ensures Join(Split(s)) == s
    decreases |s|
  {
    if |s| > 0 {
      var rest := Split(s[1..]);
      JoinSplit(s[1..]);
      if s[0] == Sep {
        assert Split(s)[1..] == rest;
      } else {
        var r := Split(s);
        assert r[1..] == rest[1..];
        if |rest| == 1 {
          assert Join(r) == [s[0]] + rest[0];
        } else {
          assert Join(r) == [s[0]] + rest[0] + [Sep] + Join(rest[1..]);
        }
      }
      assert s == [s[0]] + s[1..];
    }
  }

  /** A colon-free string is a single token. */
  lemma {:induction false} SplitColonFree(s: string)
    requires Sep !in s
    ensures Split(s) == [s]
    decreases |s|
  {
    if |s| > 0 {
      assert Sep !in s[1..];
      SplitColonFree(s[1..]);
      assert s == [s[0]] + s[1..];
    }
  }

  /** Splitting `a:rest` gives `a` followed by the pieces of `rest`. */
  lemma {:induction false} SplitCons(a: string, rest: string)
    requires Sep !in a
    ensures Split(a + [Sep] + rest) == [a] + Split(rest)
    decreases |a|
  {
    if |a| == 0 {
      assert a + [Sep] + rest == [Sep] + rest;
      assert ([Sep] + rest)[1..] == rest;
    } else {
      var s := a + [Sep] + rest;
      assert s[0] == a[0] && s[1..] == a[1..] + [Sep] + rest;
      assert Sep !in a[1..];
      SplitCons(a[1..], rest);
      assert [a[0]] + a[1..] == a;
    }
  }

  /** Joining colon-free tokens and splitting again gives back the tokens. */
  lemma {:induction false} SplitJoin(toks: seq<string>)
    requires |toks| >= 1
    requires forall i :: 0 <= i < |toks| ==> Sep !in toks[i]
    ensures Split(Join(toks)) == toks
    decreases |toks|
  {
    if |toks| == 1 {
      SplitColonFree(toks[0]);
    } else {
      SplitJoin(toks[1..]);
      SplitCons(toks[0], Join(toks[1..]));
      assert [toks[0]] + toks[1..] == toks;
    }
  }

  predicate IsDigit(c: char) {
    '0' <= c <= '9'
  }

  function DigitValue(c: char): (d: nat)
    requires IsDigit(c)
    ensures d < 10
  {
    c as int - '0' as int
  }

  function DigitChar(d: nat): (c: char)
    requires d < 10
    ensures IsDigit(c) && DigitValue(c) == d
  {
    ('0' as int + d) as char
  }

  predicate AllDigits(s: string) {
    forall i :: 0 <= i < |s| ==> IsDigit(s[i])
  }

  /** The value of a run of decimal digits, most significant first. */
  function DigitsValue(s: string): nat
    requires AllDigits(s)
    decreases |s|
  {
    if |s| == 0 then 0 else DigitsValue(s[..|s| - 1]) * 10 + DigitValue(s[|s| - 1])
  }

  /**
    `int(token)`: an optional sign followed by at least one decimal digit;
    anything else is the `ValueError` branch, `None` here.
   */
  function ParseInt(s: string): (r: Option<int>)
    ensures r.Some? ==> |s| > 0 && Sep !in s
  {
    if |s| > 0 && (s[0] == '-' || s[0] == '+') then
      var body := s[1..];
      if |body| > 0 && AllDigits(body) then
        var v: int := DigitsValue(body);
        Some(if s[0] == '-' then -v else v)
      else None
    else if |s| > 0 && AllDigits(s) then Some(DigitsValue(s))
    else None
  }

  /** Decimal rendering of a natural number, `str(n)`. */
  function ShowNat(n: nat): (s: string)
    ensures |s| > 0 && AllDigits(s)
    decreases n
  {
    if n < 10 then [DigitChar(n)] else ShowNat(n / 10) + [DigitChar(n % 10)]
  }

  /** Decimal rendering of an integer, `str(n)`. */
  function ShowInt(n: int): (s: string)
    ensures |s| > 0
  {
    if n < 0 then "-" + ShowNat(-n) else ShowNat(n)
  }

  lemma {:induction false} ShowNatValue(n: nat)
    ensures DigitsValue(ShowNat(n)) == n
    decreases n
  {
    if n >= 10 {
      var s := ShowNat(n);
      ShowNatValue(n / 10);
      assert s[..|s| - 1] == ShowNat(n / 10);
    }
  }

  /** Reading back a rendered integer gives the integer. */
  lemma ParseShowInt(n: int)
    ensures ParseInt(ShowInt(n)) == Some(n)
  {
    if n < 0 {
      ShowNatValue(-n);
      assert ShowInt(n)[1..] == ShowNat(-n);
    } else {
      ShowNatValue(n);
    }
  }

  /** A run of `k` zero digits. */
  function Zeros(k: nat): (z: string)
    ensures |z| == k && AllDigits(z)
    ensures forall i :: 0 <= i < k ==> z[i] == '0'
  {
    seq(k, i => '0')
  }

  lemma DigitCharValue(c: char)
    requires IsDigit(c)
    ensures DigitChar(DigitValue(c)) == c
  {
  }

  /** Leading zeros do not change the value of a run of digits. */
  lemma {:induction false} DigitsValueZeros(k: nat, t: string)
    requires AllDigits(t)
    ensures AllDigits(Zeros(k) + t)
    ensures DigitsValue(Zeros(k) + t) == DigitsValue(t)
    decreases |t|, k
  {
    var s := Zeros(k) + t;
    if |t| == 0 {
      assert s == Zeros(k);
      if k > 0 {
        assert s[..|s| - 1] == Zeros(k - 1) + t;
        DigitsValueZeros(k - 1, t);
      }
    } else {
      var t' := t[..|t| - 1];
      assert s[..|s| - 1] == Zeros(k) + t';
      DigitsValueZeros(k, t');
    }
  }

  /** Every non-empty run of digits is some leading zeros followed by the rendering of its value. */
  lemma {:induction false} DigitsCanonical(s: string)
    requires |s| > 0 && AllDigits(s)
    ensures exists k: nat :: s == Zeros(k) + ShowNat(DigitsValue(s))
    decreases |s|
  {
    var t := s[..|s| - 1];
    var c := s[|s| - 1];
    var d := DigitValue(c);
    DigitCharValue(c);
    if |t| == 0 {
      assert s == [c];
      assert DigitsValue(s) == d;
      assert s == Zeros(0) + ShowNat(d);
    } else {
      DigitsCanonical(t);
      var v := DigitsValue(t);
      var k: nat :| t == Zeros(k) + ShowNat(v);
      assert s == t + [c];
      if v == 0 {
        assert t == Zeros(k + 1);
        assert s == Zeros(k + 1) + ShowNat(d);
      } else {
        DivMod(v, d, 10);
        assert ShowNat(v * 10 + d) == ShowNat(v) + [DigitChar(d)];
        assert s == Zeros(k) + ShowNat(v * 10 + d);
      }
    }
  }

  /** The magnitude of an integer. */
  function Abs(n: int): nat {
    if n < 0 then -n else n
  }

  /**
    What `int()` accepts and reads: an optional sign, then leading zeros, then
    the decimal rendering of the value's magnitude; a `-` sign reads a value
    no greater than zero, no sign or `+` one no less than zero.
   */
  lemma ParseIntAccepts(s: string, n: int)
    requires ParseInt(s) == Some(n)
    ensures |s| > 0
    ensures var body := if s[0] == '-' || s[0] == '+' then s[1..] else s;
            exists k: nat :: body == Zeros(k) + ShowNat(Abs(n))
    ensures s[0] == '-' ==> n <= 0
    ensures s[0] != '-' ==> n >= 0
  {
    var body := if s[0] == '-' || s[0] == '+' then s[1..] else s;
    DigitsCanonical(body);
  }

  /** Conversely, every such spelling is accepted and read as its value: `+5`, `007` and `-0` included. */
  lemma ParseIntSpelled(sign: string, k: nat, m: nat)
    requires sign == "" || sign == "+" || sign == "-"
    ensures ParseInt(sign + Zeros(k) + ShowNat(m)) == Some(if sign == "-" then -(m as int) else m)
  {
    ShowNatValue(m);
    DigitsValueZeros(k, ShowNat(m));
    var s := sign + Zeros(k) + ShowNat(m);
    if sign != "" {
      assert s[1..] == Zeros(k) + ShowNat(m);
    } else {
      assert s == Zeros(k) + ShowNat(m);
      assert s[0] == '0' || s[0] == ShowNat(m)[0];
    }
  }
}
