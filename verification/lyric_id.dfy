/** The lyric id of a song row (`_get_lyric_id`): the integer value of the
    first maximal run of decimal digits in the `id` attribute of the row's
    lyrics anchor, as `int(re.findall("\d+", id)[0])` computes it. */
module LyricIds {
  import opened Wrappers

  /** What `\d` matches in a byte-string pattern: the ASCII digits. */
  predicate IsDigit(c: char) {
    '0' <= c <= '9'
  }

  predicate NoDigits(s: string) {
    forall i :: 0 <= i < |s| ==> !IsDigit(s[i])
  }

  predicate AllDigits(s: string) {
    forall i :: 0 <= i < |s| ==> IsDigit(s[i])
  }

  /** The longest prefix of `s` made of digits. */
  function DigitPrefix(s: string): (d: string)
    ensures |d| <= |s| && d == s[..|d|]
    ensures AllDigits(d)
    ensures |d| == |s| || !IsDigit(s[|d|])
  {
    if s == [] || !IsDigit(s[0]) then [] else [s[0]] + DigitPrefix(s[1..])
  }

  /** `re.findall("\d+", s)[0]`, or `None` where the list is empty. */
  function FirstDigitRun(s: string): Option<string>
  {
    if s == [] then None
    else if IsDigit(s[0]) then Some(DigitPrefix(s))
    else FirstDigitRun(s[1..])
  }

  function DigitValue(c: char): nat
    requires IsDigit(c)
  {
    c as int - '0' as int
  }

  /** `int(ds)` for a string of decimal digits; leading zeros are allowed. */
  function DecimalValue(ds: string): nat
    requires AllDigits(ds)
  {
    if ds == [] then 0
    else DecimalValue(ds[..|ds| - 1]) * 10 + DigitValue(ds[|ds| - 1])
  }

  /** `_get_lyric_id` on the anchor's `id` attribute. `None` stands for the
      `IndexError` that `nums[0]` raises when the attribute holds no digit. */
  function LyricId(id: string): (r: Option<nat>)
    ensures r.None? <==> NoDigits(id)
  {
    FirstDigitRunNone(id);
    match FirstDigitRun(id)
    case None => None
    case Some(ds) =>
      FirstDigitRunDigits(id);
      Some(DecimalValue(ds))
  }

  lemma {:induction false} FirstDigitRunNone(s: string)
    ensures FirstDigitRun(s).None? <==> NoDigits(s)
  {
    if s != [] && !IsDigit(s[0]) {
      FirstDigitRunNone(s[1..]);
      assert forall i :: 1 <= i < |s| ==> s[i] == s[1..][i - 1];
    }
  }

  lemma {:induction false} FirstDigitRunDigits(s: string)
    ensures FirstDigitRun(s).Some? ==> AllDigits(FirstDigitRun(s).value) && FirstDigitRun(s).value != []
  {
    if s != [] && !IsDigit(s[0]) {
      FirstDigitRunDigits(s[1..]);
    }
  }

  lemma {:induction false} DigitPrefixOf(ds: string, q: string)
    requires AllDigits(ds)
    requires q == [] || !IsDigit(q[0])
    ensures DigitPrefix(ds + q) == ds
  {
    if ds != [] {
      assert (ds + q)[1..] == ds[1..] + q;
      DigitPrefixOf(ds[1..], q);
    } else {
      assert ds + q == q;
    }
  }

  /** The id is the value of the first digit run, whatever precedes it (as
      long as it holds no digit) and whatever follows it (as long as it does
      not extend the run). */
  lemma {:induction false} LyricIdOfRun(p: string, ds: string, q: string)
    requires NoDigits(p)
    requires ds != [] && AllDigits(ds)
    requires q == [] || !IsDigit(q[0])
    ensures LyricId(p + ds + q) == Some(DecimalValue(ds))
    decreases |p|
  {
    if p == [] {
      assert p + ds + q == ds + q;
      DigitPrefixOf(ds, q);
    } else {
      assert (p + ds + q)[1..] == p[1..] + ds + q;
      assert (p + ds + q)[0] == p[0];
      LyricIdOfRun(p[1..], ds, q);
    }
  }

  /** `str(n)`: the shortest decimal numeral of `n`. */
  function Decimal(n: nat): (ds: string)
    ensures ds != [] && AllDigits(ds)
    ensures |ds| > 1 ==> ds[0] != '0'
  {
    var d := ['0' + (n % 10) as char];
    if n < 10 then d else Decimal(n / 10) + d
  }

  /** Reading a numeral back gives the number: `int(str(n)) == n`. */
  lemma {:induction false} DecimalRoundTrip(n: nat)
    ensures DecimalValue(Decimal(n)) == n
  {
    if n >= 10 {
      DecimalRoundTrip(n / 10);
      var ds := Decimal(n);
      assert ds[..|ds| - 1] == Decimal(n / 10);
    }
  }

  /** A lyric id written into an anchor id after a digit-free prefix is read
      back exactly. */
  lemma {:induction false} LyricIdRoundTrip(p: string, n: nat, q: string)
    requires NoDigits(p)
    requires q == [] || !IsDigit(q[0])
    ensures LyricId(p + Decimal(n) + q) == Some(n)
  {
    LyricIdOfRun(p, Decimal(n), q);
    DecimalRoundTrip(n);
  }
}
