/** Backup timestamps: `strftime("%Y%m%d%H%M%S")` when a backup is written,
    `strptime(stamp, "%Y%m%d%H%M%S")` and `strftime("%Y-%m-%d %H:%M:%S")` when the
    catalog is displayed. */
module Stamps {
  import opened PyValues
  import opened Order

  /** A calendar date and time of day, as `datetime` holds it (microseconds dropped). */
  datatype Moment = Moment(year: int, month: int, day: int, hour: int, minute: int, second: int)

  predicate IsLeapYear(y: int) {
    y % 4 == 0 && (y % 100 != 0 || y % 400 == 0)
  }

  function DaysInMonth(y: int, m: int): int
    requires 1 <= m <= 12
  {
    if m == 2 then (if IsLeapYear(y) then 29 else 28)
    else if m == 4 || m == 6 || m == 9 || m == 11 then 30
    else 31
  }

  /** The moments a `datetime` can hold. */
  predicate Valid(t: Moment) {
    && 1 <= t.year <= 9999
    && 1 <= t.month <= 12
    && 1 <= t.day <= DaysInMonth(t.year, t.month)
    && 0 <= t.hour < 24
    && 0 <= t.minute < 60
    && 0 <= t.second < 60
  }

  /** What `datetime.now()` can return here: a valid moment with a four-digit year. */
  type Reading = t: Moment | Valid(t) && 1000 <= t.year witness Moment(2000, 1, 1, 0, 0, 0)

  /** Chronological order: `a` is not later than `b`. */
  predicate NotLater(a: Moment, b: Moment) {
    if a.year != b.year then a.year < b.year
    else if a.month != b.month then a.month < b.month
    else if a.day != b.day then a.day < b.day
    else if a.hour != b.hour then a.hour < b.hour
    else if a.minute != b.minute then a.minute < b.minute
    else a.second <= b.second
  }

  // ---------------------------------------------------------------- fixed-width fields

  function Pow10(n: nat): (p: nat)
    ensures p >= 1
  {
    if n == 0 then 1 else 10 * Pow10(n - 1)
  }

  /** `n` written with exactly `width` digits, zero-padded on the left (`%02d`, `%04d`). */
  function Pad(n: nat, width: nat): (s: string)
    ensures |s| == width && AllDigits(s)
  {
    if width == 0 then [] else Pad(n / 10, width - 1) + [DigitChar(n % 10)]
  }

  /** The number a string of digits denotes. */
  function ReadDecimal(s: string): nat
    requires AllDigits(s)
  {
    if s == [] then 0 else ReadDecimal(s[..|s| - 1]) * 10 + DigitValue(s[|s| - 1])
  }

  lemma {:induction false} ReadPad(n: nat, width: nat)
    requires n < Pow10(width)
    ensures ReadDecimal(Pad(n, width)) == n
    decreases width
  {
    if width > 0 {
      var s := Pad(n, width);
      assert s[..|s| - 1] == Pad(n / 10, width - 1);
      ReadPad(n / 10, width - 1);
    }
  }

  lemma {:induction false} PadRead(s: string)
    requires AllDigits(s)
    ensures ReadDecimal(s) < Pow10(|s|)
    ensures Pad(ReadDecimal(s), |s|) == s
    decreases |s|
  {
    if s != [] {
      var init, last := s[..|s| - 1], s[|s| - 1];
      assert AllDigits(init);
      PadRead(init);
      var r, d := ReadDecimal(init), DigitValue(last);
      var n := ReadDecimal(s);
      assert n == r * 10 + d;
      LastDigit(r, d, Pow10(|init|));
      assert Pad(n, |s|) == Pad(r, |init|) + [DigitChar(d)];
      assert s == init + [last];
    }
  }

  /** Appending digit `d` to the number `r`: dividing by ten gives `r` back, the
      remainder is `d`, and one more digit of room is needed. */
  lemma LastDigit(r: nat, d: nat, bound: nat)
    requires d < 10 && r < bound
    ensures (r * 10 + d) / 10 == r && (r * 10 + d) % 10 == d
    ensures r * 10 + d < 10 * bound
  {
  }

  /** Fixed-width fields compare as strings the way their numbers compare. */
  lemma {:induction false} PadOrder(a: nat, b: nat, width: nat)
    requires a < Pow10(width) && b < Pow10(width)
    ensures Pad(a, width) == Pad(b, width) <==> a == b
    ensures LexLe(Pad(a, width), Pad(b, width)) <==> a <= b
    decreases width
  {
    ReadPad(a, width);
    ReadPad(b, width);
    if width > 0 {
      var pa, pb := Pad(a / 10, width - 1), Pad(b / 10, width - 1);
      var da, db := DigitChar(a % 10), DigitChar(b % 10);
      assert a / 10 < Pow10(width - 1) && b / 10 < Pow10(width - 1);
      PadOrder(a / 10, b / 10, width - 1);
      LexLeBlocks(pa, [da], pb, [db]);
      assert LexLe([da], [db]) <==> a % 10 <= b % 10;
      SplitOrder(a, b);
    }
  }

  /** Numbers compare by everything but their last digit first, then by that digit. */
  lemma SplitOrder(a: nat, b: nat)
    ensures a <= b <==> a / 10 < b / 10 || (a / 10 == b / 10 && a % 10 <= b % 10)
  {
  }

  // ---------------------------------------------------------------- the three formats

  /** `t.strftime("%Y%m%d%H%M%S")`. */
  function Format14(t: Moment): (s: string)
    requires Valid(t)
    ensures |s| == 14 && AllDigits(s)
  {
    Pad(t.year, 4) + (Pad(t.month, 2) + (Pad(t.day, 2) + (Pad(t.hour, 2) + (Pad(t.minute, 2) + Pad(t.second, 2)))))
  }

  /** `datetime.strptime(s, "%Y%m%d%H%M%S")` for fixed-width stamps: `None` where it raises. */
  function Parse14(s: string): (r: Option<Moment>)
    ensures r.Some? ==> Valid(r.value) && |s| == 14
  {
    if |s| == 14 && AllDigits(s) then
      var t := Moment(ReadDecimal(s[..4]), ReadDecimal(s[4..6]), ReadDecimal(s[6..8]),
                      ReadDecimal(s[8..10]), ReadDecimal(s[10..12]), ReadDecimal(s[12..]));
      if Valid(t) then Some(t) else None
    else None
  }

  /** `t.strftime("%Y-%m-%d %H:%M:%S")`. */
  function DisplayForm(t: Moment): (s: string)
    requires Valid(t)
    ensures |s| == 19
  {
    Pad(t.year, 4) + "-" + Pad(t.month, 2) + "-" + Pad(t.day, 2) + " "
    + Pad(t.hour, 2) + ":" + Pad(t.minute, 2) + ":" + Pad(t.second, 2)
  }

  /** A written stamp parses back to the moment it was written from. */
  lemma ParseFormat(t: Moment)
    requires Valid(t)
    ensures Parse14(Format14(t)) == Some(t)
  {
    var s := Format14(t);
    var y, mo, d, h, mi, se := Pad(t.year, 4), Pad(t.month, 2), Pad(t.day, 2), Pad(t.hour, 2), Pad(t.minute, 2), Pad(t.second, 2);
    assert s == y + (mo + (d + (h + (mi + se))));
    assert s[..4] == y;
    assert s[4..6] == mo;
    assert s[6..8] == d;
    assert s[8..10] == h;
    assert s[10..12] == mi;
    assert s[12..] == se;
    ReadPad(t.year, 4);
    ReadPad(t.month, 2);
    ReadPad(t.day, 2);
    ReadPad(t.hour, 2);
    ReadPad(t.minute, 2);
    ReadPad(t.second, 2);
    assert Moment(ReadDecimal(s[..4]), ReadDecimal(s[4..6]), ReadDecimal(s[6..8]),
                  ReadDecimal(s[8..10]), ReadDecimal(s[10..12]), ReadDecimal(s[12..])) == t;
  }

  /** A stamp that parses is exactly the written form of what it parses to. */
  lemma FormatParse(s: string)
    requires Parse14(s).Some?
    ensures Format14(Parse14(s).value) == s
  {
    assert |s| == 14 && AllDigits(s);
    var y, mo, d, h, mi, se := s[..4], s[4..6], s[6..8], s[8..10], s[10..12], s[12..];
    assert AllDigits(y) && AllDigits(mo) && AllDigits(d);
    assert AllDigits(h) && AllDigits(mi) && AllDigits(se);
    var t := Parse14(s).value;
    assert t == Moment(ReadDecimal(y), ReadDecimal(mo), ReadDecimal(d), ReadDecimal(h), ReadDecimal(mi), ReadDecimal(se));
    PadRead(y);
    PadRead(mo);
    PadRead(d);
    PadRead(h);
    PadRead(mi);
    PadRead(se);
    assert Pad(t.year, 4) == y && Pad(t.month, 2) == mo && Pad(t.day, 2) == d;
    assert Pad(t.hour, 2) == h && Pad(t.minute, 2) == mi && Pad(t.second, 2) == se;
    Join14(s);
  }

  /** A 14-character stamp is the concatenation of its six fields. */
  lemma Join14(s: string)
    requires |s| == 14
    ensures s == s[..4] + (s[4..6] + (s[6..8] + (s[8..10] + (s[10..12] + s[12..]))))
  {
    assert s[10..] == s[10..12] + s[12..];
    assert s[8..] == s[8..10] + s[10..];
    assert s[6..] == s[6..8] + s[8..];
    assert s[4..] == s[4..6] + s[6..];
    assert s == s[..4] + s[4..];
  }

  /** Written stamps sort as strings in chronological order, so the descending
      catalog lists the newest backup first. */
  lemma FormatOrder(a: Moment, b: Moment)
    requires Valid(a) && Valid(b)
    ensures LexLe(Format14(a), Format14(b)) <==> NotLater(a, b)
  {
    PadOrder(a.year, b.year, 4);
    PadOrder(a.month, b.month, 2);
    PadOrder(a.day, b.day, 2);
    PadOrder(a.hour, b.hour, 2);
    PadOrder(a.minute, b.minute, 2);
    PadOrder(a.second, b.second, 2);
    LexLeBlocks(Pad(a.minute, 2), Pad(a.second, 2), Pad(b.minute, 2), Pad(b.second, 2));
    var ma, mb := Pad(a.minute, 2) + Pad(a.second, 2), Pad(b.minute, 2) + Pad(b.second, 2);
    LexLeBlocks(Pad(a.hour, 2), ma, Pad(b.hour, 2), mb);
    var ha, hb := Pad(a.hour, 2) + ma, Pad(b.hour, 2) + mb;
    LexLeBlocks(Pad(a.day, 2), ha, Pad(b.day, 2), hb);
    var da, db := Pad(a.day, 2) + ha, Pad(b.day, 2) + hb;
    LexLeBlocks(Pad(a.month, 2), da, Pad(b.month, 2), db);
    var oa, ob := Pad(a.month, 2) + da, Pad(b.month, 2) + db;
    LexLeBlocks(Pad(a.year, 4), oa, Pad(b.year, 4), ob);
  }
}
