/** The "last activity" label of a forum topic card
    (`formatLastActivity` in components/forum-topic-card.tsx): the time
    between now and the activity, in whole units, in the first unit whose
    range it falls in. Both instants are milliseconds since the epoch. */
module RelativeTime {
  import opened Text

  datatype Unit = Minute | Hour | Day | Week | Month | Year

  /** "Just now", or a whole number of some unit. */
  datatype Elapsed = JustNow | Ago(count: nat, unit: Unit)

  function Distance(now: int, activity: int): nat {
    if now >= activity then now - activity else activity - now
  }

  const MINUTE_MS: nat := 60 * 1000
  const HOUR_MS: nat := 60 * MINUTE_MS
  const DAY_MS: nat := 24 * HOUR_MS

  /** The ordered chain of returns over floored seconds, minutes, hours and
      days: each unit owns one range of distances, and the count is the
      distance in that unit rounded down (weeks, months and years are 7,
      30 and 365 whole days). */
  function Bucket(now: int, activity: int): (e: Elapsed)
    ensures var d := Distance(now, activity);
      && (e.JustNow? <==> d < MINUTE_MS)
      && (e == Ago(d / MINUTE_MS, Minute) <==> MINUTE_MS <= d < HOUR_MS)
      && (e == Ago(d / HOUR_MS, Hour) <==> HOUR_MS <= d < DAY_MS)
      && (e == Ago(d / DAY_MS, Day) <==> DAY_MS <= d < 7 * DAY_MS)
      && (e == Ago(d / DAY_MS / 7, Week) <==> 7 * DAY_MS <= d < 30 * DAY_MS)
      && (e == Ago(d / DAY_MS / 30, Month) <==> 30 * DAY_MS <= d < 365 * DAY_MS)
      && (e == Ago(d / DAY_MS / 365, Year) <==> 365 * DAY_MS <= d)
    ensures e.Ago? ==> e.count >= 1
  {
    var d := Distance(now, activity);
    var seconds := d / 1000;
    var minutes := seconds / 60;
    var hours := minutes / 60;
    var days := hours / 24;
    UnitsOfMs(d);
    if seconds < 60 then JustNow
    else if minutes < 60 then Ago(minutes, Minute)
    else if hours < 24 then Ago(hours, Hour)
    else if days < 7 then Ago(days, Day)
    else if days < 30 then Ago(days / 7, Week)
    else if days < 365 then Ago(days / 30, Month)
    else Ago(days / 365, Year)
  }

  /** Flooring the seconds into minutes, the minutes into hours and the
      hours into days is flooring the milliseconds by the unit's length. */
  lemma UnitsOfMs(d: nat)
    ensures d / 1000 / 60 == d / MINUTE_MS
    ensures d / MINUTE_MS / 60 == d / HOUR_MS
    ensures d / HOUR_MS / 24 == d / DAY_MS
  {
    var s := d / 1000;
    DivUnique(d, MINUTE_MS, s / 60, (s % 60) * 1000 + d % 1000);
    var m := d / MINUTE_MS;
    DivUnique(d, HOUR_MS, m / 60, (m % 60) * MINUTE_MS + d % MINUTE_MS);
    var h := d / HOUR_MS;
    DivUnique(d, DAY_MS, h / 24, (h % 24) * HOUR_MS + d % HOUR_MS);
  }

  lemma DivUnique(a: nat, d: nat, q: nat, r: nat)
    requires d > 0 && a == q * d + r && r < d
    ensures a / d == q
  {
    var q', r' := a / d, a % d;
    assert a == q' * d + r' && r' < d;
    if q' > q {
      MulMonotone(q + 1, q', d);
      assert false;
    } else if q' < q {
      MulMonotone(q' + 1, q, d);
      assert false;
    }
  }

  /** Only the distance matters, not which instant is earlier. */
  lemma BucketSymmetric(now: int, activity: int)
    ensures Bucket(now, activity) == Bucket(activity, now)
  {
  }

  /** The unit a bucket was taken in, from smallest to largest. */
  function Rank(e: Elapsed): nat {
    match e
    case JustNow => 0
    case Ago(_, Minute) => 1
    case Ago(_, Hour) => 2
    case Ago(_, Day) => 3
    case Ago(_, Week) => 4
    case Ago(_, Month) => 5
    case Ago(_, Year) => 6
  }

  lemma MulMonotone(x: nat, y: nat, d: nat)
    requires x <= y
    ensures x * d <= y * d
  {
  }

  lemma DivMonotone(a: nat, b: nat, d: nat)
    requires d > 0 && a <= b
    ensures a / d <= b / d
  {
    if a / d > b / d {
      MulMonotone(b / d + 1, a / d, d);
      assert false;
    }
  }

  /** A longer distance never gets a smaller unit: the branches partition
      the distances in increasing order. */
  lemma {:induction false} BucketOrdered(now: int, a1: int, a2: int)
    requires Distance(now, a1) <= Distance(now, a2)
    ensures Rank(Bucket(now, a1)) <= Rank(Bucket(now, a2))
  {
    var d1, d2 := Distance(now, a1), Distance(now, a2);
    DivMonotone(d1, d2, 1000);
    DivMonotone(d1 / 1000, d2 / 1000, 60);
    DivMonotone(d1 / 1000 / 60, d2 / 1000 / 60, 60);
    DivMonotone(d1 / 1000 / 60 / 60, d2 / 1000 / 60 / 60, 24);
  }

  function UnitName(u: Unit): string {
    match u
    case Minute => "minute"
    case Hour => "hour"
    case Day => "day"
    case Week => "week"
    case Month => "month"
    case Year => "year"
  }

  /** The text shown: the count, the unit with an "s" only for counts above
      one, and "ago". */
  function Label(e: Elapsed): (s: string)
    ensures e.JustNow? ==> s == "Just now"
    ensures e.Ago? ==>
      var digits := NatToString(e.count);
      |digits| <= |s| && s[..|digits|] == digits && DigitsValue(digits) == e.count &&
      s[|digits|..] == " " + UnitName(e.unit) + (if e.count > 1 then "s" else "") + " ago"
  {
    match e
    case JustNow => "Just now"
    case Ago(n, u) =>
      DigitsValueOfNatToString(n);
      NatToString(n) + " " + UnitName(u) + (if n > 1 then "s" else "") + " ago"
  }

  /** The label ends in "s ago" exactly when the count is above one. */
  lemma PluralIffMany(e: Elapsed)
    requires e.Ago?
    ensures var s := Label(e); |s| >= 5 && (s[|s| - 5..] == "s ago" <==> e.count > 1)
  {
    var digits := NatToString(e.count);
    var tail := " " + UnitName(e.unit) + (if e.count > 1 then "s" else "") + " ago";
    assert Label(e) == digits + tail;
    SuffixOfAppend(digits, tail);
    if e.count <= 1 {
      SingularTail(e.unit);
    }
  }

  lemma SuffixOfAppend(a: string, b: string)
    requires |b| >= 5
    ensures (a + b)[|a + b| - 5..] == b[|b| - 5..]
  {
  }

  /** No unit name ends in "s", so a singular label does not end in "s ago". */
  lemma SingularTail(u: Unit)
    ensures var t := " " + UnitName(u) + " ago"; t[|t| - 5..] != "s ago"
  {
    var name := UnitName(u);
    var t := " " + name + " ago";
    assert t[|t| - 5] == name[|name| - 1];
  }

  /** `formatLastActivity`. */
  function FormatLastActivity(now: int, activity: int): (s: string)
    ensures s == "Just now" <==> Distance(now, activity) < 60 * 1000
    ensures Distance(now, activity) >= 60 * 1000 ==> s == Label(Bucket(now, activity))
  {
    var e := Bucket(now, activity);
    assert e.Ago? ==> IsDigit(Label(e)[0]) by {
      if e.Ago? {
        assert Label(e)[0] == NatToString(e.count)[0];
      }
    }
    Label(e)
  }
}
