/** lib/utils.ts: whole days until a date, and the Spanish phrase that
    describes that many days. */
module Utils {
  import opened Numerals
  import opened Common

  /** `Math.ceil(x / d)` on integers, for a positive divisor. */
  function CeilDiv(x: int, d: int): (q: int)
    requires d > 0
    ensures (q - 1) * d < x <= q * d
  {
    var f := (-x) / d;
    assert d * f <= -x < d * (f + 1) by {
      assert -x == d * f + (-x) % d;
    }
    -f
  }

  /** `getDaysUntil(target)` at time `now`: the number of started days from
      now to the target, negative for a past target. */
  function DaysUntil(target: int, now: int): (days: int)
    ensures (days - 1) * MS_PER_DAY < target - now <= days * MS_PER_DAY
  {
    CeilDiv(target - now, MS_PER_DAY)
  }

  /** The bracket above has exactly one solution. */
  lemma DaysUntilUnique(target: int, now: int, days: int)
    requires (days - 1) * MS_PER_DAY < target - now <= days * MS_PER_DAY
    ensures days == DaysUntil(target, now)
  {
  }

  /** A later target is never fewer days away. */
  lemma DaysUntilMonotone(a: int, b: int, now: int)
    requires a <= b
    ensures DaysUntil(a, now) <= DaysUntil(b, now)
  {
  }

  /** A target exactly `k` days ahead is `k` days away. */
  lemma DaysUntilWholeDays(now: int, k: int)
    ensures DaysUntil(now + k * MS_PER_DAY, now) == k
  {
    DaysUntilUnique(now + k * MS_PER_DAY, now, k);
  }

  /** The phrases `getRelativeTime` produces, with their counts. */
  datatype Phrase = Ago(n: nat) | Today | Tomorrow | InDays(n: nat) | InWeeks(n: nat) | InMonths(n: nat)

  /** The if-chain of `getRelativeTime` over a day count. */
  function Classify(days: int): (ph: Phrase)
    ensures ph.Ago? <==> days < 0
    ensures ph.Today? <==> days == 0
    ensures ph.Tomorrow? <==> days == 1
    ensures ph.InDays? <==> 2 <= days < 7
    ensures ph.InWeeks? <==> 7 <= days < 30
    ensures ph.InMonths? <==> days >= 30
    ensures ph.Ago? ==> ph.n == -days
    ensures ph.InDays? ==> ph.n == days
    ensures ph.InWeeks? ==> 1 <= ph.n <= 5 && 7 * (ph.n - 1) < days <= 7 * ph.n
    ensures ph.InMonths? ==> ph.n >= 1 && 30 * (ph.n - 1) < days <= 30 * ph.n
  {
    if days < 0 then Ago(-days)
    else if days == 0 then Today
    else if days == 1 then Tomorrow
    else if days < 7 then InDays(days)
    else if days < 30 then InWeeks(CeilDiv(days, 7))
    else InMonths(CeilDiv(days, 30))
  }

  /** The text of a phrase; only `Today` reads "Hoy" and only `Tomorrow`
      reads "Mañana". */
  function Render(ph: Phrase): (text: string)
    ensures text == "Hoy" <==> ph.Today?
    ensures text == "Mañana" <==> ph.Tomorrow?
  {
    match ph
    case Ago(n) => "Hace " + DecimalString(n) + " días"
    case Today => "Hoy"
    case Tomorrow => "Mañana"
    case InDays(n) => "En " + DecimalString(n) + " días"
    case InWeeks(n) => "En " + DecimalString(n) + " semanas"
    case InMonths(n) => "En " + DecimalString(n) + " meses"
  }

  /** The text before the count of a counted phrase. */
  function Prefix(ph: Phrase): string
  {
    if ph.Ago? then "Hace " else "En "
  }

  /** The text after the count of a counted phrase. */
  function Suffix(ph: Phrase): string
  {
    match ph
    case InWeeks(_) => " semanas"
    case InMonths(_) => " meses"
    case _ => " días"
  }

  /** A counted phrase reads prefix, count, suffix. */
  lemma RenderCounted(ph: Phrase)
    requires !ph.Today? && !ph.Tomorrow?
    ensures Render(ph) == Prefix(ph) + (DecimalString(ph.n) + Suffix(ph))
  {
  }

  /** Different phrases never read the same, so the text determines the
      phrase and its count. */
  lemma RenderInjective(a: Phrase, b: Phrase)
    requires Render(a) == Render(b)
    ensures a == b
  {
    var text := Render(a);
    if !a.Today? && !a.Tomorrow? && !b.Today? && !b.Tomorrow? {
      RenderCounted(a);
      RenderCounted(b);
      assert Prefix(a)[0] == text[0] == Prefix(b)[0];
      assert Prefix(a) == Prefix(b);
      var k := |Prefix(a)|;
      assert text[k..] == DecimalString(a.n) + Suffix(a);
      assert text[k..] == DecimalString(b.n) + Suffix(b);
      DigitsThenSplit(DecimalString(a.n), Suffix(a), DecimalString(b.n), Suffix(b));
      DecimalStringInjective(a.n, b.n);
      assert Suffix(a)[1] == Suffix(b)[1];
    } else if a.Today? || a.Tomorrow? {
      if !b.Today? && !b.Tomorrow? {
        RenderCounted(b);
      }
    } else {
      RenderCounted(a);
    }
  }

  /** `getRelativeTime(target)` at time `now`: "Hoy" exactly for a target
      within the day before now, "Mañana" exactly for one within the day
      after; a past target a day or more back reads "Hace n días" with n its
      whole days back. */
  function RelativeTime(target: int, now: int): (text: string)
    ensures text == "Hoy" <==> -MS_PER_DAY < target - now <= 0
    ensures text == "Mañana" <==> 0 < target - now <= MS_PER_DAY
    ensures target - now <= -MS_PER_DAY ==> text == "Hace " + DecimalString(-DaysUntil(target, now)) + " días"
  {
    Render(Classify(DaysUntil(target, now)))
  }
}
