/**
 * How an order is shown: the badge for its status, the age of the order in words, and the
 * counters over an order list. The customer's and the administrator's order lists use the
 * same status badge.
 */
module OrderDisplay {
  import opened Text
  import opened Seqs

  /** The badge drawn for a status. */
  datatype StatusInfo = StatusInfo(caption: string, icon: string, color: string, bgColor: string)

  /** `getStatusInfo`: the three known statuses, and a neutral badge for anything else. */
  function GetStatusInfo(status: string): (r: StatusInfo)
    ensures r.caption == "Completado" <==> status == "completed"
    ensures r.caption == "Pendiente" <==> status == "pending"
    ensures r.caption == "Fallido" <==> status == "failed"
    ensures r.caption == "Desconocido" <==> status !in {"completed", "pending", "failed"}
  {
    if status == "completed" then StatusInfo("Completado", "checkmark-circle", "#10B981", "#D1FAE5")
    else if status == "pending" then StatusInfo("Pendiente", "time", "#F59E0B", "#FEF3C7")
    else if status == "failed" then StatusInfo("Fallido", "close-circle", "#EF4444", "#FEE2E2")
    else StatusInfo("Desconocido", "help-circle", "#6B7280", "#F3F4F6")
  }

  /** Distinct statuses that are not among the known three share one badge. */
  lemma UnknownStatusesLookAlike(s: string, t: string)
    requires s !in {"completed", "pending", "failed"} && t !in {"completed", "pending", "failed"}
    ensures GetStatusInfo(s) == GetStatusInfo(t)
  {
  }

  /** The age of an order, as `formatDate` groups it. */
  datatype Age = JustNow | Minutes(minutes: nat) | Hours(hours: nat) | Days(days: nat) | Older

  /**
   * The group for an age of `seconds` (now minus creation, floored to whole seconds; a
   * negative value is a creation time in the future).
   */
  function AgeOf(seconds: int): (r: Age)
    ensures r == JustNow <==> seconds < 60
    ensures r.Minutes? <==> 60 <= seconds < 3600
    ensures r.Hours? <==> 3600 <= seconds < 86400
    ensures r.Days? <==> 86400 <= seconds < 604800
    ensures r == Older <==> seconds >= 604800
    ensures r.Minutes? ==> 1 <= r.minutes <= 59 && 60 * r.minutes <= seconds < 60 * (r.minutes + 1)
    ensures r.Hours? ==> 1 <= r.hours <= 23 && 3600 * r.hours <= seconds < 3600 * (r.hours + 1)
    ensures r.Days? ==> 1 <= r.days <= 6 && 86400 * r.days <= seconds < 86400 * (r.days + 1)
  {
    if seconds < 60 then JustNow
    else if seconds < 3600 then Minutes(seconds / 60)
    else if seconds < 86400 then Hours(seconds / 3600)
    else if seconds < 604800 then Days(seconds / 86400)
    else Older
  }

  /** `n` followed by the singular unit when `n` is 1, the plural otherwise. */
  function Counted(n: nat, singular: string, plural: string): (r: string)
    ensures |r| > 6 && r[..5] == "Hace " && IsDigit(r[5])
  {
    "Hace " + NatToString(n) + ([' '] + if n == 1 then singular else plural)
  }

  /**
   * `formatDate`: the age in words; an order a week old or more shows its calendar date,
   * which the caller supplies as `calendarDate` (the locale formatting is not modelled).
   */
  function FormatDate(seconds: int, calendarDate: string): (r: string)
    ensures seconds < 60 ==> r == "Hace un momento"
    ensures 60 <= seconds < 604800 ==> |r| > 6 && r[..5] == "Hace " && IsDigit(r[5])
    ensures 60 <= seconds < 3600 ==>
              r == "Hace " + NatToString(seconds / 60) + (if seconds < 120 then " minuto" else " minutos")
    ensures 3600 <= seconds < 86400 ==>
              r == "Hace " + NatToString(seconds / 3600) + (if seconds < 7200 then " hora" else " horas")
    ensures 86400 <= seconds < 604800 ==>
              r == "Hace " + NatToString(seconds / 86400) + (if seconds < 172800 then " día" else " días")
    ensures seconds >= 604800 ==> r == calendarDate
  {
    match AgeOf(seconds)
    case JustNow => "Hace un momento"
    case Minutes(n) => Counted(n, "minuto", "minutos")
    case Hours(n) => Counted(n, "hora", "horas")
    case Days(n) => Counted(n, "día", "días")
    case Older => calendarDate
  }

  /** Between one minute and one hour the singular form is used exactly in the first minute. */
  lemma {:induction false} SingularMinute(seconds: int, calendarDate: string)
    requires 60 <= seconds < 3600
    ensures FormatDate(seconds, calendarDate) == "Hace 1 minuto" <==> seconds < 120
  {
    var n := seconds / 60;
    if n != 1 {
      WordsDiffer(n, "minuto", "minutos");
    }
  }

  /** Between one hour and one day the singular form is used exactly in the first hour. */
  lemma {:induction false} SingularHour(seconds: int, calendarDate: string)
    requires 3600 <= seconds < 86400
    ensures FormatDate(seconds, calendarDate) == "Hace 1 hora" <==> seconds < 7200
  {
    var n := seconds / 3600;
    if n != 1 {
      WordsDiffer(n, "hora", "horas");
    }
  }

  /** Between one day and one week the singular form is used exactly on the first day. */
  lemma {:induction false} SingularDay(seconds: int, calendarDate: string)
    requires 86400 <= seconds < 604800
    ensures FormatDate(seconds, calendarDate) == "Hace 1 día" <==> seconds < 172800
  {
    var n := seconds / 86400;
    if n != 1 {
      WordsDiffer(n, "día", "días");
    }
  }

  /** A count other than one is never written as "Hace 1 ...". */
  lemma {:induction false} WordsDiffer(n: nat, singular: string, plural: string)
    requires n != 1
    ensures Counted(n, singular, plural) != "Hace 1 " + singular
  {
    var t := NatToString(n);
    var c := Counted(n, singular, plural);
    assert c[5..5 + |t|] == t;
    var h := "Hace 1 " + singular;
    if |t| == 1 {
      assert t == [DigitChar(n)];
      assert c[5] != h[5];
    } else {
      assert c[6] == t[1] && IsDigit(t[1]);
      assert c[6] != h[6];
    }
  }

  /** The badge of the customer's order list: how many of the orders are completed. */
  function CompletedCount(statuses: seq<string>): (n: nat)
    ensures n <= |statuses|
    ensures n == multiset(statuses)["completed"]
  {
    CountIsMultiplicity(statuses, "completed", IsCompleted);
    Count(statuses, IsCompleted)
  }

  /** An order is completed; its card is then drawn with the "processed" footer. */
  predicate IsCompleted(status: string)
  {
    status == "completed"
  }

  /** The completed count is the number of order cards with the footer. */
  lemma {:induction false} CompletedCountMatchesFooters(statuses: seq<string>)
    ensures CompletedCount(statuses) == |Filter(statuses, IsCompleted)|
  {
    CountIsFilterLength(statuses, IsCompleted);
  }
}
