/**
 * Session helpers: the title a conversation gets from its first user
 * message, and the relative age shown next to a saved session.
 */
module Session {
  import opened Strings
  import opened Types

  // ------------------------------------------------------------ titles

  const UntitledTitle: string := "New Conversation"
  const TitleLimit: nat := 50
  const Ellipsis: string := "..."

  /** `messages.find(m => m.role === 'user')`, as the index of the first user message at or after `from`. */
  function FirstUser(messages: seq<Message>, from: nat): (r: Option<nat>)
    requires from <= |messages|
    ensures r.None? <==> forall k | from <= k < |messages| :: messages[k].role != User
    ensures r.Some? ==> (from <= r.value < |messages| && messages[r.value].role == User
                         && forall k | from <= k < r.value :: messages[k].role != User)
    decreases |messages| - from
  {
    if from == |messages| then None
    else if messages[from].role == User then Some(from)
    else FirstUser(messages, from + 1)
  }

  /**
   * `generateSessionTitle`: "New Conversation" without a user message;
   * otherwise the first user message trimmed, cut to its first 50
   * characters and an ellipsis when it is longer than that.
   */
  function Title(messages: seq<Message>): (r: string)
    ensures (forall k | 0 <= k < |messages| :: messages[k].role != User) ==> r == UntitledTitle
    ensures |r| <= TitleLimit + |Ellipsis|
    ensures FirstUser(messages, 0).Some? ==>
      var content := Trim(messages[FirstUser(messages, 0).value].content);
      && (|content| <= TitleLimit ==> r == content)
      && (|content| > TitleLimit ==> |r| == TitleLimit + |Ellipsis| && r[..TitleLimit] == content[..TitleLimit]
                                     && EndsWith(r, Ellipsis))
  {
    match FirstUser(messages, 0)
    case None => UntitledTitle
    case Some(i) =>
      var content := Trim(messages[i].content);
      if |content| > TitleLimit then
        var r := content[..TitleLimit] + Ellipsis;
        assert r[TitleLimit..] == Ellipsis;
        r
      else content
  }

  /** A title that was not cut is already trimmed. */
  lemma ShortTitleIsTrimmed(messages: seq<Message>)
    requires FirstUser(messages, 0).Some?
    requires |Trim(messages[FirstUser(messages, 0).value].content)| <= TitleLimit
    ensures Trim(Title(messages)) == Title(messages)
  {
    TrimIdempotent(messages[FirstUser(messages, 0).value].content);
  }

  /** Later messages never change the title once a user message has been sent. */
  lemma TitleStable(messages: seq<Message>, more: seq<Message>)
    requires FirstUser(messages, 0).Some?
    ensures Title(messages + more) == Title(messages)
  {
    var i := FirstUser(messages, 0).value;
    var all := messages + more;
    assert all[i] == messages[i];
    assert forall k | 0 <= k < i :: all[k] == messages[k];
    FirstUserOf(all, i);
  }

  /** A user message preceded only by other roles is the one `find` returns. */
  lemma FirstUserOf(messages: seq<Message>, i: nat)
    requires i < |messages| && messages[i].role == User
    requires forall k | 0 <= k < i :: messages[k].role != User
    ensures FirstUser(messages, 0) == Some(i)
  {
    var r := FirstUser(messages, 0);
    assert r.Some?;
    assert r.value <= i;
    assert r.value >= i;
  }

  // ------------------------------------------------------------ timestamps

  const MinuteMs: int := 60000
  const HourMs: int := 3600000
  const DayMs: int := 86400000

  /** The buckets of `formatTimestamp`. */
  datatype Age =
    | JustNow
    | Minutes(minutes: nat)
    | Hours(hours: nat)
    | Yesterday
    | Days(days: nat)
    | OnDate

  /**
   * The bucket of an age of `diffMs` milliseconds, by the floored minutes,
   * hours and days (floor division, as `Math.floor` of a quotient by a
   * positive constant). A negative age is "just now".
   */
  function AgeOf(diffMs: int): (a: Age)
    ensures a.JustNow? <==> diffMs < MinuteMs
    ensures a.Minutes? <==> MinuteMs <= diffMs < HourMs
    ensures a.Minutes? ==> 1 <= a.minutes < 60 && a.minutes * MinuteMs <= diffMs < (a.minutes + 1) * MinuteMs
    ensures a.Hours? <==> HourMs <= diffMs < DayMs
    ensures a.Hours? ==> 1 <= a.hours < 24 && a.hours * HourMs <= diffMs < (a.hours + 1) * HourMs
    ensures a.Yesterday? <==> DayMs <= diffMs < 2 * DayMs
    ensures a.Days? <==> 2 * DayMs <= diffMs < 7 * DayMs
    ensures a.Days? ==> 2 <= a.days < 7 && a.days * DayMs <= diffMs < (a.days + 1) * DayMs
    ensures a.OnDate? <==> 7 * DayMs <= diffMs
  {
    var minutes := diffMs / MinuteMs;
    var hours := diffMs / HourMs;
    var days := diffMs / DayMs;
    if minutes < 1 then JustNow
    else if minutes < 60 then Minutes(minutes)
    else if hours < 24 then Hours(hours)
    else if days == 1 then Yesterday
    else if days < 7 then Days(days)
    else OnDate
  }

  /** The count of a minutes, hours or days bucket is the floored quotient of the age. */
  lemma AgeCounts(diffMs: int)
    ensures AgeOf(diffMs).Minutes? ==> AgeOf(diffMs).minutes == diffMs / MinuteMs
    ensures AgeOf(diffMs).Hours? ==> AgeOf(diffMs).hours == diffMs / HourMs
    ensures AgeOf(diffMs).Days? ==> AgeOf(diffMs).days == diffMs / DayMs
  {
  }

  /** `s` after a count above one. */
  function Plural(n: nat): (r: string)
    ensures r == "s" <==> n > 1
    ensures r == "" <==> n <= 1
  {
    if n > 1 then "s" else ""
  }

  /** The text shown for a bucket; `localeDate` is `toLocaleDateString()` of the timestamp. */
  function AgeText(a: Age, localeDate: string): (r: string)
    ensures a.Minutes? ==> StartsWith(r, NatToString(a.minutes) + " minute") && EndsWith(r, " ago")
    ensures a.Hours? ==> StartsWith(r, NatToString(a.hours) + " hour") && EndsWith(r, " ago")
    ensures a.Days? ==> StartsWith(r, NatToString(a.days) + " days") && EndsWith(r, " ago")
    ensures a.OnDate? ==> r == localeDate
  {
    CountedText(a);
    match a
    case JustNow => "Just now"
    case Minutes(n) => NatToString(n) + " minute" + Plural(n) + " ago"
    case Hours(n) => NatToString(n) + " hour" + Plural(n) + " ago"
    case Yesterday => "Yesterday"
    case Days(n) => NatToString(n) + " days ago"
    case OnDate => localeDate
  }

  /** The layout of a counted bucket's text: count and unit first, " ago" last. */
  lemma CountedText(a: Age)
    ensures a.Minutes? ==> var n := a.minutes;
      StartsWith(NatToString(n) + " minute" + Plural(n) + " ago", NatToString(n) + " minute")
      && EndsWith(NatToString(n) + " minute" + Plural(n) + " ago", " ago")
    ensures a.Hours? ==> var n := a.hours;
      StartsWith(NatToString(n) + " hour" + Plural(n) + " ago", NatToString(n) + " hour")
      && EndsWith(NatToString(n) + " hour" + Plural(n) + " ago", " ago")
    ensures a.Days? ==> var n := a.days;
      StartsWith(NatToString(n) + " days ago", NatToString(n) + " days")
      && EndsWith(NatToString(n) + " days ago", " ago")
  {
    match a
    case Minutes(n) => UnitLayout(NatToString(n) + " minute", Plural(n));
    case Hours(n) => UnitLayout(NatToString(n) + " hour", Plural(n));
    case Days(n) => UnitLayout(NatToString(n) + " days", "");
    case _ =>
  }

  lemma UnitLayout(head: string, ending: string)
    ensures StartsWith(head + ending + " ago", head) && EndsWith(head + ending + " ago", " ago")
  {
    assert (head + ending + " ago")[..|head|] == head;
    EndsWithConcat(head + ending, " ago");
  }

  /**
   * `formatTimestamp` of a timestamp at `date` milliseconds (`None` when the
   * text does not parse, so every comparison with NaN fails) seen at `now`.
   */
  function FormatTimestamp(date: Option<int>, now: int, localeDate: string): (r: string)
    ensures date.None? ==> r == localeDate
    ensures date.Some? && now - date.value < MinuteMs ==> r == "Just now"
    ensures date.Some? && DayMs <= now - date.value < 2 * DayMs ==> r == "Yesterday"
    ensures date.Some? && now - date.value >= 7 * DayMs ==> r == localeDate
    ensures date.Some? && MinuteMs <= now - date.value < 2 * MinuteMs ==> r == "1 minute ago"
    ensures date.Some? && HourMs <= now - date.value < 2 * HourMs ==> r == "1 hour ago"
    ensures date.Some? && MinuteMs <= now - date.value < HourMs ==>
      var n := (now - date.value) / MinuteMs; r == NatToString(n) + " minute" + Plural(n) + " ago"
    ensures date.Some? && HourMs <= now - date.value < DayMs ==>
      var n := (now - date.value) / HourMs; r == NatToString(n) + " hour" + Plural(n) + " ago"
    ensures date.Some? && 2 * DayMs <= now - date.value < 7 * DayMs ==>
      r == NatToString((now - date.value) / DayMs) + " days ago"
  {
    match date
    case None => localeDate
    case Some(d) =>
      var diffMs := now - d;
      FixedAges(diffMs, localeDate);
      SingularAges(diffMs, localeDate);
      CountedAges(diffMs, localeDate);
      AgeText(AgeOf(diffMs), localeDate)
  }

  /** Under a minute, between one and two days, and from a week on, the text is fixed. */
  lemma FixedAges(diffMs: int, localeDate: string)
    ensures diffMs < MinuteMs ==> AgeText(AgeOf(diffMs), localeDate) == "Just now"
    ensures DayMs <= diffMs < 2 * DayMs ==> AgeText(AgeOf(diffMs), localeDate) == "Yesterday"
    ensures 7 * DayMs <= diffMs ==> AgeText(AgeOf(diffMs), localeDate) == localeDate
  {
  }

  /** Between one and two minutes or hours the text is in the singular. */
  lemma SingularAges(diffMs: int, localeDate: string)
    ensures MinuteMs <= diffMs < 2 * MinuteMs ==> AgeText(AgeOf(diffMs), localeDate) == "1 minute ago"
    ensures HourMs <= diffMs < 2 * HourMs ==> AgeText(AgeOf(diffMs), localeDate) == "1 hour ago"
  {
    if MinuteMs <= diffMs < 2 * MinuteMs {
      assert AgeOf(diffMs) == Minutes(1);
      assert AgeText(Minutes(1), localeDate) == "1 minute ago";
    }
    if HourMs <= diffMs < 2 * HourMs {
      assert AgeOf(diffMs) == Hours(1);
      assert AgeText(Hours(1), localeDate) == "1 hour ago";
    }
  }

  /** The minutes, hours and days texts carry the floored count. */
  lemma CountedAges(diffMs: int, localeDate: string)
    ensures MinuteMs <= diffMs < HourMs ==>
      var n := diffMs / MinuteMs; AgeText(AgeOf(diffMs), localeDate) == NatToString(n) + " minute" + Plural(n) + " ago"
    ensures HourMs <= diffMs < DayMs ==>
      var n := diffMs / HourMs; AgeText(AgeOf(diffMs), localeDate) == NatToString(n) + " hour" + Plural(n) + " ago"
    ensures 2 * DayMs <= diffMs < 7 * DayMs ==>
      AgeText(AgeOf(diffMs), localeDate) == NatToString(diffMs / DayMs) + " days ago"
  {
    AgeCounts(diffMs);
  }

  /** A minute or hour count takes the plural ending exactly when it is above one. */
  lemma PluralEnding(n: nat)
    requires n >= 1
    ensures EndsWith(AgeText(Minutes(n), ""), "s ago") <==> n > 1
    ensures EndsWith(AgeText(Hours(n), ""), "s ago") <==> n > 1
  {
    var digits := NatToString(n);
    var m := AgeText(Minutes(n), "");
    var h := AgeText(Hours(n), "");
    if n > 1 {
      assert m == digits + " minute" + "s ago";
      assert h == digits + " hour" + "s ago";
      EndsWithConcat(digits + " minute", "s ago");
      EndsWithConcat(digits + " hour", "s ago");
    } else {
      assert m == digits + " minute ago";
      assert h == digits + " hour ago";
      assert m[|m| - 5] == 'e';
      assert h[|h| - 5] == 'r';
    }
  }
}
