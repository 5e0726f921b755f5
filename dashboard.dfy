/** The dashboard: the relative time printed on a feed post, and the choice
    between the remote feed and the built-in fallback feed. */
module Dashboard {
  import opened Wrappers
  import opened JsString
  import PostService

  // ------------------------------------------------------------ relative time

  const MinuteMs: int := 60000

  datatype Unit = Minutes | Hours | Days | Weeks | Months | Years

  /** What `formatRelativeTime` prints: "just now", or a count and a unit. */
  datatype Label = JustNow | Ago(count: nat, unit: Unit)

  function Suffix(u: Unit): string {
    match u
    case Minutes => "m"
    case Hours => "h"
    case Days => "d"
    case Weeks => "w"
    case Months => "mo"
    case Years => "y"
  }

  /** The printed text: "just now", or the count's digits then the unit. */
  function Render(l: Label): (s: string)
    ensures l.JustNow? ==> s == "just now"
    ensures l.Ago? ==> s == NatToString(l.count) + Suffix(l.unit)
  {
    match l
    case JustNow => "just now"
    case Ago(n, u) => NatToString(n) + Suffix(u)
  }

  /** Whole minutes elapsed from `date` to `now` (both in milliseconds),
      never negative: `Math.max(0, Math.floor(diffMs / 60000))`. Dafny's
      division rounds down for a positive divisor, as `Math.floor` does. */
  function ElapsedMinutes(now: int, date: int): (m: nat)
    ensures date > now - MinuteMs ==> m == 0
    ensures date <= now - MinuteMs ==> m * MinuteMs <= now - date < (m + 1) * MinuteMs
  {
    if now - date < 0 then 0 else (now - date) / MinuteMs
  }

  /** The buckets of `formatRelativeTime` as written, on elapsed minutes. */
  function BucketAsWritten(minutes: nat): (l: Label)
    ensures minutes < 1 <==> l == JustNow
  {
    if minutes < 1 then JustNow
    else if minutes < 60 then Ago(minutes, Minutes)
    else
      var hours := minutes / 60;
      if hours < 24 then Ago(hours, Hours)
      else
        var days := hours / 24;
        if days < 7 then Ago(days, Days)
        else
          var weeks := days / 7;
          if weeks < 4 then Ago(weeks, Weeks)
          else
            var months := days / 30;
            if months < 12 then Ago(months, Months)
            else Ago(days / 365, Years)
  }

  /** `formatRelativeTime(date)` as written, at the current time `now`; an
      absent date prints "just now". */
  function FormatRelativeTimeAsWritten(now: int, date: Option<int>): (s: string)
    ensures date.None? ==> s == "just now"
  {
    Render(if date.None? then JustNow else BucketAsWritten(ElapsedMinutes(now, date.value)))
  }

  /** As written, 28 and 29 days fall past the weeks bucket (4 weeks) but
      short of one month, and print "0mo"; 360 to 364 days fall past 12
      months but short of one year, and print "0y". */
  lemma {:induction false} ZeroCountsAsWritten(days: nat)
    ensures 28 <= days < 30 ==> BucketAsWritten(days * 1440) == Ago(0, Months)
    ensures 360 <= days < 365 ==> BucketAsWritten(days * 1440) == Ago(0, Years)
  {
    assert days * 1440 / 60 == days * 24;
    assert days * 24 / 24 == days;
  }

  /** The printed text for 28 days ago, as written. */
  lemma TwentyEightDaysAsWritten(now: int)
    ensures FormatRelativeTimeAsWritten(now, Some(now - 28 * 1440 * MinuteMs)) == "0mo"
  {
    assert ElapsedMinutes(now, now - 28 * 1440 * MinuteMs) == 28 * 1440;
    ZeroCountsAsWritten(28);
    assert NatToString(0) == "0";
  }

  /** The buckets with each unit used until the next unit reaches one:
      weeks until 30 days, months until 365 days. */
  function Bucket(minutes: nat): (l: Label)
    ensures minutes < 1 <==> l == JustNow
  {
    if minutes < 1 then JustNow
    else if minutes < 60 then Ago(minutes, Minutes)
    else
      var hours := minutes / 60;
      if hours < 24 then Ago(hours, Hours)
      else
        var days := hours / 24;
        if days < 7 then Ago(days, Days)
        else if days < 30 then Ago(days / 7, Weeks)
        else if days < 365 then Ago(days / 30, Months)
        else Ago(days / 365, Years)
  }

  /** Every printed count is at least one, and is the elapsed time in its
      unit, rounded down. */
  lemma BucketCounts(minutes: nat)
    ensures var l := Bucket(minutes);
      l.Ago? ==> (l.count >= 1 &&
        (l.unit == Minutes ==> l.count == minutes < 60) &&
        (l.unit == Hours ==> l.count == minutes / 60 < 24) &&
        (l.unit == Days ==> l.count == minutes / 1440 < 7) &&
        (l.unit == Weeks ==> l.count == minutes / 1440 / 7 && minutes / 1440 < 30) &&
        (l.unit == Months ==> l.count == minutes / 1440 / 30 && minutes / 1440 < 365) &&
        (l.unit == Years ==> l.count == minutes / 1440 / 365))
  {
    assert minutes / 60 / 24 == minutes / 1440;
  }

  /** The corrected buckets differ from the written ones only on the two
      zero-count ranges. */
  lemma BucketAgreesOutsideZeroCounts(minutes: nat)
    requires var days := minutes / 1440; !(28 <= days < 30) && !(360 <= days < 365)
    ensures Bucket(minutes) == BucketAsWritten(minutes)
  {
    assert minutes / 60 / 24 == minutes / 1440;
  }

  /** `formatRelativeTime(date)` with the corrected buckets. */
  function FormatRelativeTime(now: int, date: Option<int>): (s: string)
    ensures date.None? ==> s == "just now"
    ensures date.Some? && date.value > now - MinuteMs ==> s == "just now"
  {
    Render(if date.None? then JustNow else Bucket(ElapsedMinutes(now, date.value)))
  }

  /** A post older than a minute never prints a zero count. */
  lemma NoZeroCount(now: int, date: int)
    requires date <= now - MinuteMs
    ensures var l := Bucket(ElapsedMinutes(now, date)); l.Ago? && l.count >= 1
    ensures FormatRelativeTime(now, Some(date)) != "just now"
  {
    BucketCounts(ElapsedMinutes(now, date));
    var l := Bucket(ElapsedMinutes(now, date));
    var s := NatToString(l.count);
    assert |s + Suffix(l.unit)| >= 1;
    assert (s + Suffix(l.unit))[0] == s[0];
    assert "just now"[0] == 'j';
  }

  // ------------------------------------------------------------ feed choice

  const HourMs: int := 60 * MinuteMs

  const FirstContent: string := "Wrapped up the first sprint for Campus Buddy with a UX audit + clickable prototype. Looking for a frontend dev comfortable with Tailwind + Firebase to pair for the build sprint this weekend."
  const SecondContent: string := "Deployed 'HustleHub' MVP on Vercel tonight \U{1F680} Built with Next.js, Supabase, and shadcn/ui. Need beta testers who host campus events—DM for invite codes."
  const ThirdContent: string := "Sharing notes + starter notebook from our campus ML reading circle on Retrieval-Augmented Generation. We'll be evaluating open-source embeddings next week—drop a comment if you want in."

  /** The three built-in posts shown when there are no remote posts, dated
      two, five and twenty-four hours before `now`. */
  function FallbackFeed(now: int): (feed: seq<PostService.FeedPost>)
    ensures |feed| == 3
    ensures feed[0].createdAt == Some(now - 2 * HourMs)
    ensures feed[1].createdAt == Some(now - 5 * HourMs)
    ensures feed[2].createdAt == Some(now - 24 * HourMs)
  {
    [ PostService.FeedPost("fallback-1", "ishita-rao", "Ishita Rao", "Product designer · IIT Bombay",
        "https://i.pravatar.cc/100?img=21", None, Some(PostService.Public), FirstContent,
        Some(["design", "campus-startups", "help-wanted"]),
        Some([PostService.Attachment(PostService.Image, "Sprint board snapshot", Some("Figma screens + flows"), None)]),
        Some(34), Some(12), Some(4), Some(now - 2 * HourMs)),
      PostService.FeedPost("fallback-2", "viaan-kapoor", "Viaan Kapoor", "Full-stack @ BITS Pilani",
        "https://i.pravatar.cc/100?img=35", None, Some(PostService.Public), SecondContent,
        None, None, Some(59), Some(18), Some(9), Some(now - 5 * HourMs)),
      PostService.FeedPost("fallback-3", "stuti-sharma", "Stuti Sharma", "AI research • IIIT Hyderabad",
        "https://i.pravatar.cc/100?img=48", None, Some(PostService.Public), ThirdContent,
        Some(["ml", "rag", "reading-circle"]),
        Some([PostService.Attachment(PostService.Document, "Week 02 - RAG primer", Some("Colab notebook + references"), None)]),
        Some(41), Some(23), Some(6), Some(now - 24 * HourMs)) ]
  }

  /** `feedItems`: the fetched posts when there is at least one, otherwise
      the fallback feed (also while the query has no data). */
  function FeedItems(now: int, remote: Option<seq<PostService.FeedPost>>): (items: seq<PostService.FeedPost>)
    ensures remote.Some? && |remote.value| > 0 ==> items == remote.value
    ensures remote.None? || |remote.value| == 0 ==> items == FallbackFeed(now)
  {
    if |remote.GetOr([])| > 0 then remote.value else FallbackFeed(now)
  }

  /** The feed is never empty, and every fallback post prints as a few hours
      old. */
  lemma FeedNeverEmpty(now: int, remote: Option<seq<PostService.FeedPost>>)
    ensures |FeedItems(now, remote)| > 0
    ensures forall i :: 0 <= i < 3 ==> FormatRelativeTime(now, FallbackFeed(now)[i].createdAt) != "just now"
  {
    var feed := FallbackFeed(now);
    forall i | 0 <= i < 3
      ensures FormatRelativeTime(now, feed[i].createdAt) != "just now"
    {
      NoZeroCount(now, feed[i].createdAt.value);
    }
  }
}
