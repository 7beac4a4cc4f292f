/** Posting settings: the four time-of-day buckets, and the choice between
    the general posting settings and one of their conditional overrides. */
module Settings {
  import opened Wrappers
  import opened Text

  const Morning: string := "morning"
  const Afternoon: string := "afternoon"
  const Evening: string := "evening"
  const Night: string := "night"
  const TimesOfDay: seq<string> := [Morning, Afternoon, Evening, Night]

  /** The hour of a UTC time given in seconds since the epoch. */
  function HourOf(t: int): (h: nat)
    ensures h < 24
  {
    (t % 86400) / 3600
  }

  /** The bucket of an hour: 5 to 11 is morning, 12 to 16 afternoon, 17 to
      20 evening, and every other hour night. */
  function TimeOfDay(hour: nat): (t: string)
    requires hour < 24
    ensures t in TimesOfDay
    ensures t == Morning <==> 5 <= hour < 12
    ensures t == Afternoon <==> 12 <= hour < 17
    ensures t == Evening <==> 17 <= hour < 21
    ensures t == Night <==> hour < 5 || 21 <= hour
  {
    if 5 <= hour < 12 then Morning
    else if 12 <= hour < 17 then Afternoon
    else if 17 <= hour < 21 then Evening
    else Night
  }

  datatype PostingCondition = PostingCondition(timeOfDay: string, nextPostAfter: int)

  /** `SiaPostingSettings`; the conditional overrides are kept in the order
      of the dictionary they come from. Plugin settings are not modelled. */
  datatype PostingSettings = PostingSettings(
    enabled: bool,
    condition: Option<PostingCondition>,
    frequencyPerDay: int,
    nextPostAfter: int,
    examples: Option<seq<string>>,
    conditional: Option<seq<(string, PostingSettings)>>)

  /** An enabled override without a condition: reading its condition raises. */
  predicate Broken(c: PostingSettings) {
    c.enabled && c.condition.None?
  }

  /** An enabled override whose time of day occurs in the bucket's name and
      whose own next-post time is at most 30 seconds away. */
  predicate Applies(c: PostingSettings, now: int, bucket: string) {
    c.enabled && c.condition.Some? && Contains(bucket, c.condition.value.timeOfDay) &&
    now + 30 >= c.condition.value.nextPostAfter
  }

  /** None of the first `k` overrides stops the scan. */
  predicate Passed(entries: seq<(string, PostingSettings)>, k: nat, now: int, bucket: string)
    requires k <= |entries|
  {
    forall i :: 0 <= i < k ==> !Applies(entries[i].1, now, bucket) && !Broken(entries[i].1)
  }

  /** Where the scan of the overrides stops: at the first override that
      applies, at the first broken one, or (None) at the end. */
  function SelectCondition(entries: seq<(string, PostingSettings)>, now: int, bucket: string)
    : (r: Result<Option<PostingSettings>>)
    ensures r == Ok(None) <==> Passed(entries, |entries|, now, bucket)
    ensures r.Ok? && r.value.Some? ==>
              exists k :: 0 <= k < |entries| && entries[k].1 == r.value.value &&
                          Applies(entries[k].1, now, bucket) && Passed(entries, k, now, bucket)
    ensures r.Err? ==>
              r.error == AttributeError &&
              exists k :: 0 <= k < |entries| && Broken(entries[k].1) && Passed(entries, k, now, bucket)
  {
    if entries == [] then Ok(None)
    else if Broken(entries[0].1) then Err(AttributeError)
    else if Applies(entries[0].1, now, bucket) then Ok(Some(entries[0].1))
    else
      var r := SelectCondition(entries[1..], now, bucket);
      assert forall k :: 0 <= k <= |entries[1..]| && Passed(entries[1..], k, now, bucket) ==>
                           Passed(entries, k + 1, now, bucket) by {
        forall k | 0 <= k <= |entries[1..]| && Passed(entries[1..], k, now, bucket)
          ensures Passed(entries, k + 1, now, bucket)
        {
          forall i | 0 <= i < k + 1
            ensures !Applies(entries[i].1, now, bucket) && !Broken(entries[i].1)
          {
            if i > 0 { assert entries[i] == entries[1..][i - 1]; }
          }
        }
      }
      if r == Ok(None) then r
      else if r.Ok? then
        var k :| 0 <= k < |entries[1..]| && entries[1..][k].1 == r.value.value &&
                 Applies(entries[1..][k].1, now, bucket) && Passed(entries[1..], k, now, bucket);
        assert entries[k + 1] == entries[1..][k];
        r
      else
        var k :| 0 <= k < |entries[1..]| && Broken(entries[1..][k].1) && Passed(entries[1..], k, now, bucket);
        assert entries[k + 1] == entries[1..][k];
        r
  }

  /** `should_post_now` judged against the bucket `bucket`. Nothing is posted
      when posting is off or the next-post time is more than 30 seconds
      away; otherwise the overrides must be present, and the first override
      that applies is chosen, or the general settings when none does. */
  function PostingChoice(s: PostingSettings, now: int, bucket: string): (r: Result<Option<PostingSettings>>)
    ensures !s.enabled || now + 30 <= s.nextPostAfter ==> r == Ok(None)
    ensures s.enabled && now + 30 > s.nextPostAfter && s.conditional.None? ==> r == Err(AttributeError)
    ensures s.enabled && now + 30 > s.nextPostAfter && s.conditional.Some? ==>
              var entries := s.conditional.value;
              (r == Ok(Some(s)) <== Passed(entries, |entries|, now, bucket)) &&
              (r.Ok? && r.value.Some? && !Passed(entries, |entries|, now, bucket) ==>
                 exists k :: 0 <= k < |entries| && entries[k].1 == r.value.value &&
                             Applies(entries[k].1, now, bucket) && Passed(entries, k, now, bucket)) &&
              (r.Err? ==> (r.error == AttributeError &&
                 exists k :: 0 <= k < |entries| && Broken(entries[k].1) && Passed(entries, k, now, bucket))) &&
              (r.Ok? ==> r.value.Some?)
  {
    if !s.enabled || now + 30 <= s.nextPostAfter then Ok(None)
    else if s.conditional.None? then Err(AttributeError)
    else
      var chosen := SelectCondition(s.conditional.value, now, bucket);
      if chosen == Ok(None) then Ok(Some(s)) else chosen
  }

  /** `should_post_now` as written: the overrides are compared with the
      bucket of `importTime`, the time the default argument of
      `get_time_of_day` was evaluated, not with the bucket of `now`. */
  method ShouldPostNow(s: PostingSettings, now: int, importTime: int) returns (r: Result<Option<PostingSettings>>)
    ensures r == PostingChoice(s, now, TimeOfDay(HourOf(importTime)))
  {
    if !s.enabled {
      return Ok(None);
    }
    if now + 30 <= s.nextPostAfter {
      return Ok(None);
    }
    if s.conditional.None? {
      return Err(AttributeError);
    }
    var entries := s.conditional.value;
    var bucket := TimeOfDay(HourOf(importTime));
    var i := 0;
    while i < |entries|
      invariant 0 <= i <= |entries|
      invariant SelectCondition(entries[i..], now, bucket) == SelectCondition(entries, now, bucket)
    {
      var c := entries[i].1;
      if c.enabled {
        if c.condition.None? {
          return Err(AttributeError);
        }
        if Contains(bucket, c.condition.value.timeOfDay) {
          if now + 30 >= c.condition.value.nextPostAfter {
            return Ok(Some(c));
          }
        }
      }
      assert entries[i..][1..] == entries[i + 1..];
      i := i + 1;
    }
    return Ok(Some(s));
  }

  /** The bucket evidently meant: the one of `now`. */
  function ShouldPostNowAt(s: PostingSettings, now: int): (r: Result<Option<PostingSettings>>)
    ensures r.Ok? && r.value.Some? && r.value.value != s ==>
              r.value.value.condition.Some? &&
              Contains(TimeOfDay(HourOf(now)), r.value.value.condition.value.timeOfDay) &&
              now + 30 >= r.value.value.condition.value.nextPostAfter
  {
    PostingChoice(s, now, TimeOfDay(HourOf(now)))
  }

  /** A night override is never chosen at night by a process imported in the
      morning. */
  lemma ImportTimeBucket()
    ensures var night := PostingSettings(true, Some(PostingCondition(Night, 0)), 1, 0, None, None);
            var s := PostingSettings(true, None, 1, 0, None, Some([("late", night)]));
            PostingChoice(s, 22 * 3600, TimeOfDay(HourOf(6 * 3600))) == Ok(Some(s)) &&
            ShouldPostNowAt(s, 22 * 3600) == Ok(Some(night)) && s != night
  {
    var night := PostingSettings(true, Some(PostingCondition(Night, 0)), 1, 0, None, None);
    assert HourOf(6 * 3600) == 6;
    assert HourOf(22 * 3600) == 22;
    assert Contains(Night, Night);
    assert !Contains(Morning, Night) by {
      assert Night[0] == 'n' && Morning[0] == 'm' && Morning[1] == 'o' && Morning[2] == 'r';
      assert !(Night <= Morning);
      assert Morning[1..][0] == 'o';
      assert !(Night <= Morning[1..]);
      assert Morning[2..][0] == 'r';
      assert !(Night <= Morning[2..]);
      assert Morning[1..][1..] == Morning[2..] && Morning[2..][1..] == Morning[3..];
      assert !Contains(Morning[3..], Night) by { NotContainsShort(Morning[3..], Night); }
    }
  }

  lemma NotContainsShort(hay: string, needle: string)
    requires |hay| < |needle|
    ensures !Contains(hay, needle)
  {
  }
}
