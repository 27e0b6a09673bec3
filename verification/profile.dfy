/** The student profile page (src/pages/StudentProfile.tsx): the lookup of
    the student named by the route, the avatar initials, the rating colour
    ladder, the heatmap cell classes, the period selector and the rating
    distribution chart's data. */
module Profile {
  import opened Common
  import opened Text
  import opened Store
  import opened Requests

  // ---------------------------------------------------------------------------
  // the student named by the route

  /** `students.find(s => s.id === id)`: the first student with the route's id;
      a route without an id finds nobody. */
  function FindStudent(students: seq<Student>, id: Option<string>): (r: Option<Student>)
    ensures r.Some? ==> id.Some? && r.value in students && r.value.id == id.value
    ensures r.Some? ==> exists i :: 0 <= i < |students| && students[i] == r.value
                                    && forall j :: 0 <= j < i ==> students[j].id != id.value
    ensures r.None? <==> id.None? || forall i :: 0 <= i < |students| ==> students[i].id != id.value
    decreases |students|
  {
    if id.None? || students == [] then None
    else if students[0].id == id.value then Some(students[0])
    else
      var rest := FindStudent(students[1..], id);
      assert rest.Some? ==> exists i :: 1 <= i < |students| && students[i] == rest.value
                                        && forall j :: 0 <= j < i ==> students[j].id != id.value by {
        if rest.Some? {
          var k :| 0 <= k < |students[1..]| && students[1..][k] == rest.value
                   && forall j :: 0 <= j < k ==> students[1..][j].id != id.value;
          assert students[k + 1] == rest.value;
        }
      }
      rest
  }

  /** The not-found view is shown. */
  predicate ShowsNotFound(students: seq<Student>, id: Option<string>) {
    FindStudent(students, id).None?
  }

  /** The profile shown does not depend on students before it or after it that
      carry other ids: adding such students anywhere leaves the lookup as it
      was. */
  lemma {:induction false} FindIgnoresOtherIds(xs: seq<Student>, ys: seq<Student>, id: string)
    requires forall i :: 0 <= i < |xs| ==> xs[i].id != id
    ensures FindStudent(xs + ys, Some(id)) == FindStudent(ys, Some(id))
    decreases |xs|
  {
    if xs == [] {
      assert xs + ys == ys;
    } else {
      assert (xs + ys)[0] == xs[0];
      assert (xs + ys)[1..] == xs[1..] + ys;
      FindIgnoresOtherIds(xs[1..], ys, id);
    }
  }

  // ---------------------------------------------------------------------------
  // initials

  /** `n[0]` joined by `join('')`: an empty part contributes nothing. */
  function FirstChar(part: string): (r: string)
    ensures |r| <= 1 && (part != [] ==> r == [part[0]])
  {
    if part == [] then [] else [part[0]]
  }

  function Firsts(parts: seq<string>): seq<string> {
    seq(|parts|, i requires 0 <= i < |parts| => FirstChar(parts[i]))
  }

  /** `name.split(' ').map(n => n[0]).join('')`. */
  function Initials(name: string): (r: string)
    ensures ' ' !in name ==> r == FirstChar(name)
  {
    Join(Firsts(SplitOn(name, ' ')), "")
  }

  /** The initials are the characters that start a word, a word being a run of
      non-spaces: every character that follows a space or the start of the
      name and is not itself a space. */
  lemma {:induction false} InitialsAreWordStarts(name: string)
    ensures Initials(name) == Heads(name, IsSpace, true)
    decreases |name|
  {
    if ' ' !in name {
      HeadsOfWord(name, IsSpace, true);
    } else {
      var i := IndexOf(name, ' ');
      var word := name[..i];
      var rest := name[i + 1..];
      var tail := SplitOn(rest, ' ');
      assert SplitOn(name, ' ') == [word] + tail;
      calc {
        Initials(name);
        Join(Firsts([word] + tail), "");
        { JoinFirstsCons(word, tail); }
        FirstChar(word) + Initials(rest);
        { InitialsAreWordStarts(rest); }
        FirstChar(word) + Heads(rest, IsSpace, true);
        { HeadsAfterWord(word, rest); }
        Heads(word + ([' '] + rest), IsSpace, true);
        { assert name == word + ([' '] + rest); }
        Heads(name, IsSpace, true);
      }
    }
  }

  lemma JoinFirstsCons(word: string, tail: seq<string>)
    requires |tail| >= 1
    ensures Join(Firsts([word] + tail), "") == FirstChar(word) + Join(Firsts(tail), "")
  {
    var fs := Firsts([word] + tail);
    assert fs == [FirstChar(word)] + Firsts(tail);
    assert fs[1..] == Firsts(tail);
  }

  lemma HeadsAfterWord(word: string, rest: string)
    requires ' ' !in word
    ensures Heads(word + ([' '] + rest), IsSpace, true) == FirstChar(word) + Heads(rest, IsSpace, true)
  {
    assert forall k :: 0 <= k < |word| ==> !IsSpace(word[k]);
    HeadsOfWord(word, IsSpace, true);
    HeadsConcat(word, [' '] + rest, IsSpace, true);
    assert ([' '] + rest)[1..] == rest;
  }

  // ---------------------------------------------------------------------------
  // rating colours

  /** `getRatingColor`: the colour of the highest threshold the rating reaches. */
  function GetRatingColor(rating: int): (colour: string)
    ensures colour in RatingPalette
  {
    if rating >= 2400 then "text-orange-700"
    else if rating >= 2100 then "text-orange-600"
    else if rating >= 1900 then "text-purple-600"
    else if rating >= 1600 then "text-blue-600"
    else if rating >= 1400 then "text-cyan-600"
    else if rating >= 1200 then "text-green-600"
    else "text-orange-200"
  }

  /** The colours from the lowest tier to the highest. */
  const RatingPalette: seq<string> :=
    ["text-orange-200", "text-green-600", "text-cyan-600", "text-blue-600",
     "text-purple-600", "text-orange-600", "text-orange-700"]

  const RatingThresholds: seq<int> := [1200, 1400, 1600, 1900, 2100, 2400]

  /** How many of the thresholds `x` reaches. */
  function Reached(thresholds: seq<int>, x: int): (n: nat)
    ensures n <= |thresholds|
    decreases |thresholds|
  {
    if thresholds == [] then 0
    else (if x >= thresholds[0] then 1 else 0) + Reached(thresholds[1..], x)
  }

  /** Reaching thresholds is monotone in the value. */
  lemma {:induction false} ReachedMonotone(thresholds: seq<int>, x: int, y: int)
    requires x <= y
    ensures Reached(thresholds, x) <= Reached(thresholds, y)
    decreases |thresholds|
  {
    if thresholds != [] {
      ReachedMonotone(thresholds[1..], x, y);
    }
  }

  function RatingTier(rating: int): nat {
    Reached(RatingThresholds, rating)
  }

  /** The ladder is the palette indexed by the number of thresholds reached,
      so a higher rating never gets a lower tier's colour. */
  lemma RatingColorByTier(rating: int, higher: int)
    requires rating <= higher
    ensures RatingTier(rating) < |RatingPalette|
    ensures GetRatingColor(rating) == RatingPalette[RatingTier(rating)]
    ensures RatingTier(rating) <= RatingTier(higher)
  {
    var t := RatingThresholds;
    assert t[1..][1..][1..][1..][1..][1..] == [];
    ReachedMonotone(t, rating, higher);
  }

  // ---------------------------------------------------------------------------
  // heatmap cells

  const HeatClasses: seq<string> :=
    ["color-empty", "color-github-1", "color-github-2", "color-github-3", "color-github-4"]

  /** `classForValue`: no value or a zero count is empty; then below 2, below
      4, below 6 and the rest. */
  function HeatmapClass(count: Option<int>): (cls: string)
    ensures cls in HeatClasses
  {
    if count.None? || count.value == 0 then "color-empty"
    else if count.value < 2 then "color-github-1"
    else if count.value < 4 then "color-github-2"
    else if count.value < 6 then "color-github-3"
    else "color-github-4"
  }

  /** The shade as a number: 0 for an empty cell, otherwise one more than the
      number of the thresholds 2, 4 and 6 the count reaches. */
  function HeatLevel(count: Option<int>): nat {
    if count.None? || count.value == 0 then 0 else 1 + Reached([2, 4, 6], count.value)
  }

  /** The class is the shade's name, and among non-empty cells more
      submissions never give a lighter shade. */
  lemma HeatmapByLevel(a: int, b: int)
    requires a != 0 && b != 0 && a <= b
    ensures HeatLevel(Some(a)) < |HeatClasses| && HeatmapClass(Some(a)) == HeatClasses[HeatLevel(Some(a))]
    ensures HeatLevel(Some(a)) <= HeatLevel(Some(b))
    ensures HeatmapClass(None) == HeatClasses[HeatLevel(None)]
  {
    var t: seq<int> := [2, 4, 6];
    assert t[1..][1..][1..] == [];
    ReachedMonotone(t, a, b);
  }

  // ---------------------------------------------------------------------------
  // the problem period and the rating distribution

  /** `getCurrentProblemStats`: nothing before the statistics arrive; then the
      7-, 30- or 90-day window, and the 30-day window for any other filter. */
  function GetCurrentProblemStats(stats: Option<TimePeriodStats>, filter: int): (r: Option<ProblemStats>)
    ensures r.None? <==> stats.None?
    ensures stats.Some? && filter == 7 ==> r.value == stats.value.days7
    ensures stats.Some? && filter == 90 ==> r.value == stats.value.days90
    ensures stats.Some? && filter != 7 && filter != 90 ==> r.value == stats.value.days30
  {
    match stats
    case None => None
    case Some(s) =>
      if filter == 7 then Some(s.days7)
      else if filter == 30 then Some(s.days30)
      else if filter == 90 then Some(s.days90)
      else Some(s.days30)
  }

  /** The profile's selector agrees with the gateway's `getTimePeriodData` on
      the three filters the page offers, queried with the filter's decimal
      text; outside them the page falls back to 30 days where the gateway
      gives nothing. */
  lemma SelectorsAgree(stats: Option<TimePeriodStats>, filter: int)
    ensures filter in {7, 30, 90} ==> GetCurrentProblemStats(stats, filter) == GetTimePeriodData(stats, IntToString(filter))
    ensures stats.Some? && filter !in {7, 30, 90} ==> GetCurrentProblemStats(stats, filter) == Some(stats.value.days30)
  {
    assert IntToString(7) == "7";
    assert NatToString(3) == "3" && NatToString(9) == "9";
    assert IntToString(30) == "30";
    assert IntToString(90) == "90";
  }

  /** One bar of the distribution chart. */
  datatype Bucket = Bucket(range: string, count: int)

  /** The eighteen buckets in the chart's fixed order. */
  function AllBuckets(d: RatingDistribution): (r: seq<Bucket>)
    ensures |r| == 18
  {
    [Bucket("800", d.rating800), Bucket("900", d.rating900), Bucket("1000", d.rating1000),
     Bucket("1100", d.rating1100), Bucket("1200", d.rating1200), Bucket("1300", d.rating1300),
     Bucket("1400", d.rating1400), Bucket("1500", d.rating1500), Bucket("1600", d.rating1600),
     Bucket("1700", d.rating1700), Bucket("1800", d.rating1800), Bucket("1900", d.rating1900),
     Bucket("2000", d.rating2000), Bucket("2100", d.rating2100), Bucket("2200", d.rating2200),
     Bucket("2300", d.rating2300), Bucket("2400+", d.rating2400Plus), Bucket("Unknown", d.ratingUnknown)]
  }

  predicate NonEmpty(b: Bucket) {
    b.count > 0
  }

  /** `getRatingDistribution`: nothing before the statistics arrive; then the
      buckets with a positive count, in the fixed order. */
  function GetRatingDistribution(current: Option<ProblemStats>): (r: seq<Bucket>)
    ensures current.None? ==> r == []
    ensures |r| <= 18
    ensures forall i :: 0 <= i < |r| ==> r[i].count > 0
    ensures current.Some? ==>
              && (forall i :: 0 <= i < |r| ==> r[i] in AllBuckets(current.value.ratingDistribution))
              && (forall b :: b in AllBuckets(current.value.ratingDistribution) && b.count > 0 ==> b in r)
  {
    match current
    case None => []
    case Some(s) => Filter(AllBuckets(s.ratingDistribution), NonEmpty)
  }

  /** The chart keeps the fixed order: the bars drawn from the buckets up to
      a cut are followed by those drawn from the buckets after it; and when
      every bucket is non-empty, all eighteen are drawn. */
  lemma DistributionKeepsOrder(s: ProblemStats, cut: nat)
    requires cut <= 18
    ensures var all := AllBuckets(s.ratingDistribution);
            GetRatingDistribution(Some(s)) == Filter(all[..cut], NonEmpty) + Filter(all[cut..], NonEmpty)
    ensures (forall b :: b in AllBuckets(s.ratingDistribution) ==> b.count > 0) ==>
              GetRatingDistribution(Some(s)) == AllBuckets(s.ratingDistribution)
  {
    var all := AllBuckets(s.ratingDistribution);
    assert all == all[..cut] + all[cut..];
    FilterConcat(all[..cut], all[cut..], NonEmpty);
    FilterKeepsAll(all, NonEmpty);
  }
}
