/** The per-tag metrics aggregator: `engagement_calculations` of analysis.py.
    Arithmetic is exact (`real`); Python's float rounding is not modelled. */
module Engagement {
  import opened Results

  /** One sampled post. Each count may be absent. `ageMinutes` stands for
      floor((now - taken_at) / 60 s), which the program computes from the clock;
      None models a post without a timestamp. */
  datatype Post = Post(likes: Option<nat>, views: Option<nat>, comments: Option<nat>, ageMinutes: Option<int>)

  /** What the fetch step hands over for one tag: the tag's total post count and the sampled posts. */
  datatype TagData = TagData(postCount: nat, topPosts: seq<Post>)

  /** The fixed record of statistics computed for one tag. */
  datatype Calcs = Calcs(
    userAmount: nat,
    avgLikes: real,
    avgViews: nat,
    avgComments: real,
    likesPerMin: real,
    viewsPerMin: real,
    likeEngagement: real,
    viewsEngagement: real,
    engagementPerMin: real)

  /** The three optional counts of a post. */
  datatype Count = Likes | Views | Comments

  function CountOf(p: Post, field: Count): Option<nat> {
    match field
    case Likes => p.likes
    case Views => p.views
    case Comments => p.comments
  }

  /** The non-null values of one count, in sample order (the list comprehensions of the averages). */
  function Present(posts: seq<Post>, field: Count): (r: seq<nat>)
    ensures |r| <= |posts|
    ensures |r| == 0 <==> forall i :: 0 <= i < |posts| ==> CountOf(posts[i], field).None?
  {
    if posts == [] then []
    else
      var rest := Present(posts[1..], field);
      assert forall i :: 1 <= i < |posts| ==> posts[i] == posts[1..][i - 1];
      match CountOf(posts[0], field)
      case Some(x) => [x] + rest
      case None => rest
  }

  /** A single post contributes its count when it has one, and nothing otherwise. */
  lemma PresentSingle(p: Post, field: Count)
    ensures Present([p], field) == if CountOf(p, field).Some? then [CountOf(p, field).value] else []
  {
    assert [p][1..] == [];
  }

  /** The present values of a concatenation are those of each part, in order. */
  lemma {:induction false} PresentAppend(a: seq<Post>, b: seq<Post>, field: Count)
    ensures Present(a + b, field) == Present(a, field) + Present(b, field)
  {
    if a == [] {
      assert a + b == b;
    } else {
      assert (a + b)[0] == a[0] && (a + b)[1..] == a[1..] + b;
      PresentAppend(a[1..], b, field);
    }
  }

  /** The present values are exactly the counts the posts have. */
  lemma {:induction false} PresentValues(posts: seq<Post>, field: Count)
    ensures forall i :: 0 <= i < |posts| && CountOf(posts[i], field).Some? ==>
              CountOf(posts[i], field).value in Present(posts, field)
    ensures forall x :: x in Present(posts, field) ==>
              exists i :: 0 <= i < |posts| && CountOf(posts[i], field) == Some(x)
  {
    if posts != [] {
      var rest := posts[1..];
      PresentValues(rest, field);
      forall x | x in Present(posts, field)
        ensures exists i :: 0 <= i < |posts| && CountOf(posts[i], field) == Some(x)
      {
        if CountOf(posts[0], field) != Some(x) {
          assert x in Present(rest, field);
          var i :| 0 <= i < |rest| && CountOf(rest[i], field) == Some(x);
          assert posts[i + 1] == rest[i];
        }
      }
      forall i | 0 <= i < |posts| && CountOf(posts[i], field).Some?
        ensures CountOf(posts[i], field).value in Present(posts, field)
      {
        if i > 0 {
          assert posts[i] == rest[i - 1];
        }
      }
    }
  }

  function Sum(xs: seq<nat>): nat {
    if xs == [] then 0 else xs[0] + Sum(xs[1..])
  }

  function Min(xs: seq<nat>): (m: nat)
    requires |xs| > 0
    ensures m in xs && forall x :: x in xs ==> m <= x
  {
    if |xs| == 1 then xs[0]
    else
      var m := Min(xs[1..]);
      assert forall x :: x in xs ==> x == xs[0] || x in xs[1..];
      if xs[0] <= m then xs[0] else m
  }

  function Max(xs: seq<nat>): (m: nat)
    requires |xs| > 0
    ensures m in xs && forall x :: x in xs ==> x <= m
  {
    if |xs| == 1 then xs[0]
    else
      var m := Max(xs[1..]);
      assert forall x :: x in xs ==> x == xs[0] || x in xs[1..];
      if xs[0] >= m then xs[0] else m
  }

  /** The three per-minute rates. */
  datatype Rate = LikesRate | ViewsRate | EngagementRate

  /** Whether a post enters a rate's list comprehension: it has a timestamp and likes
      (views, for the views rate). */
  predicate Counted(p: Post, rate: Rate) {
    p.ageMinutes.Some? && (if rate == ViewsRate then p.views.Some? else p.likes.Some?)
  }

  /** A counted post whose age in minutes is zero: the division raises ZeroDivisionError. */
  predicate DividesByZero(p: Post, rate: Rate) {
    Counted(p, rate) && p.ageMinutes.value == 0
  }

  /** A post that makes some rate divide by zero: it has a zero age and likes or views. */
  predicate ZeroAgeHazard(p: Post) {
    p.ageMinutes == Some(0) && (p.likes.Some? || p.views.Some?)
  }

  /** The value a post contributes to engagement per minute: views/10 when views is
      non-zero and views/10 exceeds likes, else likes; that is, the larger of the two. */
  function Weighted(likes: nat, views: Option<nat>): (w: real)
    ensures w >= likes as real
    ensures views.Some? ==> w >= views.value as real / 10.0
    ensures w == likes as real || (views.Some? && w == views.value as real / 10.0)
  {
    if views.Some? && views.value != 0 && views.value as real / 10.0 > likes as real
    then views.value as real / 10.0
    else likes as real
  }

  function Numerator(p: Post, rate: Rate): real
    requires Counted(p, rate)
  {
    match rate
    case LikesRate => p.likes.value as real
    case ViewsRate => p.views.value as real
    case EngagementRate => Weighted(p.likes.value, p.views)
  }

  /** The sum of numerator / age over the counted posts; fails on the first counted post
      whose age is zero. */
  function RateSum(posts: seq<Post>, rate: Rate): (r: Result<real>)
    ensures r.Err? ==> r.error == ZeroDivision
    ensures r.Err? <==> exists i :: 0 <= i < |posts| && DividesByZero(posts[i], rate)
  {
    if posts == [] then Ok(0.0)
    else
      var rest := RateSum(posts[1..], rate);
      assert forall i :: 1 <= i < |posts| ==> posts[i] == posts[1..][i - 1];
      if !Counted(posts[0], rate) then rest
      else if posts[0].ageMinutes.value == 0 then Err(ZeroDivision)
      else if rest.Err? then rest
      else Ok(Numerator(posts[0], rate) / posts[0].ageMinutes.value as real + rest.value)
  }

  /** What one post adds to a rate sum: numerator / age when it is counted, nothing when it
      is not, and a ZeroDivisionError when it is counted at age zero. */
  lemma RateSumSingle(p: Post, rate: Rate)
    ensures RateSum([p], rate) ==
      if !Counted(p, rate) then Ok(0.0)
      else if p.ageMinutes.value == 0 then Err(ZeroDivision)
      else Ok(Numerator(p, rate) / p.ageMinutes.value as real)
  {
    assert [p][1..] == [];
  }

  /** The rate sum of a concatenation succeeds when both parts do, and is their sum. */
  lemma {:induction false} RateSumAppend(a: seq<Post>, b: seq<Post>, rate: Rate)
    ensures RateSum(a + b, rate).Ok? <==> RateSum(a, rate).Ok? && RateSum(b, rate).Ok?
    ensures RateSum(a + b, rate).Ok? ==>
              RateSum(a + b, rate).value == RateSum(a, rate).value + RateSum(b, rate).value
  {
    if a == [] {
      assert a + b == b;
    } else {
      assert (a + b)[0] == a[0] && (a + b)[1..] == a[1..] + b;
      RateSumAppend(a[1..], b, rate);
    }
  }

  /** `total / n if n > 0 else 0`: the averaging step shared by the averages and the rates. */
  function Mean(total: real, n: nat): (m: real)
    ensures n > 0 ==> m * n as real == total
    ensures n == 0 ==> m == 0.0
    ensures total >= 0.0 ==> m >= 0.0
  {
    if n > 0 then total / n as real else 0.0
  }

  /** `int(sum(xs) / len(xs)) if len(xs) > 0 else 0`: the integer part of the mean. */
  function TruncatedMean(xs: seq<nat>): (m: nat)
    ensures |xs| > 0 ==> m * |xs| <= Sum(xs) < (m + 1) * |xs|
    ensures |xs| == 0 ==> m == 0
  {
    if |xs| > 0 then Sum(xs) / |xs| else 0
  }

  /** `post_count / avg if avg > 0 else 0`: the population-to-average ratio. */
  function Ratio(postCount: nat, avg: real): (r: real)
    ensures avg > 0.0 ==> r * avg == postCount as real && r >= 0.0
    ensures avg <= 0.0 ==> r == 0.0
  {
    if avg > 0.0 then postCount as real / avg else 0.0
  }

  /** engagement_calculations: averages over the sample, per-minute rates and
      population-to-average ratios. avg_likes, avg_comments, likes_per_min and
      engagement_per_min divide by the number of sampled posts, including posts without
      likes; avg_views and views_per_min divide by the number of posts with views. */
  function EngagementCalculations(data: TagData): (r: Result<Calcs>)
    ensures r.Err? <==> exists i :: 0 <= i < |data.topPosts| && ZeroAgeHazard(data.topPosts[i])
    ensures r.Err? ==> r.error == ZeroDivision
    ensures data.topPosts == [] ==> r == Ok(Calcs(data.postCount, 0.0, 0, 0.0, 0.0, 0.0, 0.0, 0.0, 0.0))
    ensures r.Ok? ==> r.value.userAmount == data.postCount
  {
    var posts := data.topPosts;
    var n := |posts|;
    assert forall i :: 0 <= i < n ==>
      (ZeroAgeHazard(posts[i]) <==> DividesByZero(posts[i], LikesRate) || DividesByZero(posts[i], ViewsRate));
    assert forall i :: 0 <= i < n ==>
      (DividesByZero(posts[i], EngagementRate) <==> DividesByZero(posts[i], LikesRate));
    var avgLikes := Mean(Sum(Present(posts, Likes)) as real, n);
    var viewCounts := Present(posts, Views);
    var avgViews := TruncatedMean(viewCounts);
    var avgComments := Mean(Sum(Present(posts, Comments)) as real, n);
    var likesRateSum :- RateSum(posts, LikesRate);
    var viewsRateSum :- RateSum(posts, ViewsRate);
    // The engagement rate counts the same posts as the likes rate, so it cannot fail here.
    var engagementRateSum := RateSum(posts, EngagementRate).value;
    Ok(Calcs(
      userAmount := data.postCount,
      avgLikes := avgLikes,
      avgViews := avgViews,
      avgComments := avgComments,
      likesPerMin := Mean(likesRateSum, n),
      viewsPerMin := Mean(viewsRateSum, |viewCounts|),
      likeEngagement := Ratio(data.postCount, avgLikes),
      viewsEngagement := Ratio(data.postCount, avgViews as real),
      engagementPerMin := Mean(engagementRateSum, n)))
  }

  /** What the fields of a successful aggregation mean: avg_likes and avg_comments times
      the number of sampled posts give the sums of the present counts (a post without likes
      still counts in the denominator); avg_views is the integer part of the mean view count
      and lies between the smallest and the largest; likes_per_min and engagement_per_min
      times the number of sampled posts, and views_per_min times the number of posts with
      views, give their rate sums; each ratio times its average gives the post count, and
      is 0 when the average is 0. */
  lemma AggregateFields(data: TagData, c: Calcs)
    requires EngagementCalculations(data) == Ok(c)
    ensures AveragesMeaning(c, data)
    ensures ViewsMeaning(c, data)
    ensures RatesMeaning(c, data)
    ensures RatiosMeaning(c, data.postCount)
  {
    var posts := data.topPosts;
    AggregateFieldsFormulas(data);
    QuotientFromMean(c.avgLikes, Sum(Present(posts, Likes)) as real, |posts|);
    QuotientFromMean(c.avgComments, Sum(Present(posts, Comments)) as real, |posts|);
    ViewsFromFormula(c.avgViews, Present(posts, Views));
    RatesFromFormulas(data, c);
    RatiosFromFormulas(c, data.postCount);
  }

  /** avg_likes and avg_comments are means over all sampled posts. */
  ghost predicate AveragesMeaning(c: Calcs, data: TagData) {
    var posts := data.topPosts;
    && QuotientOf(c.avgLikes, Sum(Present(posts, Likes)) as real, |posts|) && c.avgLikes >= 0.0
    && QuotientOf(c.avgComments, Sum(Present(posts, Comments)) as real, |posts|) && c.avgComments >= 0.0
  }

  /** avg_views is the integer part of the mean of the present view counts. */
  ghost predicate ViewsMeaning(c: Calcs, data: TagData) {
    FloorMeanOf(c.avgViews, Present(data.topPosts, Views))
  }

  /** q is the integer part of the mean of xs, between its extremes, or 0 for no values. */
  ghost predicate FloorMeanOf(q: nat, xs: seq<nat>) {
    && (|xs| == 0 ==> q == 0)
    && (|xs| > 0 ==> q * |xs| <= Sum(xs) < (q + 1) * |xs|)
    && (|xs| > 0 ==> Min(xs) <= q <= Max(xs))
  }

  /** The three rate sums succeed; likes and engagement per minute are divided by the number
      of sampled posts, views per minute by the number of posts with views. */
  ghost predicate RatesMeaning(c: Calcs, data: TagData) {
    var posts := data.topPosts;
    && RateSum(posts, LikesRate).Ok? && RateSum(posts, ViewsRate).Ok? && RateSum(posts, EngagementRate).Ok?
    && QuotientOf(c.likesPerMin, RateSum(posts, LikesRate).value, |posts|)
    && QuotientOf(c.viewsPerMin, RateSum(posts, ViewsRate).value, |Present(posts, Views)|)
    && QuotientOf(c.engagementPerMin, RateSum(posts, EngagementRate).value, |posts|)
  }

  /** m is total / n, or 0 when n is 0: the meaning of `total / n if n > 0 else 0`, shared by
      the averages and the rates. */
  ghost predicate QuotientOf(m: real, total: real, n: nat) {
    && (n > 0 ==> m * n as real == total)
    && (n == 0 ==> m == 0.0)
  }

  /** Both ratios times their averages give the post count, or are 0. */
  ghost predicate RatiosMeaning(c: Calcs, postCount: nat) {
    && (c.avgLikes > 0.0 ==> c.likeEngagement * c.avgLikes == postCount as real)
    && (c.avgLikes <= 0.0 ==> c.likeEngagement == 0.0)
    && (c.avgViews > 0 ==> c.viewsEngagement * c.avgViews as real == postCount as real)
    && (c.avgViews == 0 ==> c.viewsEngagement == 0.0)
  }

  lemma ViewsFromFormula(q: nat, views: seq<nat>)
    requires q == TruncatedMean(views)
    ensures FloorMeanOf(q, views)
  {
    if |views| > 0 {
      TruncatedMeanBetween(views);
    }
  }

  lemma RatiosFromFormulas(c: Calcs, postCount: nat)
    requires c.likeEngagement == Ratio(postCount, c.avgLikes)
    requires c.viewsEngagement == Ratio(postCount, c.avgViews as real)
    ensures RatiosMeaning(c, postCount)
  {
  }

  lemma RatesFromFormulas(data: TagData, c: Calcs)
    requires EngagementCalculations(data) == Ok(c)
    ensures RatesMeaning(c, data)
  {
    var posts := data.topPosts;
    RatesFormulas(data);
    assert RateSum(posts, LikesRate).Ok? && RateSum(posts, ViewsRate).Ok? && RateSum(posts, EngagementRate).Ok?;
    QuotientFromMean(c.likesPerMin, RateSum(posts, LikesRate).value, |posts|);
    QuotientFromMean(c.viewsPerMin, RateSum(posts, ViewsRate).value, |Present(posts, Views)|);
    QuotientFromMean(c.engagementPerMin, RateSum(posts, EngagementRate).value, |posts|);
  }

  lemma QuotientFromMean(m: real, total: real, n: nat)
    requires m == Mean(total, n)
    ensures QuotientOf(m, total, n)
  {
  }

  lemma RatesFormulas(data: TagData)
    requires EngagementCalculations(data).Ok?
    ensures var c := EngagementCalculations(data).value; var posts := data.topPosts;
      && RateSum(posts, LikesRate).Ok? && RateSum(posts, ViewsRate).Ok? && RateSum(posts, EngagementRate).Ok?
      && c.likesPerMin == Mean(RateSum(posts, LikesRate).value, |posts|)
      && c.viewsPerMin == Mean(RateSum(posts, ViewsRate).value, |Present(posts, Views)|)
      && c.engagementPerMin == Mean(RateSum(posts, EngagementRate).value, |posts|)
  {
  }

  lemma AggregateFieldsFormulas(data: TagData)
    requires EngagementCalculations(data).Ok?
    ensures var c := EngagementCalculations(data).value; var posts := data.topPosts;
      && c.avgLikes == Mean(Sum(Present(posts, Likes)) as real, |posts|)
      && c.avgComments == Mean(Sum(Present(posts, Comments)) as real, |posts|)
      && c.avgViews == TruncatedMean(Present(posts, Views))
      && c.likeEngagement == Ratio(data.postCount, c.avgLikes)
      && c.viewsEngagement == Ratio(data.postCount, c.avgViews as real)
  {
  }

  lemma {:induction false} SumBetween(xs: seq<nat>, lo: nat, hi: nat)
    requires forall x :: x in xs ==> lo <= x <= hi
    ensures |xs| * lo <= Sum(xs) <= |xs| * hi
  {
    if xs != [] {
      var tail := xs[1..];
      assert forall x :: x in tail ==> x in xs;
      assert xs[0] in xs;
      SumBetween(tail, lo, hi);
      MultiplySuccessor(|tail|, lo);
      MultiplySuccessor(|tail|, hi);
    }
  }

  lemma MultiplySuccessor(m: nat, k: nat)
    ensures (m + 1) * k == m * k + k
  {
  }

  /** The truncated mean lies between the smallest and the largest value. */
  lemma {:induction false} TruncatedMeanBetween(xs: seq<nat>)
    requires |xs| > 0
    ensures Min(xs) <= TruncatedMean(xs) <= Max(xs)
  {
    SumBetween(xs, Min(xs), Max(xs));
    QuotientBetween(TruncatedMean(xs), |xs|, Sum(xs), Min(xs), Max(xs));
  }

  /** A quotient of s by n lies between lo and hi when s lies between n * lo and n * hi. */
  lemma QuotientBetween(q: nat, n: nat, s: nat, lo: nat, hi: nat)
    requires q * n <= s < (q + 1) * n
    requires n * lo <= s <= n * hi
    ensures lo <= q <= hi
  {
    if q < lo {
      MultiplyMonotone(q + 1, lo, n);
      assert false;
    }
    if q > hi {
      MultiplyMonotone(hi + 1, q, n);
      MultiplySuccessor(hi, n);
      assert false;
    }
  }

  lemma MultiplyMonotone(a: nat, b: nat, n: nat)
    requires a <= b
    ensures a * n <= b * n
  {
    assert b * n == a * n + (b - a) * n;
  }

  lemma {:induction false} RateSumDominated(posts: seq<Post>)
    requires forall i :: 0 <= i < |posts| && posts[i].ageMinutes.Some? ==> posts[i].ageMinutes.value > 0
    ensures RateSum(posts, LikesRate).Ok? && RateSum(posts, EngagementRate).Ok? && RateSum(posts, ViewsRate).Ok?
    ensures 0.0 <= RateSum(posts, LikesRate).value <= RateSum(posts, EngagementRate).value
    ensures 0.0 <= RateSum(posts, ViewsRate).value
  {
    if posts != [] {
      var p := posts[0];
      assert forall i :: 1 <= i < |posts| ==> posts[i] == posts[1..][i - 1];
      RateSumDominated(posts[1..]);
      if p.ageMinutes.Some? {
        var age := p.ageMinutes.value as real;
        assert age > 0.0;
        if p.views.Some? {
          DivideMonotone(0.0, p.views.value as real, age);
        }
        if p.likes.Some? {
          DivideMonotone(p.likes.value as real, Weighted(p.likes.value, p.views), age);
        }
      }
    }
  }

  lemma DivideMonotone(a: real, b: real, d: real)
    requires 0.0 <= a <= b && d > 0.0
    ensures 0.0 <= a / d <= b / d
  {
    assert b / d - a / d == (b - a) / d;
  }

  /** With every timestamped post at least a minute old nothing fails, every rate is
      non-negative, and engagement per minute is at least likes per minute. */
  lemma EngagementAtLeastLikesRate(data: TagData)
    requires forall i :: 0 <= i < |data.topPosts| && data.topPosts[i].ageMinutes.Some? ==>
               data.topPosts[i].ageMinutes.value > 0
    ensures EngagementCalculations(data).Ok?
    ensures var c := EngagementCalculations(data).value;
      0.0 <= c.likesPerMin <= c.engagementPerMin && 0.0 <= c.viewsPerMin
  {
    var posts := data.topPosts;
    RateSumDominated(posts);
    if |posts| > 0 {
      DivideMonotone(RateSum(posts, LikesRate).value, RateSum(posts, EngagementRate).value, |posts| as real);
    }
  }

  /** One post, ten minutes old, with 10 likes, 100 views and 2 comments, for a tag of 100 posts. */
  lemma OnePostScenario()
    ensures EngagementCalculations(TagData(100, [Post(Some(10), Some(100), Some(2), Some(10))]))
         == Ok(Calcs(100, 10.0, 100, 2.0, 1.0, 10.0, 10.0, 1.0, 1.0))
  {
    var posts := [Post(Some(10), Some(100), Some(2), Some(10))];
    assert posts[1..] == [];
  }
}
