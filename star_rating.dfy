/** The star row under a post: the stored average (0..100) turned back into a number of filled
    stars out of five, and the caption beside it. */
module StarRating {
  import opened Text
  import opened Schema
  import opened Storage

  const StarCount := 5

  /** `Math.round(averageRating / 20)`: the stored average on the scale of stars, a half rounded
      up. */
  function DisplayRating(averageRating: int): (d: int)
    ensures 20 * d - 10 <= averageRating < 20 * d + 10
  {
    (averageRating + 10) / 20
  }

  /** `Array.from({ length: 5 }, (_, i) => i < displayRating)`: which of the five stars are
      filled. */
  function Stars(averageRating: int): (stars: seq<bool>)
    ensures |stars| == StarCount
  {
    var d := DisplayRating(averageRating);
    seq(StarCount, i => i < d)
  }

  /** The number of filled stars in a row. */
  function FilledCount(stars: seq<bool>): nat {
    if stars == [] then 0
    else FilledCount(stars[..|stars| - 1]) + (if stars[|stars| - 1] then 1 else 0)
  }

  function Clamp(x: int, lo: int, hi: int): int
    requires lo <= hi
  {
    if x < lo then lo else if x > hi then hi else x
  }

  /** The filled stars come first: a filled star has only filled stars to its left. */
  lemma FilledStarsFormPrefix(averageRating: int, i: int, j: int)
    requires 0 <= i <= j < StarCount
    ensures Stars(averageRating)[j] ==> Stars(averageRating)[i]
  {
  }

  /** In a row of `n` stars of which those left of `d` are filled, `d` cut to 0..n are filled. */
  lemma {:induction false} FilledCountOfRow(n: nat, d: int)
    ensures FilledCount(seq(n, i => i < d)) == Clamp(d, 0, n)
  {
    if n > 0 {
      var row := seq(n, i => i < d);
      assert row[..n - 1] == seq(n - 1, i => i < d);
      FilledCountOfRow(n - 1, d);
    }
  }

  /** The row shows the displayed rating as filled stars, cut to 0..5. */
  lemma FilledStarsShowDisplayRating(averageRating: int)
    ensures FilledCount(Stars(averageRating)) == Clamp(DisplayRating(averageRating), 0, StarCount)
  {
    FilledCountOfRow(StarCount, DisplayRating(averageRating));
  }

  /** A higher average never shows fewer stars. */
  lemma DisplayRatingMonotone(a: int, b: int)
    requires a <= b
    ensures DisplayRating(a) <= DisplayRating(b)
  {
    var da, db := DisplayRating(a), DisplayRating(b);
    assert 20 * da - 10 <= a && b < 20 * db + 10;
  }

  /** A higher average never fills fewer stars. */
  lemma FilledStarsMonotone(a: int, b: int)
    requires a <= b
    ensures FilledCount(Stars(a)) <= FilledCount(Stars(b))
  {
    DisplayRatingMonotone(a, b);
    FilledStarsShowDisplayRating(a);
    FilledStarsShowDisplayRating(b);
  }

  /** Averages on the stored scale 0..100 display as 0 to 5 stars, averages below 10
      showing none. */
  lemma DisplayRatingInRange(averageRating: int)
    requires 0 <= averageRating <= 100
    ensures 0 <= DisplayRating(averageRating) <= StarCount
    ensures DisplayRating(averageRating) == 0 <==> averageRating < 10
  {
  }

  /** A post rated once with `v` stars shows exactly `v` filled stars. */
  lemma SingleRatingShowsItsStars(v: int)
    requires 1 <= v <= 5
    ensures DisplayRating(RoundedAverage(v, 1)) == v
    ensures FilledCount(Stars(RoundedAverage(v, 1))) == v
  {
    SingleRatingAverage(v);
    FilledStarsShowDisplayRating(20 * v);
  }

  /** The displayed rating is within about half a star of the true mean `total / count`:
      `|total / count - d| < 21 / 40`. Rounding twice (to the stored percentage, then to stars)
      can carry it past one half. */
  lemma DisplayedNearMean(total: int, count: int)
    requires count > 0
    ensures var d := DisplayRating(RoundedAverage(total, count));
            40 * count * d - 21 * count <= 40 * total < 40 * count * d + 19 * count
  {
    var avg := RoundedAverage(total, count);
    var d := DisplayRating(avg);
    MulMonotone(2 * count, 20 * d - 10, avg);
    MulMonotone(2 * count, avg, 20 * d + 9);
    assert 2 * count * (20 * d - 10) == 40 * count * d - 20 * count;
    assert 2 * count * (20 * d + 9) == 40 * count * d + 18 * count;
  }

  /** The double rounding at work: 40 ratings summing to 99 (a mean of 2.475 stars) are
      stored as 50 and shown as 3 stars. */
  lemma DoubleRoundingExample()
    ensures RoundedAverage(99, 40) == 50
    ensures DisplayRating(RoundedAverage(99, 40)) == 3
  {
  }

  /** When every stored rating is a star value, a post in step with the ratings table displays
      1 to 5 stars when rated and none when not. */
  lemma SyncedPostDisplay(posts: seq<Post>, ratings: seq<Rating>, p: Post)
    requires Synced(posts, ratings) && p in posts
    requires AllStarValues(ratings)
    ensures p.ratingCount == 0 ==> DisplayRating(p.averageRating) == 0
    ensures p.ratingCount > 0 ==> 1 <= DisplayRating(p.averageRating) <= StarCount
  {
    var rs := Where(ratings, ForPost(p.id));
    assert AggregatesMatch(p, rs);
    if rs != [] {
      forall i | 0 <= i < |rs|
        ensures 1 <= rs[i].rating <= 5
      {
        assert rs[i] in rs;
        var j :| 0 <= j < |ratings| && ratings[j] == rs[i];
      }
      AverageInStoredRange(rs);
    }
  }

  /** The word after the count: singular for exactly one rating, plural otherwise (zero
      included). */
  function RatingLabel(ratingCount: int): (word: string)
    ensures word == "rating" <==> ratingCount == 1
    ensures word == "ratings" <==> ratingCount != 1
  {
    if ratingCount == 1 then "rating" else "ratings"
  }

  /** `displayRating.toFixed(1)`: the whole number followed by `.0`. */
  function ShownRating(averageRating: int): (s: string)
    ensures |s| >= 3 && s[|s| - 2..] == ".0"
  {
    IntToText(DisplayRating(averageRating)) + ".0"
  }

  /** Different displayed ratings are shown as different texts. */
  lemma ShownRatingDistinguishes(a: int, b: int)
    requires ShownRating(a) == ShownRating(b)
    ensures DisplayRating(a) == DisplayRating(b)
  {
    var sa, sb := IntToText(DisplayRating(a)), IntToText(DisplayRating(b));
    assert sa == ShownRating(a)[..|ShownRating(a)| - 2];
    assert sb == ShownRating(b)[..|ShownRating(b)| - 2];
    IntToTextInjective(DisplayRating(a), DisplayRating(b));
  }

  /** `shown (count word)`, joined so that each part can be read back off the whole. */
  function Joined(shown: string, count: string, word: string): (c: string)
    ensures |c| == |shown| + |count| + |word| + 4
    ensures c[..|shown|] == shown
    ensures c[|shown|..|shown| + 2] == " ("
    ensures c[|shown| + 2..|c| - |word| - 2] == count
    ensures c[|c| - |word| - 2..] == " " + word + ")"
  {
    var front, back := shown + " (" + count, " " + word + ")";
    assert (front + back)[..|front|] == front && (front + back)[|front|..] == back;
    assert (front + back)[|shown| + 2..|front|] == front[|shown| + 2..];
    front + back
  }

  /** The caption `"<d>.0 (<count> rating[s])"`: the shown rating, then the count's decimal
      text in parentheses, followed by the label. */
  function Caption(averageRating: int, ratingCount: int): (c: string)
    ensures var shown, word := ShownRating(averageRating), RatingLabel(ratingCount);
            |c| == |shown| + |IntToText(ratingCount)| + |word| + 4 &&
            c[..|shown|] == shown &&
            c[|shown|..|shown| + 2] == " (" &&
            c[|shown| + 2..|c| - |word| - 2] == IntToText(ratingCount) &&
            c[|c| - |word| - 2..] == " " + word + ")"
  {
    Joined(ShownRating(averageRating), IntToText(ratingCount), RatingLabel(ratingCount))
  }

  /** The count in the caption reads back as the post's rating count. */
  lemma CaptionShowsCount(averageRating: int, ratingCount: nat)
    ensures var c, shown, word := Caption(averageRating, ratingCount), ShownRating(averageRating),
                                  RatingLabel(ratingCount);
            DigitsValue(c[|shown| + 2..|c| - |word| - 2]) == ratingCount
  {
    NatToTextRoundTrip(ratingCount);
  }
}
