/** The dashboard server actions: the contribution calendar flattened into
    days with an intensity level, the four headline counters, and the activity
    of the last six months bucketed by month. Every external call may throw;
    each action catches and answers with its fallback value. */
module DashboardActions {
  import opened Records

  /** An external call's reply: a value, or a thrown error. */
  datatype Reply<T> = Returned(value: T) | Raised

  datatype Day = Day(date: string, contributionCount: int)

  datatype Week = Week(contributionDays: seq<Day>)

  /** The calendar as the provider returns it; both totals are passed through unread. */
  datatype Calendar = Calendar(weeks: seq<Week>, totalContribution: Option<int>, totalContributions: Option<int>)

  datatype Contribution = Contribution(date: string, count: int, level: int)

  datatype ContributionStats = ContributionStats(contributions: seq<Contribution>, totalContributions: Option<int>)

  // ---------------------------------------------------------------------
  // getContributionStats

  /** `Math.min(4, Math.floor(count / 3))`; for a positive divisor Dafny's `/`
      rounds down like `Math.floor`, negative counts included. */
  function Level(count: int): (l: int)
    ensures l <= 4
    ensures count >= 0 ==> 0 <= l && 3 * l <= count
  {
    if count / 3 < 4 then count / 3 else 4
  }

  /** A non-negative count has a level from 0 to 4: 0 to 2 contributions give 0,
      3 to 5 give 1, ..., 12 and more give 4; more contributions never give a lower level. */
  lemma LevelBands(count: int, more: int)
    requires 0 <= count <= more
    ensures 0 <= Level(count) <= 4
    ensures Level(count) < 4 ==> 3 * Level(count) <= count < 3 * Level(count) + 3
    ensures Level(count) == 4 <==> count >= 12
    ensures Level(count) <= Level(more)
  {
  }

  /** The days of the weeks, week after week, each week's days in order. */
  function AllDays(weeks: seq<Week>): (r: seq<Day>)
    ensures forall d :: d in r <==> exists w :: w in weeks && d in w.contributionDays
    decreases |weeks|
  {
    if |weeks| == 0 then []
    else AllDays(weeks[..|weeks| - 1]) + weeks[|weeks| - 1].contributionDays
  }

  lemma {:induction false} AllDaysConcat(a: seq<Week>, b: seq<Week>)
    ensures AllDays(a + b) == AllDays(a) + AllDays(b)
    decreases |b|
  {
    if |b| == 0 {
      assert a + b == a;
    } else {
      assert (a + b)[..|a + b| - 1] == a + b[..|b| - 1];
      AllDaysConcat(a, b[..|b| - 1]);
    }
  }

  /** Day `j` of week `i` is the day that follows all days of the earlier weeks
      and the first `j` days of its own week. */
  lemma AllDaysPosition(weeks: seq<Week>, i: nat, j: nat)
    requires i < |weeks| && j < |weeks[i].contributionDays|
    ensures var before := |AllDays(weeks[..i])|;
      before + j < |AllDays(weeks)| && AllDays(weeks)[before + j] == weeks[i].contributionDays[j]
  {
    assert weeks == weeks[..i] + ([weeks[i]] + weeks[i + 1..]);
    AllDaysConcat(weeks[..i], [weeks[i]] + weeks[i + 1..]);
    AllDaysConcat([weeks[i]], weeks[i + 1..]);
    assert AllDays([weeks[i]]) == weeks[i].contributionDays by {
      assert [weeks[i]][..0] == [];
    }
  }

  /** The flattened contributions: one per day, in order, with its date, count and level. */
  function Contributions(weeks: seq<Week>): (r: seq<Contribution>)
    ensures |r| == |AllDays(weeks)|
    ensures forall k :: 0 <= k < |r| ==>
      var d := AllDays(weeks)[k]; r[k] == Contribution(d.date, d.contributionCount, Level(d.contributionCount))
  {
    var days := AllDays(weeks);
    seq(|days|, k requires 0 <= k < |days| => Contribution(days[k].date, days[k].contributionCount, Level(days[k].contributionCount)))
  }

  /** `getContributionStats`: `null` without a session, when a call throws, or
      when there is no calendar; otherwise the flattened contributions. The
      calendar reply stands for every call before it (token, user, calendar). */
  function ContributionStatsOf(session: Option<UserId>, calendar: Reply<Option<Calendar>>): (r: Option<ContributionStats>)
    ensures r.Some? <==> session.Some? && calendar.Returned? && calendar.value.Some?
    ensures r.Some? ==>
      && r.value.contributions == Contributions(calendar.value.value.weeks)
      && r.value.totalContributions == calendar.value.value.totalContribution
  {
    if session.None? || calendar.Raised? || calendar.value.None? then None
    else
      var cal := calendar.value.value;
      Some(ContributionStats(Contributions(cal.weeks), cal.totalContribution))
  }

  // ---------------------------------------------------------------------
  // getDashboardStats

  datatype DashboardStats = DashboardStats(totalCommits: int, totalPRs: int, totalReviews: int, totalRepos: int)

  const ZeroStats := DashboardStats(0, 0, 0, 0)

  /** The fixed values the action reports for connected repositories and AI reviews. */
  const MockRepos := 48
  const MockReviews := 44

  /** `getDashboardStats`: `prTotal` is the `total_count` of the pull-request
      search. Any failure gives four zeros; otherwise the commits are the
      calendar's `totalContributions`, or 0 when there is no calendar or no total. */
  function DashboardStatsOf(session: Option<UserId>, calendar: Reply<Option<Calendar>>, prTotal: Reply<int>): (r: DashboardStats)
    ensures session.None? || calendar.Raised? || prTotal.Raised? ==> r == ZeroStats
    ensures session.Some? && calendar.Returned? && prTotal.Returned? ==>
      && r.totalPRs == prTotal.value && r.totalRepos == MockRepos && r.totalReviews == MockReviews
      && r.totalCommits == (if calendar.value.Some? && calendar.value.value.totalContributions.Some?
                            then calendar.value.value.totalContributions.value else 0)
  {
    if session.None? || calendar.Raised? || prTotal.Raised? then ZeroStats
    else
      var commits :=
        if calendar.value.None? then 0
        else if calendar.value.value.totalContributions.None? then 0
        else calendar.value.value.totalContributions.value;
      DashboardStats(commits, prTotal.value, MockReviews, MockRepos)
  }

  // ---------------------------------------------------------------------
  // getMonthlyActivity

  /** A calendar month: `month` is 0 for January ... 11 for December. */
  datatype MonthKey = MonthKey(year: int, month: int)

  function MonthIndex(k: MonthKey): int {
    k.year * 12 + k.month
  }

  /** The month `t` months after January of year 0; month overflow and underflow
      carry into the year as `new Date(year, month, 1)` does. */
  function MonthAt(t: int): (k: MonthKey)
    ensures 0 <= k.month < 12 && MonthIndex(k) == t
  {
    MonthKey(t / 12, t % 12)
  }

  /** A month in range is the month at its own index. */
  lemma MonthAtIndex(k: MonthKey)
    requires 0 <= k.month < 12
    ensures MonthAt(MonthIndex(k)) == k
  {
    var t := MonthIndex(k);
    var q, r := t / 12, t % 12;
    assert q * 12 + r == k.year * 12 + k.month;
    assert (q - k.year) * 12 == k.month - r;
  }

  /** The keys initialised by the loop `for (i = 5; i >= 0; i--)`: the six months
      ending with `now`, oldest first, one month apart, all distinct. */
  function LastSixMonths(now: MonthKey): (keys: seq<MonthKey>)
    requires 0 <= now.month < 12
    ensures |keys| == 6 && keys[5] == now
    ensures forall i :: 0 <= i < 6 ==> 0 <= keys[i].month < 12 && MonthIndex(keys[i]) == MonthIndex(now) - 5 + i
    ensures forall i, j :: 0 <= i < j < 6 ==> MonthIndex(keys[i]) < MonthIndex(keys[j]) && keys[i] != keys[j]
  {
    MonthAtIndex(now);
    var keys := seq(6, i requires 0 <= i < 6 => MonthAt(MonthIndex(now) - 5 + i));
    assert forall i :: 0 <= i < 6 ==> keys[i] == MonthAt(MonthIndex(now) - 5 + i);
    keys
  }

  datatype PullRequest = PullRequest(createdAt: string)

  datatype MonthlyStats = MonthlyStats(activity: int, prs: nat, reviews: nat)

  /** One bar of the chart: a month and its three counters. */
  datatype MonthlyRow = MonthlyRow(name: MonthKey, activity: int, prs: nat, reviews: nat)

  /** The sum of the contribution counts of the days that fall in month `key`. */
  function ActivityIn(days: seq<Day>, monthOf: string -> MonthKey, key: MonthKey): int
    decreases |days|
  {
    if |days| == 0 then 0
    else
      var d := days[|days| - 1];
      ActivityIn(days[..|days| - 1], monthOf, key) + (if monthOf(d.date) == key then d.contributionCount else 0)
  }

  /** The months the pull requests were opened in. */
  function PrMonths(prs: seq<PullRequest>, monthOf: string -> MonthKey): (months: seq<MonthKey>)
    ensures |months| == |prs|
    ensures forall i :: 0 <= i < |prs| ==> months[i] == monthOf(prs[i].createdAt)
  {
    seq(|prs|, i requires 0 <= i < |prs| => monthOf(prs[i].createdAt))
  }

  /** How many of `months` are `key`. */
  function CountIn(months: seq<MonthKey>, key: MonthKey): nat
    decreases |months|
  {
    if |months| == 0 then 0
    else CountIn(months[..|months| - 1], key) + (if months[|months| - 1] == key then 1 else 0)
  }

  /** How many of `months` are one of `keys`. */
  function CountInWindow(months: seq<MonthKey>, keys: seq<MonthKey>): nat
    decreases |months|
  {
    if |months| == 0 then 0
    else CountInWindow(months[..|months| - 1], keys) + (if months[|months| - 1] in keys then 1 else 0)
  }

  /** The sum over the months `keys` of their counters. */
  function CountSum(months: seq<MonthKey>, keys: seq<MonthKey>): nat
    decreases |keys|
  {
    if |keys| == 0 then 0
    else CountSum(months, keys[..|keys| - 1]) + CountIn(months, keys[|keys| - 1])
  }

  ghost predicate Distinct(keys: seq<MonthKey>) {
    forall i, j :: 0 <= i < j < |keys| ==> keys[i] != keys[j]
  }

  lemma {:induction false} CountSumEmpty(keys: seq<MonthKey>)
    ensures CountSum([], keys) == 0
    decreases |keys|
  {
    if |keys| > 0 {
      CountSumEmpty(keys[..|keys| - 1]);
    }
  }

  /** One more month adds one to the sum over distinct months when it is one of them, and nothing otherwise. */
  lemma {:induction false} CountSumStep(months: seq<MonthKey>, m: MonthKey, keys: seq<MonthKey>)
    requires Distinct(keys)
    ensures CountSum(months + [m], keys) == CountSum(months, keys) + (if m in keys then 1 else 0)
    decreases |keys|
  {
    if |keys| > 0 {
      var init := keys[..|keys| - 1];
      var last := keys[|keys| - 1];
      assert Distinct(init);
      CountSumStep(months, m, init);
      assert (months + [m])[..|months + [m]| - 1] == months;
      assert m in keys <==> m in init || m == last;
      assert last !in init;
    }
  }

  /** Each pull request or review dated in one of the six months adds exactly
      one to exactly one counter, and the others are ignored: the counters add
      up to the number of items in the window. */
  lemma {:induction false} CountedOnce(months: seq<MonthKey>, keys: seq<MonthKey>)
    requires Distinct(keys)
    ensures CountSum(months, keys) == CountInWindow(months, keys)
    decreases |months|
  {
    if |months| == 0 {
      CountSumEmpty(keys);
    } else {
      var init := months[..|months| - 1];
      CountedOnce(init, keys);
      assert init + [months[|months| - 1]] == months;
      CountSumStep(init, months[|months| - 1], keys);
    }
  }

  /** The row of month `key`. */
  function RowFor(key: MonthKey, days: seq<Day>, prMonths: seq<MonthKey>, reviewMonths: seq<MonthKey>,
                  monthOf: string -> MonthKey): MonthlyRow
  {
    MonthlyRow(key, ActivityIn(days, monthOf, key), CountIn(prMonths, key), CountIn(reviewMonths, key))
  }

  /** The counters of the months `keys`, all zero. */
  method EmptyBuckets(keys: seq<MonthKey>) returns (data: map<MonthKey, MonthlyStats>)
    ensures forall k :: k in data <==> k in keys
    ensures forall k :: k in data ==> data[k] == MonthlyStats(0, 0, 0)
  {
    data := map[];
    for i := 0 to |keys|
      invariant forall k :: k in data <==> k in keys[..i]
      invariant forall k :: k in data ==> data[k] == MonthlyStats(0, 0, 0)
    {
      data := data[keys[i] := MonthlyStats(0, 0, 0)];
    }
    assert keys[..|keys|] == keys;
  }

  /** The activity loop over one week: each day's count is added to the counter
      of its month, when that month has one. */
  method AddDays(data0: map<MonthKey, MonthlyStats>, seen: seq<Day>, days: seq<Day>, monthOf: string -> MonthKey)
      returns (data: map<MonthKey, MonthlyStats>)
    requires forall k :: k in data0 ==> data0[k] == MonthlyStats(ActivityIn(seen, monthOf, k), 0, 0)
    ensures data.Keys == data0.Keys
    ensures forall k :: k in data ==> data[k] == MonthlyStats(ActivityIn(seen + days, monthOf, k), 0, 0)
  {
    data := data0;
    var d := 0;
    assert seen + days[..0] == seen;
    while d < |days|
      invariant 0 <= d <= |days|
      invariant data.Keys == data0.Keys
      invariant forall k :: k in data ==> data[k] == MonthlyStats(ActivityIn(seen + days[..d], monthOf, k), 0, 0)
    {
      var key := monthOf(days[d].date);
      if key in data {
        data := data[key := data[key].(activity := data[key].activity + days[d].contributionCount)];
      }
      assert (seen + days[..d + 1])[..|seen + days[..d + 1]| - 1] == seen + days[..d];
      d := d + 1;
    }
    assert days[..d] == days;
  }

  /** The activity loop over all weeks. */
  method AddWeeks(data0: map<MonthKey, MonthlyStats>, weeks: seq<Week>, monthOf: string -> MonthKey)
      returns (data: map<MonthKey, MonthlyStats>)
    requires forall k :: k in data0 ==> data0[k] == MonthlyStats(0, 0, 0)
    ensures data.Keys == data0.Keys
    ensures forall k :: k in data ==> data[k] == MonthlyStats(ActivityIn(AllDays(weeks), monthOf, k), 0, 0)
  {
    data := data0;
    var w := 0;
    while w < |weeks|
      invariant 0 <= w <= |weeks|
      invariant data.Keys == data0.Keys
      invariant forall k :: k in data ==> data[k] == MonthlyStats(ActivityIn(AllDays(weeks[..w]), monthOf, k), 0, 0)
    {
      data := AddDays(data, AllDays(weeks[..w]), weeks[w].contributionDays, monthOf);
      assert weeks[..w + 1][..w] == weeks[..w];
      w := w + 1;
    }
    assert weeks[..w] == weeks;
  }

  /** The pull-request loop: each pull request adds one to the counter of its
      month, when that month has one. */
  method AddPrs(data0: map<MonthKey, MonthlyStats>, items: seq<PullRequest>, monthOf: string -> MonthKey)
      returns (data: map<MonthKey, MonthlyStats>)
    requires forall k :: k in data0 ==> data0[k].prs == 0
    ensures data.Keys == data0.Keys
    ensures forall k :: k in data ==> data[k] == data0[k].(prs := CountIn(PrMonths(items, monthOf), k))
  {
    data := data0;
    var p := 0;
    while p < |items|
      invariant 0 <= p <= |items|
      invariant data.Keys == data0.Keys
      invariant forall k :: k in data ==> data[k] == data0[k].(prs := CountIn(PrMonths(items[..p], monthOf), k))
    {
      var key := monthOf(items[p].createdAt);
      if key in data {
        data := data[key := data[key].(prs := data[key].prs + 1)];
      }
      assert PrMonths(items[..p + 1], monthOf)[..p] == PrMonths(items[..p], monthOf);
      p := p + 1;
    }
    assert items[..p] == items;
  }

  /** The review loop: each review adds one to the counter of its month, when
      that month has one. */
  method AddReviews(data0: map<MonthKey, MonthlyStats>, reviewMonths: seq<MonthKey>)
      returns (data: map<MonthKey, MonthlyStats>)
    requires forall k :: k in data0 ==> data0[k].reviews == 0
    ensures data.Keys == data0.Keys
    ensures forall k :: k in data ==> data[k] == data0[k].(reviews := CountIn(reviewMonths, k))
  {
    data := data0;
    var r := 0;
    while r < |reviewMonths|
      invariant 0 <= r <= |reviewMonths|
      invariant data.Keys == data0.Keys
      invariant forall k :: k in data ==> data[k] == data0[k].(reviews := CountIn(reviewMonths[..r], k))
    {
      var key := reviewMonths[r];
      if key in data {
        data := data[key := data[key].(reviews := data[key].reviews + 1)];
      }
      assert reviewMonths[..r + 1][..r] == reviewMonths[..r];
      r := r + 1;
    }
    assert reviewMonths[..r] == reviewMonths;
  }

  /** `getMonthlyActivity`: `now` is the current month, `monthOf` the month a
      date string falls in, and `reviewMonths` the months of the placeholder
      review dates (today, 3 days ago, and so on).
      Without a session, when a call throws, or without a calendar the answer
      is `[]`. Otherwise there is one row per month of the six, oldest first,
      with the activity of that month's days, the number of its pull requests
      and the number of its reviews; items of other months are ignored. */
  method MonthlyActivity(session: Option<UserId>, now: MonthKey, calendar: Reply<Option<Calendar>>,
                         prs: Reply<seq<PullRequest>>, reviewMonths: seq<MonthKey>, monthOf: string -> MonthKey)
      returns (rows: seq<MonthlyRow>)
    requires 0 <= now.month < 12
    ensures session.None? || calendar.Raised? || (calendar.Returned? && calendar.value.None?) || prs.Raised?
      ==> rows == []
    ensures session.Some? && calendar.Returned? && calendar.value.Some? && prs.Returned? ==>
      var keys := LastSixMonths(now);
      && |rows| == 6
      && forall i :: 0 <= i < 6 ==>
           rows[i] == RowFor(keys[i], AllDays(calendar.value.value.weeks), PrMonths(prs.value, monthOf), reviewMonths, monthOf)
  {
    if session.None? || calendar.Raised? || calendar.value.None? {
      return [];
    }
    var weeks := calendar.value.value.weeks;
    var keys := LastSixMonths(now);
    var data := EmptyBuckets(keys);
    data := AddWeeks(data, weeks, monthOf);
    if prs.Raised? {
      return [];
    }
    data := AddPrs(data, prs.value, monthOf);
    data := AddReviews(data, reviewMonths);

    rows := [];
    for i := 0 to 6
      invariant |rows| == i
      invariant forall j :: 0 <= j < i ==>
        rows[j] == RowFor(keys[j], AllDays(weeks), PrMonths(prs.value, monthOf), reviewMonths, monthOf)
    {
      var stats := data[keys[i]];
      rows := rows + [MonthlyRow(keys[i], stats.activity, stats.prs, stats.reviews)];
    }
  }
}
