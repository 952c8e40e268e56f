/** bot/tasks.py: the monthly referral accrual and the renewal-reminder
    window. Scheduling and sleeping are not modelled; `now` is the clock. */
module Tasks {
  import opened Wrappers
  import opened Tables
  import opened UserDb
  import opened ReferralDb
  import Const
  import Timestamp

  /** Three days in milliseconds: the trial grace window. */
  const THREE_DAYS_MS: int := 3 * 24 * 60 * 60 * 1000

  /** A referred user earns its referrer a bonus when its expiry is set,
      non-zero and in the future, and it is not still on the trial: a
      non-zero trial date at most three days before the expiry disqualifies. */
  predicate CountsForBonus(users: map<int, UserRow>, u: int, now: int) {
    match SelectUserDate(users, u)
    case None => false
    case Some(date) =>
      && date != 0
      && date > now
      && !(match SelectTrialDate(users, u)
           case None => false
           case Some(trial) => trial != 0 && date - trial <= THREE_DAYS_MS)
  }

  /** Number of users in `referred` that count for a bonus. */
  function EligibleCount(users: map<int, UserRow>, referred: seq<int>, now: int): (n: nat)
    ensures n <= |referred|
    ensures n == 0 <==> forall u :: u in referred ==> !CountsForBonus(users, u, now)
    decreases |referred|
  {
    if |referred| == 0 then 0
    else
      var last := referred[|referred| - 1];
      assert forall u :: u in referred <==> u in referred[..|referred| - 1] || u == last;
      EligibleCount(users, referred[..|referred| - 1], now) + (if CountsForBonus(users, last, now) then 1 else 0)
  }

  /** One `update_balance(referrer, amount)` call of the run. */
  datatype Credit = Credit(referrer: int, amount: int)

  /** The credits the run issues for `groups`, in visiting order: one per
      group with at least one eligible user. */
  function Credits(users: map<int, UserRow>, groups: seq<Group>, now: int): (cs: seq<Credit>)
    ensures |cs| <= |groups|
    ensures forall i :: 0 <= i < |cs| ==> cs[i].amount > 0 && cs[i].amount % Const.MEOW_COINS_REFERRER_BONUS == 0
    decreases |groups|
  {
    if |groups| == 0 then []
    else
      var g := groups[|groups| - 1];
      var count := EligibleCount(users, g.referred, now);
      Credits(users, groups[..|groups| - 1], now)
      + (if count > 0 then [Credit(g.referrer, count * Const.MEOW_COINS_REFERRER_BONUS)] else [])
  }

  /** The referrals table after applying `cs` in order. */
  function ApplyCredits(rows: map<int, ReferralRow>, cs: seq<Credit>): map<int, ReferralRow>
    decreases |cs|
  {
    if |cs| == 0 then rows
    else
      var c := cs[|cs| - 1];
      Credited(ApplyCredits(rows, cs[..|cs| - 1]), c.referrer, c.amount)
  }

  /** `total_bonuses_given` after issuing `cs`. */
  function Total(cs: seq<Credit>): int
    decreases |cs|
  {
    if |cs| == 0 then 0 else Total(cs[..|cs| - 1]) + cs[|cs| - 1].amount
  }

  /** The sum of the credits `cs` issues to `k`. */
  function CreditTo(cs: seq<Credit>, k: int): int
    decreases |cs|
  {
    if |cs| == 0 then 0
    else CreditTo(cs[..|cs| - 1], k) + (if cs[|cs| - 1].referrer == k then cs[|cs| - 1].amount else 0)
  }

  /** Applying credits adds to balances only: the same keys, the same
      referrers, and each balance grows by what was credited to it. */
  lemma {:induction false} ApplyCreditsBalance(rows: map<int, ReferralRow>, cs: seq<Credit>, k: int)
    ensures ApplyCredits(rows, cs).Keys == rows.Keys
    ensures k in rows ==> ApplyCredits(rows, cs)[k] == rows[k].(balance := rows[k].balance + CreditTo(cs, k))
    decreases |cs|
  {
    if |cs| > 0 {
      ApplyCreditsBalance(rows, cs[..|cs| - 1], k);
    }
  }

  /** A referrer without a group is credited nothing. */
  lemma {:induction false} CreditToAbsent(users: map<int, UserRow>, groups: seq<Group>, now: int, k: int)
    requires k !in GroupReferrers(groups)
    ensures CreditTo(Credits(users, groups, now), k) == 0
    decreases |groups|
  {
    if |groups| > 0 {
      var n := |groups| - 1;
      var prefix := groups[..n];
      assert GroupReferrers(prefix) == GroupReferrers(groups)[..n];
      CreditToAbsent(users, prefix, now, k);
      var count := EligibleCount(users, groups[n].referred, now);
      var tail := if count > 0 then [Credit(groups[n].referrer, count * Const.MEOW_COINS_REFERRER_BONUS)] else [];
      assert Credits(users, groups, now) == Credits(users, prefix, now) + tail;
      CreditToAppend(Credits(users, prefix, now), tail, k);
      assert GroupReferrers(groups)[n] == groups[n].referrer;
    }
  }

  /** What the run credits to the referrer of group `i`: the bonus for every
      eligible user of that group, the referrers being distinct. */
  lemma {:induction false} CreditToReferrer(users: map<int, UserRow>, groups: seq<Group>, now: int, i: int)
    requires Distinct(GroupReferrers(groups)) && 0 <= i < |groups|
    ensures CreditTo(Credits(users, groups, now), groups[i].referrer)
      == Const.MEOW_COINS_REFERRER_BONUS * EligibleCount(users, groups[i].referred, now)
    decreases |groups|
  {
    var n := |groups| - 1;
    var prefix := groups[..n];
    var k := groups[i].referrer;
    var g := groups[n];
    assert GroupReferrers(prefix) == GroupReferrers(groups)[..n];
    var count := EligibleCount(users, g.referred, now);
    var tail := if count > 0 then [Credit(g.referrer, count * Const.MEOW_COINS_REFERRER_BONUS)] else [];
    assert Credits(users, groups, now) == Credits(users, prefix, now) + tail;
    CreditToAppend(Credits(users, prefix, now), tail, k);
    if i == n {
      assert k !in GroupReferrers(prefix);
      CreditToAbsent(users, prefix, now, k);
    } else {
      assert GroupReferrers(groups)[i] != GroupReferrers(groups)[n];
      assert prefix[i] == groups[i];
      CreditToReferrer(users, prefix, now, i);
    }
  }

  lemma {:induction false} CreditToAppend(cs: seq<Credit>, tail: seq<Credit>, k: int)
    requires |tail| <= 1
    ensures CreditTo(cs + tail, k) == CreditTo(cs, k) + CreditTo(tail, k)
  {
    if |tail| == 1 {
      assert (cs + tail)[..|cs + tail| - 1] == cs;
      assert tail[..0] == [];
    } else {
      assert cs + tail == cs;
    }
  }

  /** The balance of every referrals row after a complete run: its old
      balance plus MEOW_COINS_REFERRER_BONUS for each user it referred that
      counts for a bonus; referrers are not touched and no row is added. */
  lemma MonthlyBonusClosedForm(rows: map<int, ReferralRow>, order: seq<int>, users: map<int, UserRow>,
                               now: int, k: int)
    requires Listed(rows, order)
    ensures var after := ApplyCredits(rows, Credits(users, SelectAllReferralsWithEveryUser(rows, order), now));
      && after.Keys == rows.Keys
      && (k in rows ==> after[k].referrer == rows[k].referrer)
      && (k in rows ==>
            after[k].balance == rows[k].balance
              + Const.MEOW_COINS_REFERRER_BONUS * EligibleCount(users, SelectUsersByReferrer(rows, order, k), now))
  {
    var groups := SelectAllReferralsWithEveryUser(rows, order);
    var cs := Credits(users, groups, now);
    ApplyCreditsBalance(rows, cs, k);
    if k in GroupReferrers(groups) {
      var i :| 0 <= i < |groups| && GroupReferrers(groups)[i] == k;
      CreditToReferrer(users, groups, now, i);
    } else {
      CreditToAbsent(users, groups, now, k);
      assert SelectUsersByReferrer(rows, order, k) == [];
    }
  }

  /** Eligible users summed over all groups. */
  function EligibleAcross(users: map<int, UserRow>, groups: seq<Group>, now: int): nat
    decreases |groups|
  {
    if |groups| == 0 then 0
    else EligibleAcross(users, groups[..|groups| - 1], now) + EligibleCount(users, groups[|groups| - 1].referred, now)
  }

  /** `total_bonuses_given` of a run is the bonus times the number of
      eligible referred users over all groups. */
  lemma {:induction false} TotalCountsEveryEligibleUser(users: map<int, UserRow>, groups: seq<Group>, now: int)
    ensures Total(Credits(users, groups, now)) == Const.MEOW_COINS_REFERRER_BONUS * EligibleAcross(users, groups, now)
    decreases |groups|
  {
    if |groups| > 0 {
      var prefix := groups[..|groups| - 1];
      TotalCountsEveryEligibleUser(users, prefix, now);
      var g := groups[|groups| - 1];
      var count := EligibleCount(users, g.referred, now);
      var cs := Credits(users, prefix, now);
      if count > 0 {
        var c := Credit(g.referrer, count * Const.MEOW_COINS_REFERRER_BONUS);
        assert (cs + [c])[..|cs|] == cs;
      } else {
        assert cs + [] == cs;
      }
    }
  }

  /** The inner loop of `monthly_referral_bonus`: how many of `referred`
      count for a bonus. */
  method CountEligible(users: UsersTable, referred: seq<int>, now: int) returns (count: nat)
    ensures count == EligibleCount(users.rows, referred, now)
  {
    count := 0;
    var j := 0;
    while j < |referred|
      invariant 0 <= j <= |referred|
      invariant count == EligibleCount(users.rows, referred[..j], now)
    {
      assert referred[..j + 1][..j] == referred[..j];
      var date := SelectUserDate(users.rows, referred[j]);
      var trial := SelectTrialDate(users.rows, referred[j]);
      if date.Some? && date.value != 0 && date.value > now
         && !(trial.Some? && trial.value != 0 && date.value - trial.value <= THREE_DAYS_MS) {
        count := count + 1;
      }
      j := j + 1;
    }
    assert referred[..j] == referred;
  }

  /** Visiting one more group issues at most one more credit, at the end. */
  lemma CreditsStep(users: map<int, UserRow>, groups: seq<Group>, i: nat, now: int, rows: map<int, ReferralRow>)
    requires i < |groups|
    ensures var count := EligibleCount(users, groups[i].referred, now);
      var cs := Credits(users, groups[..i], now);
      var c := Credit(groups[i].referrer, count * Const.MEOW_COINS_REFERRER_BONUS);
      && (count == 0 ==> Credits(users, groups[..i + 1], now) == cs)
      && (count > 0 ==> Credits(users, groups[..i + 1], now) == cs + [c]
                        && ApplyCredits(rows, cs + [c]) == Credited(ApplyCredits(rows, cs), c.referrer, c.amount)
                        && Total(cs + [c]) == Total(cs) + c.amount)
  {
    assert groups[..i + 1][..i] == groups[..i];
    var cs := Credits(users, groups[..i], now);
    var count := EligibleCount(users, groups[i].referred, now);
    var c := Credit(groups[i].referrer, count * Const.MEOW_COINS_REFERRER_BONUS);
    assert (cs + [c])[..|cs|] == cs;
  }

  /** The outer loop of `monthly_referral_bonus` over the grouping: count
      each group's eligible users and credit its referrer once. A write that
      raises (`failing` holds the referrers whose update fails) ends the
      loop; the credits already written stay. */
  method CreditGroups(referrals: ReferralsTable, users: UsersTable, groups: seq<Group>, now: int, failing: set<int>)
    returns (total: int, visited: nat, completed: bool)
    requires referrals.Valid()
    modifies referrals
    ensures referrals.Valid() && referrals.order == old(referrals.order)
    ensures visited <= |groups|
    ensures completed <==> visited == |groups|
    ensures referrals.rows == ApplyCredits(old(referrals.rows), Credits(users.rows, groups[..visited], now))
    ensures total == Total(Credits(users.rows, groups[..visited], now))
    ensures !completed ==> groups[visited].referrer in failing
                           && EligibleCount(users.rows, groups[visited].referred, now) > 0
  {
    total := 0;
    var i := 0;
    while i < |groups|
      invariant 0 <= i <= |groups|
      invariant referrals.Valid() && referrals.order == old(referrals.order)
      invariant referrals.rows == ApplyCredits(old(referrals.rows), Credits(users.rows, groups[..i], now))
      invariant total == Total(Credits(users.rows, groups[..i], now))
    {
      var failed, amount := CreditGroup(referrals, users, groups, i, now, failing, old(referrals.rows));
      if failed {
        visited, completed := i, false;
        return;
      }
      total := total + amount;
      i := i + 1;
    }
    assert groups[..i] == groups;
    visited, completed := i, true;
  }

  /** One iteration of the outer loop: count group `i`'s eligible users and,
      if there are any, credit its referrer; `failed` when that write raises. */
  method CreditGroup(referrals: ReferralsTable, users: UsersTable, groups: seq<Group>, i: nat, now: int,
                     failing: set<int>, ghost base: map<int, ReferralRow>)
    returns (failed: bool, amount: int)
    requires referrals.Valid() && i < |groups|
    requires referrals.rows == ApplyCredits(base, Credits(users.rows, groups[..i], now))
    modifies referrals
    ensures referrals.Valid() && referrals.order == old(referrals.order)
    ensures failed ==> && referrals.rows == old(referrals.rows)
                       && groups[i].referrer in failing
                       && EligibleCount(users.rows, groups[i].referred, now) > 0
    ensures !failed ==>
      && referrals.rows == ApplyCredits(base, Credits(users.rows, groups[..i + 1], now))
      && Total(Credits(users.rows, groups[..i + 1], now)) == Total(Credits(users.rows, groups[..i], now)) + amount
  {
    var count := CountEligible(users, groups[i].referred, now);
    CreditsStep(users.rows, groups, i, now, base);
    if count == 0 {
      return false, 0;
    }
    if groups[i].referrer in failing {
      return true, 0;
    }
    amount := count * Const.MEOW_COINS_REFERRER_BONUS;
    referrals.UpdateBalance(groups[i].referrer, amount);
    failed := false;
  }

  /** `monthly_referral_bonus()`: credit every referrer of the
      non-null-referrer grouping for its eligible users. A complete run
      leaves each row as `MonthlyBonusClosedForm` describes. */
  method MonthlyReferralBonus(referrals: ReferralsTable, users: UsersTable, now: int, failing: set<int>)
    returns (total: int, visited: nat, completed: bool)
    requires referrals.Valid()
    modifies referrals
    ensures referrals.Valid() && referrals.order == old(referrals.order)
    ensures var groups := SelectAllReferralsWithEveryUser(old(referrals.rows), old(referrals.order));
      && visited <= |groups|
      && (completed <==> visited == |groups|)
      && referrals.rows == ApplyCredits(old(referrals.rows), Credits(users.rows, groups[..visited], now))
      && total == Total(Credits(users.rows, groups[..visited], now))
      && (!completed ==> groups[visited].referrer in failing
                         && EligibleCount(users.rows, groups[visited].referred, now) > 0)
  {
    var groups := SelectAllReferralsWithEveryUser(referrals.rows, referrals.order);
    total, visited, completed := CreditGroups(referrals, users, groups, now, failing);
  }

  /** A trial granted at `now` expires exactly three days later, so its user
      never counts for a bonus while still on the trial. */
  lemma FreshTrialDoesNotCount(users: map<int, UserRow>, u: int, now: nat, clock: int)
    requires u in users
    requires Timestamp.SetDate(now, Const.DAY_3_TIMESTAMP).Some?
    requires users[u].date == Timestamp.SetDate(now, Const.DAY_3_TIMESTAMP).value
    requires users[u].trialDate == Some(now) && now != 0
    ensures !CountsForBonus(users, u, clock)
  {
    Timestamp.TrialLastsThreeDays(now);
  }

  /** The grace window is closed: an expiry exactly three days after the
      trial date does not count, one millisecond more does. */
  lemma GraceBoundary(row: UserRow, now: int)
    requires row.trialDate == Some(1000) && now < 1000
    ensures !CountsForBonus(map[row.tgId := row.(date := 1000 + THREE_DAYS_MS)], row.tgId, now)
    ensures CountsForBonus(map[row.tgId := row.(date := 1001 + THREE_DAYS_MS)], row.tgId, now)
  {
  }

  /** The reminder window of `reminder_task`: expiry in (now + 23 h, now + 24 h]. */
  predicate DueForReminder(date: int, now: int) {
    var (lo, hi) := Timestamp.ReminderBounds(now);
    lo < date <= hi
  }

  /** The users of `all`, in order, whose expiry falls in the window. */
  function ReminderFilter(all: seq<UserRow>, now: int): (due: seq<UserRow>)
    ensures forall u :: u in due <==> u in all && DueForReminder(u.date, now)
    decreases |all|
  {
    if |all| == 0 then []
    else
      var last := all[|all| - 1];
      assert forall u :: u in all <==> u in all[..|all| - 1] || u == last;
      ReminderFilter(all[..|all| - 1], now) + (if DueForReminder(last.date, now) then [last] else [])
  }

  /** One pass of `reminder_task`: the users that get a reminder. */
  method ReminderRecipients(users: UsersTable, now: int) returns (due: seq<UserRow>)
    requires users.Valid()
    ensures due == ReminderFilter(SelectAllUsers(users.rows, users.order), now)
  {
    var all := SelectAllUsers(users.rows, users.order);
    due := KeepDue(all, now);
  }

  /** The loop of `reminder_task` over all users. */
  method KeepDue(all: seq<UserRow>, now: int) returns (due: seq<UserRow>)
    ensures due == ReminderFilter(all, now)
  {
    due := [];
    var i := 0;
    while i < |all|
      invariant 0 <= i <= |all|
      invariant due == ReminderFilter(all[..i], now)
    {
      assert all[..i + 1][..i] == all[..i];
      if Timestamp.ReminderBounds(now).0 < all[i].date <= Timestamp.ReminderBounds(now).1 {
        due := due + [all[i]];
      }
      i := i + 1;
    }
    assert all[..i] == all;
  }

  /** Every user gets a reminder exactly when its expiry is in the window. */
  lemma ReminderReachesExactlyTheWindow(rows: map<int, UserRow>, order: seq<int>, now: int, k: int)
    requires Indexed(rows, order) && KeyedByTgId(rows) && k in rows
    ensures rows[k] in ReminderFilter(SelectAllUsers(rows, order), now) <==> DueForReminder(rows[k].date, now)
  {
    var all := SelectAllUsers(rows, order);
    var i :| 0 <= i < |all| && all[i] == rows[k];
    assert rows[k] in all;
  }
}
