/** middleware/referrals.py: wrappers over the referrals table that log and
    swallow every exception, and the active-referred-users query. A failing
    database call is an oracle flag; its effect is "nothing written, None
    returned". */
module ReferralsMiddleware {
  import opened Wrappers
  import opened Tables
  import opened UserDb
  import opened ReferralDb

  /** What a swallowing wrapper returns for a query: the value, or None when
      the query raised. */
  function Swallow<T>(raised: bool, value: T): (r: Option<T>)
    ensures r.None? <==> raised
    ensures r.Some? ==> r.value == value
  {
    if raised then None else Some(value)
  }

  /** `update_balance` through the wrapper: a raising update changes
      nothing and does not propagate. */
  method UpdateBalance(referrals: ReferralsTable, tgId: int, amount: int, raised: bool)
    requires referrals.Valid()
    modifies referrals
    ensures referrals.Valid() && referrals.order == old(referrals.order)
    ensures referrals.rows == if raised then old(referrals.rows) else Credited(old(referrals.rows), tgId, amount)
  {
    if !raised {
      referrals.UpdateBalance(tgId, amount);
    }
  }

  /** `insert_user_referrals` through the wrapper: a duplicate key, like any
      other failure, is swallowed and leaves the table as it was. */
  method InsertUserReferrals(referrals: ReferralsTable, tgId: int, raised: bool)
    requires referrals.Valid()
    modifies referrals
    ensures referrals.Valid()
    ensures !raised && tgId !in old(referrals.rows) ==>
      referrals.rows == old(referrals.rows)[tgId := ReferralRow(None, INITIAL_BALANCE)]
      && referrals.order == old(referrals.order) + [tgId]
    ensures raised || tgId in old(referrals.rows) ==>
      referrals.rows == old(referrals.rows) && referrals.order == old(referrals.order)
  {
    if !raised {
      var _ := referrals.InsertUserReferrals(tgId);
    }
  }

  /** `insert_update_referrer` through the wrapper: True after the upsert,
      None when it raised. */
  method InsertUpdateReferrer(referrals: ReferralsTable, tgId: int, referrer: int, raised: bool)
    returns (r: Option<bool>)
    requires referrals.Valid()
    modifies referrals
    ensures referrals.Valid()
    ensures r.None? <==> raised
    ensures r.Some? ==> r.value
    ensures !raised ==> referrals.rows == Upserted(old(referrals.rows), tgId, referrer)
    ensures !raised ==>
      referrals.order == if tgId in old(referrals.rows) then old(referrals.order) else old(referrals.order) + [tgId]
    ensures raised ==> referrals.rows == old(referrals.rows) && referrals.order == old(referrals.order)
  {
    if raised {
      return None;
    }
    referrals.InsertUpdateReferrer(tgId, referrer);
    return Some(true);
  }

  /** A referred user is listed as active when its expiry is set, non-zero
      and after now, and its lookup did not fail. */
  predicate ActiveReferred(users: map<int, UserRow>, u: int, now: int, lookupFails: set<int>) {
    && u !in lookupFails
    && match SelectUserDate(users, u)
       case None => false
       case Some(date) => date != 0 && date > now
  }

  /** The users of `referred`, in order, that are listed as active. */
  function ActiveFilter(users: map<int, UserRow>, referred: seq<int>, now: int, lookupFails: set<int>)
    : (active: seq<int>)
    ensures forall u :: u in active <==> u in referred && ActiveReferred(users, u, now, lookupFails)
    ensures |active| <= |referred|
    decreases |referred|
  {
    if |referred| == 0 then []
    else
      var last := referred[|referred| - 1];
      assert forall u :: u in referred <==> u in referred[..|referred| - 1] || u == last;
      ActiveFilter(users, referred[..|referred| - 1], now, lookupFails)
      + (if ActiveReferred(users, last, now, lookupFails) then [last] else [])
  }

  /** `select_active_users_by_referrer(referrer)`: None when the referred
      list could not be read; otherwise the referred users that are active,
      a user whose own lookup raises being skipped. */
  method SelectActiveUsersByReferrer(users: UsersTable, referrals: ReferralsTable, referrer: int, now: int,
                                     queryFails: bool, lookupFails: set<int>)
    returns (r: Option<seq<int>>)
    requires referrals.Valid()
    ensures r.None? <==> queryFails
    ensures r.Some? ==>
      r.value == ActiveFilter(users.rows, SelectUsersByReferrer(referrals.rows, referrals.order, referrer), now, lookupFails)
  {
    if queryFails {
      return None;
    }
    var referred := SelectUsersByReferrer(referrals.rows, referrals.order, referrer);
    var active := [];
    var i := 0;
    while i < |referred|
      invariant 0 <= i <= |referred|
      invariant active == ActiveFilter(users.rows, referred[..i], now, lookupFails)
    {
      assert referred[..i + 1][..i] == referred[..i];
      var u := referred[i];
      if u !in lookupFails {
        var date := SelectUserDate(users.rows, u);
        if date.Some? && date.value != 0 && date.value > now {
          active := active + [u];
        }
      }
      i := i + 1;
    }
    assert referred[..i] == referred;
    return Some(active);
  }
}
