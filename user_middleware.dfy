/** middleware/user.py: the user-facing layer over the `users` table and
    the panel client. */
module UserMiddleware {
  import opened Wrappers
  import opened Tables
  import opened UserDb
  import ApiClient
  import Const
  import Timestamp

  /** The rows of `all`, in order, whose expiry is after `now`. */
  function ActiveFilter(all: seq<UserRow>, now: int): (active: seq<UserRow>)
    ensures forall u :: u in active <==> u in all && u.date > now
    ensures |active| <= |all|
    decreases |all|
  {
    if |all| == 0 then []
    else
      var last := all[|all| - 1];
      assert forall u :: u in all <==> u in all[..|all| - 1] || u == last;
      ActiveFilter(all[..|all| - 1], now) + (if last.date > now then [last] else [])
  }

  /** `select_all_active_users()`. */
  method SelectAllActiveUsers(users: UsersTable, now: int) returns (active: seq<UserRow>)
    requires users.Valid()
    ensures active == ActiveFilter(SelectAllUsers(users.rows, users.order), now)
  {
    var all := SelectAllUsers(users.rows, users.order);
    active := KeepActive(all, now);
  }

  /** The filtering loop of `select_all_active_users`. */
  method KeepActive(all: seq<UserRow>, now: int) returns (active: seq<UserRow>)
    ensures active == ActiveFilter(all, now)
  {
    active := [];
    var i := 0;
    while i < |all|
      invariant 0 <= i <= |all|
      invariant active == ActiveFilter(all[..i], now)
    {
      assert all[..i + 1][..i] == all[..i];
      if all[i].date > now {
        active := active + [all[i]];
      }
      i := i + 1;
    }
    assert all[..i] == all;
  }

  /** Each user's row is listed as active exactly when its expiry is after now. */
  lemma ActiveUsersExactly(rows: map<int, UserRow>, order: seq<int>, now: int, k: int)
    requires Indexed(rows, order) && KeyedByTgId(rows) && k in rows
    ensures rows[k] in ActiveFilter(SelectAllUsers(rows, order), now) <==> rows[k].date > now
  {
    var all := SelectAllUsers(rows, order);
    var i :| 0 <= i < |all| && all[i] == rows[k];
    assert rows[k] in all;
  }

  /** `create_or_update_user(tg_id, period, username)`: an existing user is
      renewed and `Ok(None)` is returned whatever the renewal's outcome; an
      absent user is created and gets the profile, or the creation's error. */
  method CreateOrUpdateUser(users: UsersTable, tgId: int, period: string, username: string, now: nat,
                            userId: string, subId: string, port: nat, apiIp: string, panelOk: bool)
    returns (r: Result<Option<string>>)
    requires users.Valid()
    modifies users
    ensures users.Valid()
    ensures tgId in old(users.rows) ==> r == Ok(None) && users.order == old(users.order)
    ensures tgId in old(users.rows) && Timestamp.IsPeriod(period) ==>
      users.rows == WithDate(old(users.rows), tgId,
                             Timestamp.UpdateDate(old(users.rows)[tgId].date, period, now).value)
    ensures tgId in old(users.rows) && !Timestamp.IsPeriod(period) ==> users.rows == old(users.rows)
    ensures tgId !in old(users.rows) && !Timestamp.IsPeriod(period) ==>
      r == Err(InvalidPeriod) && users.rows == old(users.rows) && users.order == old(users.order)
    ensures tgId !in old(users.rows) && Timestamp.IsPeriod(period) ==>
      && users.rows == old(users.rows)[tgId := ApiClient.NewClientRow(tgId, period, username, now,
                                                                       userId, subId, port, apiIp)]
      && users.order == old(users.order) + [tgId]
      && r == (if panelOk then Ok(Some(ApiClient.VlessProfile(userId, apiIp, port, username)))
               else Err(PanelRejected))
  {
    if SelectUserExists(users.rows, tgId) {
      var _ := ApiClient.UpdateClient(users, tgId, period, now, panelOk);
      return Ok(None);
    }
    var created := ApiClient.AddClient(users, tgId, period, username, now, userId, subId, port, apiIp, panelOk);
    match created
    case Ok(profile) => return Ok(Some(profile));
    case Err(e) => return Err(e);
  }

  const NOT_IN_SYSTEM := "Ой, вас, к сожалению нет в системе! Для начала купите подписку или используйте пробный период"
  const EXPIRED_TEXT := "муф.. твоя подписка уже закончилась😿"
  const LESS_THAN_HOUR_TEXT := "кошечки-божечки, у тебя осталось меньше часа🙀"

  /** `send_vless(tg_id)`: the stored profile, or a fixed apology. */
  function SendVless(rows: map<int, UserRow>, tgId: int): (text: string)
    ensures tgId in rows ==> text == rows[tgId].vlessProfile
    ensures tgId !in rows ==> text == NOT_IN_SYSTEM
  {
    if SelectUserExists(rows, tgId) then SelectUserVlessProfile(rows, tgId).value else NOT_IN_SYSTEM
  }

  /** `get_users_expiration_date_to_comfort_format(tg_id)`: None where the
      source raises (no row); the two sentinels become fixed texts, a phrase
      is passed through. (years, months, days, hours) are the components of
      `relativedelta(expiry, now)`. */
  function ComfortText(rows: map<int, UserRow>, tgId: int, now: int,
                       years: int, months: int, days: int, hours: int): (r: Option<string>)
    ensures r.None? <==> tgId !in rows
    ensures tgId in rows && rows[tgId].date < now ==> r == Some(EXPIRED_TEXT)
    ensures tgId in rows && rows[tgId].date >= now && Timestamp.PositiveCount(years, months, days, hours) == 0
            ==> r == Some(LESS_THAN_HOUR_TEXT)
    ensures tgId in rows && rows[tgId].date >= now && Timestamp.PositiveCount(years, months, days, hours) > 0
            ==> r == Some(Timestamp.CalculateTimeDifference(rows[tgId].date, now, years, months, days, hours).text)
  {
    match SelectUserDate(rows, tgId)
    case None => None
    case Some(date) =>
      match Timestamp.CalculateTimeDifference(date, now, years, months, days, hours)
      case Sentinel(code) =>
        if code == Const.EXPIRED then Some(EXPIRED_TEXT)
        else if code == Const.LESS_THAN_HOUR then Some(LESS_THAN_HOUR_TEXT)
        else None
      case Phrase(text) => Some(text)
  }

  /** `insert_trial_date(tg_id)`: stamps the current time as the trial date. */
  method InsertTrialDate(users: UsersTable, tgId: int, now: int)
    requires users.Valid()
    modifies users
    ensures users.Valid() && users.order == old(users.order)
    ensures users.rows == WithTrialDate(old(users.rows), tgId, now)
  {
    users.InsertTrialDate(tgId, now);
  }
}
