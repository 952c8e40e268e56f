/** database/user.py: the `users` table. Writes are methods of `UsersTable`;
    the SELECT queries are functions of the table's contents. */
module UserDb {
  import opened Wrappers
  import opened Tables

  /** (tg_id, user_id, email, date, sub_id, vless_profile, login_date, trial_date);
      `date` is the subscription expiry in milliseconds. */
  datatype UserRow = UserRow(
    tgId: int, userId: string, email: string, date: int, subId: string,
    vlessProfile: string, loginDate: int, trialDate: Option<int>)

  /** Every row is stored under its own `tg_id`. */
  predicate KeyedByTgId(rows: map<int, UserRow>) {
    forall k :: k in rows ==> rows[k].tgId == k
  }

  /** `UPDATE users SET date = d WHERE tg_id = k`. */
  function WithDate(rows: map<int, UserRow>, k: int, d: int): (r: map<int, UserRow>)
    ensures r.Keys == rows.Keys
    ensures k in rows ==> r[k] == rows[k].(date := d)
    ensures forall j :: j in rows && j != k ==> r[j] == rows[j]
  {
    if k in rows then rows[k := rows[k].(date := d)] else rows
  }

  /** `UPDATE users SET trial_date = t WHERE tg_id = k`. */
  function WithTrialDate(rows: map<int, UserRow>, k: int, t: int): (r: map<int, UserRow>)
    ensures r.Keys == rows.Keys
    ensures k in rows ==> r[k] == rows[k].(trialDate := Some(t))
    ensures forall j :: j in rows && j != k ==> r[j] == rows[j]
  {
    if k in rows then rows[k := rows[k].(trialDate := Some(t))] else rows
  }

  class UsersTable {
    var rows: map<int, UserRow>
    var order: seq<int>

    ghost predicate Valid()
      reads this
    {
      Indexed(rows, order) && KeyedByTgId(rows)
    }

    constructor ()
      ensures Valid() && rows == map[] && order == []
    {
      rows := map[];
      order := [];
    }

    /** `insert_user`: a new row with a null trial date; an existing `tg_id`
        violates the primary key and the INSERT fails (`ok` false). */
    method InsertUser(tgId: int, userId: string, email: string, date: int, subId: string,
                      vlessProfile: string, loginDate: int) returns (ok: bool)
      requires Valid()
      modifies this
      ensures Valid()
      ensures ok <==> tgId !in old(rows)
      ensures ok ==> rows == old(rows)[tgId := UserRow(tgId, userId, email, date, subId, vlessProfile, loginDate, None)]
      ensures ok ==> order == old(order) + [tgId]
      ensures !ok ==> rows == old(rows) && order == old(order)
    {
      ok := tgId !in rows;
      if ok {
        var row := UserRow(tgId, userId, email, date, subId, vlessProfile, loginDate, None);
        IndexedInsert(rows, order, tgId, row);
        rows := rows[tgId := row];
        order := order + [tgId];
      }
    }

    /** `insert_trial_date`: only the trial_date column of that row changes. */
    method InsertTrialDate(tgId: int, trialDate: int)
      requires Valid()
      modifies this
      ensures Valid()
      ensures rows == WithTrialDate(old(rows), tgId, trialDate) && order == old(order)
    {
      rows := WithTrialDate(rows, tgId, trialDate);
    }

    /** `update_user_date`: only the date column of that row changes. */
    method UpdateUserDate(date: int, tgId: int)
      requires Valid()
      modifies this
      ensures Valid()
      ensures rows == WithDate(old(rows), tgId, date) && order == old(order)
    {
      rows := WithDate(rows, tgId, date);
    }
  }

  /** `select_user`. */
  function SelectUser(rows: map<int, UserRow>, tgId: int): (r: Option<UserRow>)
    ensures r.None? <==> tgId !in rows
    ensures r.Some? ==> r.value == rows[tgId]
  {
    if tgId in rows then Some(rows[tgId]) else None
  }

  /** `select_user_exists`. */
  function SelectUserExists(rows: map<int, UserRow>, tgId: int): (r: bool)
    ensures r <==> SelectUser(rows, tgId).Some?
  {
    tgId in rows
  }

  /** `select_user_date`: the expiry, None without a row. */
  function SelectUserDate(rows: map<int, UserRow>, tgId: int): (r: Option<int>)
    ensures r.None? <==> tgId !in rows
    ensures r.Some? ==> r.value == rows[tgId].date
  {
    if tgId in rows then Some(rows[tgId].date) else None
  }

  /** `select_trial_date`: None without a row and for a null trial date alike. */
  function SelectTrialDate(rows: map<int, UserRow>, tgId: int): (r: Option<int>)
    ensures r.Some? <==> tgId in rows && rows[tgId].trialDate.Some?
    ensures r.Some? ==> r == rows[tgId].trialDate
  {
    if tgId in rows then rows[tgId].trialDate else None
  }

  /** `select_user_vless_profile`. */
  function SelectUserVlessProfile(rows: map<int, UserRow>, tgId: int): (r: Option<string>)
    ensures r.None? <==> tgId !in rows
    ensures r.Some? ==> r.value == rows[tgId].vlessProfile
  {
    if tgId in rows then Some(rows[tgId].vlessProfile) else None
  }

  /** `select_all_users`: every row once, in scan order, and nothing else. */
  function SelectAllUsers(rows: map<int, UserRow>, order: seq<int>): (r: seq<UserRow>)
    requires Indexed(rows, order) && KeyedByTgId(rows)
    ensures |r| == |order|
    ensures forall i :: 0 <= i < |r| ==> r[i].tgId in rows && rows[r[i].tgId] == r[i]
    ensures forall k :: k in rows ==> exists i :: 0 <= i < |r| && r[i] == rows[k]
  {
    forall i | 0 <= i < |order| ensures order[i] in rows {
      assert order[i] in order;
    }
    var r := seq(|order|, i requires 0 <= i < |order| && order[i] in rows => rows[order[i]]);
    assert forall k :: k in rows ==> exists i :: 0 <= i < |r| && order[i] == k && r[i] == rows[k];
    r
  }

  /** A date update is seen by the next date query; other rows keep theirs. */
  lemma UpdateThenSelectDate(rows: map<int, UserRow>, k: int, j: int, d: int)
    ensures SelectUserDate(WithDate(rows, k, d), j) ==
      if j == k && k in rows then Some(d) else SelectUserDate(rows, j)
    ensures SelectTrialDate(WithDate(rows, k, d), j) == SelectTrialDate(rows, j)
  {
  }
}
