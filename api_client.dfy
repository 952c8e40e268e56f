/** api/client.py: creating and renewing a subscription. The local `users`
    row is written first; the panel POST comes after and is an oracle
    (`panelOk`). Generated ids, the random port, the panel address and the
    clock are parameters. */
module ApiClient {
  import opened Wrappers
  import opened UserDb
  import Text
  import Timestamp

  const PROFILE_PARAMS := "?type=tcp&security=reality&pbk=OTaHp-w6pfI6LSU30DKJp00o2L0VVDpiDkYVa_EVcDs&fp=chrome&sni=www.google.com&sid=7c1a8b90ee&spx=%2F&flow=xtls-rprx-vision"

  /** The VLESS connection string handed to the user; the fragment after
      `#` is the e-mail field, i.e. the Telegram username. */
  function VlessProfile(userId: string, apiIp: string, port: nat, email: string): (p: string)
    ensures Text.StartsWith(p, "vless://" + userId + "@" + apiIp + ":")
    ensures Text.EndsWith(p, PROFILE_PARAMS + "#" + email)
  {
    var head := "vless://" + userId + "@" + apiIp + ":";
    var tail := PROFILE_PARAMS + "#" + email;
    var p := head + Text.Decimal(port) + tail;
    assert p[..|head|] == head;
    assert p[|p| - |tail|..] == tail;
    p
  }

  /** The row `add_client` writes for a new user: expiry `set_date(period)`,
      the generated ids, the profile, login date now and no trial date. */
  function NewClientRow(tgId: int, period: string, username: string, now: nat,
                        userId: string, subId: string, port: nat, apiIp: string): UserRow
    requires Timestamp.IsPeriod(period)
  {
    UserRow(tgId, userId, username, Timestamp.SetDate(now, period).value, subId,
            VlessProfile(userId, apiIp, port, username), now, None)
  }

  /** `add_client(tg_id, period, username)`. An unknown period fails before
      anything is written; otherwise the row (expiry `set_date(period)`,
      login date now) is inserted, and a rejected panel call fails with the
      row left in place. */
  method AddClient(users: UsersTable, tgId: int, period: string, username: string, now: nat,
                   userId: string, subId: string, port: nat, apiIp: string, panelOk: bool)
    returns (r: Result<string>)
    requires users.Valid()
    modifies users
    ensures users.Valid()
    ensures !Timestamp.IsPeriod(period) ==> r == Err(InvalidPeriod)
    ensures Timestamp.IsPeriod(period) && tgId in old(users.rows) ==> r == Err(UniqueViolation)
    ensures Timestamp.IsPeriod(period) && tgId !in old(users.rows) ==>
      && users.rows == old(users.rows)[tgId := NewClientRow(tgId, period, username, now, userId, subId, port, apiIp)]
      && users.order == old(users.order) + [tgId]
      && r == (if panelOk then Ok(VlessProfile(userId, apiIp, port, username)) else Err(PanelRejected))
    ensures !(Timestamp.IsPeriod(period) && tgId !in old(users.rows)) ==>
      users.rows == old(users.rows) && users.order == old(users.order)
  {
    var date := Timestamp.SetDate(now, period);
    if date.None? {
      return Err(InvalidPeriod);
    }
    var profile := VlessProfile(userId, apiIp, port, username);
    var inserted := users.InsertUser(tgId, userId, username, date.value, subId, profile, now);
    if !inserted {
      return Err(UniqueViolation);
    }
    if !panelOk {
      return Err(PanelRejected);
    }
    return Ok(profile);
  }

  /** `update_client(tg_id, period)`: never raises. With a row and a known
      period the new expiry `update_date(old_date, period)` is stored; the
      answer is true only when the panel call then succeeds, and a rejected
      call leaves the new date stored. */
  method UpdateClient(users: UsersTable, tgId: int, period: string, now: nat, panelOk: bool)
    returns (ok: bool)
    requires users.Valid()
    modifies users
    ensures users.Valid() && users.order == old(users.order)
    ensures ok <==> tgId in old(users.rows) && Timestamp.IsPeriod(period) && panelOk
    ensures tgId in old(users.rows) && Timestamp.IsPeriod(period) ==>
      users.rows == WithDate(old(users.rows), tgId,
                             Timestamp.UpdateDate(old(users.rows)[tgId].date, period, now).value)
    ensures !(tgId in old(users.rows) && Timestamp.IsPeriod(period)) ==> users.rows == old(users.rows)
  {
    var row := SelectUser(users.rows, tgId);
    if row.None? {
      return false;
    }
    var date := Timestamp.UpdateDate(row.value.date, period, now);
    if date.None? {
      return false;
    }
    users.UpdateUserDate(date.value, tgId);
    return panelOk;
  }

  /** A renewal always moves the stored expiry forward past both the old
      expiry and now, and touches no other column or row. */
  lemma RenewalExtends(rows: map<int, UserRow>, tgId: int, period: string, now: nat)
    requires tgId in rows && Timestamp.IsPeriod(period)
    ensures var d := Timestamp.UpdateDate(rows[tgId].date, period, now).value;
      && WithDate(rows, tgId, d)[tgId].date > rows[tgId].date
      && WithDate(rows, tgId, d)[tgId].date > now
      && WithDate(rows, tgId, d)[tgId] == rows[tgId].(date := d)
  {
  }
}
