/** bot/handlers/payments.py: what a payment confirmation or failure does
    to the session, the balance and the subscription. Messages, the login
    calls and the receipt are not modelled. */
module Payments {
  import opened Wrappers
  import opened UserDb
  import opened ReferralDb
  import opened BonusPayment
  import UserMiddleware
  import ApiClient
  import ReferralsMiddleware
  import Timestamp

  /** `give_subscription(period)`: renew an existing user (the renewal's
      outcome is not checked) or create one, whose failure propagates. */
  method GiveSubscription(users: UsersTable, tgId: int, period: string, username: string, now: nat,
                          userId: string, subId: string, port: nat, apiIp: string, panelOk: bool)
    returns (r: Result<Option<string>>)
    requires users.Valid()
    modifies users
    ensures users.Valid()
    ensures tgId in old(users.rows) ==> r == Ok(None)
    ensures tgId !in old(users.rows) && !Timestamp.IsPeriod(period) ==> r == Err(InvalidPeriod)
    ensures tgId !in old(users.rows) && Timestamp.IsPeriod(period) ==>
      r == (if panelOk then Ok(Some(ApiClient.VlessProfile(userId, apiIp, port, username))) else Err(PanelRejected))
    ensures Granted(old(users.rows), users.rows, tgId, period, now, username, userId, subId, port, apiIp)
    ensures users.order == if tgId in old(users.rows) || !Timestamp.IsPeriod(period) then old(users.order)
                           else old(users.order) + [tgId]
  {
    r := UserMiddleware.CreateOrUpdateUser(users, tgId, period, username, now, userId, subId, port, apiIp, panelOk);
  }

  /** `successful_payment`: `Err(MissingSession)` with nothing changed when
      the chat has no session (the source reads an unbound local and raises).
      Otherwise a bonus held by the session is debited first, through the
      wrapper that swallows a failing update (`debitRaised`: the coins are
      then kept), then the subscription is given; the session is dropped
      only when that succeeds, and a failure keeps the debit. The result is
      the amount reported to the user, `total_amount // 100`. */
  method SuccessfulPayment(state: PaymentState, referrals: ReferralsTable, users: UsersTable,
                           tgId: int, totalAmount: int, payload: string, username: string, now: nat,
                           userId: string, subId: string, port: nat, apiIp: string, panelOk: bool,
                           debitRaised: bool)
    returns (r: Result<int>)
    requires state.Valid() && referrals.Valid() && users.Valid()
    modifies state, referrals, users
    ensures state.Valid() && referrals.Valid() && users.Valid()
    ensures tgId !in old(state.sessions) ==>
      && r == Err(MissingSession)
      && state.sessions == old(state.sessions)
      && referrals.rows == old(referrals.rows) && referrals.order == old(referrals.order)
      && users.rows == old(users.rows) && users.order == old(users.order)
    ensures tgId in old(state.sessions) ==>
      var bonus: int := old(state.sessions)[tgId].bonusInput;
      && referrals.rows == (if bonus > 0 && !debitRaised then Credited(old(referrals.rows), tgId, -bonus)
                            else old(referrals.rows))
      && referrals.order == old(referrals.order)
      && (r.Ok? ==> r.value == totalAmount / 100 && state.sessions == old(state.sessions) - {tgId})
      && (r.Err? ==> state.sessions == old(state.sessions))
      && (tgId in old(users.rows) ==> r.Ok?)
      && (tgId !in old(users.rows) ==> (r.Ok? <==> Timestamp.IsPeriod(payload) && panelOk))
      && Granted(old(users.rows), users.rows, tgId, payload, now, username, userId, subId, port, apiIp)
      && users.order == (if tgId in old(users.rows) || !Timestamp.IsPeriod(payload) then old(users.order)
                         else old(users.order) + [tgId])
  {
    if tgId !in state.sessions {
      return Err(MissingSession);
    }
    var bonus: int := state.sessions[tgId].bonusInput;
    if bonus > 0 {
      ReferralsMiddleware.UpdateBalance(referrals, tgId, -bonus, debitRaised);
    }
    var given := GiveSubscription(users, tgId, payload, username, now, userId, subId, port, apiIp, panelOk);
    if given.Err? {
      return Err(given.error);
    }
    state.Pop(tgId);
    return Ok(totalAmount / 100);
  }

  /** The subscription `payload` was given to `tgId`: an existing row's
      expiry renewed by `update_date`, or a new row written by `add_client`;
      an unknown payload writes nothing. No other row changes. */
  ghost predicate Granted(before: map<int, UserRow>, after: map<int, UserRow>, tgId: int, payload: string, now: nat,
                          username: string, userId: string, subId: string, port: nat, apiIp: string) {
    && (!Timestamp.IsPeriod(payload) ==> after == before)
    && (tgId in before && Timestamp.IsPeriod(payload) ==>
          after == WithDate(before, tgId, Timestamp.UpdateDate(before[tgId].date, payload, now).value))
    && (tgId !in before && Timestamp.IsPeriod(payload) ==>
          after == before[tgId := ApiClient.NewClientRow(tgId, payload, username, now, userId, subId, port, apiIp)])
  }

  /** `successful_payment` as evidently intended: a payment whose chat has no
      session (the session was dropped after the invoice went out, or the
      bot restarted) is handled as a full-price payment, so the customer
      still gets the subscription the invoice payload names. */
  method SuccessfulPaymentCorrected(state: PaymentState, referrals: ReferralsTable, users: UsersTable,
                                    tgId: int, totalAmount: int, payload: string, username: string, now: nat,
                                    userId: string, subId: string, port: nat, apiIp: string, panelOk: bool,
                           debitRaised: bool)
    returns (r: Result<int>)
    requires state.Valid() && referrals.Valid() && users.Valid()
    modifies state, referrals, users
    ensures state.Valid() && referrals.Valid() && users.Valid()
    ensures var bonus: int := if tgId in old(state.sessions) then old(state.sessions)[tgId].bonusInput else 0;
      && referrals.rows == (if bonus > 0 && !debitRaised then Credited(old(referrals.rows), tgId, -bonus)
                            else old(referrals.rows))
      && referrals.order == old(referrals.order)
      && (r.Ok? ==> r.value == totalAmount / 100 && state.sessions == old(state.sessions) - {tgId})
      && (r.Err? ==> state.sessions == old(state.sessions))
      && (tgId in old(users.rows) ==> r.Ok?)
      && (tgId !in old(users.rows) ==> (r.Ok? <==> Timestamp.IsPeriod(payload) && panelOk))
      && Granted(old(users.rows), users.rows, tgId, payload, now, username, userId, subId, port, apiIp)
      && users.order == (if tgId in old(users.rows) || !Timestamp.IsPeriod(payload) then old(users.order)
                         else old(users.order) + [tgId])
  {
    var bonus: int := if tgId in state.sessions then state.sessions[tgId].bonusInput else 0;
    if bonus > 0 {
      ReferralsMiddleware.UpdateBalance(referrals, tgId, -bonus, debitRaised);
    }
    var given := GiveSubscription(users, tgId, payload, username, now, userId, subId, port, apiIp, panelOk);
    if given.Err? {
      return Err(given.error);
    }
    state.Pop(tgId);
    return Ok(totalAmount / 100);
  }

  /** `unsuccessful_payment`: drops the session and touches no balance;
      without a session the source raises (unbound local) and nothing
      changes. */
  method UnsuccessfulPayment(state: PaymentState, tgId: int) returns (ok: bool)
    requires state.Valid()
    modifies state
    ensures state.Valid()
    ensures ok <==> tgId in old(state.sessions)
    ensures state.sessions == old(state.sessions) - {tgId}
  {
    if tgId !in state.sessions {
      return false;
    }
    state.Pop(tgId);
    return true;
  }

  /** From `bonus_input_handler` to `successful_payment`: a bonus accepted
      against the balance read at the time belongs to a chat with a
      referrals row, so the debit is never a no-op; it takes exactly the
      bonus and, on that balance, leaves it non-negative; coins and money
      make up the whole price; and the session it leaves is well formed. */
  lemma AcceptedBonusDebit(rows: map<int, ReferralRow>, tgId: int, fullPrice: int, bonus: nat, s: Session)
    requires fullPrice % 100 == 0
    requires bonus > 0 && ValidateBonus(fullPrice, bonus, GetBalance(rows, tgId)) == Accepted
    requires s.fullPrice == fullPrice && s.bonusInput == bonus
    ensures tgId in rows
    ensures GetBalance(Credited(rows, tgId, -(bonus as int)), tgId) == GetBalance(rows, tgId) - bonus >= 0
    ensures InvoiceAmount(fullPrice, bonus) + 100 * bonus == fullPrice
    ensures SessionOk(s)
  {
    AcceptedLeavesMinimum(fullPrice, bonus, GetBalance(rows, tgId));
  }
}
