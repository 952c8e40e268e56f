/** bot/handlers/referrals.py: what `/start [code]` does to the referrals
    table, and the bonus figure of the referral-info screen. Messages are
    not modelled; database calls are taken to succeed. */
module ReferralHandlers {
  import opened Wrappers
  import opened Tables
  import opened UserDb
  import opened ReferralDb
  import Text
  import Const
  import Tasks
  import ReferralsMiddleware

  /** The store effect `referrals_start` chooses. */
  datatype StartAction =
    | NoWrites
    | InsertPlain                 // a row with no referrer
    | LinkAndCredit(referrer: int) // first use of a code: set the referrer, credit the user
    | Relink(referrer: int)        // the user already had a referrer: overwrite it, no credit

  /** `code_applied`: the user's referrals row names a referrer. The helper
      the source calls for this is not defined (see `ReferralsStartAsWritten`). */
  predicate CodeApplied(refRows: map<int, ReferralRow>, chatId: int) {
    chatId in refRows && refRows[chatId].referrer.Some?
  }

  /** The decision tree of `referrals_start(message, tokens)`, `tokens`
      being the words of the `/start` message. */
  function StartDecision(userRows: map<int, UserRow>, refRows: map<int, ReferralRow>, chatId: int,
                         tokens: seq<string>): (a: StartAction)
    ensures chatId in userRows ==> a == NoWrites
    ensures a == InsertPlain ==> chatId !in refRows
    ensures a.LinkAndCredit? || a.Relink? ==>
      |tokens| > 1 && EnsureReferralRecord(refRows, chatId, tokens[1]) && a.referrer == Text.DigitsValue(tokens[1])
    ensures a.LinkAndCredit? <==>
      chatId !in userRows && |tokens| > 1 && EnsureReferralRecord(refRows, chatId, tokens[1])
      && !CodeApplied(refRows, chatId)
    ensures (chatId !in userRows && |tokens| > 1 && EnsureReferralRecord(refRows, chatId, tokens[1])
             && CodeApplied(refRows, chatId)) ==> a == Relink(Text.DigitsValue(tokens[1]))
    ensures chatId !in userRows && !(|tokens| > 1 && EnsureReferralRecord(refRows, chatId, tokens[1])) ==>
      a == (if chatId in refRows then NoWrites else InsertPlain)
  {
    if chatId in userRows then NoWrites
    else if |tokens| > 1 then
      if EnsureReferralRecord(refRows, chatId, tokens[1]) then
        var code := Text.DigitsValue(tokens[1]);
        if !CodeApplied(refRows, chatId) then LinkAndCredit(code) else Relink(code)
      else if chatId !in refRows then InsertPlain
      else NoWrites
    else if chatId !in refRows then InsertPlain
    else NoWrites
  }

  /** The referrals table after `action`. */
  function StartEffect(refRows: map<int, ReferralRow>, chatId: int, action: StartAction): map<int, ReferralRow> {
    match action
    case NoWrites => refRows
    case InsertPlain => refRows[chatId := ReferralRow(None, INITIAL_BALANCE)]
    case LinkAndCredit(r) => Credited(Upserted(refRows, chatId, r), chatId, Const.MEOW_COINS_FIRST_USE_REF_CODE)
    case Relink(r) => Upserted(refRows, chatId, r)
  }

  /** `referrals_start` with `code_applied` read from the row: decide, then
      write. */
  method ReferralsStart(users: UsersTable, referrals: ReferralsTable, chatId: int, tokens: seq<string>)
    returns (action: StartAction)
    requires referrals.Valid()
    modifies referrals
    ensures referrals.Valid()
    ensures action == StartDecision(users.rows, old(referrals.rows), chatId, tokens)
    ensures referrals.rows == StartEffect(old(referrals.rows), chatId, action)
    ensures referrals.order == if chatId in old(referrals.rows) || action == NoWrites then old(referrals.order)
                               else old(referrals.order) + [chatId]
  {
    var existsInUsers := UserDb.SelectUserExists(users.rows, chatId);
    var existsInReferrals := ReferralDb.SelectUserExists(referrals.rows, chatId);
    var codeApplied := existsInReferrals && referrals.rows[chatId].referrer.Some?;
    if existsInUsers {
      return NoWrites;
    }
    if |tokens| > 1 {
      var approved := EnsureReferralRecord(referrals.rows, chatId, tokens[1]);
      if approved {
        var code := Text.DigitsValue(tokens[1]);
        referrals.InsertUpdateReferrer(chatId, code);
        if !existsInReferrals || !codeApplied {
          referrals.UpdateBalance(chatId, Const.MEOW_COINS_FIRST_USE_REF_CODE);
          return LinkAndCredit(code);
        }
        return Relink(code);
      }
      action := InserUserReferrals(referrals, chatId, existsInReferrals);
      return;
    }
    action := InserUserReferrals(referrals, chatId, existsInReferrals);
  }

  /** `inser_user_referrals(chat_id, exists_in_referrals)`: a referrer-less
      row only for a user that has none. */
  method InserUserReferrals(referrals: ReferralsTable, chatId: int, existsInReferrals: bool)
    returns (action: StartAction)
    requires referrals.Valid()
    requires existsInReferrals <==> chatId in referrals.rows
    modifies referrals
    ensures referrals.Valid()
    ensures action == if existsInReferrals then NoWrites else InsertPlain
    ensures referrals.rows == StartEffect(old(referrals.rows), chatId, action)
    ensures referrals.order == if existsInReferrals then old(referrals.order) else old(referrals.order) + [chatId]
  {
    if !existsInReferrals {
      ReferralsMiddleware.InsertUserReferrals(referrals, chatId, false);
      return InsertPlain;
    }
    return NoWrites;
  }

  /** A `/start` never creates a self-referral or a reciprocal pair. */
  lemma StartKeepsNoShortCycles(userRows: map<int, UserRow>, refRows: map<int, ReferralRow>, chatId: int,
                                tokens: seq<string>)
    requires NoShortCycles(refRows)
    ensures NoShortCycles(StartEffect(refRows, chatId, StartDecision(userRows, refRows, chatId, tokens)))
  {
    var a := StartDecision(userRows, refRows, chatId, tokens);
    match a
    case NoWrites =>
    case InsertPlain =>
    case LinkAndCredit(r) =>
      ApprovedUpsertKeepsNoShortCycles(refRows, chatId, tokens[1]);
      var up := Upserted(refRows, chatId, r);
      assert forall k :: k in up ==> Credited(up, chatId, Const.MEOW_COINS_FIRST_USE_REF_CODE)[k].referrer == up[k].referrer;
    case Relink(r) =>
      ApprovedUpsertKeepsNoShortCycles(refRows, chatId, tokens[1]);
  }

  /** The first-use credit is paid at most once per user: after it the user
      has a referrer, so no later `/start` credits again. */
  lemma FirstUseCreditOnce(userRows: map<int, UserRow>, refRows: map<int, ReferralRow>, chatId: int,
                           tokens: seq<string>, later: seq<string>)
    requires StartDecision(userRows, refRows, chatId, tokens).LinkAndCredit?
    ensures var after := StartEffect(refRows, chatId, StartDecision(userRows, refRows, chatId, tokens));
      && CodeApplied(after, chatId)
      && after[chatId].balance == GetBalance(refRows, chatId) + Const.MEOW_COINS_FIRST_USE_REF_CODE
      && !StartDecision(userRows, after, chatId, later).LinkAndCredit?
  {
  }

  /** `referrals_start` as the source has it: the existence checks call
      `middleware.referrals.get_refferer`, which middleware/referrals.py
      does not define, so every call raises AttributeError before any write
      and the referrals table is left as it was. */
  function ReferralsStartAsWritten(userRows: map<int, UserRow>, refRows: map<int, ReferralRow>, chatId: int,
                                   tokens: seq<string>): (r: Result<StartAction>)
    ensures r.Err?
  {
    Err(MissingHelper)
  }

  /** A new user following a valid referral link gets neither the referrer
      link nor the first-use bonus from the source as written, where the
      corrected decision links and credits. */
  lemma AsWrittenLosesReferral()
    ensures var refRows := map[7 := ReferralRow(None, 0)];
      && ReferralsStartAsWritten(map[], refRows, 8, ["/start", "7"]) == Err(MissingHelper)
      && StartDecision(map[], refRows, 8, ["/start", "7"]) == LinkAndCredit(7)
      && StartEffect(refRows, 8, LinkAndCredit(7))[8] == ReferralRow(Some(7), Const.MEOW_COINS_FIRST_USE_REF_CODE)
  {
    assert Text.DigitsValue("7") == 7;
  }

  /** The bonus figure of `referral_info`: MEOW_COINS_REFERRER_BONUS per
      active referred user, a None or empty list counting as none. */
  function ReferralBonusFigure(active: Option<seq<int>>): (bonus: nat)
    ensures active.None? ==> bonus == 0
    ensures active.Some? ==> bonus == Const.MEOW_COINS_REFERRER_BONUS * |active.value|
  {
    var num := if active.None? || |active.value| == 0 then 0 else |active.value|;
    Const.MEOW_COINS_REFERRER_BONUS * num
  }

  /** The figure shown counts users the monthly run may not pay for (users
      still on the trial), never fewer: a user that counts for the monthly
      bonus is also listed as active. */
  lemma {:induction false} ShownFigureCoversMonthlyCredit(users: map<int, UserRow>, referred: seq<int>, now: int)
    ensures Tasks.EligibleCount(users, referred, now)
            <= |ReferralsMiddleware.ActiveFilter(users, referred, now, {})|
    decreases |referred|
  {
    if |referred| > 0 {
      ShownFigureCoversMonthlyCredit(users, referred[..|referred| - 1], now);
    }
  }
}
