/** bot/handlers/subscriptions.py: the trial grant, the subscription menu
    and the routing of its buttons. Messages, the instructions screen and
    the login calls are not modelled. */
module Subscriptions {
  import opened Wrappers
  import opened UserDb
  import Const
  import Timestamp
  import Calendar
  import Tasks
  import UserMiddleware
  import ApiClient

  /** What `get_trial` ends with. */
  datatype TrialOutcome =
    | TrialExists                  // the user already has a row: no writes
    | TrialFailed(error: Failure)  // creating the subscription raised
    | TrialGranted(profile: string)

  /** `get_trial`: a user with no row gets a three-day subscription and the
      trial date `now`; any user with a row is refused. When the panel
      rejects the new client the row is already written and the exception
      propagates before the trial date is stamped. */
  method GetTrial(users: UsersTable, chatId: int, username: string, now: nat,
                  userId: string, subId: string, port: nat, apiIp: string, panelOk: bool)
    returns (outcome: TrialOutcome)
    requires users.Valid()
    modifies users
    ensures users.Valid()
    ensures chatId in old(users.rows) <==> outcome == TrialExists
    ensures chatId in old(users.rows) ==> users.rows == old(users.rows) && users.order == old(users.order)
    ensures chatId !in old(users.rows) ==>
      var row := ApiClient.NewClientRow(chatId, Const.DAY_3_TIMESTAMP, username, now, userId, subId, port, apiIp);
      && row.date == now + 3 * Calendar.MS_PER_DAY
      && users.order == old(users.order) + [chatId]
      && (outcome.TrialGranted? <==> panelOk)
      && (outcome.TrialFailed? ==> outcome.error == PanelRejected && users.rows == old(users.rows)[chatId := row])
      && (outcome.TrialGranted? ==>
            && outcome.profile == ApiClient.VlessProfile(userId, apiIp, port, username)
            && users.rows == old(users.rows)[chatId := row.(trialDate := Some(now))])
    ensures outcome.TrialGranted? && now != 0 ==>
      forall clock :: !Tasks.CountsForBonus(users.rows, chatId, clock)
  {
    if UserDb.SelectUserExists(users.rows, chatId) {
      return TrialExists;
    }
    Timestamp.TrialLastsThreeDays(now);
    var data := UserMiddleware.CreateOrUpdateUser(users, chatId, Const.DAY_3_TIMESTAMP, username, now,
                                                  userId, subId, port, apiIp, panelOk);
    if data.Err? {
      return TrialFailed(data.error);
    }
    UserMiddleware.InsertTrialDate(users, chatId, now);
    outcome := TrialGranted(data.value.value);
    if now != 0 {
      forall clock | true
        ensures !Tasks.CountsForBonus(users.rows, chatId, clock)
      {
        Tasks.FreshTrialDoesNotCount(users.rows, chatId, now, clock);
      }
    }
  }

  /** A button: its label and its callback data. */
  datatype Button = Button(caption: string, data: string)

  /** The keyboard of `show_subscription_options`: the trial only for a
      user with no row, then the four plans, then the way back. */
  function SubscriptionButtons(registered: bool): (buttons: seq<Button>)
    ensures |buttons| == if registered then 5 else 6
    ensures buttons[|buttons| - 1] == Button(Const.MAIN_MENU, "menu_start")
    ensures (exists i :: 0 <= i < |buttons| && buttons[i].data == "sub_trial") <==> !registered
    ensures forall i :: 0 <= i < |Const.PLANS| ==>
      buttons[|buttons| - 5 + i] == Button(Const.PLANS[i].title, "sub_" + Const.PLANS[i].payload)
  {
    PlanCallbacks();
    var trial := if registered then [] else [Button(Const.TRIAL, "sub_trial")];
    var plans := seq(4, i requires 0 <= i < 4 => Button(Const.PLANS[i].title, "sub_" + Const.PLANS[i].payload));
    assert "menu_start"[0] != "sub_trial"[0];
    var b := trial + plans + [Button(Const.MAIN_MENU, "menu_start")];
    assert forall i :: |trial| <= i < |b| - 1 ==> b[i] == plans[i - |trial|];
    assert forall i :: |trial| <= i < |b| ==> b[i].data != "sub_trial";
    assert !registered ==> b[0].data == "sub_trial";
    b
  }

  /** Where a `sub_` callback goes. */
  datatype SubRoute = ToTrial | ToPayment(product: Const.Product) | Ignored

  /** `handle_sub_callback`: the trial button to `get_trial`, a plan button
      to `prompt_payment_method` with that plan, anything else nowhere. */
  function HandleSubCallback(data: string): (r: SubRoute)
    ensures r == ToTrial <==> data == "sub_trial"
    ensures r.ToPayment? <==> exists i :: 0 <= i < |Const.PLANS| && data == "sub_" + Const.PLANS[i].payload
    ensures r.ToPayment? ==> r.product in Const.PLANS && data == "sub_" + r.product.payload
  {
    PlanCallbacks();
    if data == "sub_trial" then ToTrial
    else if data == "sub_month1" then ToPayment(Const.MONTH1)
    else if data == "sub_month3" then ToPayment(Const.MONTH3)
    else if data == "sub_month6" then ToPayment(Const.MONTH6)
    else if data == "sub_year1" then ToPayment(Const.YEAR1)
    else Ignored
  }

  /** The callback data of the four plan buttons, none of them the trial's;
      a helper for `SubscriptionButtons` and `MenuButtonsAreRouted`. */
  lemma PlanCallbacks()
    ensures "sub_" + Const.PLANS[0].payload == "sub_month1"
    ensures "sub_" + Const.PLANS[1].payload == "sub_month3"
    ensures "sub_" + Const.PLANS[2].payload == "sub_month6"
    ensures "sub_" + Const.PLANS[3].payload == "sub_year1"
    ensures forall i :: 0 <= i < |Const.PLANS| ==> "sub_" + Const.PLANS[i].payload != "sub_trial"
  {
    assert "sub_year1"[4] != "sub_trial"[4];
  }

  /** Every `sub_` button the menu shows is routed, and a plan button leads
      to a product whose payload is a period the expiry arithmetic accepts. */
  lemma MenuButtonsAreRouted(registered: bool, i: int)
    requires 0 <= i < |SubscriptionButtons(registered)| - 1
    ensures HandleSubCallback(SubscriptionButtons(registered)[i].data) != Ignored
    ensures HandleSubCallback(SubscriptionButtons(registered)[i].data).ToPayment? ==>
      Timestamp.StrToRelativedelta(HandleSubCallback(SubscriptionButtons(registered)[i].data).product.payload).Some?
  {
    var b := SubscriptionButtons(registered);
    if !registered && i == 0 {
      assert b[i].data == "sub_trial";
    } else {
      var j := i - (|b| - 5);
      assert b[i] == Button(Const.PLANS[j].title, "sub_" + Const.PLANS[j].payload);
    }
  }
}
