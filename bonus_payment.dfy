/** bot/handlers/bonus_payment.py: the per-chat payment session
    (`PAYMENT_STATE`) and the split of a plan price between meow-coins and
    money. Message ids returned by Telegram are parameters (None when the
    send failed); message deletion is not modelled beyond clearing the ids. */
module BonusPayment {
  import opened Wrappers
  import opened ReferralDb
  import opened Calendar
  import Text
  import Const

  datatype PayState = NoState | ChooseBonusAmount | WaitingPayment

  /** One chat's entry of `PAYMENT_STATE`; prices in kopecks, bonus in coins
      (one coin is one rouble). */
  datatype Session = Session(
    state: PayState,
    fullPrice: int,
    description: string,
    bonusInput: nat,
    invoiceMsgId: Option<int>,
    choosePromptId: Option<int>,
    payload: string)

  /** The session `prompt_payment_method` starts for a plan. */
  function FreshSession(product: Const.Product): (s: Session)
    ensures s.state == NoState && s.bonusInput == 0
    ensures s.fullPrice == product.amount && s.payload == product.payload && s.description == product.title
    ensures s.invoiceMsgId == None && s.choosePromptId == None
  {
    Session(NoState, product.amount, product.title, 0, None, None, product.payload)
  }

  datatype BonusCheck = Accepted | InsufficientBonus | BelowMinimum

  /** The checks of `bonus_input_handler`, in their order: more than the
      balance, then less than MINMUM_BONUS_PAYMENT roubles left to pay. */
  function ValidateBonus(fullPrice: int, bonus: nat, balance: int): (c: BonusCheck)
    ensures c == InsufficientBonus <==> bonus > balance
    ensures c == BelowMinimum <==> bonus <= balance && fullPrice / 100 - bonus < Const.MINMUM_BONUS_PAYMENT
  {
    if bonus > balance then InsufficientBonus
    else if fullPrice / 100 - bonus < Const.MINMUM_BONUS_PAYMENT then BelowMinimum
    else Accepted
  }

  /** The largest bonus the user is told they may spend. */
  function MaxBonus(fullPrice: int, balance: int): int {
    Min(fullPrice / 100 - Const.MINMUM_BONUS_PAYMENT, balance)
  }

  /** The advisory maximum is exact: a bonus is accepted iff it does not
      exceed it. */
  lemma MaxBonusIsTight(fullPrice: int, bonus: nat, balance: int)
    ensures ValidateBonus(fullPrice, bonus, balance) == Accepted <==> bonus <= MaxBonus(fullPrice, balance)
  {
  }

  /** `max(full_price - bonus * 100, 0)`: the money part of the price. */
  function InvoiceAmount(fullPrice: int, bonus: nat): (amount: int)
    ensures amount >= 0
    ensures fullPrice >= bonus * 100 ==> amount == fullPrice - bonus * 100
  {
    if fullPrice - bonus * 100 > 0 then fullPrice - bonus * 100 else 0
  }

  /** An accepted bonus on a whole-rouble price leaves at least
      MINMUM_BONUS_PAYMENT roubles to pay, and coins and money add up to the
      price. */
  lemma AcceptedLeavesMinimum(fullPrice: int, bonus: nat, balance: int)
    requires fullPrice % 100 == 0
    requires ValidateBonus(fullPrice, bonus, balance) == Accepted
    ensures InvoiceAmount(fullPrice, bonus) == fullPrice - bonus * 100
    ensures InvoiceAmount(fullPrice, bonus) >= Const.MINMUM_BONUS_PAYMENT * 100
    ensures InvoiceAmount(fullPrice, bonus) + bonus * 100 == fullPrice
  {
  }

  /** On the one-month plan (149 roubles) at most 89 coins can be spent. */
  lemma OneMonthPlanBonusLimit()
    ensures ValidateBonus(Const.MONTH1.amount, 89, 1000) == Accepted
    ensures InvoiceAmount(Const.MONTH1.amount, 89) == 6000
    ensures ValidateBonus(Const.MONTH1.amount, 90, 1000) == BelowMinimum
    ensures ValidateBonus(Const.MONTH1.amount, 90, 50) == InsufficientBonus
    ensures MaxBonus(Const.MONTH1.amount, 1000) == 89
  {
  }

  /** The product description on the invoice. */
  function InvoiceDescription(bonus: nat): string {
    if bonus > 0 then "Скидка " + Text.Decimal(bonus) + " бонусов" else "Полная стоимость"
  }

  /** A bonus held by a session always leaves at least MINMUM_BONUS_PAYMENT
      roubles of the price to pay. */
  predicate SessionOk(s: Session) {
    s.bonusInput > 0 ==> s.fullPrice / 100 - s.bonusInput >= Const.MINMUM_BONUS_PAYMENT
  }

  datatype Choice = PayFull | PayBonus

  datatype InputOutcome =
    | NotDispatched     // no session in a bonus state: the handler is not called
    | InvalidInput      // not a digit string: session dropped
    | InvoiceCancelled  // text while waiting for payment: session dropped
    | Rejected(reason: BonusCheck)
    | InvoiceIssued(invoice: Option<Const.Product>)

  class PaymentState {
    /** `PAYMENT_STATE`, keyed by chat id. */
    var sessions: map<int, Session>

    ghost predicate Valid()
      reads this
    {
      forall chat :: chat in sessions ==> SessionOk(sessions[chat])
    }

    /** `PAYMENT_STATE` starts empty. */
    constructor ()
      ensures Valid() && sessions == map[]
    {
      sessions := map[];
    }

    /** `in_payment_process`: the chat has a session choosing a bonus or
        waiting for the payment. */
    function InPaymentProcess(chatId: int): (r: bool)
      reads this
      ensures r <==> chatId in sessions && sessions[chatId].state != NoState
    {
      chatId in sessions && (sessions[chatId].state == ChooseBonusAmount || sessions[chatId].state == WaitingPayment)
    }

    /** `prompt_payment_method(product)`: a fresh session replaces whatever
        the chat had; `promptId` is the id of the sent prompt. */
    method PromptPaymentMethod(chatId: int, product: Const.Product, promptId: Option<int>)
      requires Valid()
      modifies this
      ensures Valid()
      ensures sessions == old(sessions)[chatId := FreshSession(product).(choosePromptId := promptId)]
    {
      sessions := sessions[chatId := FreshSession(product).(choosePromptId := promptId)];
    }

    /** `send_invoice_with_bonus`: issue the invoice for the money part of the
        price; both message ids are cleared and the new invoice's id (None if
        sending failed) is kept. */
    method SendInvoiceWithBonus(chatId: int, sentId: Option<int>) returns (invoice: Option<Const.Product>)
      requires Valid()
      modifies this
      ensures Valid()
      ensures chatId !in old(sessions) ==> invoice == None && sessions == old(sessions)
      ensures chatId in old(sessions) ==>
        var s := old(sessions)[chatId];
        && invoice == Some(Const.Product(s.description, InvoiceAmount(s.fullPrice, s.bonusInput),
                                         InvoiceDescription(s.bonusInput), s.payload))
        && sessions == old(sessions)[chatId := s.(invoiceMsgId := sentId, choosePromptId := None)]
    {
      if chatId !in sessions {
        return None;
      }
      var s := sessions[chatId];
      var amount := InvoiceAmount(s.fullPrice, s.bonusInput);
      invoice := Some(Const.Product(s.description, amount, InvoiceDescription(s.bonusInput), s.payload));
      sessions := sessions[chatId := s.(invoiceMsgId := sentId, choosePromptId := None)];
    }

    /** `callback_choose_payment_method`: without a session nothing happens.
        Otherwise both message ids are cleared; `pay_full` waits for the full
        price and sends the invoice, `pay_bonus` asks for an amount and
        reports the advisory maximum. */
    method CallbackChoosePaymentMethod(chatId: int, choice: Choice, refRows: map<int, ReferralRow>,
                                       sentId: Option<int>)
      returns (maxBonus: Option<int>, invoice: Option<Const.Product>)
      requires Valid()
      modifies this
      ensures Valid()
      ensures chatId !in old(sessions) ==> sessions == old(sessions) && maxBonus == None && invoice == None
      ensures chatId in old(sessions) && choice == PayFull ==>
        var s := old(sessions)[chatId];
        && maxBonus == None
        && invoice == Some(Const.Product(s.description, InvoiceAmount(s.fullPrice, 0), InvoiceDescription(0), s.payload))
        && sessions == old(sessions)[chatId := s.(state := WaitingPayment, bonusInput := 0,
                                                   invoiceMsgId := sentId, choosePromptId := None)]
      ensures chatId in old(sessions) && choice == PayBonus ==>
        var s := old(sessions)[chatId];
        && maxBonus == Some(MaxBonus(s.fullPrice, GetBalance(refRows, chatId)))
        && invoice == None
        && sessions == old(sessions)[chatId := s.(state := ChooseBonusAmount,
                                                   invoiceMsgId := None, choosePromptId := None)]
    {
      maxBonus, invoice := None, None;
      if chatId !in sessions {
        return;
      }
      var s := sessions[chatId].(invoiceMsgId := None, choosePromptId := None);
      match choice
      case PayFull =>
        sessions := sessions[chatId := s.(state := WaitingPayment, bonusInput := 0)];
        invoice := SendInvoiceWithBonus(chatId, sentId);
      case PayBonus =>
        sessions := sessions[chatId := s.(state := ChooseBonusAmount)];
        maxBonus := Some(MaxBonus(s.fullPrice, GetBalance(refRows, chatId)));
    }

    /** `bonus_input_handler(text)`, behind its `in_payment_process`
        dispatch filter: a chat with no session, or one still in the none
        state, never reaches the handler and nothing changes. Otherwise text
        that is not a digit string, or any text while the invoice is out,
        drops the session; a rejected amount leaves it unchanged; an
        accepted one is stored and invoiced. */
    method BonusInputHandler(chatId: int, text: string, refRows: map<int, ReferralRow>, sentId: Option<int>)
      returns (outcome: InputOutcome)
      requires Valid()
      modifies this
      ensures Valid()
      ensures !old(InPaymentProcess(chatId)) ==> outcome == NotDispatched && sessions == old(sessions)
      ensures old(InPaymentProcess(chatId)) && !Text.IsDigits(text) ==>
        outcome == InvalidInput && sessions == old(sessions) - {chatId}
      ensures old(InPaymentProcess(chatId)) && Text.IsDigits(text) && old(sessions)[chatId].state == WaitingPayment ==>
        outcome == InvoiceCancelled && sessions == old(sessions) - {chatId}
      ensures old(InPaymentProcess(chatId)) && Text.IsDigits(text) && old(sessions)[chatId].state == ChooseBonusAmount ==>
        var s := old(sessions)[chatId];
        var bonus := Text.DigitsValue(text);
        var check := ValidateBonus(s.fullPrice, bonus, GetBalance(refRows, chatId));
        && (check != Accepted ==> outcome == Rejected(check) && sessions == old(sessions))
        && (check == Accepted ==>
              && sessions == old(sessions)[chatId := s.(state := WaitingPayment, bonusInput := bonus,
                                                         invoiceMsgId := sentId, choosePromptId := None)]
              && outcome == InvoiceIssued(Some(Const.Product(s.description, InvoiceAmount(s.fullPrice, bonus),
                                                             InvoiceDescription(bonus), s.payload))))
    {
      if !InPaymentProcess(chatId) {
        return NotDispatched;
      }
      var s := sessions[chatId];
      if !Text.IsDigits(text) {
        sessions := sessions - {chatId};
        return InvalidInput;
      }
      if s.state == WaitingPayment {
        sessions := sessions - {chatId};
        return InvoiceCancelled;
      }
      var bonus := Text.DigitsValue(text);
      var check := ValidateBonus(s.fullPrice, bonus, GetBalance(refRows, chatId));
      if check != Accepted {
        return Rejected(check);
      }
      sessions := sessions[chatId := s.(bonusInput := bonus, state := WaitingPayment)];
      var invoice := SendInvoiceWithBonus(chatId, sentId);
      return InvoiceIssued(invoice);
    }

    /** Drop the chat's session (`PAYMENT_STATE.pop(chat_id, None)`). */
    method Pop(chatId: int)
      requires Valid()
      modifies this
      ensures Valid()
      ensures sessions == old(sessions) - {chatId}
    {
      sessions := sessions - {chatId};
    }
  }

  /** Every invoice a well-formed session issues asks for at least
      MINMUM_BONUS_PAYMENT roubles whenever coins are spent, and coins plus
      money make up the plan price. */
  lemma IssuedInvoiceCoversPrice(s: Session)
    requires SessionOk(s) && s.fullPrice % 100 == 0
    ensures s.bonusInput > 0 ==> InvoiceAmount(s.fullPrice, s.bonusInput) >= Const.MINMUM_BONUS_PAYMENT * 100
    ensures s.fullPrice >= 0 && s.bonusInput > 0 ==>
      InvoiceAmount(s.fullPrice, s.bonusInput) + s.bonusInput * 100 == s.fullPrice
  {
  }
}
