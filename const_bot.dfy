/** const/const_bot.py: the plan catalogue, the bonus constants and the
    sentinels the rest of the bot compares against. (The per-chat
    `PAYMENT_STATE` dictionary is `BonusPayment.PaymentState`.) */
module Const {

  const MEOW_COINS_REFERRER_BONUS: nat := 20
  const MEOW_COINS_FIRST_USE_REF_CODE: nat := 20

  const CURRENCY := "RUB"

  /** Button labels of the subscription menu that are not plan titles. */
  const MAIN_MENU := "🏠 В главное меню"
  const TRIAL := "🐾🎈 3 Дня (пробная)"

  /** Period symbols, as accepted by `Timestamp.StrToRelativedelta`. */
  const DAY_3_TIMESTAMP := "day3"
  const MONTH_1_TIMESTAMP := "month1"
  const MONTH_3_TIMESTAMP := "month3"
  const MONTH_6_TIMESTAMP := "month6"
  const YEAR_1_TIMESTAMP := "year1"

  /** A catalogue entry; `amount` is in kopecks (minor units of RUB). */
  datatype Product = Product(title: string, amount: int, description: string, payload: string)

  const MONTH1 := Product("🐾 1 Месяц - 149 РУБ", 149 * 100, "Подписка на 1 месяц.", MONTH_1_TIMESTAMP)
  const MONTH3 := Product("🛡️ 3 Месяца - 390 РУБ", 390 * 100, "Подписка на 3 месяца.", MONTH_3_TIMESTAMP)
  const MONTH6 := Product("💻 6 Месяцев - 749 РУБ", 749 * 100, "Подписка на 6 месяцев.", MONTH_6_TIMESTAMP)
  const YEAR1 := Product("🎉 1 Год - 1290 РУБ", 1290 * 100, "Подписка на 1 год", YEAR_1_TIMESTAMP)

  /** The four paid plans, in the order the menu lists them. */
  const PLANS := [MONTH1, MONTH3, MONTH6, YEAR1]

  /** Results of `calculate_time_difference` that are not a phrase. */
  const EXPIRED := 0
  const LESS_THAN_HOUR := 1

  /** Smallest part of a price, in roubles, that must be paid with money. */
  const MINMUM_BONUS_PAYMENT: nat := 60

  /** Every plan price is a whole number of roubles, above the minimum money
      payment, and the two sentinels differ. */
  lemma CatalogueConstants()
    ensures forall i :: 0 <= i < |PLANS| ==>
      PLANS[i].amount % 100 == 0 && PLANS[i].amount / 100 > MINMUM_BONUS_PAYMENT
    ensures PLANS[0].amount == 14900 && PLANS[1].amount == 39000
    ensures PLANS[2].amount == 74900 && PLANS[3].amount == 129000
    ensures MEOW_COINS_REFERRER_BONUS == MEOW_COINS_FIRST_USE_REF_CODE == 20
    ensures EXPIRED != LESS_THAN_HOUR
  {
  }
}
