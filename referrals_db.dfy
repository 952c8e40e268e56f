/** database/referrals.py: the `referrals` table (who referred whom, and the
    meow-coins balance). Writes are methods of `ReferralsTable`; the queries
    and the referral-code check are functions of the table's contents. */
module ReferralDb {
  import opened Wrappers
  import opened Tables
  import Text

  /** (referrer_tg_id, meow_coins_balance); the key is the row's tg_id. */
  datatype ReferralRow = ReferralRow(referrer: Option<int>, balance: int)

  /** The balance column's default for a row created without one. */
  const INITIAL_BALANCE := 0

  /** Every key listed in `order` has a row. */
  ghost predicate Listed(rows: map<int, ReferralRow>, order: seq<int>) {
    forall k :: k in order ==> k in rows
  }

  /** The upsert of `insert_update_referrer`: a new row gets the referrer and
      the default balance; an existing row gets only its referrer replaced. */
  function Upserted(rows: map<int, ReferralRow>, k: int, referrer: int): (r: map<int, ReferralRow>)
    ensures r.Keys == rows.Keys + {k}
    ensures r[k].referrer == Some(referrer)
    ensures r[k].balance == if k in rows then rows[k].balance else INITIAL_BALANCE
    ensures forall j :: j in rows && j != k ==> r[j] == rows[j]
  {
    if k in rows then rows[k := rows[k].(referrer := Some(referrer))]
    else rows[k := ReferralRow(Some(referrer), INITIAL_BALANCE)]
  }

  /** The additive update of `update_balance`; no row, no change. */
  function Credited(rows: map<int, ReferralRow>, k: int, amount: int): (r: map<int, ReferralRow>)
    ensures r.Keys == rows.Keys
    ensures k in rows ==> r[k] == rows[k].(balance := rows[k].balance + amount)
    ensures forall j :: j in rows && j != k ==> r[j] == rows[j]
  {
    if k in rows then rows[k := rows[k].(balance := rows[k].balance + amount)] else rows
  }

  class ReferralsTable {
    var rows: map<int, ReferralRow>
    var order: seq<int>

    ghost predicate Valid()
      reads this
    {
      Indexed(rows, order)
    }

    constructor ()
      ensures Valid() && rows == map[] && order == []
    {
      rows := map[];
      order := [];
    }

    /** `insert_update_referrer`: INSERT ... ON CONFLICT (tg_id) DO UPDATE SET
        referrer_tg_id; a new key goes to the end of the scan. */
    method InsertUpdateReferrer(tgId: int, referrer: int)
      requires Valid()
      modifies this
      ensures Valid()
      ensures rows == Upserted(old(rows), tgId, referrer)
      ensures order == if tgId in old(rows) then old(order) else old(order) + [tgId]
    {
      var updated := Upserted(rows, tgId, referrer);
      if tgId !in rows {
        IndexedInsert(rows, order, tgId, updated[tgId]);
        assert updated == rows[tgId := updated[tgId]];
        order := order + [tgId];
      }
      rows := updated;
    }

    /** `insert_user_referrals`: a row with no referrer; an existing key
        violates the primary key and the INSERT fails (`ok` false). */
    method InsertUserReferrals(tgId: int) returns (ok: bool)
      requires Valid()
      modifies this
      ensures Valid()
      ensures ok <==> tgId !in old(rows)
      ensures ok ==> rows == old(rows)[tgId := ReferralRow(None, INITIAL_BALANCE)] && order == old(order) + [tgId]
      ensures !ok ==> rows == old(rows) && order == old(order)
    {
      ok := tgId !in rows;
      if ok {
        IndexedInsert(rows, order, tgId, ReferralRow(None, INITIAL_BALANCE));
        rows := rows[tgId := ReferralRow(None, INITIAL_BALANCE)];
        order := order + [tgId];
      }
    }

    /** `update_balance`: balance := balance + amount, unchecked sign. */
    method UpdateBalance(tgId: int, amount: int)
      requires Valid()
      modifies this
      ensures Valid()
      ensures rows == Credited(old(rows), tgId, amount) && order == old(order)
    {
      rows := Credited(rows, tgId, amount);
    }
  }

  /** `get_balance`: 0 for a missing row. */
  function GetBalance(rows: map<int, ReferralRow>, tgId: int): (b: int)
    ensures tgId in rows ==> b == rows[tgId].balance
    ensures tgId !in rows ==> b == INITIAL_BALANCE
  {
    if tgId in rows then rows[tgId].balance else INITIAL_BALANCE
  }

  /** `select_user_exists`. */
  function SelectUserExists(rows: map<int, ReferralRow>, tgId: int): (r: bool)
    ensures r <==> tgId in rows
    ensures !r ==> GetBalance(rows, tgId) == INITIAL_BALANCE
  {
    tgId in rows
  }

  /** `ensure_referral_record(tg_id, referrer_text)`: the code must be a
      digit string naming another user who has a referrals row and whom this
      user did not refer. Nothing is written. */
  function EnsureReferralRecord(rows: map<int, ReferralRow>, tgId: int, referrerText: string): (ok: bool)
    ensures ok ==> Text.IsDigits(referrerText)
    ensures ok ==> Text.DigitsValue(referrerText) != tgId
    ensures ok ==> Text.DigitsValue(referrerText) in rows
    ensures ok ==> rows[Text.DigitsValue(referrerText)].referrer != Some(tgId)
  {
    if !Text.IsDigits(referrerText) then false
    else
      var referrer := Text.DigitsValue(referrerText);
      referrer != tgId && referrer in rows && rows[referrer].referrer != Some(tgId)
  }

  /** The check accepts exactly the codes the four rules allow: a user id's
      decimal code, and any digit string, leading zeros included, read as
      the number it spells. */
  lemma EnsureReferralRecordComplete(rows: map<int, ReferralRow>, tgId: int, code: nat, text: string)
    ensures EnsureReferralRecord(rows, tgId, Text.Decimal(code)) <==>
      code != tgId && code in rows && rows[code].referrer != Some(tgId)
    ensures Text.IsDigits(text) ==>
      (EnsureReferralRecord(rows, tgId, text) <==>
         var v := Text.DigitsValue(text); v != tgId && v in rows && rows[v].referrer != Some(tgId))
  {
    Text.DecimalRoundTrip(code);
  }

  /** "07" is accepted as the code of user 7, as `int("07")` reads it. */
  lemma LeadingZeroCodeAccepted(rows: map<int, ReferralRow>)
    requires 7 in rows && rows[7].referrer != Some(8)
    ensures EnsureReferralRecord(rows, 8, "07")
  {
    assert Text.IsDigits("07") && Text.DigitsValue("07") == 7;
  }

  /** A user's own id is never an accepted code. */
  lemma SelfReferralRejected(rows: map<int, ReferralRow>, tgId: nat)
    ensures !EnsureReferralRecord(rows, tgId, Text.Decimal(tgId))
  {
    Text.DecimalRoundTrip(tgId);
  }

  /** If `a` was referred by `b`, then `b` cannot take `a`'s code. */
  lemma ReciprocalRejected(rows: map<int, ReferralRow>, a: nat, b: int)
    requires a in rows && rows[a].referrer == Some(b)
    ensures !EnsureReferralRecord(rows, b, Text.Decimal(a))
  {
    Text.DecimalRoundTrip(a);
  }

  /** Codes that are not digit strings are rejected whatever the table holds. */
  lemma NonDigitCodeRejected(rows: map<int, ReferralRow>, tgId: int)
    ensures !EnsureReferralRecord(rows, tgId, "")
    ensures !EnsureReferralRecord(rows, tgId, "12a")
    ensures !EnsureReferralRecord(rows, tgId, "-5")
  {
    assert !Text.IsDigitChar('a');
    assert !Text.IsDigitChar('-');
  }

  /** No row names itself as referrer and no two rows name each other. */
  ghost predicate NoShortCycles(rows: map<int, ReferralRow>) {
    && (forall k :: k in rows ==> rows[k].referrer != Some(k))
    && (forall a, b :: a in rows && b in rows && rows[a].referrer == Some(b) ==> rows[b].referrer != Some(a))
  }

  /** Linking a user to a referrer the check accepted keeps the table free
      of self-referrals and reciprocal pairs. */
  lemma ApprovedUpsertKeepsNoShortCycles(rows: map<int, ReferralRow>, tgId: int, code: string)
    requires NoShortCycles(rows)
    requires EnsureReferralRecord(rows, tgId, code)
    ensures NoShortCycles(Upserted(rows, tgId, Text.DigitsValue(code)))
  {
    var r := Text.DigitsValue(code);
    var rows' := Upserted(rows, tgId, r);
    forall a, b | a in rows' && b in rows' && rows'[a].referrer == Some(b)
      ensures rows'[b].referrer != Some(a)
    {
      if a == tgId {
        assert b == r && b != tgId;
      } else if b == tgId {
        assert a != r;
      }
    }
  }

  /** The check looks only one step back: a referral chain can still close
      into a cycle of three users. */
  lemma ThreeCycleAccepted()
    ensures var rows := map[1 := ReferralRow(None, 0), 2 := ReferralRow(Some(1), 0), 3 := ReferralRow(Some(2), 0)];
      EnsureReferralRecord(rows, 1, "3")
  {
    assert Text.DigitsValue("3") == 3;
  }

  /** `select_users_by_referrer(referrer)`: the keys, in scan order, of the
      rows whose referrer is `referrer`. */
  function SelectUsersByReferrer(rows: map<int, ReferralRow>, order: seq<int>, referrer: int): (s: seq<int>)
    requires Listed(rows, order)
    ensures forall k :: k in s <==> k in order && rows[k].referrer == Some(referrer)
    ensures Distinct(order) ==> Distinct(s)
    ensures |s| <= |order|
    decreases |order|
  {
    if |order| == 0 then []
    else
      var last := order[|order| - 1];
      var prefix := SelectUsersByReferrer(rows, order[..|order| - 1], referrer);
      assert forall k :: k in order <==> k in order[..|order| - 1] || k == last;
      assert Distinct(order) ==> last !in order[..|order| - 1];
      prefix + (if rows[last].referrer == Some(referrer) then [last] else [])
  }

  /** The non-null referrer column, in scan order, with repeats. */
  function ReferrerColumn(rows: map<int, ReferralRow>, order: seq<int>): seq<int>
    requires Listed(rows, order)
    decreases |order|
  {
    if |order| == 0 then []
    else
      var last := order[|order| - 1];
      ReferrerColumn(rows, order[..|order| - 1])
      + (if rows[last].referrer.Some? then [rows[last].referrer.value] else [])
  }

  /** A value occurs in the referrer column exactly when some row names it. */
  lemma {:induction false} ReferrerColumnComplete(rows: map<int, ReferralRow>, order: seq<int>, r: int)
    requires Listed(rows, order)
    ensures r in ReferrerColumn(rows, order) <==> SelectUsersByReferrer(rows, order, r) != []
    decreases |order|
  {
    if |order| > 0 {
      ReferrerColumnComplete(rows, order[..|order| - 1], r);
    }
  }

  /** One row of `SELECT referrer_tg_id, ARRAY_AGG(tg_id) ... GROUP BY referrer_tg_id`. */
  datatype Group = Group(referrer: int, referred: seq<int>)

  function GroupReferrers(groups: seq<Group>): (s: seq<int>)
    ensures |s| == |groups|
    ensures forall i :: 0 <= i < |groups| ==> s[i] == groups[i].referrer
  {
    seq(|groups|, i requires 0 <= i < |groups| => groups[i].referrer)
  }

  /** `select_all_referrals_with_every_user`: one group per non-null
      referrer, holding exactly the users it referred. */
  function SelectAllReferralsWithEveryUser(rows: map<int, ReferralRow>, order: seq<int>): (groups: seq<Group>)
    requires Listed(rows, order)
    ensures Distinct(GroupReferrers(groups))
    ensures forall r :: r in GroupReferrers(groups) <==> SelectUsersByReferrer(rows, order, r) != []
    ensures forall i :: 0 <= i < |groups| ==>
      groups[i].referred == SelectUsersByReferrer(rows, order, groups[i].referrer) && groups[i].referred != []
  {
    var referrers := Dedup(ReferrerColumn(rows, order));
    forall r ensures r in referrers <==> SelectUsersByReferrer(rows, order, r) != [] {
      ReferrerColumnComplete(rows, order, r);
    }
    var groups := seq(|referrers|, i requires 0 <= i < |referrers| =>
      Group(referrers[i], SelectUsersByReferrer(rows, order, referrers[i])));
    assert GroupReferrers(groups) == referrers;
    groups
  }
}
