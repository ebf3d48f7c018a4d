/**
 * The bot's tables, kept in memory: users with their three balances and referrer, transactions,
 * the log of bets, the deposit and withdrawal methods, and the two configuration rows (exchange
 * rate and play prices). The pure functions say what each database helper does to a table; the
 * class `Store` holds the tables and changes them in place, one helper per method.
 */
module Ledger {
  import opened Common
  import opened Money

  // ---------------------------------------------------------------------------------------------
  // Users and balances
  // ---------------------------------------------------------------------------------------------

  /** A row of the users table: first name, the USD, CUP and bonus balances, and the referrer. */
  datatype User = User(firstName: string, usd: Cents, cup: Cents, bonusUsd: Cents, ref: Option<int>)

  type Users = map<int, User>

  const DefaultName: string := "Jugador"

  /** The user `get_user` creates on first sight: no money and no referrer, and the name
      "Jugador" when Telegram gives no first name. */
  function NewUser(firstName: string): (u: User)
    ensures u.usd == 0 && u.cup == 0 && u.bonusUsd == 0 && u.ref.None?
    ensures u.firstName != [] && (firstName != [] ==> u.firstName == firstName)
    ensures firstName == [] ==> u.firstName == DefaultName
  {
    User(if firstName == [] then DefaultName else firstName, 0, 0, 0, None)
  }

  /** The row `get_user(id, first_name)` returns: the stored one, or the one it creates. */
  function Account(users: Users, id: int, firstName: string): (u: User)
    ensures id in users ==> u == users[id]
    ensures id !in users ==> u.usd == 0 && u.cup == 0 && u.bonusUsd == 0 && u.ref.None?
  {
    if id in users then users[id] else NewUser(firstName)
  }

  /** The users table after `get_user(id, first_name)`: a known id changes nothing, an unknown one
      gains its new row and nobody else changes. */
  function Register(users: Users, id: int, firstName: string): (r: Users)
    ensures r.Keys == users.Keys + {id}
    ensures id in users ==> r == users
    ensures id !in users ==> r[id] == NewUser(firstName)
  {
    users[id := Account(users, id, firstName)]
  }

  /** The deltas of one `update_user_balance` call, in cents. Rounding the sum to two decimals is
      exact on cents, so it is not written out. */
  datatype Delta = Delta(usd: Cents, cup: Cents, bonus: Cents)

  function Negate(d: Delta): Delta { Delta(-d.usd, -d.cup, -d.bonus) }

  function Sum(d: Delta, e: Delta): Delta { Delta(d.usd + e.usd, d.cup + e.cup, d.bonus + e.bonus) }

  /** A row with the deltas added: each balance moves by its delta, name and referrer stay. */
  function Apply(u: User, d: Delta): (v: User)
    ensures v.usd - u.usd == d.usd && v.cup - u.cup == d.cup && v.bonusUsd - u.bonusUsd == d.bonus
    ensures v.firstName == u.firstName && v.ref == u.ref
  {
    u.(usd := u.usd + d.usd, cup := u.cup + d.cup, bonusUsd := u.bonusUsd + d.bonus)
  }

  /** The users table after `update_user_balance(id, ...)`: the user is created first when unknown
      (with the default name, as `get_user` is called without one), then only that row moves. */
  function Credit(users: Users, id: int, d: Delta): (r: Users)
    ensures r.Keys == users.Keys + {id}
    ensures r[id] == Apply(Account(users, id, ""), d)
  {
    users[id := Apply(Account(users, id, ""), d)]
  }

  /** A balance change of one user leaves every other user's row as it was. */
  lemma {:induction false} CreditKeepsOthers(users: Users, id: int, d: Delta, k: int)
    requires k in users && k != id
    ensures Credit(users, id, d)[k] == users[k]
  {
  }

  /** The USD balance `get_user` would show for `id`. */
  function UsdOf(users: Users, id: int): Cents { Account(users, id, "").usd }

  /** Undoing a balance change restores the row; all that remains is the registration of a user
      that was unknown before. This is the escrow of a withdrawal and the refund on its rejection. */
  lemma {:induction false} CreditInverse(users: Users, id: int, d: Delta)
    ensures Credit(Credit(users, id, d), id, Negate(d)) == Register(users, id, "")
  {
    var once := Credit(users, id, d);
    assert Apply(Account(once, id, ""), Negate(d)) == Account(users, id, "");
  }

  /** Two balance changes of one user add up to one change by the sum of the deltas. */
  lemma {:induction false} CreditsCombine(users: Users, id: int, d: Delta, e: Delta)
    ensures Credit(Credit(users, id, d), id, e) == Credit(users, id, Sum(d, e))
  {
    var once := Credit(users, id, d);
    assert Apply(Account(once, id, ""), e) == Apply(Account(users, id, ""), Sum(d, e));
  }

  /** Balance changes of two different users can be applied in either order. */
  lemma {:induction false} CreditsCommute(users: Users, a: int, b: int, d: Delta, e: Delta)
    requires a != b
    ensures Credit(Credit(users, a, d), b, e) == Credit(Credit(users, b, e), a, d)
  {
    var ab := Credit(Credit(users, a, d), b, e);
    var ba := Credit(Credit(users, b, e), a, d);
    assert ab.Keys == ba.Keys;
    forall k | k in ab.Keys ensures ab[k] == ba[k] {
      if k == a {
        assert ab[a] == Apply(Account(users, a, ""), d);
      } else if k == b {
        assert ba[b] == Apply(Account(users, b, ""), e);
      }
    }
  }

  /** Moving `amount` USD from `from` to `to`, two different users, keeps their combined USD
      balance and touches no other user. */
  lemma {:induction false} TransferConserves(users: Users, from: int, to: int, amount: Cents)
    requires from != to
    ensures var r := Credit(Credit(users, from, Delta(-amount, 0, 0)), to, Delta(amount, 0, 0));
            UsdOf(r, from) + UsdOf(r, to) == UsdOf(users, from) + UsdOf(users, to) &&
            UsdOf(r, from) == UsdOf(users, from) - amount &&
            UsdOf(r, to) == UsdOf(users, to) + amount &&
            (forall k :: k in users && k != from && k != to ==> r[k] == users[k])
  {
    var once := Credit(users, from, Delta(-amount, 0, 0));
    assert Account(once, to, "").usd == Account(users, to, "").usd;
    var r := Credit(once, to, Delta(amount, 0, 0));
    forall k | k in users && k != from && k != to ensures r[k] == users[k] {
      CreditKeepsOthers(users, from, Delta(-amount, 0, 0), k);
      CreditKeepsOthers(once, to, Delta(amount, 0, 0), k);
    }
  }

  /** Nobody is their own referrer. */
  predicate NoSelfReferral(users: Users)
  {
    forall k :: k in users && users[k].ref.Some? ==> users[k].ref.value != k
  }

  /** Looking up or creating a user keeps the rule that nobody refers themselves. */
  lemma {:induction false} RegisterKeepsNoSelfReferral(users: Users, id: int, firstName: string)
    requires NoSelfReferral(users)
    ensures NoSelfReferral(Register(users, id, firstName))
  {
  }

  /** A balance change keeps the rule that nobody refers themselves. */
  lemma {:induction false} CreditKeepsNoSelfReferral(users: Users, id: int, d: Delta)
    requires NoSelfReferral(users)
    ensures NoSelfReferral(Credit(users, id, d))
  {
    var r := Credit(users, id, d);
    assert r[id].ref == Account(users, id, "").ref;
  }

  /** Looking a user up once before changing their balance makes no difference. */
  lemma {:induction false} CreditAfterLookup(users: Users, id: int, d: Delta)
    ensures Credit(Register(users, id, ""), id, d) == Credit(users, id, d)
  {
    assert Account(Register(users, id, ""), id, "") == Account(users, id, "");
  }

  // ---------------------------------------------------------------------------------------------
  // Bets: the bonus-first charge and the referral commission
  // ---------------------------------------------------------------------------------------------

  /** Python truthiness of `user.get("ref")`: a referrer is present and is not the id 0. */
  predicate HasReferrer(u: User) { u.ref.Some? && u.ref.value != 0 }

  /** The balance change `handle_bet` makes for a bet of the given cost, or `None` when the user's
      funds do not cover it. A bet with a USD cost is charged in USD only (bonus first, then `usd`)
      and needs `usd + bonus_usd >= cost`; any other bet is charged in CUP and needs `cup >= cost`. */
  function BetDebit(u: User, cost: BetCost): (r: Option<Delta>)
    ensures r.None? <==> (if cost.usd > 0 then u.usd + u.bonusUsd < cost.usd else u.cup < cost.cup)
    ensures r.Some? && cost.usd > 0 ==>
              var v := Apply(u, r.value);
              v.usd + v.bonusUsd == u.usd + u.bonusUsd - cost.usd &&
              v.bonusUsd == Max(u.bonusUsd - cost.usd, 0) &&
              v.usd == u.usd - Max(cost.usd - u.bonusUsd, 0) &&
              v.cup == u.cup
    ensures r.Some? && cost.usd <= 0 ==>
              var v := Apply(u, r.value);
              v.cup == u.cup - cost.cup && v.usd == u.usd && v.bonusUsd == u.bonusUsd
  {
    if cost.usd > 0 then
      if u.usd + u.bonusUsd < cost.usd then None
      else
        var split := BonusFirst(u.bonusUsd, cost.usd);
        Some(Delta(-split.fromUsd, 0, -split.fromBonus))
    else if u.cup < cost.cup then None
    else Some(Delta(0, -cost.cup, 0))
  }

  /** A bet the user can afford never drives a balance below zero. */
  lemma {:induction false} BetDebitSolvent(u: User, cost: BetCost)
    requires u.usd >= 0 && u.cup >= 0 && u.bonusUsd >= 0
    requires BetDebit(u, cost).Some?
    ensures var v := Apply(u, BetDebit(u, cost).value); v.usd >= 0 && v.cup >= 0 && v.bonusUsd >= 0
  {
    var v := Apply(u, BetDebit(u, cost).value);
    if cost.usd > 0 {
      assert v.usd == u.usd - Max(cost.usd - u.bonusUsd, 0);
    }
  }

  /** The users table after the referral step of a bet whose bettor has referrer `ref`: the referrer
      (a truthy id) gains the commission in USD when it is positive; a bet without a USD cost pays
      nothing, and nobody else changes. */
  function PayReferrer(users: Users, ref: Option<int>, costUsd: Cents): (r: Users)
    ensures costUsd <= 0 || ref.None? || ref == Some(0) ==> r == users
    ensures ref.Some? && ref.value != 0 && Commission(costUsd) > 0 ==>
              r == Credit(users, ref.value, Delta(Commission(costUsd), 0, 0))
    ensures ref.None? || ref.value == 0 || Commission(costUsd) <= 0 ==> r == users
  {
    var c := Commission(costUsd);
    if ref.Some? && ref.value != 0 && c > 0 then Credit(users, ref.value, Delta(c, 0, 0)) else users
  }

  // ---------------------------------------------------------------------------------------------
  // Transactions, bets, methods, configuration
  // ---------------------------------------------------------------------------------------------

  datatype TxKind = Deposit | Withdraw | Transfer

  datatype TxStatus = Pending | Approved | Rejected

  /** A row of the transactions table. `adminMessage` is where `create_transaction` puts its
      `details` argument and where a review writes its note. */
  datatype Transaction = Transaction(
    userId: int, kind: TxKind, amountUsd: Cents, amountCup: Cents,
    methodId: Option<int>, proofFileId: Option<string>, proofUrl: Option<string>,
    targetUser: Option<int>, adminMessage: Option<string>, status: TxStatus)

  /** `update_transaction_status` on one row: the new status, the note only when it is non-empty,
      and every other column as it was. */
  function WithStatus(t: Transaction, status: TxStatus, note: string): (r: Transaction)
    ensures r.status == status
    ensures r.adminMessage == if note != [] then Some(note) else t.adminMessage
    ensures r.(status := t.status, adminMessage := t.adminMessage) == t
  {
    t.(status := status, adminMessage := if note != [] then Some(note) else t.adminMessage)
  }

  /** A row of the bets table (every bet is stored with status "activa"). */
  datatype Bet = Bet(userId: int, lottery: string, betType: string, raw: string, costUsd: Cents, costCup: Cents)

  /** A row of a methods table. Its id is its position in the table, counting from 1. */
  datatype PaymentMethod = PaymentMethod(name: string, card: string, confirm: string, active: bool)

  /** The active method with id `id`, as the handlers look it up among the active methods. */
  function FindMethod(methods: seq<PaymentMethod>, id: int): (r: Option<PaymentMethod>)
    ensures r.Some? <==> 1 <= id <= |methods| && methods[id - 1].active
    ensures r.Some? ==> r.value == methods[id - 1]
  {
    if 1 <= id <= |methods| && methods[id - 1].active then Some(methods[id - 1]) else None
  }

  /** Adding methods keeps every method that could be found before. */
  lemma {:induction false} FindMethodGrows(methods: seq<PaymentMethod>, more: seq<PaymentMethod>, id: int)
    requires methods <= more
    requires FindMethod(methods, id).Some?
    ensures FindMethod(more, id) == FindMethod(methods, id)
  {
    assert more[id - 1] == methods[id - 1];
  }

  /** The exchange rate when the config table has no row for it: 110 CUP per USD. */
  const DefaultRate: Cents := 11000

  /** The play prices when the config table has no row for them: 70 CUP or 0.20 USD per play. */
  function DefaultPrices(): map<string, Price>
  {
    map["fijo" := Price(7000, 20), "corridos" := Price(7000, 20),
        "centena" := Price(7000, 20), "parle" := Price(7000, 20)]
  }

  /** All the tables at one moment. */
  datatype Db = Db(
    users: Users, txs: map<int, Transaction>, nextTxId: int, bets: seq<Bet>,
    depositMethods: seq<PaymentMethod>, withdrawMethods: seq<PaymentMethod>,
    rateRow: Option<Cents>, pricesRow: Option<map<string, Price>>)

  /** The database: each table a field that the helpers below update in place. An absent config
      row (`rateRow`, `pricesRow`) makes the getters return the defaults and the setters do
      nothing, as an `update ... eq key` on a missing row does. */
  class Store {
    var users: Users
    var txs: map<int, Transaction>
    var nextTxId: int
    var bets: seq<Bet>
    var depositMethods: seq<PaymentMethod>
    var withdrawMethods: seq<PaymentMethod>
    var rateRow: Option<Cents>
    var pricesRow: Option<map<string, Price>>

    /** Transaction ids are handed out in increasing order from 1. */
    ghost predicate Valid()
      reads this
    {
      nextTxId >= 1 && forall id :: id in txs ==> 1 <= id < nextTxId
    }

    function Snapshot(): Db
      reads this
    {
      Db(users, txs, nextTxId, bets, depositMethods, withdrawMethods, rateRow, pricesRow)
    }

    constructor (rate: Option<Cents>, prices: Option<map<string, Price>>)
      ensures Valid()
      ensures Snapshot() == Db(map[], map[], 1, [], [], [], rate, prices)
    {
      users, txs, nextTxId, bets := map[], map[], 1, [];
      depositMethods, withdrawMethods := [], [];
      rateRow, pricesRow := rate, prices;
    }

    /** `get_user` */
    method GetUser(id: int, firstName: string) returns (u: User)
      modifies this`users
      ensures users == Register(old(users), id, firstName)
      ensures u == Account(old(users), id, firstName) && u == users[id]
    {
      u := Account(users, id, firstName);
      users := users[id := u];
    }

    /** `update_user_balance` */
    method UpdateUserBalance(id: int, d: Delta)
      modifies this`users
      ensures users == Credit(old(users), id, d)
    {
      var u := Account(users, id, "");
      users := users[id := Apply(u, d)];
    }

    /** The `ref` update of `cmd_start`: only an existing row is updated. */
    method SetRef(id: int, ref: int)
      modifies this`users
      ensures users == if id in old(users) then old(users)[id := old(users)[id].(ref := Some(ref))] else old(users)
    {
      if id in users {
        users := users[id := users[id].(ref := Some(ref))];
      }
    }

    /** `create_transaction`: a new pending row under a fresh id, which is returned. */
    method CreateTransaction(userId: int, kind: TxKind, amountUsd: Cents, amountCup: Cents,
                             methodId: Option<int>, proofFileId: Option<string>, proofUrl: Option<string>,
                             targetUser: Option<int>, details: Option<string>) returns (id: int)
      requires Valid()
      modifies this`txs, this`nextTxId
      ensures Valid()
      ensures id == old(nextTxId) && id !in old(txs) && nextTxId == id + 1
      ensures txs == old(txs)[id := Transaction(userId, kind, amountUsd, amountCup, methodId, proofFileId,
                                                proofUrl, targetUser, details, Pending)]
    {
      id := nextTxId;
      txs := txs[id := Transaction(userId, kind, amountUsd, amountCup, methodId, proofFileId,
                                   proofUrl, targetUser, details, Pending)];
      nextTxId := nextTxId + 1;
    }

    /** `update_transaction_status`: an unknown id changes nothing. */
    method UpdateTransactionStatus(id: int, status: TxStatus, note: string)
      requires Valid()
      modifies this`txs
      ensures Valid()
      ensures txs == if id in old(txs) then old(txs)[id := WithStatus(old(txs)[id], status, note)] else old(txs)
    {
      if id in txs {
        txs := txs[id := WithStatus(txs[id], status, note)];
      }
    }

    /** The `proof_file_id` update of the web-app proof step. */
    method SetProofFileId(id: int, fileId: string)
      requires Valid()
      modifies this`txs
      ensures Valid()
      ensures txs == if id in old(txs) then old(txs)[id := old(txs)[id].(proofFileId := Some(fileId))] else old(txs)
    {
      if id in txs {
        txs := txs[id := txs[id].(proofFileId := Some(fileId))];
      }
    }

    /** The `proof_url` update of the web app's deposit request. */
    method SetProofUrl(id: int, url: Option<string>)
      requires Valid()
      modifies this`txs
      ensures Valid()
      ensures txs == if id in old(txs) then old(txs)[id := old(txs)[id].(proofUrl := url)] else old(txs)
    {
      if id in txs {
        txs := txs[id := txs[id].(proofUrl := url)];
      }
    }

    /** `add_bet` */
    method AddBet(b: Bet)
      modifies this`bets
      ensures bets == old(bets) + [b]
    {
      bets := bets + [b];
    }

    /** `add_deposit_method`: the new method is active and takes the next id. */
    method AddDepositMethod(name: string, card: string, confirm: string)
      modifies this`depositMethods
      ensures depositMethods == old(depositMethods) + [PaymentMethod(name, card, confirm, true)]
      ensures FindMethod(depositMethods, |depositMethods|) == Some(PaymentMethod(name, card, confirm, true))
    {
      depositMethods := depositMethods + [PaymentMethod(name, card, confirm, true)];
    }

    /** `add_withdraw_method`: the new method is active and takes the next id. */
    method AddWithdrawMethod(name: string, card: string, confirm: string)
      modifies this`withdrawMethods
      ensures withdrawMethods == old(withdrawMethods) + [PaymentMethod(name, card, confirm, true)]
      ensures FindMethod(withdrawMethods, |withdrawMethods|) == Some(PaymentMethod(name, card, confirm, true))
    {
      withdrawMethods := withdrawMethods + [PaymentMethod(name, card, confirm, true)];
    }

    /** `get_exchange_rate`: the stored rate, or 110 CUP per USD without a config row. */
    function ExchangeRate(): (r: Cents)
      reads this
      ensures rateRow.Some? ==> r == rateRow.value
      ensures rateRow.None? ==> r == DefaultRate
    {
      rateRow.GetOr(DefaultRate)
    }

    /** `set_exchange_rate`: updates the config row when there is one. */
    method SetExchangeRate(rate: Cents)
      modifies this`rateRow
      ensures rateRow == if old(rateRow).Some? then Some(rate) else None
      ensures old(rateRow).Some? ==> ExchangeRate() == rate
    {
      if rateRow.Some? {
        rateRow := Some(rate);
      }
    }

    /** `get_play_prices`: the stored table, or the defaults without a config row. */
    function PlayPrices(): (r: map<string, Price>)
      reads this
      ensures pricesRow.Some? ==> r == pricesRow.value
      ensures pricesRow.None? ==> r == DefaultPrices()
    {
      pricesRow.GetOr(DefaultPrices())
    }

    /** `set_play_price`: sets one bet type's price in the stored table; without a config row the
        update matches nothing. Every other bet type keeps its price. */
    method SetPlayPrice(betType: string, p: Price)
      modifies this`pricesRow
      ensures pricesRow == if old(pricesRow).Some? then Some(old(pricesRow).value[betType := p]) else None
      ensures old(pricesRow).Some? ==>
                betType in PlayPrices() && PlayPrices()[betType] == p &&
                forall t :: t != betType ==> (t in PlayPrices() <==> t in old(PlayPrices())) &&
                                             (t in PlayPrices() ==> PlayPrices()[t] == old(PlayPrices())[t])
    {
      if pricesRow.Some? {
        pricesRow := Some(pricesRow.value[betType := p]);
      }
    }
  }
}
