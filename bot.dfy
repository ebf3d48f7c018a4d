/**
 * The conversation: each user's pending action (`user_states`) and the handlers that read and
 * change it together with the ledger. Every handler is a method of `Bot`; a handler that answers a
 * button press takes the button's callback data, one that answers a message takes its text.
 * Messages to Telegram users are not modelled.
 */
module Bot {
  import opened Common
  import opened Text
  import opened Money
  import opened Ledger

  datatype Lottery = Florida | Georgia | NewYork

  /** The name a lottery is shown and stored under. */
  function LotteryName(l: Lottery): string
  {
    match l
    case Florida => "Florida"
    case Georgia => "Georgia"
    case NewYork => "Nueva York"
  }

  datatype MethodKind = DepositMethod | WithdrawMethod

  /** How far the administrator has got in describing a new payment method: `step` 1, 2 and 3. */
  datatype Draft = NeedName | NeedCard(name: string) | NeedConfirm(name: string, card: string)

  /** A user's pending action with its payload; a user without an entry has none. */
  datatype Session =
    | Playing(lottery: string)
    | AwaitingBet(lottery: string, betType: string)
    | AwaitingDepositProof(methodId: int)
    | AwaitingDepositProofWebapp(methodId: int, txId: int)
    | AwaitingWithdrawDetails(methodId: int)
    | AwaitingTransferTarget
    | AwaitingTransferAmount(target: int)
    | AdminAddMethod(kind: MethodKind, draft: Draft)
    | AdminSetRate
    | AdminSetPrice(betType: string)
  {
    /** The actions whose name starts with `admin_`. */
    predicate IsAdminFlow()
    {
      AdminAddMethod? || AdminSetRate? || AdminSetPrice?
    }

    /** The actions whose handler takes the user's next text message. */
    predicate TakesText()
    {
      AwaitingBet? || AwaitingWithdrawDetails? || AwaitingTransferTarget? || AwaitingTransferAmount? || IsAdminFlow()
    }
  }

  /** What a session promises about itself: only the administrator is in an admin flow, nobody is
      about to transfer to themselves, and a user awaiting a deposit proof or withdrawal details
      names a method that exists and is active. */
  predicate SessionFits(uid: int, s: Session, adminId: int, deposits: seq<PaymentMethod>, withdrawals: seq<PaymentMethod>)
  {
    (s.IsAdminFlow() ==> uid == adminId) &&
    (s.AwaitingTransferAmount? ==> s.target != uid) &&
    (s.AwaitingDepositProof? ==> FindMethod(deposits, s.methodId).Some?) &&
    (s.AwaitingWithdrawDetails? ==> FindMethod(withdrawals, s.methodId).Some?)
  }

  /** New payment methods do not break a session. */
  lemma {:induction false} SessionFitsGrows(uid: int, s: Session, adminId: int, d: seq<PaymentMethod>, w: seq<PaymentMethod>,
                                            d2: seq<PaymentMethod>, w2: seq<PaymentMethod>)
    requires SessionFits(uid, s, adminId, d, w)
    requires d <= d2 && w <= w2
    ensures SessionFits(uid, s, adminId, d2, w2)
  {
    if s.AwaitingDepositProof? {
      FindMethodGrows(d, d2, s.methodId);
    }
    if s.AwaitingWithdrawDetails? {
      FindMethodGrows(w, w2, s.methodId);
    }
  }

  /** The referrer `cmd_start` takes from `/start <id>`: the second word read as an integer, unless
      it is missing, not an integer, zero or the user's own id. */
  function ReferralArg(uid: int, text: string): (r: Option<int>)
    ensures r.Some? ==> r.value != uid && r.value != 0
    ensures r.Some? ==> |Words(text)| > 1 && ParseInt(Words(text)[1]) == r
    ensures (|Words(text)| > 1 && ParseInt(Words(text)[1]).Some? && ParseInt(Words(text)[1]).value != uid
             && ParseInt(Words(text)[1]).value != 0) ==> r == ParseInt(Words(text)[1])
  {
    var parts := Words(text);
    if |parts| > 1 then
      match ParseInt(parts[1])
      case Some(n) => if n == uid || n == 0 then None else Some(n)
      case None => None
    else None
  }

  /** The users table after `cmd_start` with the referrer `r` read from the message: the user is
      registered if new, and takes `r` only when they have no referrer yet; nobody else changes. */
  function Started(users: Users, uid: int, firstName: string, r: Option<int>): (s: Users)
    ensures s.Keys == users.Keys + {uid}
    ensures forall k :: k in users && k != uid ==> s[k] == users[k]
    ensures var u := Account(users, uid, firstName);
            s[uid] == u.(ref := if u.ref.None? then r else u.ref)
  {
    var u := Account(users, uid, firstName);
    if r.Some? && u.ref.None? then Register(users, uid, firstName)[uid := u.(ref := r)]
    else Register(users, uid, firstName)
  }

  /** A message is the `start` command when it begins with `/` and its first word, without any
      `@botname` suffix, is `/start`. */
  predicate IsStartCommand(text: string)
  {
    text != [] && text[0] == '/' && |Words(text)| > 0 && BeforeFirst(Words(text)[0], "@") == "/start"
  }

  /** The invitation link `/start <id>` splits into the command and the id. */
  lemma {:induction false} InviteWords(n: nat)
    ensures Words("/start " + NatToString(n)) == ["/start", NatToString(n)]
  {
    var num := NatToString(n);
    assert "/start " + num == "/start" + " " + num;
    assert Words("/start" + " " + num) == ["/start", num] by {
      NumeralNoSpace(n);
      assert NoSpace("/start");
      WordsOfTwo("/start", num);
    }
  }

  /** The invitation link `/start <id>` is the start command. */
  lemma {:induction false} InviteLinkIsStart(n: nat)
    ensures IsStartCommand("/start " + NatToString(n))
  {
    InviteWords(n);
    StartHasNoBotName();
  }

  /** `/start` carries no `@botname` suffix. */
  lemma StartHasNoBotName()
    ensures BeforeFirst("/start", "@") == "/start"
  {
    BeforeAbsentChar("/start", '@');
  }

  /** The invitation link `/start <id>` of another user makes that user the referrer. */
  lemma {:induction false} InviteLinkRefers(uid: int, n: nat)
    requires n != 0 && n != uid
    ensures ReferralArg(uid, "/start " + NatToString(n)) == Some(n)
  {
    var t := "/start " + NatToString(n);
    InviteWords(n);
    assert Words(t)[1] == NatToString(n);
    ParseIntOfNumeral(n);
  }

  /** `int(data.split("_")[k])`, where `rest` is what follows the k-th underscore; `None` where
      Python raises. */
  function IdField(rest: string): Option<int> { ParseInt(BeforeFirst(rest, "_")) }

  /** The callback data the bot puts on its buttons (`dep_<id>`, `approve_dep_<id>`, ...) gives
      the id back. */
  lemma {:induction false} IdFieldOfNumeral(n: nat)
    ensures IdField(NatToString(n)) == Some(n)
  {
    var num := NatToString(n);
    forall i | 0 <= i < |num| ensures num[i] != '_' {
      assert IsDigit(num[i]);
    }
    BeforeAbsentChar(num, '_');
    ParseIntOfNumeral(n);
  }

  /** What the web app sends (`web_app_data`), once decoded. `Malformed` stands for data that is no
      JSON or whose fields do not convert, so that the handler stops before changing anything. */
  datatype WebAppData =
    | Malformed
    | DepositRequest(txId: int, proofUrl: Option<string>)
    | WithdrawRequest
    | TransferRequest
    | BetPlaced(costUsd: Cents)
    | OtherAction

  /** The bot: the database, the pending action of each user and the configuration it starts with.
      `hasFallback` says whether messages no other handler takes reach a fallback handler. */
  class Bot {
    const store: Store
    const adminId: int
    const bonusCup: Cents
    const hasFallback: bool
    var states: map<int, Session>

    ghost predicate Valid()
      reads this, store
    {
      store.Valid() &&
      NoSelfReferral(store.users) &&
      forall u :: u in states ==> SessionFits(u, states[u], adminId, store.depositMethods, store.withdrawMethods)
    }

    constructor (adminId: int, bonusCup: Cents, hasFallback: bool, rate: Option<Cents>, prices: Option<map<string, Price>>)
      ensures Valid()
      ensures fresh(store) && states == map[]
      ensures store.Snapshot() == Db(map[], map[], 1, [], [], [], rate, prices)
      ensures this.adminId == adminId && this.bonusCup == bonusCup && this.hasFallback == hasFallback
    {
      this.adminId := adminId;
      this.bonusCup := bonusCup;
      this.hasFallback := hasFallback;
      store := new Store(rate, prices);
      states := map[];
    }

    // -------------------------------------------------------------------------------------------
    // Registration
    // -------------------------------------------------------------------------------------------

    /** `/start [ref]`: registers the user, and records the referrer when a valid one is given and
        the user has none yet. The pending action is left as it was. */
    method CmdStart(uid: int, firstName: string, text: string)
      requires Valid()
      modifies store`users
      ensures Valid()
      ensures store.users == Started(old(store.users), uid, firstName, ReferralArg(uid, text))
    {
      var r := ReferralArg(uid, text);
      var u := store.GetUser(uid, firstName);
      RegisterKeepsNoSelfReferral(old(store.users), uid, firstName);
      if r.Some? && u.ref.None? {
        store.SetRef(uid, r.value);
      }
    }

    /** Showing the balance (`my_money`, `/balance`): the user is registered if new, and the row is
        returned. */
    method MyMoney(uid: int) returns (u: User)
      requires Valid()
      modifies store`users
      ensures Valid()
      ensures store.users == Register(old(store.users), uid, "")
      ensures u == Account(old(store.users), uid, "")
    {
      u := store.GetUser(uid, "");
      RegisterKeepsNoSelfReferral(old(store.users), uid, "");
    }

    // -------------------------------------------------------------------------------------------
    // Playing
    // -------------------------------------------------------------------------------------------

    /** Choosing a lottery starts a play; Georgia only within its betting hours (`now` is the local
        time of day in microseconds). */
    method LotterySelected(uid: int, lottery: Lottery, now: nat) returns (accepted: bool)
      requires Valid()
      modifies this`states
      ensures Valid()
      ensures accepted <==> lottery != Georgia || GeorgiaOpen(now)
      ensures states == if accepted then old(states)[uid := Playing(LotteryName(lottery))] else old(states)
    {
      accepted := lottery != Georgia || GeorgiaOpen(now);
      if accepted {
        states := states[uid := Playing(LotteryName(lottery))];
      }
    }

    /** `type_<bet type>`: the user is now to send a bet of that type, in the lottery chosen before
        (Florida when none was chosen). */
    method BetTypeSelected(uid: int, data: string)
      requires Valid()
      requires StartsWith(data, "type_")
      modifies this`states
      ensures Valid()
      ensures var lottery := if uid in old(states) && (old(states)[uid].Playing? || old(states)[uid].AwaitingBet?)
                             then old(states)[uid].lottery else "Florida";
              states == old(states)[uid := AwaitingBet(lottery, data[5..])]
    {
      var lottery := "Florida";
      if uid in states && (states[uid].Playing? || states[uid].AwaitingBet?) {
        lottery := states[uid].lottery;
      }
      states := states[uid := AwaitingBet(lottery, data[5..])];
    }

    /** A bet message: its stripped text is priced with the current play prices and placed. */
    method HandleBet(uid: int, text: string) returns (placed: bool)
      requires Valid()
      requires uid in states && states[uid].AwaitingBet?
      modifies this`states, store`users, store`bets
      ensures Valid()
      ensures BetHandled(uid, text, placed, old(states), old(store.Snapshot()), states, store.Snapshot())
    {
      var raw := Strip(text);
      placed := PlaceBet(uid, raw, ParseBetCost(raw, states[uid].betType, store.PlayPrices()));
    }

    /** What placing a bet of text `raw` and cost `cost` does. A cost that is not ok, or that the
        user's funds do not cover, changes no balance and records nothing, and the user may try
        again (an unknown user is registered on the way). Otherwise the cost is charged (a USD cost
        bonus first, then `usd`; else the CUP cost), the bet is recorded, the referrer earns the
        commission and the pending action ends. */
    static ghost predicate BetPlacement(uid: int, raw: string, cost: BetCost,
                                        states0: map<int, Session>, users0: Users, bets0: seq<Bet>,
                                        placed: bool, states1: map<int, Session>, users1: Users, bets1: seq<Bet>)
      requires uid in states0 && states0[uid].AwaitingBet?
    {
      var s := states0[uid];
      var u := Account(users0, uid, "");
      if !cost.ok then
        !placed && states1 == states0 && users1 == users0 && bets1 == bets0
      else if BetDebit(u, cost).None? then
        !placed && states1 == states0 && users1 == Register(users0, uid, "") && bets1 == bets0
      else
        placed && states1 == states0 - {uid} &&
        users1 == PayReferrer(Credit(users0, uid, BetDebit(u, cost).value), u.ref, cost.usd) &&
        bets1 == bets0 + [Bet(uid, s.lottery, s.betType, raw, cost.usd, cost.cup)]
    }

    /** A placed bet never overdraws: a bettor whose balances were not negative still has no
        negative balance afterwards. */
    static lemma BetKeepsSolvent(uid: int, raw: string, cost: BetCost,
                                 states0: map<int, Session>, users0: Users, bets0: seq<Bet>,
                                 states1: map<int, Session>, users1: Users, bets1: seq<Bet>)
      requires uid in states0 && states0[uid].AwaitingBet?
      requires BetPlacement(uid, raw, cost, states0, users0, bets0, true, states1, users1, bets1)
      requires var u := Account(users0, uid, ""); u.usd >= 0 && u.cup >= 0 && u.bonusUsd >= 0
      requires Account(users0, uid, "").ref != Some(uid)
      ensures var v := Account(users1, uid, ""); v.usd >= 0 && v.cup >= 0 && v.bonusUsd >= 0
    {
      var u := Account(users0, uid, "");
      var d := BetDebit(u, cost).value;
      BetDebitSolvent(u, cost);
      var mid := Credit(users0, uid, d);
      if HasReferrer(u) && Commission(cost.usd) > 0 {
        CreditKeepsOthers(mid, u.ref.value, Delta(Commission(cost.usd), 0, 0), uid);
      }
    }

    /** Places a bet whose cost is already known. */
    method PlaceBet(uid: int, raw: string, cost: BetCost) returns (placed: bool)
      requires Valid()
      requires uid in states && states[uid].AwaitingBet?
      modifies this`states, store`users, store`bets
      ensures Valid()
      ensures BetPlacement(uid, raw, cost, old(states), old(store.users), old(store.bets), placed, states, store.users, store.bets)
    {
      var s := states[uid];
      if !cost.ok {
        return false;
      }
      var u := store.GetUser(uid, "");
      RegisterKeepsNoSelfReferral(old(store.users), uid, "");
      var debit := BetDebit(u, cost);
      if debit.None? {
        return false;
      }
      CreditAfterLookup(old(store.users), uid, debit.value);
      CreditKeepsNoSelfReferral(store.users, uid, debit.value);
      store.UpdateUserBalance(uid, debit.value);
      store.AddBet(Bet(uid, s.lottery, s.betType, raw, cost.usd, cost.cup));
      var c := Commission(cost.usd);
      if HasReferrer(u) && c > 0 {
        CreditKeepsNoSelfReferral(store.users, u.ref.value, Delta(c, 0, 0));
        store.UpdateUserBalance(u.ref.value, Delta(c, 0, 0));
      }
      states := states - {uid};
      placed := true;
    }

    // -------------------------------------------------------------------------------------------
    // Deposits
    // -------------------------------------------------------------------------------------------

    /** `dep_<id>`: choosing an active deposit method makes the user's next photo its proof; an
        unknown id, or one that is not a number, changes nothing. */
    method DepositMethodSelected(uid: int, data: string)
      requires Valid()
      requires StartsWith(data, "dep_")
      modifies this`states
      ensures Valid()
      ensures var id := IdField(data[4..]);
              states == if id.Some? && FindMethod(store.depositMethods, id.value).Some?
                        then old(states)[uid := AwaitingDepositProof(id.value)] else old(states)
    {
      var id := IdField(data[4..]);
      if id.Some? && FindMethod(store.depositMethods, id.value).Some? {
        states := states[uid := AwaitingDepositProof(id.value)];
      }
    }

    /** A photo with the deposit amount in its caption (`""` when it has none): the caption is read
        and the proof recorded. */
    method HandleDepositPhoto(uid: int, caption: string, fileId: string)
      requires Valid()
      modifies this`states, store`txs, store`nextTxId
      ensures Valid()
      ensures DepositProof(uid, ParseAmount(caption), fileId, old(states), old(store.txs), old(store.nextTxId),
                           states, store.txs, store.nextTxId)
    {
      RecordDepositProof(uid, ParseAmount(caption), fileId);
    }

    /** What a deposit proof with amount `a` does. Outside the two proof actions, or when the amount
        is zero, nothing changes and the user may try again. Otherwise a pending deposit is recorded
        (the web-app variant attaches the photo to its existing transaction instead) and the pending
        action ends. */
    static ghost predicate DepositProof(uid: int, a: Amount, fileId: string,
                                        states0: map<int, Session>, txs0: map<int, Transaction>, next0: int,
                                        states1: map<int, Session>, txs1: map<int, Transaction>, next1: int)
    {
      if uid !in states0 || !(states0[uid].AwaitingDepositProof? || states0[uid].AwaitingDepositProofWebapp?)
         || (a.usd == 0 && a.cup == 0) then
        states1 == states0 && txs1 == txs0 && next1 == next0
      else
        states1 == states0 - {uid} &&
        match states0[uid]
        case AwaitingDepositProofWebapp(_, tx) =>
          next1 == next0 &&
          txs1 == (if tx in txs0 then txs0[tx := txs0[tx].(proofFileId := Some(fileId))] else txs0)
        case _ =>
          next1 == next0 + 1 &&
          txs1 == txs0[next0 := Transaction(uid, Deposit, a.usd, a.cup, Some(states0[uid].methodId), Some(fileId),
                                            None, None, None, Pending)]
    }

    /** Records a deposit proof whose amount is already read. */
    method RecordDepositProof(uid: int, a: Amount, fileId: string)
      requires Valid()
      modifies this`states, store`txs, store`nextTxId
      ensures Valid()
      ensures DepositProof(uid, a, fileId, old(states), old(store.txs), old(store.nextTxId), states, store.txs, store.nextTxId)
    {
      if uid !in states || !(states[uid].AwaitingDepositProof? || states[uid].AwaitingDepositProofWebapp?) {
        return;
      }
      if a.usd == 0 && a.cup == 0 {
        return;
      }
      var s := states[uid];
      if s.AwaitingDepositProofWebapp? {
        store.SetProofFileId(s.txId, fileId);
      } else {
        var id := store.CreateTransaction(uid, Deposit, a.usd, a.cup, Some(s.methodId), Some(fileId), None, None, None);
      }
      states := states - {uid};
    }

    /** `approve_dep_<id>` / `reject_dep_<id>`, pressed by `caller`: the transaction id is read and
        the review made. */
    method HandleDepositReview(caller: int, data: string)
      requires Valid()
      requires StartsWith(data, "approve_dep_") || StartsWith(data, "reject_dep_")
      modifies store`users, store`txs
      ensures Valid()
      ensures var approve := StartsWith(data, "approve_dep_");
              DepositReviewed(caller, approve, IdField(if approve then data[12..] else data[11..]),
                              store.ExchangeRate(), old(store.users), old(store.txs), store.users, store.txs)
    {
      var approve := StartsWith(data, "approve_dep_");
      ReviewDeposit(caller, approve, IdField(if approve then data[12..] else data[11..]));
    }

    /** What a deposit review does. Only the administrator may review, and only a transaction that
        exists. Approval credits the transaction's amounts to its user, plus the deposit bonus in
        USD when either amount is positive; rejection credits nothing. Either way the status is
        set, whatever the transaction's kind or status was. */
    ghost predicate DepositReviewed(caller: int, approve: bool, id: Option<int>, rate: Cents,
                                    users0: Users, txs0: map<int, Transaction>, users1: Users, txs1: map<int, Transaction>)
    {
      if caller != adminId || id.None? || id.value !in txs0 then
        users1 == users0 && txs1 == txs0
      else
        var tx := txs0[id.value];
        var bonus := if tx.amountUsd > 0 || tx.amountCup > 0 then CupToUsd(bonusCup, rate) else 0;
        txs1 == txs0[id.value := WithStatus(tx, if approve then Approved else Rejected, "")] &&
        users1 == if approve then Credit(users0, tx.userId, Delta(tx.amountUsd, tx.amountCup, bonus)) else users0
    }

    /** Reviews the deposit with an already read transaction id. */
    method ReviewDeposit(caller: int, approve: bool, id: Option<int>)
      requires Valid()
      modifies store`users, store`txs
      ensures Valid()
      ensures DepositReviewed(caller, approve, id, store.ExchangeRate(), old(store.users), old(store.txs), store.users, store.txs)
    {
      if caller != adminId || id.None? || id.value !in store.txs {
        return;
      }
      var tx := store.txs[id.value];
      if approve {
        var bonus := if tx.amountUsd > 0 || tx.amountCup > 0 then CupToUsd(bonusCup, store.ExchangeRate()) else 0;
        CreditKeepsNoSelfReferral(store.users, tx.userId, Delta(tx.amountUsd, tx.amountCup, bonus));
        store.UpdateUserBalance(tx.userId, Delta(tx.amountUsd, tx.amountCup, bonus));
      }
      store.UpdateTransactionStatus(id.value, if approve then Approved else Rejected, "");
    }

    /** A deposit proof the administrator approves credits the amount it states, plus the bonus, to
        the user who sent it. */
    lemma ApprovedDepositCredits(uid: int, a: Amount, fileId: string, rate: Cents,
                                 states0: map<int, Session>, txs0: map<int, Transaction>, next0: int,
                                 states1: map<int, Session>, txs1: map<int, Transaction>, next1: int,
                                 users0: Users, users2: Users, txs2: map<int, Transaction>)
      requires uid in states0 && states0[uid].AwaitingDepositProof? && (a.usd != 0 || a.cup != 0)
      requires DepositProof(uid, a, fileId, states0, txs0, next0, states1, txs1, next1)
      requires DepositReviewed(adminId, true, Some(next0), rate, users0, txs1, users2, txs2)
      ensures var bonus := if a.usd > 0 || a.cup > 0 then CupToUsd(bonusCup, rate) else 0;
              UsdOf(users2, uid) == UsdOf(users0, uid) + a.usd &&
              Account(users2, uid, "").cup == Account(users0, uid, "").cup + a.cup &&
              Account(users2, uid, "").bonusUsd == Account(users0, uid, "").bonusUsd + bonus
      ensures next0 in txs2 && txs2[next0].status == Approved && txs2[next0].kind == Deposit
    {
      assert txs1[next0] == Transaction(uid, Deposit, a.usd, a.cup, Some(states0[uid].methodId), Some(fileId),
                                        None, None, None, Pending);
    }

    // -------------------------------------------------------------------------------------------
    // Withdrawals
    // -------------------------------------------------------------------------------------------

    /** The `withdraw` button: the user is registered if new; the method menu is offered only to a
        user with at least 1 USD while some withdrawal method is active. */
    method WithdrawMenu(uid: int) returns (offered: bool)
      requires Valid()
      modifies store`users
      ensures Valid()
      ensures store.users == Register(old(store.users), uid, "")
      ensures offered <==> Account(old(store.users), uid, "").usd >= 100 &&
                           exists i :: 0 <= i < |store.withdrawMethods| && store.withdrawMethods[i].active
    {
      var u := store.GetUser(uid, "");
      RegisterKeepsNoSelfReferral(old(store.users), uid, "");
      offered := u.usd >= 100 && exists i :: 0 <= i < |store.withdrawMethods| && store.withdrawMethods[i].active;
    }

    /** `wit_<id>`: choosing an active withdrawal method makes the user's next message the account
        details; an unknown id, or one that is not a number, changes nothing. */
    method WithdrawMethodSelected(uid: int, data: string)
      requires Valid()
      requires StartsWith(data, "wit_")
      modifies this`states
      ensures Valid()
      ensures var id := IdField(data[4..]);
              states == if id.Some? && FindMethod(store.withdrawMethods, id.value).Some?
                        then old(states)[uid := AwaitingWithdrawDetails(id.value)] else old(states)
    {
      var id := IdField(data[4..]);
      if id.Some? && FindMethod(store.withdrawMethods, id.value).Some? {
        states := states[uid := AwaitingWithdrawDetails(id.value)];
      }
    }

    /** The text `Cuenta: <account>, Confirm: <confirmation>` recorded for the message
        `<account> | <confirmation>`. */
    static function WithdrawDetails(text: string): string
    {
      var t := Strip(text);
      "Cuenta: " + Strip(BeforeFirst(t, "|")) + ", Confirm: " + Strip(AfterFirst(t, "|"))
    }

    /** The withdrawal details message. Without a `|` nothing changes and the user may try again;
        otherwise the withdrawal is requested with the account details it gives. */
    method HandleWithdrawDetails(uid: int, text: string) returns (requested: bool)
      requires Valid()
      requires uid in states && states[uid].AwaitingWithdrawDetails?
      modifies this`states, store`users, store`txs, store`nextTxId
      ensures Valid()
      ensures WithdrawHandled(uid, text, requested, old(states), old(store.Snapshot()), states, store.Snapshot())
    {
      if !Contains(Strip(text), "|") {
        return false;
      }
      requested := RequestWithdrawal(uid, WithdrawDetails(text));
    }

    /** What a withdrawal request with account text `details` does. With less than 1 USD the
        pending action ends and no balance moves. Otherwise the whole USD balance is taken into
        escrow, a pending withdrawal of that amount is recorded, and the pending action ends. */
    static ghost predicate WithdrawalRequested(uid: int, details: string,
                                               states0: map<int, Session>, users0: Users, txs0: map<int, Transaction>, next0: int,
                                               requested: bool, states1: map<int, Session>, users1: Users,
                                               txs1: map<int, Transaction>, next1: int)
      requires uid in states0 && states0[uid].AwaitingWithdrawDetails?
    {
      var usd := Account(users0, uid, "").usd;
      if usd < 100 then
        !requested && states1 == states0 - {uid} && users1 == Register(users0, uid, "") && txs1 == txs0 && next1 == next0
      else
        requested && states1 == states0 - {uid} &&
        users1 == Credit(users0, uid, Delta(-usd, 0, 0)) &&
        next1 == next0 + 1 &&
        txs1 == txs0[next0 := Transaction(uid, Withdraw, usd, 0, Some(states0[uid].methodId), None, None, None,
                                          Some(details), Pending)]
    }

    /** A withdrawal never overdraws: it takes the whole USD balance and only when that is at least
        one dollar, so a user whose balances were not negative has none negative afterwards. */
    static lemma WithdrawalKeepsSolvent(uid: int, details: string,
                                        states0: map<int, Session>, users0: Users, txs0: map<int, Transaction>, next0: int,
                                        requested: bool, states1: map<int, Session>, users1: Users,
                                        txs1: map<int, Transaction>, next1: int)
      requires uid in states0 && states0[uid].AwaitingWithdrawDetails?
      requires WithdrawalRequested(uid, details, states0, users0, txs0, next0, requested, states1, users1, txs1, next1)
      requires var u := Account(users0, uid, ""); u.usd >= 0 && u.cup >= 0 && u.bonusUsd >= 0
      ensures var v := Account(users1, uid, ""); v.usd >= 0 && v.cup >= 0 && v.bonusUsd >= 0
    {
    }

    /** Requests a withdrawal whose account details are already read. */
    method RequestWithdrawal(uid: int, details: string) returns (requested: bool)
      requires Valid()
      requires uid in states && states[uid].AwaitingWithdrawDetails?
      modifies this`states, store`users, store`txs, store`nextTxId
      ensures Valid()
      ensures WithdrawalRequested(uid, details, old(states), old(store.users), old(store.txs), old(store.nextTxId),
                                  requested, states, store.users, store.txs, store.nextTxId)
      ensures requested ==> UsdOf(store.users, uid) == 0
    {
      var methodId := states[uid].methodId;
      var u := store.GetUser(uid, "");
      RegisterKeepsNoSelfReferral(old(store.users), uid, "");
      if u.usd < 100 {
        states := states - {uid};
        return false;
      }
      CreditAfterLookup(old(store.users), uid, Delta(-u.usd, 0, 0));
      CreditKeepsNoSelfReferral(store.users, uid, Delta(-u.usd, 0, 0));
      store.UpdateUserBalance(uid, Delta(-u.usd, 0, 0));
      var id := store.CreateTransaction(uid, Withdraw, u.usd, 0, Some(methodId), None, None, None, Some(details));
      states := states - {uid};
      requested := true;
    }

    /** `approve_with_<id>` / `reject_with_<id>`, pressed by `caller`: the transaction id is read
        and the review made. */
    method HandleWithdrawReview(caller: int, data: string)
      requires Valid()
      requires StartsWith(data, "approve_with_") || StartsWith(data, "reject_with_")
      modifies store`users, store`txs
      ensures Valid()
      ensures var approve := StartsWith(data, "approve_with_");
              WithdrawalReviewed(caller, approve, IdField(if approve then data[13..] else data[12..]),
                                 old(store.users), old(store.txs), store.users, store.txs)
    {
      var approve := StartsWith(data, "approve_with_");
      ReviewWithdrawal(caller, approve, IdField(if approve then data[13..] else data[12..]));
    }

    /** What a withdrawal review does. Only the administrator may review, and only a transaction
        that exists. Rejection refunds the transaction's USD amount to its user; approval moves no
        money. Either way the status and a review note are set, whatever the transaction's kind or
        status was. */
    ghost predicate WithdrawalReviewed(caller: int, approve: bool, id: Option<int>,
                                       users0: Users, txs0: map<int, Transaction>, users1: Users, txs1: map<int, Transaction>)
    {
      if caller != adminId || id.None? || id.value !in txs0 then
        users1 == users0 && txs1 == txs0
      else
        var tx := txs0[id.value];
        var status := if approve then Approved else Rejected;
        txs1 == txs0[id.value := WithStatus(tx, status, ReviewNote(status))] &&
        users1 == if approve then users0 else Credit(users0, tx.userId, Delta(tx.amountUsd, 0, 0))
    }

    /** Reviews the withdrawal with an already read transaction id. */
    method ReviewWithdrawal(caller: int, approve: bool, id: Option<int>)
      requires Valid()
      modifies store`users, store`txs
      ensures Valid()
      ensures WithdrawalReviewed(caller, approve, id, old(store.users), old(store.txs), store.users, store.txs)
    {
      if caller != adminId || id.None? || id.value !in store.txs {
        return;
      }
      var tx := store.txs[id.value];
      var status := if approve then Approved else Rejected;
      if !approve {
        CreditKeepsNoSelfReferral(store.users, tx.userId, Delta(tx.amountUsd, 0, 0));
        store.UpdateUserBalance(tx.userId, Delta(tx.amountUsd, 0, 0));
      }
      store.UpdateTransactionStatus(id.value, status, ReviewNote(status));
    }

    /** A withdrawal the administrator rejects gives the user back exactly what the request took
        into escrow. */
    lemma RejectedWithdrawalRefunds(uid: int, details: string,
                                    states0: map<int, Session>, users0: Users, txs0: map<int, Transaction>, next0: int,
                                    states1: map<int, Session>, users1: Users, txs1: map<int, Transaction>, next1: int,
                                    users2: Users, txs2: map<int, Transaction>)
      requires uid in states0 && states0[uid].AwaitingWithdrawDetails?
      requires WithdrawalRequested(uid, details, states0, users0, txs0, next0, true, states1, users1, txs1, next1)
      requires WithdrawalReviewed(adminId, false, Some(next0), users1, txs1, users2, txs2)
      ensures users2 == Register(users0, uid, "")
      ensures next0 in txs2 && txs2[next0].status == Rejected && txs2[next0].kind == Withdraw
    {
      var usd := Account(users0, uid, "").usd;
      assert txs1[next0].amountUsd == usd && txs1[next0].userId == uid;
      CreditInverse(users0, uid, Delta(-usd, 0, 0));
    }

    /** The note a withdrawal review leaves on its transaction: `Revisado por admin: <status>`. */
    static function ReviewNote(status: TxStatus): (note: string)
      ensures note != []
    {
      "Revisado por admin: " + (if status == Approved then "approved" else if status == Rejected then "rejected" else "pending")
    }

    // -------------------------------------------------------------------------------------------
    // Transfers
    // -------------------------------------------------------------------------------------------

    /** The `transfer` button: the user is to send the target's id. */
    method TransferSelected(uid: int)
      requires Valid()
      modifies this`states
      ensures Valid()
      ensures states == old(states)[uid := AwaitingTransferTarget]
    {
      states := states[uid := AwaitingTransferTarget];
    }

    /** The transfer target message: a number that is not the user's own id moves on to the amount;
        anything else changes nothing and the user may try again. */
    method HandleTransferTarget(uid: int, text: string)
      requires Valid()
      requires uid in states && states[uid].AwaitingTransferTarget?
      modifies this`states
      ensures Valid()
      ensures TargetHandled(uid, text, false, old(states), states)
    {
      var t := Strip(text);
      if !IsDigitText(t) {
        return;
      }
      var target := DigitsValue(t);
      if target == uid {
        return;
      }
      states := states[uid := AwaitingTransferAmount(target)];
    }

    /** The transfer amount message: the amount is read as a decimal number and sent. */
    method HandleTransferAmount(uid: int, text: string) returns (sent: bool)
      requires Valid()
      requires uid in states && states[uid].AwaitingTransferAmount?
      modifies this`states, store`users, store`txs, store`nextTxId
      ensures Valid()
      ensures AmountHandled(uid, text, sent, old(states), old(store.Snapshot()), states, store.Snapshot())
    {
      sent := SendTransfer(uid, DecimalCents(CommaToDot(Strip(text))));
    }

    /** What a transfer of `amount` does. An amount that is not a positive number changes nothing
        and the user may try again. With less USD than the amount the pending action just ends.
        Otherwise the amount moves from the user's USD balance to the target's (an unknown target
        is created), a pending transfer is recorded, and the pending action ends. */
    static ghost predicate TransferMade(uid: int, amount: Option<Cents>,
                                        states0: map<int, Session>, users0: Users, txs0: map<int, Transaction>, next0: int,
                                        sent: bool, states1: map<int, Session>, users1: Users,
                                        txs1: map<int, Transaction>, next1: int)
      requires uid in states0 && states0[uid].AwaitingTransferAmount?
    {
      var target := states0[uid].target;
      if amount.None? || amount.value <= 0 then
        !sent && states1 == states0 && users1 == users0 && txs1 == txs0 && next1 == next0
      else if Account(users0, uid, "").usd < amount.value then
        !sent && states1 == states0 - {uid} && users1 == Register(users0, uid, "") && txs1 == txs0 && next1 == next0
      else
        sent && states1 == states0 - {uid} &&
        users1 == Credit(Credit(users0, uid, Delta(-amount.value, 0, 0)), target, Delta(amount.value, 0, 0)) &&
        next1 == next0 + 1 &&
        txs1 == txs0[next0 := Transaction(uid, Transfer, amount.value, 0, None, None, None, Some(target), None, Pending)]
    }

    /** A transfer never overdraws: the amount is taken only when the sender holds it, so a sender
        and a target whose balances were not negative have none negative afterwards. */
    static lemma TransferKeepsSolvent(uid: int, amount: Option<Cents>,
                                      states0: map<int, Session>, users0: Users, txs0: map<int, Transaction>, next0: int,
                                      sent: bool, states1: map<int, Session>, users1: Users,
                                      txs1: map<int, Transaction>, next1: int)
      requires uid in states0 && states0[uid].AwaitingTransferAmount?
      requires TransferMade(uid, amount, states0, users0, txs0, next0, sent, states1, users1, txs1, next1)
      requires var u := Account(users0, uid, ""); u.usd >= 0 && u.cup >= 0 && u.bonusUsd >= 0
      requires var t := Account(users0, states0[uid].target, ""); t.usd >= 0 && t.cup >= 0 && t.bonusUsd >= 0
      ensures var v := Account(users1, uid, ""); v.usd >= 0 && v.cup >= 0 && v.bonusUsd >= 0
      ensures var w := Account(users1, states0[uid].target, ""); w.usd >= 0 && w.cup >= 0 && w.bonusUsd >= 0
    {
    }

    /** Sends a transfer whose amount is already read. The USD the sender and the target hold
        together is the same before and after. */
    method SendTransfer(uid: int, amount: Option<Cents>) returns (sent: bool)
      requires Valid()
      requires uid in states && states[uid].AwaitingTransferAmount?
      modifies this`states, store`users, store`txs, store`nextTxId
      ensures Valid()
      ensures TransferMade(uid, amount, old(states), old(store.users), old(store.txs), old(store.nextTxId),
                           sent, states, store.users, store.txs, store.nextTxId)
      ensures sent ==> UsdOf(store.users, uid) + UsdOf(store.users, old(states)[uid].target) ==
                       UsdOf(old(store.users), uid) + UsdOf(old(store.users), old(states)[uid].target)
    {
      if amount.None? || amount.value <= 0 {
        return false;
      }
      var target := states[uid].target;
      var u := store.GetUser(uid, "");
      RegisterKeepsNoSelfReferral(old(store.users), uid, "");
      if u.usd < amount.value {
        states := states - {uid};
        return false;
      }
      CreditAfterLookup(old(store.users), uid, Delta(-amount.value, 0, 0));
      CreditKeepsNoSelfReferral(store.users, uid, Delta(-amount.value, 0, 0));
      store.UpdateUserBalance(uid, Delta(-amount.value, 0, 0));
      CreditKeepsNoSelfReferral(store.users, target, Delta(amount.value, 0, 0));
      store.UpdateUserBalance(target, Delta(amount.value, 0, 0));
      TransferConserves(old(store.users), uid, target, amount.value);
      var id := store.CreateTransaction(uid, Transfer, amount.value, 0, None, None, None, Some(target), None);
      states := states - {uid};
      sent := true;
    }

    // -------------------------------------------------------------------------------------------
    // Administration
    // -------------------------------------------------------------------------------------------

    /** `adm_add_dep` / `adm_add_wit`: the administrator starts describing a new method; anyone
        else changes nothing. */
    method AdminAddMethodSelected(caller: int, kind: MethodKind)
      requires Valid()
      modifies this`states
      ensures Valid()
      ensures states == if caller == adminId then old(states)[caller := AdminAddMethod(kind, NeedName)] else old(states)
    {
      if caller == adminId {
        states := states[caller := AdminAddMethod(kind, NeedName)];
      }
    }

    /** `adm_set_rate`: the administrator is to send the new exchange rate; anyone else changes
        nothing. */
    method AdminSetRateSelected(caller: int)
      requires Valid()
      modifies this`states
      ensures Valid()
      ensures states == if caller == adminId then old(states)[caller := AdminSetRate] else old(states)
    {
      if caller == adminId {
        states := states[caller := AdminSetRate];
      }
    }

    /** `adm_price_<bet type>`: the administrator is to send the new price of that bet type; anyone
        else changes nothing. */
    method AdminPriceSelected(caller: int, data: string)
      requires Valid()
      requires StartsWith(data, "adm_price_")
      modifies this`states
      ensures Valid()
      ensures states == if caller == adminId then old(states)[caller := AdminSetPrice(data[10..])] else old(states)
    {
      if caller == adminId {
        states := states[caller := AdminSetPrice(data[10..])];
      }
    }

    /** The price `<cup> <usd>` of `admin_set_price`: the first two words as numbers, neither
        negative; `None` otherwise. */
    static function PriceArg(text: string): (r: Option<Price>)
      ensures r.Some? ==> r.value.cup >= 0 && r.value.usd >= 0
      ensures r.Some? ==> |Words(text)| >= 2 &&
                          DecimalCents(CommaToDot(Words(text)[0])) == Some(r.value.cup) &&
                          DecimalCents(CommaToDot(Words(text)[1])) == Some(r.value.usd)
      ensures |Words(text)| >= 2 ==>
                forall cup, usd :: DecimalCents(CommaToDot(Words(text)[0])) == Some(cup) &&
                                   DecimalCents(CommaToDot(Words(text)[1])) == Some(usd) && cup >= 0 && usd >= 0 ==>
                                   r == Some(Price(cup, usd))
    {
      var parts := Words(text);
      if |parts| < 2 then None
      else
        match (DecimalCents(CommaToDot(parts[0])), DecimalCents(CommaToDot(parts[1])))
        case (Some(cup), Some(usd)) => if cup < 0 || usd < 0 then None else Some(Price(cup, usd))
        case _ => None
    }

    /** A message in one of the admin actions, handed to the step of that action. */
    method HandleAdminFlows(uid: int, text: string)
      requires Valid()
      requires uid in states && states[uid].IsAdminFlow()
      modifies this`states, store`depositMethods, store`withdrawMethods, store`rateRow, store`pricesRow
      ensures Valid()
      ensures old(states[uid]).AdminAddMethod? ==>
                AddMethodHandled(uid, text, false, old(states), old(store.Snapshot()), states, store.Snapshot()) &&
                unchanged(store`rateRow, store`pricesRow)
      ensures old(states[uid]).AdminSetRate? ==>
                RateHandled(uid, text, false, old(states), old(store.Snapshot()), states, store.Snapshot()) &&
                unchanged(store`depositMethods, store`withdrawMethods, store`pricesRow)
      ensures old(states[uid]).AdminSetPrice? ==>
                PriceHandled(uid, text, false, old(states), old(store.Snapshot()), states, store.Snapshot()) &&
                unchanged(store`depositMethods, store`withdrawMethods, store`rateRow)
    {
      if states[uid].AdminAddMethod? {
        AddMethodStep(uid, text);
      } else if states[uid].AdminSetRate? {
        SetRateStep(uid, DecimalCents(CommaToDot(text)));
      } else {
        SetPriceStep(uid, PriceArg(text));
      }
    }

    /** What one message does to a method being described: the name, then the card, then the
        confirmation number, after which the method is stored, active, in its table and the action
        ends. */
    static ghost predicate MethodDraftStep(uid: int, text: string, states0: map<int, Session>,
                                           deps0: seq<PaymentMethod>, wits0: seq<PaymentMethod>,
                                           states1: map<int, Session>, deps1: seq<PaymentMethod>, wits1: seq<PaymentMethod>)
      requires uid in states0 && states0[uid].AdminAddMethod?
    {
      var kind := states0[uid].kind;
      match states0[uid].draft
      case NeedName =>
        states1 == states0[uid := AdminAddMethod(kind, NeedCard(text))] && deps1 == deps0 && wits1 == wits0
      case NeedCard(name) =>
        states1 == states0[uid := AdminAddMethod(kind, NeedConfirm(name, text))] && deps1 == deps0 && wits1 == wits0
      case NeedConfirm(name, card) =>
        states1 == states0 - {uid} &&
        if kind == DepositMethod then deps1 == deps0 + [PaymentMethod(name, card, text, true)] && wits1 == wits0
        else wits1 == wits0 + [PaymentMethod(name, card, text, true)] && deps1 == deps0
    }

    /** One message of `admin_add_dep` / `admin_add_wit`. */
    method AddMethodStep(uid: int, text: string)
      requires Valid()
      requires uid in states && states[uid].AdminAddMethod?
      modifies this`states, store`depositMethods, store`withdrawMethods
      ensures Valid()
      ensures MethodDraftStep(uid, text, old(states), old(store.depositMethods), old(store.withdrawMethods),
                              states, store.depositMethods, store.withdrawMethods)
    {
      var kind := states[uid].kind;
      match states[uid].draft
      case NeedName =>
        states := states[uid := AdminAddMethod(kind, NeedCard(text))];
      case NeedCard(name) =>
        states := states[uid := AdminAddMethod(kind, NeedConfirm(name, text))];
      case NeedConfirm(name, card) =>
        if kind == DepositMethod {
          store.AddDepositMethod(name, card, text);
        } else {
          store.AddWithdrawMethod(name, card, text);
        }
        states := states - {uid};
        forall u | u in states
          ensures SessionFits(u, states[u], adminId, store.depositMethods, store.withdrawMethods)
        {
          SessionFitsGrows(u, states[u], adminId, old(store.depositMethods), old(store.withdrawMethods),
                           store.depositMethods, store.withdrawMethods);
        }
    }

    /** What `admin_set_rate` does with the rate read from the message: a positive rate is stored
        (when the config row exists) and the action ends; anything else changes nothing and the
        administrator may try again. */
    static ghost predicate RateSet(uid: int, rate: Option<Cents>, states0: map<int, Session>, row0: Option<Cents>,
                                   states1: map<int, Session>, row1: Option<Cents>)
    {
      if rate.Some? && rate.value > 0 then
        states1 == states0 - {uid} && row1 == (if row0.Some? then Some(rate.value) else None)
      else states1 == states0 && row1 == row0
    }

    /** `admin_set_rate` with the rate already read. */
    method SetRateStep(uid: int, rate: Option<Cents>)
      requires Valid()
      requires uid in states && states[uid].AdminSetRate?
      modifies this`states, store`rateRow
      ensures Valid()
      ensures RateSet(uid, rate, old(states), old(store.rateRow), states, store.rateRow)
    {
      if rate.Some? && rate.value > 0 {
        store.SetExchangeRate(rate.value);
        states := states - {uid};
      }
    }

    /** What `admin_set_price` does with the price read from the message: a valid price replaces
        that bet type's entry (when the config row exists) and the action ends; otherwise nothing
        changes and the administrator may try again. */
    static ghost predicate PriceSet(uid: int, price: Option<Price>, states0: map<int, Session>,
                                    row0: Option<map<string, Price>>, states1: map<int, Session>, row1: Option<map<string, Price>>)
      requires uid in states0 && states0[uid].AdminSetPrice?
    {
      if price.Some? then
        states1 == states0 - {uid} &&
        row1 == (if row0.Some? then Some(row0.value[states0[uid].betType := price.value]) else None)
      else states1 == states0 && row1 == row0
    }

    /** `admin_set_price` with the price already read. */
    method SetPriceStep(uid: int, price: Option<Price>)
      requires Valid()
      requires uid in states && states[uid].AdminSetPrice?
      modifies this`states, store`pricesRow
      ensures Valid()
      ensures PriceSet(uid, price, old(states), old(store.pricesRow), states, store.pricesRow)
    {
      if price.Some? {
        store.SetPlayPrice(states[uid].betType, price.value);
        states := states - {uid};
      }
    }

    // -------------------------------------------------------------------------------------------
    // Dispatch
    // -------------------------------------------------------------------------------------------

    /** A message no other handler takes: `/balance`, in any case, shows the balance (registering
        the user if new); anything else changes nothing. */
    method Fallback(uid: int, text: string)
      requires Valid()
      modifies store`users
      ensures Valid()
      ensures store.users == if Lower(text) == "/balance" then Register(old(store.users), uid, "") else old(store.users)
    {
      if Lower(text) == "/balance" {
        var u := MyMoney(uid);
      }
    }

    /** A text message, given to the first handler that takes it: the `start` command, then the
        handler of the user's pending action, then (when there is one) the fallback handler.
        `done` is the outcome the pending action's handler reports. */
    method HandleText(uid: int, firstName: string, text: string) returns (done: bool)
      requires Valid()
      modifies this`states, store`users, store`txs, store`nextTxId, store`bets,
               store`depositMethods, store`withdrawMethods, store`rateRow, store`pricesRow
      ensures Valid()
      ensures IsStartCommand(text) ==>
                !done && states == old(states) &&
                store.users == Started(old(store.users), uid, firstName, ReferralArg(uid, text)) &&
                unchanged(store`txs, store`nextTxId, store`bets,
                          store`depositMethods, store`withdrawMethods, store`rateRow, store`pricesRow)
      ensures !IsStartCommand(text) && uid in old(states) && old(states)[uid].AwaitingBet? ==>
                BetHandled(uid, text, done, old(states), old(store.Snapshot()), states, store.Snapshot()) &&
                unchanged(store`txs, store`nextTxId, store`depositMethods, store`withdrawMethods, store`rateRow, store`pricesRow)
      ensures !IsStartCommand(text) && uid in old(states) && old(states)[uid].AwaitingWithdrawDetails? ==>
                WithdrawHandled(uid, text, done, old(states), old(store.Snapshot()), states, store.Snapshot()) &&
                unchanged(store`bets, store`depositMethods, store`withdrawMethods, store`rateRow, store`pricesRow)
      ensures !IsStartCommand(text) && uid in old(states) && old(states)[uid].AwaitingTransferTarget? ==>
                TargetHandled(uid, text, done, old(states), states) &&
                unchanged(store`users, store`txs, store`nextTxId, store`bets,
                          store`depositMethods, store`withdrawMethods, store`rateRow, store`pricesRow)
      ensures !IsStartCommand(text) && uid in old(states) && old(states)[uid].AwaitingTransferAmount? ==>
                AmountHandled(uid, text, done, old(states), old(store.Snapshot()), states, store.Snapshot()) &&
                unchanged(store`bets, store`depositMethods, store`withdrawMethods, store`rateRow, store`pricesRow)
      ensures !IsStartCommand(text) && uid in old(states) && old(states)[uid].AdminAddMethod? ==>
                AddMethodHandled(uid, text, done, old(states), old(store.Snapshot()), states, store.Snapshot()) &&
                unchanged(store`users, store`txs, store`nextTxId, store`bets, store`rateRow, store`pricesRow)
      ensures !IsStartCommand(text) && uid in old(states) && old(states)[uid].AdminSetRate? ==>
                RateHandled(uid, text, done, old(states), old(store.Snapshot()), states, store.Snapshot()) &&
                unchanged(store`users, store`txs, store`nextTxId, store`bets,
                          store`depositMethods, store`withdrawMethods, store`pricesRow)
      ensures !IsStartCommand(text) && uid in old(states) && old(states)[uid].AdminSetPrice? ==>
                PriceHandled(uid, text, done, old(states), old(store.Snapshot()), states, store.Snapshot()) &&
                unchanged(store`users, store`txs, store`nextTxId, store`bets,
                          store`depositMethods, store`withdrawMethods, store`rateRow)
      ensures !IsStartCommand(text) && !(uid in old(states) && old(states)[uid].TakesText()) ==>
                !done && states == old(states) &&
                store.users == (if hasFallback && Lower(text) == "/balance" then Register(old(store.users), uid, "")
                                else old(store.users)) &&
                unchanged(store`txs, store`nextTxId, store`bets,
                          store`depositMethods, store`withdrawMethods, store`rateRow, store`pricesRow)
    {
      done := false;
      if IsStartCommand(text) {
        CmdStart(uid, firstName, text);
      } else if uid in states && states[uid].TakesText() {
        done := HandlePending(uid, text);
      } else if hasFallback {
        Fallback(uid, text);
      }
    }

    /** A bet message: `BetPlacement` of its stripped text at the stored prices. */
    static ghost predicate BetHandled(uid: int, text: string, done: bool,
                                      states0: map<int, Session>, db0: Db, states1: map<int, Session>, db1: Db)
      requires uid in states0 && states0[uid].AwaitingBet?
    {
      var raw := Strip(text);
      BetPlacement(uid, raw, ParseBetCost(raw, states0[uid].betType, db0.pricesRow.GetOr(DefaultPrices())),
                   states0, db0.users, db0.bets, done, states1, db1.users, db1.bets)
    }

    /** A withdrawal details message: without a `|` nothing changes; otherwise
        `WithdrawalRequested` with the details it gives. */
    static ghost predicate WithdrawHandled(uid: int, text: string, done: bool,
                                           states0: map<int, Session>, db0: Db, states1: map<int, Session>, db1: Db)
      requires uid in states0 && states0[uid].AwaitingWithdrawDetails?
    {
      if Contains(Strip(text), "|") then
        WithdrawalRequested(uid, WithdrawDetails(text), states0, db0.users, db0.txs, db0.nextTxId,
                            done, states1, db1.users, db1.txs, db1.nextTxId)
      else !done && states1 == states0 && db1.users == db0.users && db1.txs == db0.txs && db1.nextTxId == db0.nextTxId
    }

    /** A transfer target message: another user's id moves on to the amount; anything else is
        ignored. */
    static ghost predicate TargetHandled(uid: int, text: string, done: bool,
                                         states0: map<int, Session>, states1: map<int, Session>)
    {
      var t := Strip(text);
      !done &&
      states1 == if IsDigitText(t) && DigitsValue(t) != uid then states0[uid := AwaitingTransferAmount(DigitsValue(t))]
                 else states0
    }

    /** A transfer amount message: `TransferMade` with the amount it gives. */
    static ghost predicate AmountHandled(uid: int, text: string, done: bool,
                                         states0: map<int, Session>, db0: Db, states1: map<int, Session>, db1: Db)
      requires uid in states0 && states0[uid].AwaitingTransferAmount?
    {
      TransferMade(uid, DecimalCents(CommaToDot(Strip(text))), states0, db0.users, db0.txs, db0.nextTxId,
                   done, states1, db1.users, db1.txs, db1.nextTxId)
    }

    /** A message while an admin describes a payment method: the next step of the description. */
    static ghost predicate AddMethodHandled(uid: int, text: string, done: bool,
                                            states0: map<int, Session>, db0: Db, states1: map<int, Session>, db1: Db)
      requires uid in states0 && states0[uid].AdminAddMethod?
    {
      !done &&
      MethodDraftStep(uid, text, states0, db0.depositMethods, db0.withdrawMethods,
                      states1, db1.depositMethods, db1.withdrawMethods)
    }

    /** A message while an admin sets the rate: `RateSet` with the number it gives. */
    static ghost predicate RateHandled(uid: int, text: string, done: bool,
                                       states0: map<int, Session>, db0: Db, states1: map<int, Session>, db1: Db)
      requires uid in states0 && states0[uid].AdminSetRate?
    {
      !done && RateSet(uid, DecimalCents(CommaToDot(text)), states0, db0.rateRow, states1, db1.rateRow)
    }

    /** A message while an admin sets a price: `PriceSet` with the two numbers it gives. */
    static ghost predicate PriceHandled(uid: int, text: string, done: bool,
                                        states0: map<int, Session>, db0: Db, states1: map<int, Session>, db1: Db)
      requires uid in states0 && states0[uid].AdminSetPrice?
    {
      !done && PriceSet(uid, PriceArg(text), states0, db0.pricesRow, states1, db1.pricesRow)
    }

    /** A text message for the handler of the user's pending action. */
    method HandlePending(uid: int, text: string) returns (done: bool)
      requires Valid()
      requires uid in states && states[uid].TakesText()
      modifies this`states, store`users, store`txs, store`nextTxId, store`bets,
               store`depositMethods, store`withdrawMethods, store`rateRow, store`pricesRow
      ensures Valid()
      ensures old(states[uid]).AwaitingBet? ==>
                BetHandled(uid, text, done, old(states), old(store.Snapshot()), states, store.Snapshot()) &&
                unchanged(store`txs, store`nextTxId, store`depositMethods, store`withdrawMethods, store`rateRow, store`pricesRow)
      ensures old(states[uid]).AwaitingWithdrawDetails? ==>
                WithdrawHandled(uid, text, done, old(states), old(store.Snapshot()), states, store.Snapshot()) &&
                unchanged(store`bets, store`depositMethods, store`withdrawMethods, store`rateRow, store`pricesRow)
      ensures old(states[uid]).AwaitingTransferTarget? ==>
                TargetHandled(uid, text, done, old(states), states) &&
                unchanged(store`users, store`txs, store`nextTxId, store`bets,
                          store`depositMethods, store`withdrawMethods, store`rateRow, store`pricesRow)
      ensures old(states[uid]).AwaitingTransferAmount? ==>
                AmountHandled(uid, text, done, old(states), old(store.Snapshot()), states, store.Snapshot()) &&
                unchanged(store`bets, store`depositMethods, store`withdrawMethods, store`rateRow, store`pricesRow)
      ensures old(states[uid]).AdminAddMethod? ==>
                AddMethodHandled(uid, text, done, old(states), old(store.Snapshot()), states, store.Snapshot()) &&
                unchanged(store`users, store`txs, store`nextTxId, store`bets, store`rateRow, store`pricesRow)
      ensures old(states[uid]).AdminSetRate? ==>
                RateHandled(uid, text, done, old(states), old(store.Snapshot()), states, store.Snapshot()) &&
                unchanged(store`users, store`txs, store`nextTxId, store`bets,
                          store`depositMethods, store`withdrawMethods, store`pricesRow)
      ensures old(states[uid]).AdminSetPrice? ==>
                PriceHandled(uid, text, done, old(states), old(store.Snapshot()), states, store.Snapshot()) &&
                unchanged(store`users, store`txs, store`nextTxId, store`bets,
                          store`depositMethods, store`withdrawMethods, store`rateRow)
    {
      done := false;
      if states[uid].AwaitingBet? {
        done := HandleBet(uid, text);
      } else if states[uid].AwaitingWithdrawDetails? {
        done := HandleWithdrawDetails(uid, text);
      } else if states[uid].AwaitingTransferTarget? {
        HandleTransferTarget(uid, text);
      } else if states[uid].AwaitingTransferAmount? {
        done := HandleTransferAmount(uid, text);
      } else {
        HandleAdminFlows(uid, text);
      }
    }

    /** Data from the web app. A deposit request sets the proof URL of the transaction it names
        (any user's). A placed bet with a USD cost registers the user and pays their referrer the
        commission, as a bet placed through the bot does. Everything else changes nothing. */
    method HandleWebAppData(uid: int, data: WebAppData)
      requires Valid()
      modifies store`users, store`txs
      ensures Valid()
      ensures data.DepositRequest? ==>
                store.users == old(store.users) &&
                store.txs == if data.txId in old(store.txs)
                             then old(store.txs)[data.txId := old(store.txs)[data.txId].(proofUrl := data.proofUrl)]
                             else old(store.txs)
      ensures data.BetPlaced? ==>
                store.txs == old(store.txs) &&
                store.users == if data.costUsd > 0
                               then PayReferrer(Register(old(store.users), uid, ""), Account(old(store.users), uid, "").ref, data.costUsd)
                               else old(store.users)
      ensures !data.DepositRequest? && !data.BetPlaced? ==> store.users == old(store.users) && store.txs == old(store.txs)
    {
      match data
      case DepositRequest(txId, url) =>
        store.SetProofUrl(txId, url);
      case BetPlaced(costUsd) =>
        if costUsd > 0 {
          var u := store.GetUser(uid, "");
          RegisterKeepsNoSelfReferral(old(store.users), uid, "");
          var c := Commission(costUsd);
          if HasReferrer(u) && c > 0 {
            CreditKeepsNoSelfReferral(store.users, u.ref.value, Delta(c, 0, 0));
            store.UpdateUserBalance(u.ref.value, Delta(c, 0, 0));
          }
        }
      case _ =>
    }
  }
}
