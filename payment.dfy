/** The payment concept of the event-driven example: payments and their
    transactions, with the lifecycle pending -> processing -> completed ->
    refunded / partially refunded and a failure accepted in every state.
    Amounts are whole numbers; fresh ids and the clock are parameters. */
module Payment {
  import opened Wrappers

  datatype Status = Pending | Processing | Completed | Failed | Refunded | PartiallyRefunded

  datatype TxKind = ChargeTx | RefundTx

  datatype TxStatus = TxProcessing | TxCompleted | TxFailed

  datatype Transaction = Transaction(id: string, paymentId: string, kind: TxKind, amount: int, status: TxStatus,
                                     gatewayResponse: string, reason: Option<string>, createdAt: int,
                                     completedAt: Option<int>)

  datatype PaymentRec = PaymentRec(id: string, orderId: string, amount: int, payMethod: string, status: Status,
                                   createdAt: int, transactions: seq<string>, completedAt: Option<int>,
                                   failedAt: Option<int>, failureReason: Option<string>)

  /** A payment as `get` returns it: its transaction ids looked up, an
      unknown id giving `undefined`. */
  datatype PaymentView = PaymentView(payment: PaymentRec, transactions: seq<Option<Transaction>>)

  datatype Action = Initiate | Process | Confirm | Fail | RefundAction | Get | GetByOrderId

  function Name(a: Action): string {
    match a
    case Initiate => "initiate"
    case Process => "process"
    case Confirm => "confirm"
    case Fail => "fail"
    case RefundAction => "refund"
    case Get => "get"
    case GetByOrderId => "getByOrderId"
  }

  /** The `switch` of `execute`. */
  function Dispatch(action: string): (r: Result<Action>)
    ensures r.Ok? ==> Name(r.value) == action
    ensures r.Err? ==> r.error == "Unknown action: " + action && forall a :: Name(a) != action
  {
    if action == "initiate" then Ok(Initiate)
    else if action == "process" then Ok(Process)
    else if action == "confirm" then Ok(Confirm)
    else if action == "fail" then Ok(Fail)
    else if action == "refund" then Ok(RefundAction)
    else if action == "get" then Ok(Get)
    else if action == "getByOrderId" then Ok(GetByOrderId)
    else Err("Unknown action: " + action)
  }

  // ---------------------------------------------------------------------
  // The lifecycle

  /** The status-changing actions on one payment; a refund is full or
      partial. */
  datatype Move = ProcessMove | ConfirmMove | FailMove | RefundMove(full: bool)

  /** The status a move leaves a payment in, or None where the move
      refuses the payment's status. */
  function Next(s: Status, m: Move): Option<Status> {
    match m
    case ProcessMove => if s == Pending then Some(Processing) else None
    case ConfirmMove => if s == Processing then Some(Completed) else None
    case FailMove => Some(Failed)
    case RefundMove(full) => if s == Completed then Some(if full then Refunded else PartiallyRefunded) else None
  }

  function Run(s: Status, moves: seq<Move>): Option<Status>
    decreases |moves|
  {
    if moves == [] then Some(s)
    else match Next(s, moves[0])
      case None => None
      case Some(t) => Run(t, moves[1..])
  }

  function Refunds(moves: seq<Move>): nat
    decreases |moves|
  {
    if moves == [] then 0 else (if moves[0].RefundMove? then 1 else 0) + Refunds(moves[1..])
  }

  predicate RefundedState(s: Status) {
    s == Refunded || s == PartiallyRefunded
  }

  /** A payment is refunded at most once, and not at all once it has been:
      a partial refund also ends the completed state. */
  lemma {:induction false} RefundAtMostOnce(s: Status, moves: seq<Move>)
    ensures Run(s, moves).Some? ==> Refunds(moves) <= if RefundedState(s) then 0 else 1
    decreases |moves|
  {
    if moves != [] && Run(s, moves).Some? {
      var t := Next(s, moves[0]).value;
      RefundAtMostOnce(t, moves[1..]);
      if moves[0].RefundMove? {
        assert RefundedState(t);
      } else if RefundedState(s) {
        assert t == Failed;
        assert Refunds(moves[1..]) <= 1;
        RefundsAfterFail(moves[1..]);
      }
    }
  }

  /** A failed payment accepts nothing but another failure. */
  lemma {:induction false} RefundsAfterFail(moves: seq<Move>)
    ensures Run(Failed, moves).Some? ==> Refunds(moves) == 0
    decreases |moves|
  {
    if moves != [] && Run(Failed, moves).Some? {
      RefundsAfterFail(moves[1..]);
    }
  }

  /** A refunded payment was confirmed on the way. */
  lemma {:induction false} RefundNeedsConfirm(s: Status, moves: seq<Move>)
    requires s == Pending || s == Processing || s == Failed
    ensures Run(s, moves).Some? && RefundedState(Run(s, moves).value) ==> ConfirmMove in moves
    decreases |moves|
  {
    if moves != [] && Run(s, moves).Some? && RefundedState(Run(s, moves).value) && moves[0] != ConfirmMove {
      RefundNeedsConfirm(Next(s, moves[0]).value, moves[1..]);
      assert ConfirmMove in moves[1..];
    }
  }

  /** `fail`'s loop, as a whole: the payment's transactions still
      processing become failed with the reason; nothing else changes. */
  function FailedTxs(txs: map<string, Transaction>, ids: seq<string>, reason: string): map<string, Transaction> {
    map k | k in txs :: if k in ids && txs[k].status == TxProcessing
                        then txs[k].(status := TxFailed, gatewayResponse := reason) else txs[k]
  }

  /** `amount || payment.amount`: an absent or zero amount is the whole
      payment. */
  function RefundOf(p: PaymentRec, amount: int): int {
    if amount == 0 then p.amount else amount
  }

  class PaymentStore {
    var payments: map<string, PaymentRec>
    /** The keys of `payments` in insertion order, as a Map iterates. */
    var paymentOrder: seq<string>
    var transactions: map<string, Transaction>

    ghost predicate Valid()
      reads this
    {
      (forall i, j :: 0 <= i < j < |paymentOrder| ==> paymentOrder[i] != paymentOrder[j])
      && (forall id :: id in payments <==> id in paymentOrder)
      && (forall id :: id in payments ==>
            payments[id].id == id && forall t :: t in payments[id].transactions ==> t in transactions)
    }

    constructor()
      ensures payments == map[] && paymentOrder == [] && transactions == map[] && Valid()
    {
      payments := map[];
      paymentOrder := [];
      transactions := map[];
    }

    method Initiate(orderId: string, amount: int, payMethod: string, paymentId: string, now: int)
      returns (r: Result<PaymentRec>)
      requires Valid() && paymentId !in payments
      modifies this`payments, this`paymentOrder
      ensures Valid()
      ensures r.Err? <==> orderId == "" || amount <= 0
      ensures r.Err? ==> r.error == "Order ID and positive amount are required"
      ensures r.Err? ==> payments == old(payments) && paymentOrder == old(paymentOrder)
      ensures r.Ok? ==> r.value == PaymentRec(paymentId, orderId, amount, if payMethod == "" then "credit_card" else payMethod,
                                              Pending, now, [], None, None, None)
      ensures r.Ok? ==> payments == old(payments)[paymentId := r.value] && paymentOrder == old(paymentOrder) + [paymentId]
    {
      if orderId == "" || amount <= 0 {
        return Err("Order ID and positive amount are required");
      }
      var p := PaymentRec(paymentId, orderId, amount, if payMethod == "" then "credit_card" else payMethod,
                          Pending, now, [], None, None, None);
      payments := payments[paymentId := p];
      paymentOrder := paymentOrder + [paymentId];
      return Ok(p);
    }

    method Process(paymentId: string, txId: string, now: int) returns (r: Result<(PaymentRec, Transaction)>)
      requires Valid() && txId !in transactions
      modifies this`payments, this`transactions
      ensures Valid()
      ensures r.Err? <==> paymentId !in old(payments) || Next(old(payments)[paymentId].status, ProcessMove).None?
      ensures r.Err? ==> r.error == if paymentId !in old(payments) then "Payment not found" else "Payment is not in pending status"
      ensures r.Err? ==> payments == old(payments) && transactions == old(transactions)
      ensures r.Ok? ==> r.value.1 == Transaction(txId, paymentId, ChargeTx, old(payments)[paymentId].amount, TxProcessing,
                                                 "Processing payment...", None, now, None)
      ensures r.Ok? ==> r.value.0 == old(payments)[paymentId].(status := Processing,
                                       transactions := old(payments)[paymentId].transactions + [txId])
      ensures r.Ok? ==> payments == old(payments)[paymentId := r.value.0] && transactions == old(transactions)[txId := r.value.1]
    {
      if paymentId !in payments {
        return Err("Payment not found");
      }
      var p := payments[paymentId];
      if p.status != Pending {
        return Err("Payment is not in pending status");
      }
      var tx := Transaction(txId, paymentId, ChargeTx, p.amount, TxProcessing, "Processing payment...", None, now, None);
      transactions := transactions[txId := tx];
      p := p.(status := Processing, transactions := p.transactions + [txId]);
      payments := payments[paymentId := p];
      return Ok((p, tx));
    }

    /** `confirm`: the transaction named need not belong to the payment. */
    method Confirm(paymentId: string, transactionId: string, now: int) returns (r: Result<(PaymentRec, Transaction)>)
      requires Valid()
      modifies this`payments, this`transactions
      ensures Valid()
      ensures r.Err? <==> paymentId !in old(payments) || transactionId !in old(transactions)
                          || Next(old(payments)[paymentId].status, ConfirmMove).None?
      ensures r.Err? ==> r.error == if paymentId !in old(payments) || transactionId !in old(transactions)
                                    then "Payment or transaction not found" else "Payment is not in processing status"
      ensures r.Err? ==> payments == old(payments) && transactions == old(transactions)
      ensures r.Ok? ==> r.value.0 == old(payments)[paymentId].(status := Completed, completedAt := Some(now))
      ensures r.Ok? ==> r.value.1 == old(transactions)[transactionId].(status := TxCompleted,
                                       gatewayResponse := "Payment successful", completedAt := Some(now))
      ensures r.Ok? ==> payments == old(payments)[paymentId := r.value.0]
                        && transactions == old(transactions)[transactionId := r.value.1]
    {
      if paymentId !in payments || transactionId !in transactions {
        return Err("Payment or transaction not found");
      }
      var p := payments[paymentId];
      if p.status != Processing {
        return Err("Payment is not in processing status");
      }
      p := p.(status := Completed, completedAt := Some(now));
      var tx := transactions[transactionId].(status := TxCompleted, gatewayResponse := "Payment successful",
                                             completedAt := Some(now));
      payments := payments[paymentId := p];
      transactions := transactions[transactionId := tx];
      return Ok((p, tx));
    }

    /** The transaction loop of `fail`. */
    method FailTransactions(ids: seq<string>, reason: string)
      modifies this`transactions
      ensures transactions == FailedTxs(old(transactions), ids, reason)
    {
      var txs := transactions;
      for i := 0 to |ids|
        invariant txs.Keys == transactions.Keys
        invariant txs == FailedTxs(transactions, ids[..i], reason)
      {
        var id := ids[i];
        assert ids[..i + 1] == ids[..i] + [id];
        if id in txs && txs[id].status == TxProcessing {
          txs := txs[id := txs[id].(status := TxFailed, gatewayResponse := reason)];
        }
      }
      assert ids[..|ids|] == ids;
      transactions := txs;
    }

    method Fail(paymentId: string, reason: string, now: int) returns (r: Result<PaymentRec>)
      requires Valid()
      modifies this`payments, this`transactions
      ensures Valid()
      ensures r.Err? <==> paymentId !in old(payments)
      ensures r.Err? ==> r.error == "Payment not found" && payments == old(payments) && transactions == old(transactions)
      ensures r.Ok? ==> r.value == old(payments)[paymentId].(status := Failed, failedAt := Some(now),
                                                            failureReason := Some(reason))
      ensures r.Ok? ==> payments == old(payments)[paymentId := r.value]
      ensures r.Ok? ==> transactions == FailedTxs(old(transactions), r.value.transactions, reason)
    {
      if paymentId !in payments {
        return Err("Payment not found");
      }
      var p := payments[paymentId].(status := Failed, failedAt := Some(now), failureReason := Some(reason));
      payments := payments[paymentId := p];
      FailTransactions(p.transactions, reason);
      return Ok(p);
    }

    /** `refund`: an amount of 0 (absent) refunds the whole payment. */
    method Refund(paymentId: string, amount: int, reason: string, txId: string, now: int)
      returns (r: Result<(PaymentRec, Transaction)>)
      requires Valid() && txId !in transactions
      modifies this`payments, this`transactions
      ensures Valid()
      ensures r.Err? <==> paymentId !in old(payments) || old(payments)[paymentId].status != Completed
                          || RefundOf(old(payments)[paymentId], amount) > old(payments)[paymentId].amount
      ensures r.Err? ==> r.error == if paymentId !in old(payments) then "Payment not found"
                                    else if old(payments)[paymentId].status != Completed then "Can only refund completed payments"
                                    else "Refund amount cannot exceed payment amount"
      ensures r.Err? ==> payments == old(payments) && transactions == old(transactions)
      ensures r.Ok? ==> r.value.1 == Transaction(txId, paymentId, RefundTx, RefundOf(old(payments)[paymentId], amount),
                                                 TxCompleted, "Refund processed", Some(reason), now, Some(now))
      ensures r.Ok? ==> Some(r.value.0.status) == Next(old(payments)[paymentId].status,
                          RefundMove(RefundOf(old(payments)[paymentId], amount) == old(payments)[paymentId].amount))
      ensures r.Ok? ==> r.value.0 == old(payments)[paymentId].(status := r.value.0.status,
                          transactions := old(payments)[paymentId].transactions + [txId])
      ensures r.Ok? ==> payments == old(payments)[paymentId := r.value.0] && transactions == old(transactions)[txId := r.value.1]
    {
      if paymentId !in payments {
        return Err("Payment not found");
      }
      var p := payments[paymentId];
      if p.status != Completed {
        return Err("Can only refund completed payments");
      }
      var refunded := RefundOf(p, amount);
      if refunded > p.amount {
        return Err("Refund amount cannot exceed payment amount");
      }
      var tx := Transaction(txId, paymentId, RefundTx, refunded, TxCompleted, "Refund processed", Some(reason), now, Some(now));
      transactions := transactions[txId := tx];
      p := p.(status := if refunded == p.amount then Refunded else PartiallyRefunded,
              transactions := p.transactions + [txId]);
      payments := payments[paymentId := p];
      return Ok((p, tx));
    }

    /** The transaction ids of a payment looked up, in order. */
    function View(p: PaymentRec): (v: PaymentView)
      reads this
      ensures v.payment == p && |v.transactions| == |p.transactions|
      ensures forall i :: 0 <= i < |p.transactions| ==>
        v.transactions[i] == if p.transactions[i] in transactions then Some(transactions[p.transactions[i]]) else None
    {
      PaymentView(p, seq(|p.transactions|, i requires 0 <= i < |p.transactions| reads this =>
        if p.transactions[i] in transactions then Some(transactions[p.transactions[i]]) else None))
    }

    method Get(paymentId: string) returns (r: Result<PaymentView>)
      ensures r.Ok? <==> paymentId in payments
      ensures r.Err? ==> r.error == "Payment not found"
      ensures r.Ok? ==> r.value == View(payments[paymentId])
      ensures r.Ok? && Valid() ==> forall t :: t in r.value.transactions ==> t.Some?
    {
      if paymentId !in payments {
        return Err("Payment not found");
      }
      return Ok(View(payments[paymentId]));
    }

    /** `getByOrderId`: the first payment in insertion order for the order. */
    method GetByOrderId(orderId: string) returns (r: Result<(PaymentView, string)>)
      requires Valid()
      ensures r.Err? <==> forall id :: id in payments ==> payments[id].orderId != orderId
      ensures r.Err? ==> r.error == "Payment not found for order"
      ensures r.Ok? ==> exists i :: 0 <= i < |paymentOrder| && paymentOrder[i] == r.value.1
                          && payments[r.value.1].orderId == orderId
                          && forall j :: 0 <= j < i ==> payments[paymentOrder[j]].orderId != orderId
      ensures r.Ok? ==> r.value.0 == View(payments[r.value.1])
    {
      for i := 0 to |paymentOrder|
        invariant forall j :: 0 <= j < i ==> payments[paymentOrder[j]].orderId != orderId
      {
        var id := paymentOrder[i];
        if payments[id].orderId == orderId {
          return Ok((View(payments[id]), id));
        }
      }
      return Err("Payment not found for order");
    }
  }
}
