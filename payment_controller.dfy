/** The VNPay handlers (server/controllers/paymentController.js): creating
    the payment link for a stored order, and the gateway's callback, which
    settles the order according to the response code alone. */
module PaymentController {
  import opened Wrappers
  import opened JsNumbers
  import opened UriEncoding
  import opened PaymentLink
  import opened TransactionModel
  import opened TransactionStore

  /** The characters `/[^a-zA-Z0-9 ]/g` does not match. */
  predicate IsKept(c: char)
  {
    'a' <= c <= 'z' || 'A' <= c <= 'Z' || '0' <= c <= '9' || c == ' '
  }

  predicate AllKept(s: string)
  {
    forall i :: 0 <= i < |s| ==> IsKept(s[i])
  }

  /** Every character other than an ASCII letter, digit or space removed. */
  function Sanitize(s: string): (r: string)
    ensures |r| <= |s|
    ensures AllKept(r)
  {
    if s == [] then []
    else (if IsKept(s[0]) then [s[0]] else []) + Sanitize(s[1..])
  }

  /** Filtering distributes over concatenation, so the characters kept from
      a string appear in the order they had in it. */
  lemma {:induction false} SanitizeConcat(a: string, b: string)
    ensures Sanitize(a + b) == Sanitize(a) + Sanitize(b)
  {
    if a == [] {
      assert a + b == b;
    } else {
      assert (a + b)[0] == a[0] && (a + b)[1..] == a[1..] + b;
      SanitizeConcat(a[1..], b);
    }
  }

  /** A character survives exactly when it is a letter, a digit or a space. */
  lemma {:induction false} SanitizeMembers(s: string, c: char)
    ensures c in Sanitize(s) <==> c in s && IsKept(c)
  {
    if s != [] {
      SanitizeMembers(s[1..], c);
      assert s == [s[0]] + s[1..];
    }
  }

  /** Text made only of letters, digits and spaces is left as it is. */
  lemma {:induction false} SanitizeKept(s: string)
    requires AllKept(s)
    ensures Sanitize(s) == s
  {
    if s != [] {
      SanitizeKept(s[1..]);
    }
  }

  /** Sanitising twice gives the same as sanitising once. */
  lemma SanitizeIdempotent(s: string)
    ensures Sanitize(Sanitize(s)) == Sanitize(s)
  {
    SanitizeKept(Sanitize(s));
  }

  lemma KeptAscii(s: string)
    requires AllKept(s)
    ensures AllAscii(s)
  {
  }

  /** `id.slice(-6)`: the last six characters, or all of a shorter id. */
  function ShortOrderId(id: string): (r: string)
    ensures |r| == if |id| < 6 then |id| else 6
    ensures id == id[..|id| - |r|] + r
  {
    id[if |id| < 6 then 0 else |id| - 6..]
  }

  const DescriptionPrefix: string := "Thanh toan don hang "

  /** The order description sent to the gateway. */
  function Description(id: string): (r: string)
    ensures AllKept(r)
  {
    Sanitize(DescriptionPrefix + ShortOrderId(id))
  }

  lemma PrefixKept()
    ensures AllKept(DescriptionPrefix) && |DescriptionPrefix| == 20
  {
  }

  /** The description is the fixed prefix followed by whatever letters and
      digits the short id has, so it is never empty and the payment link's
      fallback text is never used for it; for a hexadecimal id it is the
      prefix and the short id verbatim. */
  lemma DescriptionShape(id: string)
    ensures Description(id) == DescriptionPrefix + Sanitize(ShortOrderId(id))
    ensures AllKept(ShortOrderId(id)) ==> Description(id) == DescriptionPrefix + ShortOrderId(id)
    ensures forall orderId :: OrderInfoText(Description(id), orderId) == Description(id)
  {
    PrefixKept();
    SanitizeConcat(DescriptionPrefix, ShortOrderId(id));
    SanitizeKept(DescriptionPrefix);
    if AllKept(ShortOrderId(id)) {
      SanitizeKept(ShortOrderId(id));
    }
  }

  /** The client address, or the loopback address when the request has none. */
  function ClientIp(ip: Option<string>): (r: string)
    ensures r != ""
    ensures ip.Some? && ip.value != "" ==> r == ip.value
    ensures !(ip.Some? && ip.value != "") ==> r == "127.0.0.1"
  {
    if ip.Some? && ip.value != "" then ip.value else "127.0.0.1"
  }

  /** The reply of `createVNPayment`. */
  datatype LinkReply = LinkReply(status: int, success: bool, paymentUrl: Option<string>)

  /** The conditions under which the payment link is modelled: the settings,
      the caller's address and the clock readings are ASCII and valid. */
  predicate LinkInputs(ip: Option<string>, env: Env, orderTime: DateTime, createTime: DateTime)
  {
    && (ip.Some? ==> AllAscii(ip.value))
    && AllAscii(env.tmnCode) && AllAscii(env.returnUrl)
    && ValidDateTime(orderTime) && ValidDateTime(createTime)
  }

  /** The sanitised description and the client address are ASCII. */
  lemma LinkInputsValid(id: string, ip: Option<string>, env: Env, orderTime: DateTime, createTime: DateTime)
    requires LinkInputs(ip, env, orderTime, createTime)
    ensures ValidInputs(Description(id), ClientIp(ip), env, orderTime, createTime)
  {
    KeptAscii(Description(id));
  }

  /** `createVNPayment`: an unknown order gets 404 and no link; a known one
      gets 200 and the link for its total, its sanitised description and the
      caller's address. */
  method CreateVNPayment(store: Store, transactionId: string, ip: Option<string>, env: Env,
                         orderTime: DateTime, createTime: DateTime, hmac: Hmac)
    returns (reply: LinkReply)
    requires store.Valid() && LinkInputs(ip, env, orderTime, createTime)
    ensures transactionId !in store.records <==> reply.status == 404
    ensures transactionId !in store.records ==> !reply.success && reply.paymentUrl.None?
    ensures transactionId in store.records ==>
      && ValidInputs(Description(transactionId), ClientIp(ip), env, orderTime, createTime)
      && reply == LinkReply(200, true, Some(PaymentUrl(store.records[transactionId].totalAmount,
                                                       Description(transactionId), ClientIp(ip),
                                                       env, orderTime, createTime, hmac)))
  {
    var found := store.FindById(transactionId);
    if found.None? {
      return LinkReply(404, false, None);
    }
    var transaction := found.value;
    assert transaction.id == transactionId;
    var description := Description(transaction.id);
    var ipAddr := ClientIp(ip);
    LinkInputsValid(transaction.id, ip, env, orderTime, createTime);
    assert transaction.totalAmount == store.records[transactionId].totalAmount;
    var url := CreatePaymentLinkAD(transaction.totalAmount, description, ipAddr, transaction.id,
                                   env, orderTime, createTime, hmac);
    reply := LinkReply(200, true, Some(url));
  }

  /** The echoed amount read with `parseInt` and divided by 100; `None` is `NaN` (a missing or
      non-numeric amount). */
  function PaidAmount(amount: Option<string>): (r: Option<real>)
    ensures r.Some? <==> amount.Some? && ParseInt(amount.value).Some?
    ensures r.Some? ==> r.value * 100.0 == ParseInt(amount.value).value as real
  {
    if amount.None? then None else Hundredth(ParseInt(amount.value))
  }

  /** A parsed integer over 100; `None` (NaN) stays `None`. */
  function Hundredth(p: Option<int>): (r: Option<real>)
    ensures r.Some? <==> p.Some?
    ensures r.Some? ==> r.value * 100.0 == p.value as real
  {
    match p
    case None => None
    case Some(n) => Some(n as real / 100.0)
  }

  /** The update document a callback issues. Code `00` asks for `completed`,
      `paid` and the echoed amount over 100 (`None` there is `NaN`); any other
      code asks for `cancelled` and `failed` and leaves the amount out. */
  function CallbackUpdate(code: Option<string>, amount: Option<string>): (r: Update)
    ensures r.status == Some(if code == Some("00") then "completed" else "cancelled")
    ensures r.paymentStatus == Some(if code == Some("00") then "paid" else "failed")
    ensures code == Some("00") ==> r.paidAmount == PaidAmount(amount)
    ensures code != Some("00") ==> r.paidAmount.None?
  {
    if code == Some("00") then Update(Some("completed"), Some("paid"), PaidAmount(amount))
    else Update(Some("cancelled"), Some("failed"), None)
  }

  /** The reply of `verifyVNPayment`. */
  datatype VerifyReply = VerifyReply(status: int, success: bool)

  /** As written, the reply depends on the response code alone: not on the
      echoed amount, and not on whether or in what state the order exists. */
  function CallbackReply(code: Option<string>): (r: VerifyReply)
    ensures r.success <==> r.status == 200
    ensures r.status == 200 <==> code == Some("00")
    ensures r.status == 400 <==> code != Some("00")
  {
    if code == Some("00") then VerifyReply(200, true) else VerifyReply(400, false)
  }

  /** What a callback does to one stored order under the schema as written. */
  function Settle(t: Transaction, code: Option<string>, amount: Option<string>, now: int): Transaction
  {
    ApplyUpdateStrict(t, CallbackUpdate(code, amount), now)
  }

  /** `verifyVNPayment`: the order, if it exists, is settled; the reply is the
      same whether or not it exists, and whatever its current status. The
      update is issued even when the amount is `NaN`, since strict mode
      strips that path before it is cast. */
  method VerifyVNPayment(store: Store, transactionId: string, code: Option<string>, amount: Option<string>, now: int)
    returns (reply: VerifyReply)
    requires store.Valid()
    modifies store
    ensures store.Valid() && store.order == old(store.order)
    ensures reply == CallbackReply(code)
    ensures transactionId in old(store.records) ==>
      store.records == old(store.records)[transactionId := Settle(old(store.records)[transactionId], code, amount, now)]
    ensures transactionId !in old(store.records) ==> store.records == old(store.records)
  {
    if code == Some("00") {
      var _ := store.FindByIdAndUpdate(transactionId, Update(Some("completed"), Some("paid"), PaidAmount(amount)), now);
      reply := VerifyReply(200, true);
    } else {
      var _ := store.FindByIdAndUpdate(transactionId, Update(Some("cancelled"), Some("failed"), None), now);
      reply := VerifyReply(400, false);
    }
  }

  /** As written, a successful code completes the order and any other code
      cancels it; the payment status and the paid amount are never written,
      so an order without them stays without them. No rule on the current
      status applies: a completed order can be cancelled, a cancelled one
      completed. */
  lemma SettleOutcome(t: Transaction, code: Option<string>, amount: Option<string>, now: int)
    ensures var r := Settle(t, code, amount, now);
      && r.status == (if code == Some("00") then "completed" else "cancelled")
      && r.paymentStatus == t.paymentStatus && r.paidAmount == t.paidAmount
      && r.updatedAt == now
      && r.(status := t.status, updatedAt := t.updatedAt) == t
  {
  }

  /** As written, the echoed amount never reaches the store. */
  lemma AmountIgnored(t: Transaction, code: Option<string>, a1: Option<string>, a2: Option<string>, now: int)
    ensures Settle(t, code, a1, now) == Settle(t, code, a2, now)
  {
    SettleOutcome(t, code, a1, now);
    SettleOutcome(t, code, a2, now);
  }

  /** As written, a later callback erases every trace of an earlier one. */
  lemma LaterCallbackWins(t: Transaction, c1: Option<string>, a1: Option<string>, n1: int,
                          c2: Option<string>, a2: Option<string>, n2: int)
    ensures Settle(Settle(t, c1, a1, n1), c2, a2, n2) == Settle(t, c2, a2, n2)
  {
    SettleOutcome(t, c1, a1, n1);
    SettleOutcome(Settle(t, c1, a1, n1), c2, a2, n2);
    SettleOutcome(t, c2, a2, n2);
  }

  /** The update under a schema that declares `paymentStatus` and
      `paidAmount`: a `NaN` amount then fails to cast (`None`) and nothing is
      written. */
  function DeclaredUpdate(code: Option<string>, amount: Option<string>): (r: Option<Update>)
    ensures r.None? <==> code == Some("00") && PaidAmount(amount).None?
    ensures r.Some? ==> r.value == CallbackUpdate(code, amount)
  {
    if code == Some("00") && PaidAmount(amount).None? then None else Some(CallbackUpdate(code, amount))
  }

  /** The reply with the paths declared: a cast failure answers 500. */
  function DeclaredReply(code: Option<string>, amount: Option<string>): (r: VerifyReply)
    ensures r.success <==> r.status == 200
    ensures r.status == 200 <==> code == Some("00") && PaidAmount(amount).Some?
    ensures r.status == 400 <==> code != Some("00")
    ensures r.status == 500 <==> DeclaredUpdate(code, amount).None?
  {
    match DeclaredUpdate(code, amount)
    case None => VerifyReply(500, false)
    case Some(_) => CallbackReply(code)
  }

  /** What a callback does to one stored order with the paths declared. */
  function SettleDeclared(t: Transaction, code: Option<string>, amount: Option<string>, now: int): Transaction
  {
    match DeclaredUpdate(code, amount)
    case None => t
    case Some(u) => ApplyUpdate(t, u, now)
  }

  /** `verifyVNPayment` against a schema that declares the payment paths. */
  method VerifyVNPaymentDeclared(store: Store, transactionId: string, code: Option<string>,
                                 amount: Option<string>, now: int)
    returns (reply: VerifyReply)
    requires store.Valid()
    modifies store
    ensures store.Valid() && store.order == old(store.order)
    ensures reply == DeclaredReply(code, amount)
    ensures transactionId in old(store.records) ==>
      store.records == old(store.records)[transactionId := SettleDeclared(old(store.records)[transactionId], code, amount, now)]
    ensures transactionId !in old(store.records) ==> store.records == old(store.records)
  {
    if code == Some("00") {
      var paid := PaidAmount(amount);
      if paid.None? {
        return VerifyReply(500, false);
      }
      var _ := store.FindByIdAndUpdateDeclared(transactionId, Update(Some("completed"), Some("paid"), paid), now);
      reply := VerifyReply(200, true);
    } else {
      var _ := store.FindByIdAndUpdateDeclared(transactionId, Update(Some("cancelled"), Some("failed"), None), now);
      reply := VerifyReply(400, false);
    }
  }

  /** With the paths declared, a successful code completes the order and
      records the payment; any other code cancels it and leaves an earlier
      recorded amount alone. */
  lemma SettleDeclaredOutcome(t: Transaction, code: Option<string>, amount: Option<string>, now: int)
    ensures code == Some("00") && PaidAmount(amount).Some? ==>
      var r := SettleDeclared(t, code, amount, now);
      r.status == "completed" && r.paymentStatus == Some("paid") && r.paidAmount == PaidAmount(amount)
    ensures code != Some("00") ==>
      var r := SettleDeclared(t, code, amount, now);
      r.status == "cancelled" && r.paymentStatus == Some("failed") && r.paidAmount == t.paidAmount
    ensures SettleDeclared(t, code, amount, now).(status := t.status, paymentStatus := t.paymentStatus,
                                                  paidAmount := t.paidAmount, updatedAt := t.updatedAt) == t
  {
  }

  /** With the paths declared, a later callback that is written overrides
      the status and payment status of an earlier one; the amount is the
      second's if it succeeded, and otherwise whatever the first left. */
  lemma LaterDeclaredCallbackWins(t: Transaction, c1: Option<string>, a1: Option<string>, n1: int,
                                  c2: Option<string>, a2: Option<string>, n2: int)
    requires DeclaredUpdate(c2, a2).Some?
    ensures var twice := SettleDeclared(SettleDeclared(t, c1, a1, n1), c2, a2, n2);
      var once := SettleDeclared(t, c2, a2, n2);
      && twice.status == once.status && twice.paymentStatus == once.paymentStatus
      && twice.updatedAt == n2
      && (c2 == Some("00") ==> twice.paidAmount == once.paidAmount)
      && (c2 != Some("00") ==> twice.paidAmount == SettleDeclared(t, c1, a1, n1).paidAmount)
  {
    SettleDeclaredOutcome(t, c1, a1, n1);
    SettleDeclaredOutcome(SettleDeclared(t, c1, a1, n1), c2, a2, n2);
    SettleDeclaredOutcome(t, c2, a2, n2);
  }

  /** Where the declared update goes through, the two schemas give the same
      reply and the same order except for the payment status and the paid
      amount, which only the declared schema records. */
  lemma SchemasAgreeOnStatus(t: Transaction, code: Option<string>, amount: Option<string>, now: int)
    requires DeclaredUpdate(code, amount).Some?
    ensures DeclaredReply(code, amount) == CallbackReply(code)
    ensures SettleDeclared(t, code, amount, now).(paymentStatus := t.paymentStatus, paidAmount := t.paidAmount)
            == Settle(t, code, amount, now)
  {
    SettleOutcome(t, code, amount, now);
    SettleDeclaredOutcome(t, code, amount, now);
  }

  /** When the gateway echoes the amount the link sent, the recorded
      `paidAmount` is the scaled amount divided by 100: for an amount with at
      most five decimals, 1000 times the order total. */
  lemma EchoedAmountPaid(amount: real)
    requires (amount * 100000.0).Floor as real == amount * 100000.0
    ensures PaidAmount(Some(DecimalString(ScaledAmount(amount)))) == Some(amount * 1000.0)
  {
    var n := ScaledAmount(amount);
    EchoedParsed(n);
    WholeScaled(amount);
  }

  lemma WholeScaled(amount: real)
    ensures (amount * 100000.0).Floor as real == amount * 100000.0 ==>
      ScaledAmount(amount) as real / 100.0 == amount * 1000.0
  {
    if (amount * 100000.0).Floor as real == amount * 100000.0 {
      WholeTrunc(amount * 100000.0);
      Thousandfold(amount, ScaledAmount(amount));
    }
  }

  /** The recorded amount of an echoed `vnp_Amount` is that amount over 100. */
  lemma EchoedParsed(n: int)
    ensures PaidAmount(Some(DecimalString(n))) == Some(n as real / 100.0)
  {
    ParseDecimal(n);
    PaidOfParsed(DecimalString(n), n);
  }

  lemma PaidOfParsed(a: string, n: int)
    requires ParseInt(a) == Some(n)
    ensures PaidAmount(Some(a)) == Some(n as real / 100.0)
  {
    assert PaidAmount(Some(a)) == Hundredth(Some(n));
  }

  lemma Thousandfold(amount: real, n: int)
    requires n as real == amount * 100000.0
    ensures n as real / 100.0 == amount * 1000.0
  {
  }

  lemma WholeTrunc(x: real)
    requires x.Floor as real == x
    ensures Trunc(x) as real == x
  {
    if x < 0.0 {
      assert (-x).Floor == -(x.Floor);
    }
  }
}
