/**
 * Sequences of service calls against one store. A voucher's state only moves
 * from unused to used, stored codes are never removed and their discounts
 * never change, and every code gives its discount at most once.
 */
module VoucherHistory {
  import opened VoucherTypes
  import opened VoucherRules

  /** One call to the service. */
  datatype Request =
    | CreateRequest(code: string, discount: real)
    | ApplyRequest(code: string, amount: real)

  /** What a call resolved with, or the error it rejected with. */
  datatype Reply = Created | Quoted(order: Order) | Rejected(error: AppError)

  /** A reply together with the store the call leaves behind. */
  datatype Served = Served(reply: Reply, store: Store)

  /** The replies to a sequence of calls and the store after the last one. */
  datatype History = History(replies: seq<Reply>, store: Store)

  /** One call, answered as `createVoucher` or `applyVoucher` answers it. */
  function Serve(store: Store, request: Request): (s: Served)
    ensures store.Keys <= s.store.Keys
    ensures forall k :: k in store ==> s.store[k].discount == store[k].discount
    ensures forall k :: k in store && store[k].used ==> s.store[k].used
    ensures s.reply.Rejected? ==> s.store == store && s.reply.error.errorType == ConflictType
  {
    match request
    case CreateRequest(code, discount) =>
      var step := Create(store, code, discount);
      Served(if step.response.Ok? then Created else Rejected(step.response.error), step.store)
    case ApplyRequest(code, amount) =>
      var step := Apply(store, code, amount);
      Served(if step.response.Ok? then Quoted(step.response.value) else Rejected(step.response.error), step.store)
  }

  /** The calls served one after the other, each on the store the previous one left. */
  function Run(store: Store, requests: seq<Request>): (h: History)
    ensures |h.replies| == |requests|
    ensures store.Keys <= h.store.Keys
    ensures forall k :: k in store ==> h.store[k].discount == store[k].discount
    ensures forall k :: k in store && store[k].used ==> h.store[k].used
    decreases |requests|
  {
    if requests == [] then History([], store)
    else
      var first := Serve(store, requests[0]);
      var rest := Run(first.store, requests[1..]);
      History([first.reply] + rest.replies, rest.store)
  }

  /** The call applied voucher `code` and its discount was taken off. */
  predicate Redeems(request: Request, reply: Reply, code: string)
  {
    request.ApplyRequest? && request.code == code && reply.Quoted? && reply.order.applied
  }

  /** How many of the calls redeemed voucher `code`. */
  function Redemptions(requests: seq<Request>, replies: seq<Reply>, code: string): nat
    requires |requests| == |replies|
    decreases |requests|
  {
    if requests == [] then 0
    else (if Redeems(requests[0], replies[0], code) then 1 else 0)
         + Redemptions(requests[1..], replies[1..], code)
  }

  /**
   * Single use: over any sequence of calls a voucher gives its discount at
   * most once, and never when it was already used at the start.
   */
  lemma {:induction false} AtMostOneRedemption(store: Store, requests: seq<Request>, code: string)
    ensures Redemptions(requests, Run(store, requests).replies, code)
            <= if code in store && store[code].used then 0 else 1
    decreases |requests|
  {
    if requests != [] {
      var first := Serve(store, requests[0]);
      var rest := Run(first.store, requests[1..]);
      AtMostOneRedemption(first.store, requests[1..], code);
      assert Run(store, requests).replies[1..] == rest.replies;
      if Redeems(requests[0], first.reply, code) {
        assert code in first.store && first.store[code].used;
      }
    }
  }

  /** The `i`-th reply is what the `i`-th call answers on the store the calls before it left. */
  lemma {:induction false} ReplyAt(store: Store, requests: seq<Request>, i: nat)
    requires i < |requests|
    ensures Run(store, requests).replies[i] == Serve(Run(store, requests[..i]).store, requests[i]).reply
    decreases i
  {
    var head := Serve(store, requests[0]);
    if i == 0 {
      assert requests[..0] == [];
    } else {
      ReplyAt(head.store, requests[1..], i - 1);
      assert requests[..i][0] == requests[0];
      assert requests[..i][1..] == requests[1..][..i - 1];
    }
  }

  /** Serving `first + second` leaves what serving `second` leaves on the store `first` left. */
  lemma {:induction false} RunAppendStore(store: Store, first: seq<Request>, second: seq<Request>)
    ensures Run(store, first + second).store == Run(Run(store, first).store, second).store
    decreases |first|
  {
    if first == [] {
      assert first + second == second;
    } else {
      var whole := first + second;
      assert whole[0] == first[0] && whole[1..] == first[1..] + second;
      RunAppendStore(Serve(store, first[0]).store, first[1..], second);
    }
  }

  /**
   * A redemption happens only for an amount above the minimum and a voucher
   * that was stored and unused just before the call; it takes exactly that
   * voucher's percentage off (the percentage it was created with, when it was
   * stored from the start) and leaves the voucher used.
   */
  lemma {:induction false} RedemptionsAreDiscounted(store: Store, requests: seq<Request>, i: nat)
    requires i < |requests|
    requires requests[i].ApplyRequest?
    requires Run(store, requests).replies[i].Quoted?
    requires Run(store, requests).replies[i].order.applied
    ensures var o := Run(store, requests).replies[i].order;
            var before := Run(store, requests[..i]).store;
            var after := Run(store, requests[..i + 1]).store;
            var code := requests[i].code;
            && o.amount == requests[i].amount > MinimumAmount
            && code in before && !before[code].used
            && o.discount == before[code].discount
            && (code in store ==> o.discount == store[code].discount)
            && o.finalAmount == o.amount * (100.0 - o.discount) / 100.0
            && code in after && after[code] == Voucher(o.discount, true)
  {
    var prefix := Run(store, requests[..i]);
    var served := Serve(prefix.store, requests[i]);
    ReplyAt(store, requests, i);
    RunAppendStore(store, requests[..i], [requests[i]]);
    assert requests[..i] + [requests[i]] == requests[..i + 1];
    assert Run(store, requests[..i + 1]).store == served.store;
  }
}
