/** HTTP 402 settlements: a wallet top-up that an operator approves first.  Amounts are integers in the
    smallest unit. */
module Settlement {
  import opened Common

  datatype Status = Pending | Approved | Denied | Executed | Failed

  datatype Request = Request(id: string, required: int, balance: int, sufficient: bool, topup: int, status: Status,
                             note: string, resolvedAt: real, hasOriginal: bool)

  /** What the gateway made of a top-up: it reported success or failure, or raised. */
  datatype Outcome = Paid | NotPaid | Raised

  /** What leaves the service: a top-up, or the retry of the call that had asked for payment. */
  datatype Effect = TopUp(id: string, amount: int) | Retry(id: string)

  datatype Book = Book(requests: map<string, Request>, effects: seq<Effect>)

  function NewRequest(id: string, required: int, balance: int, hasOriginal: bool): Request {
    var sufficient := balance >= required;
    Request(id, required, balance, sufficient, if sufficient then 0 else Max(0, required - balance),
            Pending, "", 0.0, hasOriginal)
  }

  /** The amount of the top-up: the recorded shortfall, or the whole price when none was recorded. */
  function ChargeOf(r: Request): int { if r.topup != 0 then r.topup else r.required }

  datatype Call =
    | Create(id: string, required: int, balance: int, hasOriginal: bool)
    | Approve(id: string, note: string, now: real)
    | Deny(id: string, note: string, now: real)
    | Execute(id: string, outcome: Outcome)

  function Step(b: Book, c: Call): Book {
    match c
    case Create(id, required, balance, hasOriginal) =>
      b.(requests := b.requests[id := NewRequest(id, required, balance, hasOriginal)])
    case Approve(id, note, now) =>
      if id !in b.requests || b.requests[id].status != Pending then b
      else b.(requests := b.requests[id := b.requests[id].(status := Approved, note := note, resolvedAt := now)])
    case Deny(id, note, now) =>
      if id !in b.requests || b.requests[id].status != Pending then b
      else b.(requests := b.requests[id := b.requests[id].(status := Denied, note := note, resolvedAt := now)])
    case Execute(id, outcome) =>
      if id !in b.requests || b.requests[id].status != Approved then b
      else
        var r := b.requests[id];
        Book(b.requests[id := r.(status := if outcome == Paid then Executed else Failed)],
             b.effects + [TopUp(id, ChargeOf(r))] + (if outcome == Paid && r.hasOriginal then [Retry(id)] else []))
  }

  /** Settlement ids are fresh. */
  ghost predicate IsRun(cs: seq<Call>) {
    cs != [] ==>
      var front, c := cs[..|cs| - 1], cs[|cs| - 1];
      IsRun(front) && (c.Create? ==> c.id !in Run(front).requests)
  }

  function Run(cs: seq<Call>): Book {
    if cs == [] then Book(map[], []) else Step(Run(cs[..|cs| - 1]), cs[|cs| - 1])
  }

  // ---------------------------------------------------------------- what every run keeps

  ghost predicate Charged(b: Book, id: string) {
    exists k :: 0 <= k < |b.effects| && b.effects[k].TopUp? && b.effects[k].id == id
  }

  ghost predicate OperatorApproved(cs: seq<Call>, id: string) {
    exists k :: 0 <= k < |cs| && cs[k].Approve? && cs[k].id == id
  }

  ghost predicate Amounts(r: Request) {
    r.sufficient == (r.balance >= r.required) && r.topup == if r.sufficient then 0 else r.required - r.balance
  }

  /** The state of one settlement against the calls and effects so far. */
  ghost predicate Accounted(cs: seq<Call>, b: Book, id: string) {
    var r := if id in b.requests then Some(b.requests[id]) else None;
    && (r.Some? ==> r.value.id == id && Amounts(r.value))
    && (Charged(b, id) <==> r.Some? && r.value.status in {Executed, Failed})
    && (r.Some? && r.value.status in {Approved, Executed, Failed} ==> OperatorApproved(cs, id))
  }

  /** Two top-ups in the list are for different settlements and for the amounts owed; a retry follows the top-up of
      its own settlement. */
  ghost predicate EffectsInv(b: Book) {
    && (forall k :: 0 <= k < |b.effects| ==> b.effects[k].id in b.requests)
    && (forall j, k :: 0 <= j < k < |b.effects| && b.effects[j].TopUp? && b.effects[k].TopUp? ==>
          b.effects[j].id != b.effects[k].id)
    && (forall k :: 0 <= k < |b.effects| && b.effects[k].TopUp? ==>
          b.effects[k].amount == ChargeOf(b.requests[b.effects[k].id]))
    && (forall k :: 0 <= k < |b.effects| && b.effects[k].Retry? ==>
          k > 0 && b.effects[k - 1].TopUp? && b.effects[k - 1].id == b.effects[k].id
          && b.requests[b.effects[k].id].status == Executed)
  }

  lemma ApprovedExtends(cs: seq<Call>, c: Call, id: string)
    requires OperatorApproved(cs, id) || (c.Approve? && c.id == id)
    ensures OperatorApproved(cs + [c], id)
  {
    if OperatorApproved(cs, id) {
      var k :| 0 <= k < |cs| && cs[k].Approve? && cs[k].id == id;
      assert (cs + [c])[k].Approve? && (cs + [c])[k].id == id;
    } else {
      assert (cs + [c])[|cs|].Approve? && (cs + [c])[|cs|].id == id;
    }
  }

  lemma ChargedExtends(b: Book, b': Book, more: seq<Effect>, id: string)
    requires b'.effects == b.effects + more
    ensures Charged(b', id) <==> Charged(b, id) || exists k :: 0 <= k < |more| && more[k].TopUp? && more[k].id == id
  {
    if Charged(b, id) {
      var k :| 0 <= k < |b.effects| && b.effects[k].TopUp? && b.effects[k].id == id;
      assert b'.effects[k] == b.effects[k];
    }
    if k :| 0 <= k < |more| && more[k].TopUp? && more[k].id == id {
      assert b'.effects[|b.effects| + k] == more[k];
    }
    if Charged(b', id) {
      var k :| 0 <= k < |b'.effects| && b'.effects[k].TopUp? && b'.effects[k].id == id;
      assert b'.effects[k] == if k < |b.effects| then b.effects[k] else more[k - |b.effects|];
    }
  }

  function NewEffects(b: Book, c: Call): seq<Effect> {
    if !c.Execute? || c.id !in b.requests || b.requests[c.id].status != Approved then []
    else [TopUp(c.id, ChargeOf(b.requests[c.id]))]
         + (if c.outcome == Paid && b.requests[c.id].hasOriginal then [Retry(c.id)] else [])
  }

  lemma StepAccounts(cs: seq<Call>, b: Book, c: Call, id: string)
    requires Accounted(cs, b, id) && (c.Create? ==> c.id !in b.requests)
    ensures Accounted(cs + [c], Step(b, c), id)
  {
    var b' := Step(b, c);
    assert b'.effects == b.effects + NewEffects(b, c);
    ChargedExtends(b, b', NewEffects(b, c), id);
    if OperatorApproved(cs, id) || (c.Approve? && c.id == id) { ApprovedExtends(cs, c, id); }
    if c.Execute? && c.id == id && NewEffects(b, c) != [] {
      assert NewEffects(b, c)[0] == TopUp(id, ChargeOf(b.requests[id]));
    }
  }

  /** An approved settlement has had no effect yet. */
  lemma NoEffectYet(cs: seq<Call>, b: Book, id: string)
    requires EffectsInv(b) && Accounted(cs, b, id) && id in b.requests && b.requests[id].status == Approved
    ensures forall k :: 0 <= k < |b.effects| ==> b.effects[k].id != id
  {
    assert !Charged(b, id);
    forall k | 0 <= k < |b.effects|
      ensures b.effects[k].id != id
    {
      if b.effects[k].Retry? { assert b.effects[k - 1].TopUp?; }
    }
  }

  /** Adding a call's effects, when its settlement had none, keeps the list of effects in order. */
  lemma EffectsExtend(b: Book, r: Request, outcome: Outcome)
    requires EffectsInv(b) && r.id in b.requests && b.requests[r.id] == r && r.status == Approved
    requires forall k :: 0 <= k < |b.effects| ==> b.effects[k].id != r.id
    ensures EffectsInv(Step(b, Execute(r.id, outcome)))
  {
    var r' := r.(status := if outcome == Paid then Executed else Failed);
    var charged := Book(b.requests[r.id := r'], b.effects + [TopUp(r.id, ChargeOf(r))]);
    OneTopUp(b, r, r');
    if outcome == Paid && r.hasOriginal {
      OneRetry(charged, r.id);
      assert Step(b, Execute(r.id, outcome)) == Book(charged.requests, charged.effects + [Retry(r.id)]);
    } else {
      assert Step(b, Execute(r.id, outcome)) == charged;
    }
    hide EffectsInv;
  }

  lemma OneTopUp(b: Book, r: Request, r': Request)
    requires EffectsInv(b) && r.id in b.requests && b.requests[r.id] == r && r' == r.(status := r'.status)
    requires forall k :: 0 <= k < |b.effects| ==> b.effects[k].id != r.id
    ensures EffectsInv(Book(b.requests[r.id := r'], b.effects + [TopUp(r.id, ChargeOf(r))]))
  {
    var b' := Book(b.requests[r.id := r'], b.effects + [TopUp(r.id, ChargeOf(r))]);
    assert forall k :: 0 <= k < |b.effects| ==>
             b'.effects[k] == b.effects[k] && b'.requests[b.effects[k].id] == b.requests[b.effects[k].id];
  }

  lemma OneRetry(b: Book, id: string)
    requires EffectsInv(b) && id in b.requests && b.requests[id].status == Executed
    requires b.effects != [] && b.effects[|b.effects| - 1].TopUp? && b.effects[|b.effects| - 1].id == id
    ensures EffectsInv(Book(b.requests, b.effects + [Retry(id)]))
  {
    var b' := Book(b.requests, b.effects + [Retry(id)]);
    assert forall k :: 0 <= k < |b.effects| ==> b'.effects[k] == b.effects[k];
  }

  lemma StepKeepsEffects(cs: seq<Call>, b: Book, c: Call)
    requires EffectsInv(b) && Accounted(cs, b, c.id) && (c.Create? ==> c.id !in b.requests)
    ensures EffectsInv(Step(b, c))
  {
    if c.Execute? && c.id in b.requests && b.requests[c.id].status == Approved {
      NoEffectYet(cs, b, c.id);
      EffectsExtend(b, b.requests[c.id], c.outcome);
    } else {
      assert forall k :: 0 <= k < |b.effects| ==> b.effects[k].id in b.requests;
    }
  }

  lemma {:induction false} RunInv(cs: seq<Call>)
    requires IsRun(cs)
    ensures EffectsInv(Run(cs)) && forall id :: Accounted(cs, Run(cs), id)
  {
    if cs != [] {
      var front, c := cs[..|cs| - 1], cs[|cs| - 1];
      RunInv(front);
      assert cs == front + [c];
      StepKeepsEffects(front, Run(front), c);
      forall id
        ensures Accounted(cs, Run(cs), id)
      {
        StepAccounts(front, Run(front), c, id);
      }
    }
  }

  // ---------------------------------------------------------------- what was asked for, and what is retried

  ghost predicate CreatedAs(cs: seq<Call>, r: Request) {
    exists k :: 0 <= k < |cs| && cs[k] == Create(r.id, r.required, r.balance, r.hasOriginal)
  }

  /** The price, the balance and the call to retry of every settlement are those it was created with. */
  lemma {:induction false} RequestsAreAsCreated(cs: seq<Call>)
    requires IsRun(cs)
    ensures forall id :: id in Run(cs).requests ==> Run(cs).requests[id].id == id && CreatedAs(cs, Run(cs).requests[id])
  {
    if cs != [] {
      var front, c := cs[..|cs| - 1], cs[|cs| - 1];
      RequestsAreAsCreated(front);
      forall id | id in Run(cs).requests
        ensures Run(cs).requests[id].id == id && CreatedAs(cs, Run(cs).requests[id])
      {
        if id in Run(front).requests {
          var r := Run(front).requests[id];
          var k :| 0 <= k < |front| && front[k] == Create(r.id, r.required, r.balance, r.hasOriginal);
          assert cs[k] == Create(id, r.required, r.balance, r.hasOriginal);
        } else {
          assert cs[|cs| - 1] == c;
        }
      }
    }
  }

  ghost predicate Retried(b: Book, id: string) { Effect.Retry(id) in b.effects }

  /** The call that had asked for payment is made again exactly when there was one and the top-up was paid. */
  lemma {:induction false} RetriedExactlyWhenPaid(cs: seq<Call>, id: string)
    requires IsRun(cs)
    ensures Retried(Run(cs), id)
            <==> && id in Run(cs).requests && Run(cs).requests[id].status == Executed
                 && Run(cs).requests[id].hasOriginal
  {
    if cs != [] {
      var front, c := cs[..|cs| - 1], cs[|cs| - 1];
      RetriedExactlyWhenPaid(front, id);
      StepRetries(Run(front), c, id);
    }
  }

  lemma StepRetries(b: Book, c: Call, id: string)
    requires c.Create? ==> c.id !in b.requests
    requires Retried(b, id)
             <==> id in b.requests && b.requests[id].status == Executed && b.requests[id].hasOriginal
    ensures Retried(Step(b, c), id)
            <==> && id in Step(b, c).requests && Step(b, c).requests[id].status == Executed
                 && Step(b, c).requests[id].hasOriginal
  {
    assert Step(b, c).effects == b.effects + NewEffects(b, c);
    assert Retried(Step(b, c), id) <==> Retried(b, id) || Effect.Retry(id) in NewEffects(b, c);
  }

  ghost predicate Chargeable(b: Book, id: string) { id in b.requests && b.requests[id].status == Approved }

  ghost predicate Final(s: Status) { s in {Denied, Executed, Failed} }

  /** A settlement once executed, failed or denied never changes again, and a settlement that changes goes from
      pending to approved or denied by the operator, or from approved to executed or failed by one execution. */
  lemma FinalIsFinal(b: Book, c: Call, id: string)
    requires id in b.requests && (c.Create? ==> c.id !in b.requests)
    ensures id in Step(b, c).requests
    ensures Final(b.requests[id].status) ==>
              Step(b, c).requests[id] == b.requests[id] && (c.id == id ==> NewEffects(b, c) == [])
    ensures Step(b, c).requests[id].status != b.requests[id].status ==>
              c.id == id &&
              match c
              case Approve(_, _, _) => b.requests[id].status == Pending && Step(b, c).requests[id].status == Approved
              case Deny(_, _, _) => b.requests[id].status == Pending && Step(b, c).requests[id].status == Denied
              case Execute(_, outcome) => b.requests[id].status == Approved
                                          && Step(b, c).requests[id].status
                                          == (if outcome == Paid then Executed else Failed)
              case Create(_, _, _, _) => false
  {
  }

  /** Over every run: a top-up goes out only for a settlement the operator approved, at most once, and with a
      non-negative recorded balance it covers the price - exactly, when the balance was short. */
  lemma ChargedOnceAndEnough(cs: seq<Call>, k: nat)
    requires IsRun(cs) && k < |Run(cs).effects| && Run(cs).effects[k].TopUp?
    ensures var e := Run(cs).effects[k];
            && OperatorApproved(cs, e.id) && e.id in Run(cs).requests
            && (forall j :: 0 <= j < |Run(cs).effects| && j != k && Run(cs).effects[j].TopUp? ==>
                  Run(cs).effects[j].id != e.id)
            && var r := Run(cs).requests[e.id];
               && r.status in {Executed, Failed}
               && (r.balance >= 0 ==> r.balance + e.amount >= r.required)
               && (r.balance < r.required ==> r.balance + e.amount == r.required)
               && (r.balance >= r.required ==> e.amount == r.required)
               && CreatedAs(cs, r)
  {
    RunInv(cs);
    RequestsAreAsCreated(cs);
    var b, e := Run(cs), Run(cs).effects[k];
    assert Accounted(cs, b, e.id) && Charged(b, e.id);
  }

  // ---------------------------------------------------------------- the service

  class SettlementRequest {
    const id: string
    const required: int
    const balance: int
    const sufficient: bool
    const topup: int
    const hasOriginal: bool
    var status: Status
    var note: string
    var resolvedAt: real

    constructor (id: string, required: int, balance: int, sufficient: bool, topup: int, hasOriginal: bool)
      ensures Snapshot() == Request(id, required, balance, sufficient, topup, Pending, "", 0.0, hasOriginal)
    {
      this.id, this.required, this.balance, this.sufficient := id, required, balance, sufficient;
      this.topup, this.hasOriginal, status, note, resolvedAt := topup, hasOriginal, Pending, "", 0.0;
    }

    function Snapshot(): Request
      reads this
    {
      Request(id, required, balance, sufficient, topup, status, note, resolvedAt, hasOriginal)
    }
  }

  /** The wallet side of the gateway: it answers as it likes and remembers what it was asked. */
  class WalletGateway {
    ghost var effects: seq<Effect>
    ghost var answers: seq<Outcome>

    constructor ()
      ensures effects == [] && answers == []
    {
      effects, answers := [], [];
    }

    method RequestTopUp(ghost id: string, amount: int) returns (o: Outcome)
      modifies this
      ensures effects == old(effects) + [TopUp(id, amount)] && answers == old(answers) + [o]
    {
      o := *;
      effects, answers := effects + [TopUp(id, amount)], answers + [o];
    }

    method RetryOriginal(ghost id: string)
      modifies this
      ensures effects == old(effects) + [Retry(id)] && answers == old(answers)
    {
      effects := effects + [Retry(id)];
    }
  }

  class PaymentSettlementService {
    const gateway: WalletGateway?
    var requests: map<string, SettlementRequest>
    ghost var repr: set<SettlementRequest>
    ghost var trace: seq<Call>

    ghost predicate Valid()
      reads this, repr, gateway
    {
      IsRun(trace) && Tied(Run(trace))
    }

    ghost predicate Tied(b: Book)
      reads `requests, `repr, repr, gateway
    {
      && requests.Keys == b.requests.Keys
      && (forall id :: id in requests ==>
            requests[id] in repr && requests[id].id == id && requests[id].Snapshot() == b.requests[id])
      && (gateway != null ==> gateway.effects == b.effects)
    }

    constructor (gateway: WalletGateway?)
      requires gateway != null ==> gateway.effects == []
      ensures Valid() && trace == [] && this.gateway == gateway
    {
      this.gateway, requests, repr, trace := gateway, map[], {}, [];
    }

    ghost method Record(c: Call)
      requires IsRun(trace) && (c.Create? ==> c.id !in Run(trace).requests) && Tied(Step(Run(trace), c))
      modifies `trace
      ensures Valid() && trace == old(trace) + [c]
    {
      assert (trace + [c])[..|trace|] == trace;
      trace := trace + [c];
    }

    method CreateSettlementRequest(id: string, required: int, balance: int, hasOriginal: bool)
      returns (r: SettlementRequest)
      requires Valid() && id !in requests
      modifies this
      ensures Valid() && trace == old(trace) + [Create(id, required, balance, hasOriginal)]
      ensures fresh(r) && requests == old(requests)[id := r] && r.id == id && r.status == Pending
      ensures r.required == required && r.balance == balance && r.hasOriginal == hasOriginal
      ensures r.sufficient <==> balance >= required
      ensures r.topup == if balance >= required then 0 else required - balance
    {
      var sufficient := balance >= required;
      var topupNeeded := Max(0, required - balance);
      r := new SettlementRequest(id, required, balance, sufficient,
                                 if !sufficient then topupNeeded else 0, hasOriginal);
      requests := requests[id := r];
      repr := repr + {r};
      Record(Create(id, required, balance, hasOriginal));
    }

    method ApproveSettlement(id: string, note: string, now: real) returns (r: SettlementRequest?)
      requires Valid()
      modifies this, repr
      ensures Valid() && repr == old(repr) && trace == old(trace) + [Approve(id, note, now)]
      ensures r != null <==> id in old(requests) && old(Run(trace).requests[id].status) == Pending
      ensures r != null ==> r.Snapshot() == Run(trace).requests[id]
      ensures r != null ==> r == requests[id] && r.status == Approved && r.note == note && r.resolvedAt == now
      ensures requests == old(requests) && (r == null ==> old(Run(trace)) == Run(trace))
    {
      if id !in requests || requests[id].status != Pending {
        r := null;
      } else {
        r := requests[id];
        r.status, r.note, r.resolvedAt := Approved, note, now;
      }
      Record(Approve(id, note, now));
    }

    method DenySettlement(id: string, note: string, now: real) returns (r: SettlementRequest?)
      requires Valid()
      modifies this, repr
      ensures Valid() && repr == old(repr) && trace == old(trace) + [Deny(id, note, now)]
      ensures r != null <==> id in old(requests) && old(Run(trace).requests[id].status) == Pending
      ensures r != null ==> r.Snapshot() == Run(trace).requests[id]
      ensures r != null ==> r == requests[id] && r.status == Denied && r.note == note && r.resolvedAt == now
      ensures requests == old(requests) && (r == null ==> old(Run(trace)) == Run(trace))
    {
      if id !in requests || requests[id].status != Pending {
        r := null;
      } else {
        r := requests[id];
        r.status, r.note, r.resolvedAt := Denied, note, now;
      }
      Record(Deny(id, note, now));
    }

    /** Without a gateway nothing can be charged and nothing changes. */
    method ExecuteTopup(id: string) returns (ok: bool, amount: int)
      requires Valid()
      modifies this, repr, if gateway == null then {} else {gateway}
      ensures Valid() && repr == old(repr)
      ensures gateway == null ==> !ok && trace == old(trace)
      ensures gateway != null ==> exists outcome :: trace == old(trace) + [Execute(id, outcome)]
                                    && (ok <==> outcome == Paid && Chargeable(old(Run(trace)), id))
                                    && gateway.answers == old(gateway.answers)
                                                          + if Chargeable(old(Run(trace)), id) then [outcome] else []
      ensures ok ==> id in requests && requests[id].status == Executed
      ensures ok ==> var r := requests[id];
                     amount == if r.balance >= r.required then r.required else r.required - r.balance
      ensures gateway != null && Chargeable(old(Run(trace)), id) && !ok ==>
                id in requests && requests[id].status == Failed
    {
      ok, amount := false, 0;
      if gateway == null {
        return;
      }
      if id !in requests || requests[id].status != Approved {
        Record(Execute(id, NotPaid));
        return;
      }
      ghost var b := Run(trace);
      OwedAmount(id);
      hide IsRun, Run, Step, ChargeOf;
      amount := if requests[id].topup != 0 then requests[id].topup else requests[id].required;
      var outcome := Charge(b, requests[id], amount);
      ok := outcome == Paid;
      Record(Execute(id, outcome));
    }

    /** The shortfall, or the whole price when the balance was enough. */
    lemma OwedAmount(id: string)
      requires Valid() && id in requests
      ensures var r := requests[id];
              (if r.topup != 0 then r.topup else r.required) == ChargeOf(r.Snapshot())
              && ChargeOf(r.Snapshot()) == if r.balance >= r.required then r.required else r.required - r.balance
    {
      RunInv(trace);
      assert Accounted(trace, Run(trace), id);
    }

    method Charge(ghost b: Book, r: SettlementRequest, amount: int) returns (outcome: Outcome)
      requires gateway != null && Tied(b) && r.id in requests && requests[r.id] == r && r.status == Approved
      requires amount == ChargeOf(r.Snapshot())
      modifies r, gateway
      ensures Tied(Step(b, Execute(r.id, outcome))) && gateway.answers == old(gateway.answers) + [outcome]
      ensures r.status == if outcome == Paid then Executed else Failed
    {
      hide Step, NewEffects, ChargeOf, NewRequest;
      outcome := gateway.RequestTopUp(r.id, amount);
      Settle(r, outcome);
      StepOfExecute(b, r.id, outcome);
    }

    /** Marks the request with the wallet's answer; a paid one has its original request retried. */
    method Settle(r: SettlementRequest, outcome: Outcome)
      requires gateway != null
      modifies r, gateway
      ensures r.Snapshot() == old(r.Snapshot()).(status := if outcome == Paid then Executed else Failed)
      ensures gateway.effects == old(gateway.effects) + if outcome == Paid && r.hasOriginal then [Retry(r.id)] else []
      ensures gateway.answers == old(gateway.answers)
    {
      if outcome == Paid {
        r.status := Executed;
        if r.hasOriginal {
          gateway.RetryOriginal(r.id);
        }
      } else {
        r.status := Failed;
      }
    }
  }

  lemma StepOfExecute(b: Book, id: string, outcome: Outcome)
    requires id in b.requests && b.requests[id].status == Approved
    ensures var r, b' := b.requests[id], Step(b, Execute(id, outcome));
            && b'.requests == b.requests[id := r.(status := if outcome == Paid then Executed else Failed)]
            && b'.effects
               == (if outcome == Paid && r.hasOriginal then b.effects + [TopUp(id, ChargeOf(r))] + [Retry(id)]
                              else b.effects + [TopUp(id, ChargeOf(r))])
  {
  }
}
