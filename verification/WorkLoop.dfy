/** The background work queue: work is added while the worker waits, and the worker runs from one await to the next. */
module WorkLoop {
  import opened Common

  datatype Item = Item(description: string, chat: int)

  /** What the worker is waiting for.  Gone: there is no worker - never started, cancelled, or ended by an exception. */
  datatype Await = Gone | Waiting | Executing(item: Item) | Reporting(item: Item) | Complaining(item: Item)
                 | Warning | Cooling

  datatype Loop = Loop(maxQueue: int, bot: bool, queue: seq<Item>, at: Await, running: bool, processing: bool,
                       processed: nat, errors: nat, consecutive: nat)

  function New(maxQueue: int, bot: bool): Loop { Loop(maxQueue, bot, [], Gone, false, false, 0, 0, 0) }

  /** Wake: what the worker awaits ends, normally or with an exception. */
  datatype Event = AddWork(items: seq<string>, chat: int) | Start | Stop | Wake(ok: bool)

  function Fitting(l: Loop, items: seq<string>): nat { Min(|items|, Max(0, l.maxQueue - |l.queue|)) }

  function ItemsOf(items: seq<string>, chat: int): (r: seq<Item>)
    ensures |r| == |items|
  {
    seq(|items|, i requires 0 <= i < |items| => Item(items[i], chat))
  }

  predicate Reports(l: Loop, item: Item) { l.bot && item.chat != 0 }

  function Succeed(l: Loop): Loop { l.(at := Waiting, processing := false, consecutive := 0) }

  function Break(l: Loop, item: Item): Loop {
    if l.consecutive < 3 then l.(at := Waiting, processing := false)
    else l.(at := if Reports(l, item) then Warning else Cooling)
  }

  function Fail(l: Loop, item: Item): Loop {
    var l' := l.(errors := l.errors + 1, consecutive := l.consecutive + 1);
    if Reports(l, item) then l'.(at := Complaining(item)) else Break(l', item)
  }

  function Woken(l: Loop, ok: bool): Loop {
    match l.at
    case Gone => l
    case Waiting =>
      if l.queue == [] then l
      else l.(queue := l.queue[1..], processing := true, at := Executing(l.queue[0]))
    case Executing(item) =>
      if !ok then Fail(l, item)
      else
        var l' := l.(processed := l.processed + 1);
        if Reports(l, item) then l'.(at := Reporting(item)) else Succeed(l')
    case Reporting(item) => if ok then Succeed(l) else Fail(l, item)
    case Complaining(item) => if ok then Break(l, item) else l.(at := Gone)
    case Warning => l.(at := if ok then Cooling else Gone)
    case Cooling => Succeed(l)
  }

  /** One stretch of the worker's code, from the end of what it awaited to its next await.  An item that is done with
      and a cool-down that is over clear the errors in a row; an error is told to the chat, if there is one, and then,
      from the third in a row on, the worker cools down, after a warning if there is a chat; a message that cannot be
      sent ends the worker. */
  ghost predicate WokenAs(l: Loop, l': Loop, ok: bool) {
    var takes := l.at.Waiting? && l.queue != [];
    var succeeds := ok && l.at.Executing?;
    var fails := !ok && (l.at.Executing? || l.at.Reporting?);
    && l'.maxQueue == l.maxQueue && l'.bot == l.bot && l'.running == l.running
    && l'.queue == (if takes then l.queue[1..] else l.queue)
    && l'.processed == l.processed + (if succeeds then 1 else 0) && l'.errors == l.errors + (if fails then 1 else 0)
    && (takes ==> l'.at == Executing(l.queue[0]) && l'.processing)
    && (l.at.Gone? || (l.at.Waiting? && !takes) ==> l' == l)
    && (succeeds && l.bot && l.at.item.chat != 0 ==> l'.at == Reporting(l.at.item) && l'.consecutive == l.consecutive)
    && ((succeeds && !(l.bot && l.at.item.chat != 0)) || (ok && l.at.Reporting?) || l.at.Cooling? ==>
          l'.at == Waiting && !l'.processing && l'.consecutive == 0)
    && (fails ==> l'.consecutive == l.consecutive + 1)
    && (fails && l.bot && l.at.item.chat != 0 ==> l'.at == Complaining(l.at.item))
    && (fails && !(l.bot && l.at.item.chat != 0) ==>
          if l'.consecutive < 3 then l'.at == Waiting && !l'.processing else l'.at == Cooling)
    && (l.at.Complaining? && ok ==>
          && l'.consecutive == l.consecutive
          && if l.consecutive < 3 then l'.at == Waiting && !l'.processing
             else l'.at == if l.bot && l.at.item.chat != 0 then Warning else Cooling)
    && (l.at.Warning? && ok ==> l' == l.(at := Cooling))
    && ((l.at.Complaining? || l.at.Warning?) && !ok ==> l' == l.(at := Gone))
  }

  lemma WokenMeans(l: Loop, ok: bool)
    ensures WokenAs(l, Woken(l, ok), ok)
  {
  }

  function Step(l: Loop, e: Event): Loop {
    match e
    case AddWork(items, chat) => l.(queue := l.queue + ItemsOf(items, chat)[..Fitting(l, items)])
    case Start => if l.running then l else l.(running := true, at := Waiting)
    case Stop => l.(running := false, at := Gone)
    case Wake(ok) => Woken(l, ok)
  }

  function Run(start: Loop, es: seq<Event>): Loop {
    if es == [] then start else Step(Run(start, es[..|es| - 1]), es[|es| - 1])
  }

  // ---------------------------------------------------------------- what the history says

  /** What one event accepts into the queue, and what it takes out to be executed. */
  ghost function Accepts(l: Loop, e: Event): seq<Item> {
    if e.AddWork? then ItemsOf(e.items, e.chat)[..Fitting(l, e.items)] else []
  }

  ghost function Starts(l: Loop, e: Event): seq<Item> {
    if e.Wake? && l.at.Waiting? && l.queue != [] then [l.queue[0]] else []
  }

  /** An item that succeeded but whose report could not be sent: it counts as processed and as an error. */
  ghost function Doubles(l: Loop, e: Event): nat { if e == Wake(false) && l.at.Reporting? then 1 else 0 }

  /** An item that was being executed when the loop was stopped: it counts as neither. */
  ghost function Cuts(l: Loop, e: Event): nat { if e.Stop? && l.at.Executing? then 1 else 0 }

  ghost function Accepted(start: Loop, es: seq<Event>): seq<Item> {
    if es == [] then [] else Accepted(start, es[..|es| - 1]) + Accepts(Run(start, es[..|es| - 1]), es[|es| - 1])
  }

  ghost function Started(start: Loop, es: seq<Event>): seq<Item> {
    if es == [] then [] else Started(start, es[..|es| - 1]) + Starts(Run(start, es[..|es| - 1]), es[|es| - 1])
  }

  ghost function CountedTwice(start: Loop, es: seq<Event>): nat {
    if es == [] then 0 else CountedTwice(start, es[..|es| - 1]) + Doubles(Run(start, es[..|es| - 1]), es[|es| - 1])
  }

  ghost function CutOff(start: Loop, es: seq<Event>): nat {
    if es == [] then 0 else CutOff(start, es[..|es| - 1]) + Cuts(Run(start, es[..|es| - 1]), es[|es| - 1])
  }

  ghost predicate Resets(l: Loop, e: Event) {
    e.Wake? && (l.at.Cooling? || (e.ok && (l.at.Reporting? || (l.at.Executing? && !Reports(l, l.at.item)))))
  }

  ghost predicate Errs(l: Loop, e: Event) { e == Wake(false) && (l.at.Executing? || l.at.Reporting?) }

  ghost function RowAfter(l: Loop, e: Event, row: nat): nat {
    if Resets(l, e) then 0 else if Errs(l, e) then row + 1 else row
  }

  ghost predicate EndedAfter(l: Loop, e: Event, ended: bool) {
    !Resets(l, e) && (ended || (l.consecutive >= 3 && l.at != Gone && Step(l, e).at == Gone))
  }

  /** The errors since the last success or cool-down. */
  ghost function ErrorsInARow(start: Loop, es: seq<Event>): nat {
    if es == [] then 0 else RowAfter(Run(start, es[..|es| - 1]), es[|es| - 1], ErrorsInARow(start, es[..|es| - 1]))
  }

  /** Since the last success or cool-down the worker was ended, by stop or by a failed message, with three or more
      errors in a row. */
  ghost predicate EndedOverLimit(start: Loop, es: seq<Event>) {
    es != [] && EndedAfter(Run(start, es[..|es| - 1]), es[|es| - 1], EndedOverLimit(start, es[..|es| - 1]))
  }

  // ---------------------------------------------------------------- what every run keeps

  ghost function InFlight(l: Loop): nat { if l.at.Executing? then 1 else 0 }

  ghost predicate Accounts(l: Loop, accepted: seq<Item>, started: seq<Item>, twice: nat, cut: nat) {
    && (!l.running ==> l.at == Gone)
    && |l.queue| <= Max(0, l.maxQueue)
    && accepted == started + l.queue
    && |started| + twice == InFlight(l) + l.processed + l.errors + cut
  }

  lemma StepKeepsAccounts(l: Loop, e: Event, accepted: seq<Item>, started: seq<Item>, twice: nat, cut: nat)
    requires Accounts(l, accepted, started, twice, cut)
    ensures Accounts(Step(l, e), accepted + Accepts(l, e), started + Starts(l, e), twice + Doubles(l, e),
                     cut + Cuts(l, e))
    ensures Step(l, e).maxQueue == l.maxQueue && Step(l, e).bot == l.bot
  {
    if e.AddWork? {
      hide Woken;
      assert accepted + Accepts(l, e) == started + (l.queue + Accepts(l, e));
    } else if e.Wake? && l.at.Waiting? && l.queue != [] {
      hide Fitting, ItemsOf;
      assert started + l.queue == started + Starts(l, e) + l.queue[1..];
    } else {
      hide Fitting, ItemsOf;
      assert Step(l, e).queue == l.queue && Accepts(l, e) == [] == Starts(l, e);
    }
  }

  /** Items run in the order of acceptance, the queue never exceeds its maximum, and no item is lost or counted twice
      except as the history says. */
  lemma {:induction false} RunAccounted(start: Loop, es: seq<Event>)
    requires start == New(start.maxQueue, start.bot)
    ensures Accounts(Run(start, es), Accepted(start, es), Started(start, es), CountedTwice(start, es),
                     CutOff(start, es))
    ensures Run(start, es).maxQueue == start.maxQueue && Run(start, es).bot == start.bot
  {
    hide Step, Accepts, Starts, Doubles, Cuts;
    if es != [] {
      hide Accounts;
      var front, e := es[..|es| - 1], es[|es| - 1];
      RunAccounted(start, front);
      StepKeepsAccounts(Run(start, front), e, Accepted(start, front), Started(start, front), CountedTwice(start, front),
                        CutOff(start, front));
    }
  }

  /** Accepted items are queued, in flight, processed or failed - in numbers, exactly when as many reports of success
      failed as items were cut off. */
  lemma Conservation(start: Loop, es: seq<Event>)
    requires start == New(start.maxQueue, start.bot)
    ensures var l := Run(start, es);
            |Accepted(start, es)| == |l.queue| + InFlight(l) + l.processed + l.errors
            <==> CountedTwice(start, es) == CutOff(start, es)
    ensures |Run(start, es).queue| <= Max(0, start.maxQueue) && Started(start, es) <= Accepted(start, es)
  {
    RunAccounted(start, es);
  }

  /** Events that end an item's execution well, and events that count as an error. */
  ghost function Ended(start: Loop, es: seq<Event>, ok: bool): nat {
    if es == [] then 0
    else
      var l, e := Run(start, es[..|es| - 1]), es[|es| - 1];
      Ended(start, es[..|es| - 1], ok) + Ends(l, e, ok)
  }

  ghost function Ends(l: Loop, e: Event, ok: bool): nat {
    if e == Wake(ok) && (l.at.Executing? || (!ok && l.at.Reporting?)) then 1 else 0
  }

  lemma StepCounts(l: Loop, e: Event)
    ensures Step(l, e).processed == l.processed + Ends(l, e, true)
    ensures Step(l, e).errors == l.errors + Ends(l, e, false)
  {
    hide Fitting, ItemsOf;
  }

  /** The two counters: the executions that ended well, and the executions and reports of success that failed. */
  lemma {:induction false} CountersMean(start: Loop, es: seq<Event>)
    requires start == New(start.maxQueue, start.bot)
    ensures Run(start, es).processed == Ended(start, es, true) && Run(start, es).errors == Ended(start, es, false)
  {
    if es != [] {
      CountersMean(start, es[..|es| - 1]);
      StepCounts(Run(start, es[..|es| - 1]), es[|es| - 1]);
      hide Step, Ends;
    }
  }

  /** The worker waits for a message to be sent only when there is a bot and, about an item, a chat. */
  lemma {:induction false} MessagesHaveAddressee(start: Loop, es: seq<Event>)
    requires start == New(start.maxQueue, start.bot)
    ensures var l := Run(start, es);
            && l.bot == start.bot && (l.at.Reporting? || l.at.Complaining? ==> l.bot && l.at.item.chat != 0)
            && (l.at.Warning? ==> l.bot)
  {
    if es != [] { MessagesHaveAddressee(start, es[..|es| - 1]); }
  }

  ghost predicate Limited(l: Loop, row: nat, ended: bool) {
    && l.consecutive == row
    && (!l.running ==> l.at == Gone)
    && (ended ==> l.consecutive >= 3)
    && (l.consecutive >= 3 ==> ended || l.at in {Warning, Cooling} || l.at.Complaining?)
    && (l.at in {Warning, Cooling} ==> l.consecutive >= 3)
  }

  lemma StepKeepsLimited(l: Loop, e: Event, row: nat, ended: bool)
    requires Limited(l, row, ended)
    ensures Limited(Step(l, e), RowAfter(l, e, row), EndedAfter(l, e, ended))
  {
  }

  lemma {:induction false} RunLimited(start: Loop, es: seq<Event>)
    requires start == New(start.maxQueue, start.bot)
    ensures Limited(Run(start, es), ErrorsInARow(start, es), EndedOverLimit(start, es))
  {
    hide Step, RowAfter, EndedAfter;
    if es != [] {
      hide Limited;
      var front := es[..|es| - 1];
      RunLimited(start, front);
      StepKeepsLimited(Run(start, front), es[|es| - 1], ErrorsInARow(start, front), EndedOverLimit(start, front));
    }
  }

  /** At the head of the loop fewer than three errors have happened in a row, unless the worker was ended over the
      limit before its cool-down. */
  lemma BelowLimitAtHead(start: Loop, es: seq<Event>)
    requires start == New(start.maxQueue, start.bot) && Run(start, es).at == Waiting
    ensures ErrorsInARow(start, es) < 3 <==> !EndedOverLimit(start, es)
    ensures Run(start, es).consecutive == ErrorsInARow(start, es)
  {
    RunLimited(start, es);
  }

  /** A loop that is never stopped is never over the limit at its head. */
  lemma {:induction false} NeverStopped(start: Loop, es: seq<Event>)
    requires start == New(start.maxQueue, start.bot) && Stop !in es
    ensures Run(start, es).at != Gone || !Run(start, es).running ==> !EndedOverLimit(start, es)
    ensures Run(start, es).at == Waiting ==> Run(start, es).consecutive < 3
  {
    if es != [] {
      NeverStopped(start, es[..|es| - 1]);
      RunLimited(start, es[..|es| - 1]);
      RunLimited(start, es);
    }
  }

  /** Since the last stop, a message about an error, or about the pause, could not be sent. */
  ghost predicate Lost(start: Loop, es: seq<Event>) {
    es != [] &&
      var front, e := es[..|es| - 1], es[|es| - 1];
      !e.Stop? && (Lost(start, front) || (e == Wake(false) && SendsMessage(Run(start, front).at)))
  }

  predicate SendsMessage(at: Await) { at.Complaining? || at.Warning? }

  /** A loop counts as running although it has no worker exactly when such a message has ended the worker. */
  lemma {:induction false} RunningWithoutWorkerExactlyWhen(start: Loop, es: seq<Event>)
    requires start == New(start.maxQueue, start.bot)
    ensures Run(start, es).running && Run(start, es).at == Gone <==> Lost(start, es)
    ensures !Run(start, es).running ==> Run(start, es).at == Gone
  {
    if es != [] {
      RunningWithoutWorkerExactlyWhen(start, es[..|es| - 1]);
    }
  }

  /** Once a failed message has ended the worker, work is still accepted but none is started, until the loop is
      stopped and started again. */
  lemma {:induction false} EndedWorkerStaysEnded(start: Loop, es: seq<Event>, more: seq<Event>)
    requires Run(start, es).running && Run(start, es).at == Gone && Stop !in more
    ensures Run(start, es + more).running && Run(start, es + more).at == Gone
    ensures Started(start, es + more) == Started(start, es)
  {
    hide Step, Starts;
    if more == [] {
      assert es + more == es;
    } else {
      var front, e := more[..|more| - 1], more[|more| - 1];
      EndedWorkerStaysEnded(start, es, front);
      StaysEnded(Run(start, es + front), e);
      assert (es + more)[..|es + more| - 1] == es + front && (es + more)[|es + more| - 1] == e;
    }
  }

  /** An item fails and the message about it cannot be sent: the worker has ended while the loop still counts as
      running. */
  lemma FailedMessageEndsWorker()
    ensures var es := [AddWork(["a"], 1), Start, Wake(true), Wake(false), Wake(false)];
            Run(New(5, true), es).running && Run(New(5, true), es).at == Gone
  {
    var es := [AddWork(["a"], 1), Start, Wake(true), Wake(false), Wake(false)];
    hide Run;
    RunNothing(New(5, true), es[..0]);
    OneEvent(New(5, true), es, 0);
    assert Run(New(5, true), es[..1]).queue == ItemsOf(["a"], 1);
    OneEvent(New(5, true), es, 1);
    OneEvent(New(5, true), es, 2);
    OneEvent(New(5, true), es, 3);
    OneEvent(New(5, true), es, 4);
    assert es[..5] == es;
  }

  lemma StaysEnded(l: Loop, e: Event)
    requires l.running && l.at == Gone && e != Stop
    ensures Step(l, e).running && Step(l, e).at == Gone && Starts(l, e) == []
  {
  }

  lemma OneEvent(start: Loop, es: seq<Event>, k: nat)
    requires k < |es|
    ensures Run(start, es[..k + 1]) == Step(Run(start, es[..k]), es[k])
  {
    assert es[..k + 1][..k] == es[..k];
  }

  /** Three failing items, stopped during the cool-down and started again: the loop head is at the limit. */
  lemma RestartCarriesErrors()
    ensures var es := [AddWork(["a", "b", "c"], 0), Start, Wake(true), Wake(false), Wake(true), Wake(false), Wake(true),
                       Wake(false), Stop, Start];
            Run(New(5, false), es).at == Waiting && Run(New(5, false), es).consecutive == 3
  {
    var es := [AddWork(["a", "b", "c"], 0), Start, Wake(true), Wake(false), Wake(true), Wake(false), Wake(true),
               Wake(false), Stop, Start];
    hide Run;
    var abc := ItemsOf(["a", "b", "c"], 0);
    RunNothing(New(5, false), es[..0]);
    OneEvent(New(5, false), es, 0);
    assert Run(New(5, false), es[..1]).queue == abc;
    OneEvent(New(5, false), es, 1);
    ItemFails(New(5, false), es, 2);
    ItemFails(New(5, false), es, 4);
    ItemFails(New(5, false), es, 6);
    OneEvent(New(5, false), es, 8);
    OneEvent(New(5, false), es, 9);
    assert es[..10] == es;
  }

  lemma RunNothing(start: Loop, es: seq<Event>)
    requires es == []
    ensures Run(start, es) == start
  {
  }

  lemma ItemFails(start: Loop, es: seq<Event>, k: nat)
    requires k + 1 < |es| && es[k] == Wake(true) && es[k + 1] == Wake(false)
    requires var l := Run(start, es[..k]); l.at == Waiting && !l.bot && l.queue != [] && l.consecutive < 3
    ensures var l := Run(start, es[..k]);
            Run(start, es[..k + 2]) == l.(queue := l.queue[1..], at := if l.consecutive == 2 then Cooling else Waiting,
                                          processing := l.consecutive == 2, errors := l.errors + 1,
                                          consecutive := l.consecutive + 1)
  {
    OneEvent(start, es, k);
    OneEvent(start, es, k + 1);
  }

  // ---------------------------------------------------------------- the loop itself

  /** Between two awaits the worker's code runs undisturbed, so each stretch from one await to the next is a method. */
  class AgentLoop {
    const maxQueue: int
    const bot: bool
    var queue: seq<Item>
    var at: Await
    var running: bool
    var processing: bool
    var processed: nat
    var errors: nat
    var consecutive: nat
    ghost var trace: seq<Event>

    function Snapshot(): Loop
      reads this
    {
      Loop(maxQueue, bot, queue, at, running, processing, processed, errors, consecutive)
    }

    ghost predicate Valid()
      reads this
    {
      Snapshot() == Run(New(maxQueue, bot), trace)
    }

    constructor (maxQueue: int, bot: bool)
      ensures Valid() && trace == [] && this.maxQueue == maxQueue && this.bot == bot
    {
      this.maxQueue, this.bot, queue, at, running, processing := maxQueue, bot, [], Gone, false, false;
      processed, errors, consecutive, trace := 0, 0, 0, [];
    }

    ghost method Record(e: Event)
      requires Snapshot() == Step(Run(New(maxQueue, bot), trace), e)
      modifies `trace
      ensures Valid() && trace == old(trace) + [e]
    {
      hide Step;
      assert (trace + [e])[..|trace|] == trace;
      trace := trace + [e];
    }

    method StartWorker()
      requires Valid()
      modifies this
      ensures Valid() && trace == old(trace) + [Start]
      ensures running && at == (if old(running) then old(at) else Waiting)
      ensures queue == old(queue) && consecutive == old(consecutive)
    {
      if !running {
        running, at := true, Waiting;
      }
      Record(Start);
    }

    method StopWorker()
      requires Valid()
      modifies this
      ensures Valid() && trace == old(trace) + [Stop]
      ensures !running && at == Gone && queue == old(queue) && consecutive == old(consecutive)
    {
      running, at := false, Gone;
      Record(Stop);
    }

    /** The longest prefix that fits is accepted, in order. */
    method Add(items: seq<string>, chat: int) returns (added: nat)
      requires Valid()
      modifies this
      ensures Valid() && trace == old(trace) + [AddWork(items, chat)]
      ensures added <= |items| && queue == old(queue) + ItemsOf(items, chat)[..added]
      ensures forall i :: 0 <= i < added ==> queue[|old(queue)| + i] == Item(items[i], chat)
      ensures added > 0 ==> |queue| <= maxQueue
      ensures added < |items| ==> |queue| >= maxQueue
    {
      added := Fill(items, chat);
      assert added == Fitting(old(Snapshot()), items);
      Record(AddWork(items, chat));
    }

    method Fill(items: seq<string>, chat: int) returns (added: nat)
      modifies `queue
      ensures added <= |items| && queue == old(queue) + ItemsOf(items, chat)[..added]
      ensures added > 0 ==> |queue| <= maxQueue
      ensures added < |items| ==> |queue| >= maxQueue
    {
      added := 0;
      ghost var all := ItemsOf(items, chat);
      while added < |items| && |queue| < maxQueue
        invariant added <= |items| && queue == old(queue) + all[..added]
        invariant added > 0 ==> |queue| <= maxQueue
      {
        queue := queue + [Item(items[added], chat)];
        assert all[..added + 1] == all[..added] + [all[added]];
        added := added + 1;
      }
    }

    /** What the worker awaited ended: the code up to the next await.  The outcome is the awaited call's. */
    method Resume(ok: bool)
      requires Valid()
      modifies this
      ensures Valid() && trace == old(trace) + [Wake(ok)]
      ensures WokenAs(old(Snapshot()), Snapshot(), ok)
    {
      WokenMeans(Snapshot(), ok);
      hide WokenAs, Woken;
      Proceed(ok);
      Record(Wake(ok));
    }

    method Proceed(ok: bool)
      modifies this
      ensures Snapshot() == Woken(old(Snapshot()), ok) && trace == old(trace)
    {
      match at {
        case Gone =>
        case Waiting =>
          if queue != [] {
            at, queue, processing := Executing(queue[0]), queue[1..], true;
          }
        case Executing(item) =>
          if ok {
            processed := processed + 1;
            if bot && item.chat != 0 {
              at := Reporting(item);
            } else {
              Finish();
            }
          } else {
            HandleError(item);
          }
        case Reporting(item) =>
          if ok {
            Finish();
          } else {
            HandleError(item);
          }
        case Complaining(item) =>
          if ok {
            CheckBreaker(item);
          } else {
            at := Gone;
          }
        case Warning =>
          at := if ok then Cooling else Gone;
        case Cooling =>
          Finish();
      }
    }

    method Finish()
      modifies this
      ensures Snapshot() == Succeed(old(Snapshot())) && trace == old(trace)
    {
      consecutive, processing, at := 0, false, Waiting;
    }

    method HandleError(item: Item)
      modifies this
      ensures Snapshot() == Fail(old(Snapshot()), item) && trace == old(trace)
    {
      errors, consecutive := errors + 1, consecutive + 1;
      if bot && item.chat != 0 {
        at := Complaining(item);
      } else {
        CheckBreaker(item);
      }
    }

    method CheckBreaker(item: Item)
      modifies this
      ensures Snapshot() == Break(old(Snapshot()), item) && trace == old(trace)
    {
      if consecutive >= 3 {
        at := if bot && item.chat != 0 then Warning else Cooling;
      } else {
        processing, at := false, Waiting;
      }
    }
  }
}
