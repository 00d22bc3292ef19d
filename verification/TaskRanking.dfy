/** Scoring tasks and ranking them. */
module TaskRanking {
  import opened Common

  datatype Task = Task(id: string, importance: real, urgency: real, effort: real, dependenciesMet: bool,
                       deadlineHours: Option<real>)

  datatype Score = Score(id: string, priority: real, urgency: real, combined: real)

  function Clamp(x: real): real { if x < 0.0 then 0.0 else if x > 1.0 then 1.0 else x }

  function Boosted(urgency: real, deadlineHours: Option<real>): real {
    match deadlineHours
    case None => urgency
    case Some(h) =>
      if h <= 1.0 then 1.0
      else if h <= 24.0 then (if urgency >= 0.8 then urgency else 0.8)
      else if h <= 72.0 then (if urgency >= 0.6 then urgency else 0.6)
      else urgency
  }

  /** The scores before rounding; a task without a deadline has no deadline hours. */
  function ScoreTask(t: Task): Score {
    var urgency := Boosted(Clamp(t.urgency), t.deadlineHours);
    var priority := Clamp(t.importance) * 0.4 + (1.0 - Clamp(t.effort)) * 0.2
                    + (if t.dependenciesMet then 0.1 else 0.0);
    Score(t.id, priority, urgency, priority * 0.6 + urgency * 0.4)
  }

  /** No less important, no less urgent, no more work, no less ready, and due no later. */
  ghost predicate AtLeast(b: Task, a: Task) {
    && a.importance <= b.importance && a.urgency <= b.urgency && a.effort >= b.effort
    && (a.dependenciesMet ==> b.dependenciesMet)
    && (a.deadlineHours.Some? ==> b.deadlineHours.Some? && b.deadlineHours.value <= a.deadlineHours.value)
  }

  lemma ScoreIsMonotone(a: Task, b: Task)
    requires AtLeast(b, a)
    ensures ScoreTask(a).combined <= ScoreTask(b).combined
    ensures 0.0 <= ScoreTask(a).combined <= 0.82
  {
  }

  ghost predicate InUnit(x: real) { 0.0 <= x <= 1.0 }

  /** Values outside 0..1 count as the nearest bound. */
  ghost predicate IsClamped(x: real, y: real) {
    InUnit(y) && (InUnit(x) ==> y == x) && (x < 0.0 ==> y == 0.0) && (x > 1.0 ==> y == 1.0)
  }

  /** A deadline raises a lower urgency: to 1.0 within an hour, to 0.8 within a day, to 0.6 within three days. */
  ghost predicate IsRaised(urgency: real, deadlineHours: Option<real>, raised: real) {
    var floor := if deadlineHours.None? || deadlineHours.value > 72.0 then 0.0
                 else if deadlineHours.value <= 1.0 then 1.0 else if deadlineHours.value <= 24.0 then 0.8 else 0.6;
    raised >= urgency && raised >= floor && (raised == urgency || raised == floor)
  }

  /** What each part is worth in the combined score: 24 of a hundred for importance, 40 for urgency, 12 for little
      effort and 6 for having nothing to wait for. */
  lemma ScoreMeans(t: Task)
    ensures var s := ScoreTask(t);
            exists importance, urgency, effort ::
              && IsClamped(t.importance, importance) && IsClamped(t.urgency, urgency) && IsClamped(t.effort, effort)
              && IsRaised(urgency, t.deadlineHours, s.urgency) && s.id == t.id
              && s.priority == (40.0 * importance + 20.0 * (1.0 - effort)
                                + (if t.dependenciesMet then 10.0 else 0.0)) / 100.0
              && s.combined == (24.0 * importance + 40.0 * s.urgency + 12.0 * (1.0 - effort)
                                + (if t.dependenciesMet then 6.0 else 0.0)) / 100.0
  {
    var importance, urgency, effort := Clamp(t.importance), Clamp(t.urgency), Clamp(t.effort);
    assert IsClamped(t.importance, importance) && IsClamped(t.urgency, urgency) && IsClamped(t.effort, effort);
    assert IsRaised(urgency, t.deadlineHours, ScoreTask(t).urgency);
  }

  /** Task i is ranked above task j: it scores higher, or the same and came first. */
  ghost predicate Above(keys: seq<real>, i: nat, j: nat) {
    i < |keys| && j < |keys| && (keys[i] > keys[j] || (keys[i] == keys[j] && i < j))
  }

  ghost predicate InOrder(keys: seq<real>, order: seq<nat>) {
    && (forall a :: 0 <= a < |order| ==> order[a] < |keys|)
    && (forall a, b :: 0 <= a < b < |order| ==> Above(keys, order[a], order[b]))
  }

  /** The positions of all tasks, best first. */
  ghost predicate IsRanking(keys: seq<real>, order: seq<nat>) {
    InOrder(keys, order) && forall i: nat :: i < |keys| ==> i in order
  }

  /** The same tasks always come out in the same order. */
  lemma RankingIsUnique(keys: seq<real>, a: seq<nat>, b: seq<nat>)
    requires IsRanking(keys, a) && IsRanking(keys, b)
    ensures a == b
  {
    RankingLength(keys, a);
    RankingLength(keys, b);
    SameUpTo(keys, a, b, |a|);
  }

  lemma {:induction false} SameUpTo(keys: seq<real>, a: seq<nat>, b: seq<nat>, n: nat)
    requires IsRanking(keys, a) && IsRanking(keys, b) && n <= |a| == |b|
    ensures a[..n] == b[..n]
  {
    if n > 0 {
      var k := n - 1;
      SameUpTo(keys, a, b, k);
      NotAbove(keys, a, b, k);
      NotAbove(keys, b, a, k);
      assert a[..n] == a[..k] + [a[k]] && b[..n] == b[..k] + [b[k]];
    }
  }

  lemma NotAbove(keys: seq<real>, a: seq<nat>, b: seq<nat>, k: nat)
    requires IsRanking(keys, a) && IsRanking(keys, b) && k < |a| == |b| && a[..k] == b[..k]
    ensures a[k] == b[k] || Above(keys, b[k], a[k])
  {
    assert a[k] in b;
    var m :| 0 <= m < |b| && b[m] == a[k];
  }

  lemma RankingLength(keys: seq<real>, order: seq<nat>)
    requires IsRanking(keys, order)
    ensures |order| == |keys|
  {
    assert Distinct(order);
    DistinctCardinality(order);
    assert Elements(order) == Below(|keys|);
  }

  ghost function Below(n: nat): (s: set<nat>)
    ensures |s| == n && forall i: nat :: i in s <==> i < n
  {
    if n == 0 then {} else Below(n - 1) + {n - 1}
  }

  function Rounded(t: Task, round: real -> real): Score {
    var s := ScoreTask(t);
    Score(s.id, round(s.priority), round(s.urgency), round(s.combined))
  }

  function Keys(tasks: seq<Task>, round: real -> real): seq<real> {
    seq(|tasks|, i requires 0 <= i < |tasks| => Rounded(tasks[i], round).combined)
  }

  /** A stable sort, best first. */
  method Rank(keys: seq<real>) returns (order: seq<nat>)
    ensures IsRanking(keys, order)
  {
    order := [];
    for i := 0 to |keys|
      invariant InOrder(keys, order) && (forall j: nat :: j < i <==> j in order)
      invariant forall a :: 0 <= a < |order| ==> order[a] < i
    {
      var k := |order|;
      while k > 0 && keys[order[k - 1]] < keys[i]
        invariant 0 <= k <= |order|
        invariant forall m :: k <= m < |order| ==> keys[order[m]] < keys[i]
      {
        k := k - 1;
      }
      InsertKeepsOrder(keys, order, i, k);
      InsertKeepsElements(order, k, i);
      order := InsertAt(order, k, i);
    }
  }

  function InsertAt(order: seq<nat>, k: nat, i: nat): (r: seq<nat>)
    requires k <= |order|
    ensures |r| == |order| + 1
    ensures forall a :: 0 <= a < |r| ==> r[a] == if a < k then order[a] else if a == k then i else order[a - 1]
  {
    order[..k] + [i] + order[k..]
  }

  lemma InsertKeepsElements(order: seq<nat>, k: nat, i: nat)
    requires k <= |order|
    ensures forall j :: j in InsertAt(order, k, i) <==> j in order || j == i
  {
    assert order == order[..k] + order[k..];
  }

  lemma InsertKeepsOrder(keys: seq<real>, order: seq<nat>, i: nat, k: nat)
    requires InOrder(keys, order) && i < |keys| && k <= |order| && forall a :: 0 <= a < |order| ==> order[a] < i
    requires forall m :: k <= m < |order| ==> keys[order[m]] < keys[i]
    requires k > 0 ==> keys[order[k - 1]] >= keys[i]
    ensures InOrder(keys, InsertAt(order, k, i))
  {
    forall m | 0 <= m < k
      ensures Above(keys, order[m], i)
    {
      if m < k - 1 { assert Above(keys, order[m], order[k - 1]); }
    }
    forall m | k <= m < |order|
      ensures Above(keys, i, order[m])
    {
    }
    hide Above, InsertAt;
    var r := InsertAt(order, k, i);
    forall a, b | 0 <= a < b < |r|
      ensures Above(keys, r[a], r[b])
    {
    }
  }

  datatype Ranking = MissingId(index: nat) | Ranked(scores: seq<Score>)

  /** Every task needs an id; the scores come best first, and tasks with equal scores in the order given. */
  method PrioritizeTasks(tasks: seq<Task>, round: real -> real) returns (r: Ranking, ghost positions: seq<nat>)
    ensures r.MissingId? ==> r.index < |tasks| && tasks[r.index].id == ""
    ensures r.MissingId? ==> forall i :: 0 <= i < r.index ==> tasks[i].id != ""
    ensures r.Ranked? <==> forall i :: 0 <= i < |tasks| ==> tasks[i].id != ""
    ensures r.Ranked? ==> IsRanking(Keys(tasks, round), positions) && |r.scores| == |positions| == |tasks|
    ensures r.Ranked? ==> forall k :: 0 <= k < |positions| ==> positions[k] < |tasks|
    ensures r.Ranked? ==> forall k :: 0 <= k < |positions| ==> r.scores[k] == Rounded(tasks[positions[k]], round)
    ensures r.Ranked? ==>
              forall k :: 0 <= k < |positions| ==>
                var s := ScoreTask(tasks[positions[k]]);
                && r.scores[k].id == tasks[positions[k]].id && r.scores[k].priority == round(s.priority)
                && r.scores[k].urgency == round(s.urgency) && r.scores[k].combined == round(s.combined)
    ensures r.Ranked? ==>
              forall a, b :: 0 <= a < b < |positions| ==>
                || r.scores[a].combined > r.scores[b].combined
                || (r.scores[a].combined == r.scores[b].combined && positions[a] < positions[b])
  {
    positions := [];
    var scores: seq<Score> := [];
    for i := 0 to |tasks|
      invariant |scores| == i
      invariant forall j :: 0 <= j < i ==> tasks[j].id != "" && scores[j] == Rounded(tasks[j], round)
    {
      if tasks[i].id == "" {
        return MissingId(i), positions;
      }
      scores := scores + [Rounded(tasks[i], round)];
    }
    var order := Rank(Keys(tasks, round));
    RankingLength(Keys(tasks, round), order);
    positions := order;
    r := Ranked(seq(|order|, k requires 0 <= k < |order| => scores[order[k]]));
  }

  ghost predicate Monotone(round: real -> real) { forall x, y :: x <= y ==> round(x) <= round(y) }

  /** A task that is at least another in every respect and comes before it in the input comes before it in the
      ranking. */
  lemma BetterComesFirst(tasks: seq<Task>, round: real -> real, order: seq<nat>, p: nat, q: nat)
    requires Monotone(round) && IsRanking(Keys(tasks, round), order)
    requires p < |order| && q < |order| && order[p] < order[q] < |tasks|
    requires AtLeast(tasks[order[p]], tasks[order[q]])
    ensures p < q
  {
    ScoreIsMonotone(tasks[order[q]], tasks[order[p]]);
    assert Keys(tasks, round)[order[q]] <= Keys(tasks, round)[order[p]];
  }
}
