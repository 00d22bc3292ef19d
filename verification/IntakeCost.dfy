/** Operator intake: routing, scope, and the estimate of the planned cost, in cents. */
module IntakeCost {
  import opened Common

  datatype WorkType = Auto | Review | Build

  datatype BuildType = Implementation | Integration | Devops | Testing

  /** A criterion that cannot be read is not valid; a structured one carries metadata. */
  datatype Criterion = Criterion(valid: bool, structured: bool)

  datatype Operation = Operation(valid: bool)

  datatype Intake = Intake(repoPath: string, gitUrl: string, diffSpec: string, workType: WorkType, buildType: BuildType,
                           description: string, focusAreas: seq<string>, targetFiles: seq<string>, plan: seq<Operation>,
                           criteria: seq<Criterion>, postBuildReview: bool, maxFiles: int)

  /** What is known of a git URL before it is fetched. */
  datatype Preview = Preview(supported: bool, blocked: bool)

  datatype Size = Small | Medium | Large

  const BUILD_HINTS: seq<string> := ["implement", "build", "fix", "refactor", "add", "change"]

  ghost predicate ReadableCriteria(x: Intake) { forall c :: c in x.criteria ==> c.valid }

  ghost predicate IsValid(x: Intake) {
    && (x.repoPath != "" || x.gitUrl != "")
    && !(x.repoPath != "" && ContainsText(x.repoPath, ".."))
    && x.maxFiles >= 1
    && !(x.workType == Build && x.description == "")
    && (forall o :: o in x.plan ==> o.valid)
    && ReadableCriteria(x)
  }

  /** An intake that does not validate, or whose repository cannot be acquired, is not routed. */
  ghost predicate Blocked(x: Intake, inspect: string -> Preview) {
    || !IsValid(x)
    || (x.repoPath == "" && (!inspect(x.gitUrl).supported || inspect(x.gitUrl).blocked))
  }

  function Resolve(x: Intake, lower: string -> string): WorkType {
    if x.workType != Auto then x.workType
    else if x.diffSpec != "" then Review
    else if x.criteria != [] || x.targetFiles != [] || x.plan != [] then Build
    else if exists h <- BUILD_HINTS :: ContainsText(lower(x.description), h) then Build
    else Review
  }

  function Structured(cs: seq<Criterion>): (n: nat)
    ensures n <= |cs|
  {
    if cs == [] then 0 else (if cs[0].structured then 1 else 0) + Structured(cs[1..])
  }

  function Capped(n: nat, cap: nat): (r: nat)
    ensures r <= n && r <= cap
  {
    if n <= cap then n else cap
  }

  function ItemsScore(x: Intake): nat {
    Capped(|x.targetFiles|, 4) + Capped(|x.plan|, 4) + Capped(|x.criteria|, 4) + Capped(Structured(x.criteria), 2)
    + Capped(|x.focusAreas|, 3)
  }

  function ScopeScore(x: Intake, resolved: WorkType): nat {
    (if x.repoPath == "" && x.gitUrl != "" then 1 else 0) + (if x.diffSpec != "" then 2 else 0) + ItemsScore(x)
    + (if resolved == Build then (if x.postBuildReview then 3 else 2) else 0)
  }

  function SizeOf(score: nat): Size { if score <= 2 then Small else if score <= 6 then Medium else Large }

  function ScopeCost(s: Size): nat { if s == Small then 0 else if s == Medium then 250 else 600 }

  function BuildCost(t: BuildType): nat {
    match t
    case Implementation => 200
    case Integration => 600
    case Devops => 500
    case Testing => 300
  }

  function ItemsCost(x: Intake): nat {
    80 * Capped(|x.targetFiles|, 6) + 70 * Capped(|x.plan|, 8) + 110 * Capped(|x.criteria|, 6)
    + 60 * Capped(Structured(x.criteria), 4) + 40 * Capped(|x.focusAreas|, 4)
  }

  /** What the route and the scope add to the price of the items. */
  function RouteCost(x: Intake, resolved: WorkType, size: Size): nat {
    (if resolved == Review then 150 else 400) + (if x.diffSpec != "" then 100 else 0) + ScopeCost(size)
    + (if resolved == Build then BuildCost(x.buildType) + (if x.postBuildReview then 200 else 0) else 0)
  }

  datatype Qualification = Qualification(supported: bool, resolved: WorkType, size: Size)

  /** A blocked intake keeps the type it asked for and counts as small.  A routed one is supported unless it turns out
      to be a build without a description. */
  ghost function Qualified(x: Intake, lower: string -> string, inspect: string -> Preview): Qualification {
    if Blocked(x, inspect) then Qualification(false, x.workType, Small)
    else
      var resolved := Resolve(x, lower);
      Qualification(!(resolved == Build && x.description == ""), resolved, SizeOf(ScopeScore(x, resolved)))
  }

  ghost function PlannedCost(x: Intake, lower: string -> string, inspect: string -> Preview): nat {
    var q := Qualified(x, lower, inspect);
    ItemsCost(x) + RouteCost(x, q.resolved, q.size)
  }

  // ---------------------------------------------------------------- prices

  /** What one more of anything adds to the price of the items: 0.80 for a target file up to the sixth, 0.70 for an
      operation up to the eighth, 1.10 for a criterion up to the sixth and 0.60 more for a structured one up to the
      fourth, 0.40 for a focus area up to the fourth; asking for nothing costs nothing. */
  lemma ItemPrices(x: Intake, file: string, op: Operation, c: Criterion, area: string)
    ensures x.targetFiles == [] && x.plan == [] && x.criteria == [] && x.focusAreas == [] ==> ItemsCost(x) == 0
    ensures ItemsCost(x.(targetFiles := x.targetFiles + [file]))
            == ItemsCost(x) + if |x.targetFiles| < 6 then 80 else 0
    ensures ItemsCost(x.(plan := x.plan + [op])) == ItemsCost(x) + if |x.plan| < 8 then 70 else 0
    ensures ItemsCost(x.(criteria := x.criteria + [c]))
            == ItemsCost(x) + (if |x.criteria| < 6 then 110 else 0)
               + if c.structured && Structured(x.criteria) < 4 then 60 else 0
    ensures ItemsCost(x.(focusAreas := x.focusAreas + [area]))
            == ItemsCost(x) + if |x.focusAreas| < 4 then 40 else 0
  {
    StructuredSnoc(x.criteria, c);
  }

  /** What one more of anything adds to the scope: one, up to four files, four operations, four criteria, two structured
      ones and three focus areas. */
  lemma ItemScopes(x: Intake, file: string, op: Operation, c: Criterion, area: string)
    ensures x.targetFiles == [] && x.plan == [] && x.criteria == [] && x.focusAreas == [] ==> ItemsScore(x) == 0
    ensures ItemsScore(x.(targetFiles := x.targetFiles + [file]))
            == ItemsScore(x) + if |x.targetFiles| < 4 then 1 else 0
    ensures ItemsScore(x.(plan := x.plan + [op])) == ItemsScore(x) + if |x.plan| < 4 then 1 else 0
    ensures ItemsScore(x.(criteria := x.criteria + [c]))
            == ItemsScore(x) + (if |x.criteria| < 4 then 1 else 0)
               + if c.structured && Structured(x.criteria) < 2 then 1 else 0
    ensures ItemsScore(x.(focusAreas := x.focusAreas + [area]))
            == ItemsScore(x) + if |x.focusAreas| < 3 then 1 else 0
  {
    StructuredSnoc(x.criteria, c);
  }

  /** The number of structured criteria goes up with each of them. */
  lemma {:induction false} StructuredSnoc(cs: seq<Criterion>, c: Criterion)
    ensures Structured(cs + [c]) == Structured(cs) + if c.structured then 1 else 0
    ensures Structured([]) == 0
  {
    if cs != [] {
      StructuredSnoc(cs[1..], c);
      assert (cs + [c])[1..] == cs[1..] + [c];
    }
  }

  /** A routed review costs 1.50 and a build 6.00, 10.00, 9.00 or 7.00 by its type, 2.00 more with a review after it; a
      diff adds 1.00, a medium scope 2.50, a large one 6.00. */
  lemma RoutePrices(x: Intake, size: Size)
    ensures var diff := if x.diffSpec != "" then 100 else 0;
            var scope := if size == Large then 600 else if size == Medium then 250 else 0;
            && RouteCost(x, Review, size) == 150 + diff + scope
            && RouteCost(x, Build, size)
               == diff + scope + (if x.postBuildReview then 200 else 0)
                  + if x.buildType == Implementation then 600 else if x.buildType == Testing then 700
                    else if x.buildType == Devops then 900 else 1000
  {
  }

  /** An intake becomes a build exactly when it asks for one, or leaves its type open, has no diff, and names files,
      operations or criteria or describes something with a build word; every other one becomes a review. */
  lemma BuildsExactlyWhen(x: Intake, lower: string -> string)
    ensures Resolve(x, lower) == Build
            <==> x.workType == Build
                 || (x.workType == Auto && x.diffSpec == ""
                     && (x.targetFiles != [] || x.plan != [] || x.criteria != []
                         || exists h :: h in BUILD_HINTS && ContainsText(lower(x.description), h)))
    ensures Resolve(x, lower) == Build || Resolve(x, lower) == Review
  {
  }

  // ---------------------------------------------------------------- bounded and monotone

  /** An intake that is routed costs between 1.50 and 40.00. */
  lemma CostIsBounded(x: Intake, lower: string -> string, inspect: string -> Preview)
    requires !Blocked(x, inspect)
    ensures 150 <= PlannedCost(x, lower, inspect) <= 4000
  {
    assert Structured(x.criteria) <= |x.criteria|;
    assert Resolve(x, lower) != Auto;
  }

  /** b asks for everything a does, and possibly for more files, operations, criteria and focus areas. */
  ghost predicate Extends(b: Intake, a: Intake) {
    && b == a.(targetFiles := b.targetFiles, plan := b.plan, criteria := b.criteria, focusAreas := b.focusAreas)
    && multiset(a.targetFiles) <= multiset(b.targetFiles) && multiset(a.plan) <= multiset(b.plan)
    && multiset(a.criteria) <= multiset(b.criteria) && multiset(a.focusAreas) <= multiset(b.focusAreas)
  }

  lemma MultisetLength<T>(a: seq<T>, b: seq<T>)
    requires multiset(a) <= multiset(b)
    ensures |a| <= |b|
    ensures forall x :: x in a ==> x in b
  {
    assert multiset(b) == multiset(a) + (multiset(b) - multiset(a));
    assert |multiset(b)| == |multiset(a)| + |multiset(b) - multiset(a)|;
    forall x | x in a
      ensures x in b
    {
      assert x in multiset(a);
      assert x in multiset(b);
    }
  }

  lemma {:induction false} StructuredWithout(b: seq<Criterion>, i: nat)
    requires i < |b|
    ensures Structured(b) == Structured(b[..i] + b[i + 1..]) + if b[i].structured then 1 else 0
  {
    var r := b[..i] + b[i + 1..];
    if i == 0 {
      assert r == b[1..];
    } else {
      StructuredWithout(b[1..], i - 1);
      assert r[1..] == b[1..][..i - 1] + b[1..][i..];
      assert r[0] == b[0];
    }
  }

  lemma {:induction false} StructuredGrows(a: seq<Criterion>, b: seq<Criterion>)
    requires multiset(a) <= multiset(b)
    ensures Structured(a) <= Structured(b)
  {
    if a != [] {
      var i := IndexOf(a, b);
      var r := b[..i] + b[i + 1..];
      RemoveOne(a, b, i);
      StructuredGrows(a[1..], r);
      StructuredWithout(b, i);
    }
  }

  lemma IndexOf<T>(a: seq<T>, b: seq<T>) returns (i: nat)
    requires a != [] && multiset(a) <= multiset(b)
    ensures i < |b| && b[i] == a[0]
  {
    assert a[0] in multiset(a);
    assert a[0] in b;
    i :| 0 <= i < |b| && b[i] == a[0];
  }

  lemma RemoveOne<T>(a: seq<T>, b: seq<T>, i: nat)
    requires a != [] && i < |b| && b[i] == a[0] && multiset(a) <= multiset(b)
    ensures multiset(a[1..]) <= multiset(b[..i] + b[i + 1..])
  {
    assert a == [a[0]] + a[1..];
    assert b == b[..i] + [b[i]] + b[i + 1..];
    assert multiset(a) == multiset{a[0]} + multiset(a[1..]);
    assert multiset(b) == multiset{a[0]} + multiset(b[..i] + b[i + 1..]);
    assert multiset(a[1..]) == multiset(a) - multiset{a[0]};
    assert multiset(b[..i] + b[i + 1..]) == multiset(b) - multiset{a[0]};
  }

  lemma ExtendsGrows(b: Intake, a: Intake)
    requires Extends(b, a)
    ensures |a.targetFiles| <= |b.targetFiles| && |a.plan| <= |b.plan| && |a.criteria| <= |b.criteria|
    ensures |a.focusAreas| <= |b.focusAreas| && Structured(a.criteria) <= Structured(b.criteria)
    ensures forall o :: o in a.plan ==> o in b.plan
    ensures forall c :: c in a.criteria ==> c in b.criteria
  {
    MultisetLength(a.targetFiles, b.targetFiles);
    MultisetLength(a.plan, b.plan);
    MultisetLength(a.criteria, b.criteria);
    MultisetLength(a.focusAreas, b.focusAreas);
    StructuredGrows(a.criteria, b.criteria);
  }

  lemma CappedGrows(n: nat, m: nat, cap: nat)
    requires n <= m
    ensures Capped(n, cap) <= Capped(m, cap)
  {
  }

  lemma ItemsGrow(a: Intake, b: Intake)
    requires Extends(b, a)
    ensures ItemsCost(a) <= ItemsCost(b)
    ensures ItemsScore(a) <= ItemsScore(b)
  {
    ExtendsGrows(b, a);
    hide Capped;
    CappedGrows(|a.targetFiles|, |b.targetFiles|, 6);
    CappedGrows(|a.plan|, |b.plan|, 8);
    CappedGrows(|a.criteria|, |b.criteria|, 6);
    CappedGrows(Structured(a.criteria), Structured(b.criteria), 4);
    CappedGrows(|a.focusAreas|, |b.focusAreas|, 4);
    CappedGrows(|a.targetFiles|, |b.targetFiles|, 4);
    CappedGrows(|a.plan|, |b.plan|, 4);
    CappedGrows(|a.criteria|, |b.criteria|, 4);
    CappedGrows(Structured(a.criteria), Structured(b.criteria), 2);
    CappedGrows(|a.focusAreas|, |b.focusAreas|, 3);
  }

  lemma RouteGrows(a: Intake, b: Intake, ra: WorkType, rb: WorkType)
    requires Extends(b, a) && ra != Auto && rb != Auto && (ra == Build ==> rb == Build)
    ensures RouteCost(a, ra, SizeOf(ScopeScore(a, ra))) <= RouteCost(b, rb, SizeOf(ScopeScore(b, rb)))
  {
    ItemsGrow(a, b);
    ScopeGrows(a, b, ra, rb);
    SizeGrows(ScopeScore(a, ra), ScopeScore(b, rb));
    hide ScopeScore, SizeOf, ScopeCost, BuildCost, ItemsScore, ItemsCost;
  }

  lemma SizeGrows(n: nat, m: nat)
    requires n <= m
    ensures ScopeCost(SizeOf(n)) <= ScopeCost(SizeOf(m))
  {
  }

  lemma ScopeGrows(a: Intake, b: Intake, ra: WorkType, rb: WorkType)
    requires Extends(b, a) && ItemsScore(a) <= ItemsScore(b) && (ra == Build ==> rb == Build)
    ensures ScopeScore(a, ra) <= ScopeScore(b, rb)
  {
    hide ItemsScore;
  }

  lemma ExtensionRoutes(a: Intake, b: Intake, lower: string -> string, inspect: string -> Preview)
    requires Extends(b, a)
    ensures !Blocked(b, inspect) ==> !Blocked(a, inspect)
    ensures Resolve(a, lower) == Build ==> Resolve(b, lower) == Build
    ensures Resolve(a, lower) != Auto
  {
    ExtendsGrows(b, a);
  }

  /** Asking for more does not unblock an intake, and never makes it cheaper while the larger intake is not blocked -
      also when it turns a review into a build or raises the scope. */
  lemma CostIsMonotone(a: Intake, b: Intake, lower: string -> string, inspect: string -> Preview)
    requires Extends(b, a) && !Blocked(b, inspect)
    ensures !Blocked(a, inspect) && PlannedCost(a, lower, inspect) <= PlannedCost(b, lower, inspect)
  {
    ExtensionRoutes(a, b, lower, inspect);
    ExtensionRoutes(b, b, lower, inspect);
    ItemsGrow(a, b);
    RouteGrows(a, b, Resolve(a, lower), Resolve(b, lower));
    hide Blocked, Resolve, ItemsCost, RouteCost, ScopeScore, SizeOf, Extends;
  }

  /** Asking for more, blocked or not, never lowers the estimate. */
  ghost predicate NeverLowered(a: Intake, lower: string -> string, inspect: string -> Preview) {
    forall b :: Extends(b, a) && ReadableCriteria(b) ==>
      PlannedCost(a, lower, inspect) <= PlannedCost(b, lower, inspect)
  }

  /** A route no dearer than the price of the intake when it is blocked. */
  ghost predicate CheapRoute(a: Intake, lower: string -> string) {
    var resolved := Resolve(a, lower);
    var size := SizeOf(ScopeScore(a, resolved));
    if a.workType == Auto then resolved == Review && size != Large else size == Small
  }

  /** An extension can be cheaper exactly when the intake's scope is above small, or its type was left open and it is
      routed to a build or to a large review: an invalid operation then blocks it, which drops the route's price. */
  lemma NeverLoweredExactlyWhen(a: Intake, lower: string -> string, inspect: string -> Preview)
    requires ReadableCriteria(a)
    ensures NeverLowered(a, lower, inspect) <==> Blocked(a, inspect) || CheapRoute(a, lower)
  {
    if Blocked(a, inspect) || CheapRoute(a, lower) {
      forall b | Extends(b, a) && ReadableCriteria(b)
        ensures PlannedCost(a, lower, inspect) <= PlannedCost(b, lower, inspect)
      {
        NotLowered(a, b, lower, inspect);
      }
    } else {
      Lowered(a, lower, inspect);
    }
  }

  /** A build request, and the same with one more operation, which is invalid: 8.70 instead of 10.50. */
  lemma CheaperWhenBlocked(lower: string -> string, inspect: string -> Preview)
    ensures var a := Intake("r", "", "", Build, Implementation, "d", [], [], [], [], true, 1);
            var b := a.(plan := [Operation(false)]);
            && Extends(b, a) && ReadableCriteria(b)
            && PlannedCost(a, lower, inspect) == 1050 && PlannedCost(b, lower, inspect) == 870
  {
    var a := Intake("r", "", "", Build, Implementation, "d", [], [], [], [], true, 1);
    var b := a.(plan := [Operation(false)]);
    assert b.plan[0] == Operation(false);
    assert !IsValid(b);
  }

  lemma NotLowered(a: Intake, b: Intake, lower: string -> string, inspect: string -> Preview)
    requires Extends(b, a) && ReadableCriteria(b) && (Blocked(a, inspect) || CheapRoute(a, lower))
    ensures PlannedCost(a, lower, inspect) <= PlannedCost(b, lower, inspect)
  {
    if !Blocked(b, inspect) {
      CostIsMonotone(a, b, lower, inspect);
    } else {
      ItemsGrow(a, b);
      SameOrCheaperRoute(a, b, lower, inspect);
      hide Blocked, Resolve, ItemsCost, RouteCost, ScopeScore, SizeOf, Extends;
    }
  }

  lemma SameOrCheaperRoute(a: Intake, b: Intake, lower: string -> string, inspect: string -> Preview)
    requires Extends(b, a) && Blocked(b, inspect) && (Blocked(a, inspect) || CheapRoute(a, lower))
    ensures var q := Qualified(a, lower, inspect); RouteCost(a, q.resolved, q.size) <= RouteCost(b, b.workType, Small)
  {
  }

  lemma Lowered(a: Intake, lower: string -> string, inspect: string -> Preview)
    requires ReadableCriteria(a) && !Blocked(a, inspect) && !CheapRoute(a, lower)
    ensures !NeverLowered(a, lower, inspect)
  {
    var b := a.(plan := a.plan + [Operation(false)]);
    assert Blocked(b, inspect) by { assert Operation(false) in b.plan; }
    assert Extends(b, a) && ReadableCriteria(b);
    OneMoreOperation(a, b);
    ExtensionRoutes(a, a, lower, inspect);
    DearRoute(a, b, Resolve(a, lower), SizeOf(ScopeScore(a, Resolve(a, lower))));
    hide Blocked, Resolve, ItemsCost, RouteCost, ScopeScore, SizeOf, Extends;
    assert PlannedCost(b, lower, inspect) < PlannedCost(a, lower, inspect);
  }

  lemma DearRoute(a: Intake, b: Intake, resolved: WorkType, size: Size)
    requires b == a.(plan := b.plan) && resolved != Auto && (a.workType != Auto ==> resolved == a.workType)
    requires if a.workType == Auto then resolved == Build || size == Large else size != Small
    ensures RouteCost(b, b.workType, Small) + 70 < RouteCost(a, resolved, size)
  {
  }

  lemma OneMoreOperation(a: Intake, b: Intake)
    requires b == a.(plan := a.plan + [Operation(false)])
    ensures ItemsCost(b) <= ItemsCost(a) + 70
  {
    assert Capped(|b.plan|, 8) <= Capped(|a.plan|, 8) + 1;
    hide Capped;
  }

  // ---------------------------------------------------------------- the service

  /** Adds up the scope of an intake. */
  method ScopeProfile(x: Intake, resolved: WorkType) returns (score: nat, size: Size)
    ensures score == ScopeScore(x, resolved) && size == SizeOf(score)
    ensures score == ItemsScore(x) + (if x.diffSpec != "" then 2 else 0)
                     + (if x.repoPath == "" && x.gitUrl != "" then 1 else 0)
                     + if resolved != Build then 0 else if x.postBuildReview then 3 else 2
    ensures (size == Small <==> score < 3) && (size == Large <==> score >= 7)
  {
    hide ItemsScore;
    score := 0;
    if x.repoPath != "" {
    } else if x.gitUrl != "" {
      score := score + 1;
    }
    if x.diffSpec != "" {
      score := score + 2;
    }
    var items := ScopeOfItems(x);
    score := score + items;
    if resolved == Build {
      score := score + 2;
    }
    if resolved == Build && x.postBuildReview {
      score := score + 1;
    }
    size := if score <= 2 then Small else if score <= 6 then Medium else Large;
  }

  method ScopeOfItems(x: Intake) returns (score: nat)
    ensures score == ItemsScore(x)
  {
    hide Capped;
    score := 0;
    var structured := CountStructured(x.criteria);
    if x.targetFiles != [] {
      score := score + Capped(|x.targetFiles|, 4);
    }
    if x.plan != [] {
      score := score + Capped(|x.plan|, 4);
    }
    if x.criteria != [] {
      score := score + Capped(|x.criteria|, 4);
      if structured != 0 {
        score := score + Capped(structured, 2);
      }
    }
    if x.focusAreas != [] {
      score := score + Capped(|x.focusAreas|, 3);
    }
  }

  method CountStructured(cs: seq<Criterion>) returns (n: nat)
    ensures n == Structured(cs)
  {
    n := 0;
    for i := |cs| downto 0
      invariant n == Structured(cs[i..])
    {
      assert cs[i..][1..] == cs[i + 1..];
      if cs[i].structured {
        n := n + 1;
      }
    }
    assert cs[0..] == cs;
  }

  method Validates(x: Intake) returns (ok: bool)
    ensures ok <==> IsValid(x)
  {
    ok := true;
    if x.repoPath == "" && x.gitUrl == "" {
      ok := false;
    }
    if x.repoPath != "" && ContainsText(x.repoPath, "..") {
      ok := false;
    }
    if x.maxFiles < 1 {
      ok := false;
    }
    if x.workType == Build && x.description == "" {
      ok := false;
    }
    for i := 0 to |x.plan|
      invariant ok <==> (x.repoPath != "" || x.gitUrl != "") && !(x.repoPath != "" && ContainsText(x.repoPath, ".."))
                        && x.maxFiles >= 1 && !(x.workType == Build && x.description == "")
                        && forall j :: 0 <= j < i ==> x.plan[j].valid
    {
      if !x.plan[i].valid {
        ok := false;
      }
    }
    ghost var before := ok;
    for i := 0 to |x.criteria|
      invariant ok <==> before && forall j :: 0 <= j < i ==> x.criteria[j].valid
    {
      if !x.criteria[i].valid {
        ok := false;
      }
    }
  }

  /** Validates, inspects the source, then routes. */
  method Qualify(x: Intake, lower: string -> string, inspect: string -> Preview) returns (q: Qualification)
    ensures q == Qualified(x, lower, inspect)
    ensures q.supported <==> !Blocked(x, inspect) && (x.description == "" ==> Resolve(x, lower) == Review)
    ensures Blocked(x, inspect) ==> q.resolved == x.workType && q.size == Small
    ensures !Blocked(x, inspect) ==> q.resolved == Resolve(x, lower) && q.size == SizeOf(ScopeScore(x, q.resolved))
  {
    var valid := Validates(x);
    q := Qualification(false, x.workType, Small);
    if x.repoPath == "" && x.gitUrl != "" {
      var preview := inspect(x.gitUrl);
      if !preview.supported || preview.blocked {
        return;
      }
    }
    if !valid {
      return;
    }
    var resolved := Resolve(x, lower);
    var score, size := ScopeProfile(x, resolved);
    q := Qualification(true, resolved, size);
    if resolved == Build && x.description == "" {
      q := q.(supported := false);
    }
  }

  /** An intake with a criterion that cannot be read has no estimate: reading it raises. */
  method EstimatePlannedCost(x: Intake, q: Qualification) returns (amount: Option<nat>)
    ensures amount == if ReadableCriteria(x) then Some(ItemsCost(x) + RouteCost(x, q.resolved, q.size)) else None
  {
    if exists c <- x.criteria :: !c.valid {
      return None;
    }
    hide Capped;
    var structured := CountStructured(x.criteria);
    var cents: int := if q.resolved == Review then 150 else 400;
    cents := cents + Capped(|x.targetFiles|, 6) * 80;
    cents := cents + Capped(|x.plan|, 8) * 70;
    cents := cents + Capped(|x.criteria|, 6) * 110;
    cents := cents + Capped(structured, 4) * 60;
    cents := cents + Capped(|x.focusAreas|, 4) * 40;
    if x.diffSpec != "" {
      cents := cents + 100;
    }
    if q.size == Medium {
      cents := cents + 250;
    } else if q.size == Large {
      cents := cents + 600;
    }
    if q.resolved == Build {
      cents := cents + 200;
      if x.buildType == Integration {
        cents := cents + 400;
      } else if x.buildType == Devops {
        cents := cents + 300;
      } else if x.buildType == Testing {
        cents := cents + 100;
      }
    }
    if x.postBuildReview && q.resolved == Build {
      cents := cents + 200;
    }
    amount := Some(cents);
  }

  /** The estimate of a plan: bounded whenever the intake is routed. */
  method PlanCost(x: Intake, lower: string -> string, inspect: string -> Preview) returns (amount: Option<nat>)
    ensures amount == if ReadableCriteria(x) then Some(PlannedCost(x, lower, inspect)) else None
    ensures !Blocked(x, inspect) ==> amount.Some? && 150 <= amount.value <= 4000
  {
    var q := Qualify(x, lower, inspect);
    amount := EstimatePlannedCost(x, q);
    if !Blocked(x, inspect) { CostIsBounded(x, lower, inspect); }
  }
}
