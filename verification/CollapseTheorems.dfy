/** What collapsing a page keeps: every hit, the ranking, the scores, and honest labels. */
module CollapseTheorems {
  import opened CodeUnits
  import opened Outcomes
  import opened CollapseModel
  import opened Texts
  import opened VerseId
  import Runs = CollapseRuns
  import Sorting

  // ---- conservation ---------------------------------------------------------

  /** The hits an output row still shows: its `verses`, or itself. */
  function Carried(row: Row): seq<Hit> {
    if row.verses.Some? then row.verses.value
    else if row.reference.Given? then [Hit(row.targetId, row.reference.text, row.excerpt, row.score, row.reasons)]
    else []
  }

  function AllCarried(rows: seq<Row>): seq<Hit> {
    if rows == [] then [] else AllCarried(rows[..|rows| - 1]) + Carried(rows[|rows| - 1])
  }

  /** The results among the first `n` whose group is in `groups`. */
  ghost function Gathered(results: seq<Hit>, keys: seq<GroupKey>, groups: set<GroupKey>, n: nat): multiset<Hit>
    requires n <= |results| == |keys|
  {
    if n == 0 then multiset{}
    else Gathered(results, keys, groups, n - 1) + if keys[n - 1] in groups then multiset{results[n - 1]} else multiset{}
  }

  ghost function GroupsBefore(keys: seq<GroupKey>, n: nat): set<GroupKey>
    requires n <= |keys|
  {
    set j | 0 <= j < n :: keys[j]
  }

  lemma {:induction false} GatheredStep(results: seq<Hit>, keys: seq<GroupKey>, groups: set<GroupKey>, n: nat)
    requires 0 < n <= |results| == |keys|
    ensures Gathered(results, keys, groups, n)
         == Gathered(results, keys, groups, n - 1) + if keys[n - 1] in groups then multiset{results[n - 1]} else multiset{}
  {
  }

  lemma Regrouped(all: multiset<Hit>, before: multiset<Hit>, group: seq<Hit>, x: Hit)
    requires all == before + multiset(group)
    ensures all + multiset{x} == before + multiset(group + [x])
    ensures all + multiset{x} == (before + multiset{x}) + multiset(group)
  {
  }

  /** A result of the new group joins it; any other result stays where it was. */
  lemma {:induction false} GatherOneStep(results: seq<Hit>, keys: seq<GroupKey>, groups: set<GroupKey>,
                                         key: GroupKey, n: nat)
    requires 0 < n <= |results| == |keys| && key !in groups
    requires Gathered(results, keys, groups + {key}, n - 1)
          == Gathered(results, keys, groups, n - 1) + multiset(Group(results, keys, key, n - 1))
    ensures Gathered(results, keys, groups + {key}, n)
         == Gathered(results, keys, groups, n) + multiset(Group(results, keys, key, n))
  {
    GatheredStep(results, keys, groups, n);
    GatheredStep(results, keys, groups + {key}, n);
    Regrouped(Gathered(results, keys, groups + {key}, n - 1), Gathered(results, keys, groups, n - 1),
              Group(results, keys, key, n - 1), results[n - 1]);
    if keys[n - 1] == key {
      assert Group(results, keys, key, n) == Group(results, keys, key, n - 1) + [results[n - 1]];
    } else {
      assert Group(results, keys, key, n) == Group(results, keys, key, n - 1);
    }
  }

  lemma {:induction false} GatherOneMore(results: seq<Hit>, keys: seq<GroupKey>, groups: set<GroupKey>,
                                         key: GroupKey, n: nat)
    requires n <= |results| == |keys| && key !in groups
    ensures Gathered(results, keys, groups + {key}, n)
         == Gathered(results, keys, groups, n) + multiset(Group(results, keys, key, n))
  {
    if n > 0 {
      GatherOneMore(results, keys, groups, key, n - 1);
      GatherOneStep(results, keys, groups, key, n);
    }
  }

  lemma {:induction false} GatherAll(results: seq<Hit>, keys: seq<GroupKey>, groups: set<GroupKey>, n: nat)
    requires n <= |results| == |keys| && forall j :: 0 <= j < n ==> keys[j] in groups
    ensures Gathered(results, keys, groups, n) == multiset(results[..n])
  {
    if n > 0 {
      GatherAll(results, keys, groups, n - 1);
      assert results[..n] == results[..n - 1] + [results[n - 1]];
    }
  }

  lemma {:induction false} GatherNone(results: seq<Hit>, keys: seq<GroupKey>, n: nat)
    requires n <= |results| == |keys|
    ensures Gathered(results, keys, {}, n) == multiset{}
  {
    if n > 0 { GatherNone(results, keys, n - 1); }
  }

  /** The provenance of every span on the page is known. */
  ghost predicate Explained(p: Page) {
    forall i, s :: 0 <= i < |p.results| && s in p.SpansAt(i) ==> s in p.spanInfo
  }

  lemma AloneIsItsGroup(p: Page, keys: seq<GroupKey>, i: nat)
    requires p.Keyed(keys) && i < |keys| && keys[i].Alone?
    ensures p.GroupAt(keys, i) == [p.results[i]]
  {
    forall j | 0 <= j < |keys| ensures keys[j] == keys[i] <==> i <= j < i + 1 {
      assert p.KeyAt(i) == keys[i] && p.KeyAt(j) == keys[j];
    }
    Runs.GroupOfInterval(p.results, keys, keys[i], i, i + 1, |keys|);
  }

  /** The row shows the hits of the group, each as often as it occurs. */
  ghost predicate Shows(row: Row, group: seq<Hit>) {
    multiset(Carried(row)) == multiset(group)
  }

  lemma RowShowsItsGroup(p: Page, keys: seq<GroupKey>, i: nat)
    requires p.Keyed(keys) && i < |keys| && Explained(p)
    ensures Shows(p.RowAt(keys, i), p.GroupAt(keys, i))
  {
    assert p.KeyAt(i) == keys[i];
    if keys[i].Alone? {
      AloneIsItsGroup(p, keys, i);
    } else {
      GroupHolds(p.results, keys, i, |keys|);
      var group := p.GroupAt(keys, i);
      if keys[i].Span? && |group| == 1 { assert group == [p.results[i]]; }
    }
  }

  lemma {:induction false} CarriedGrows(rows: seq<Row>, row: Row)
    ensures multiset(AllCarried(rows + [row])) == multiset(AllCarried(rows)) + multiset(Carried(row))
  {
    assert (rows + [row])[..|rows + [row]| - 1] == rows;
  }

  lemma GroupsGrow(keys: seq<GroupKey>, n: nat)
    requires 0 < n <= |keys|
    ensures GroupsBefore(keys, n) == GroupsBefore(keys, n - 1) + {keys[n - 1]}
    ensures keys[n - 1] in GroupsBefore(keys, n - 1) <==> !Leads(keys, n - 1)
  {
  }

  /** The rows of the leaders among the first `n`. */
  ghost function Picked(rows: seq<Row>, keys: seq<GroupKey>, n: nat): seq<Row>
    requires n <= |rows| == |keys|
  {
    if n == 0 then [] else Picked(rows, keys, n - 1) + if Leads(keys, n - 1) then [rows[n - 1]] else []
  }

  lemma {:induction false} EmittedArePicked(p: Page, keys: seq<GroupKey>, rows: seq<Row>, n: nat)
    requires p.Keyed(keys) && n <= |rows| == |keys|
    requires forall i :: 0 <= i < |keys| ==> rows[i] == p.RowAt(keys, i)
    ensures p.Emitted(keys, n) == Picked(rows, keys, n)
  {
    if n > 0 { EmittedArePicked(p, keys, rows, n - 1); }
  }

  /** Every row shows its group. */
  ghost predicate AllShow(results: seq<Hit>, keys: seq<GroupKey>, rows: seq<Row>) {
    |results| == |keys| == |rows|
    && forall i {:trigger ShowsAt(results, keys, rows, i)} :: 0 <= i < |keys| ==> ShowsAt(results, keys, rows, i)
  }

  ghost predicate ShowsAt(results: seq<Hit>, keys: seq<GroupKey>, rows: seq<Row>, i: nat)
    requires |results| == |keys| == |rows| && i < |keys|
  {
    Shows(rows[i], Group(results, keys, keys[i], |keys|))
  }

  /** The row each rank would emit. */
  lemma RowsOfPage(p: Page, keys: seq<GroupKey>) returns (rows: seq<Row>)
    requires p.Keyed(keys) && Explained(p)
    ensures AllShow(p.results, keys, rows) && p.Emitted(keys, |keys|) == Picked(rows, keys, |keys|)
  {
    rows := seq(|keys|, i requires 0 <= i < |keys| => p.RowAt(keys, i));
    EmittedArePicked(p, keys, rows, |keys|);
    forall i | 0 <= i < |keys| ensures ShowsAt(p.results, keys, rows, i) { RowShowsItsGroup(p, keys, i); }
  }

  lemma {:induction false} GatheredGrows(results: seq<Hit>, keys: seq<GroupKey>, n: nat)
    requires 0 < n <= |keys| == |results|
    ensures Gathered(results, keys, GroupsBefore(keys, n), |keys|)
         == Gathered(results, keys, GroupsBefore(keys, n - 1), |keys|)
          + if Leads(keys, n - 1) then multiset(Group(results, keys, keys[n - 1], |keys|)) else multiset{}
  {
    GroupsGrow(keys, n);
    var before := GroupsBefore(keys, n - 1);
    if keys[n - 1] in before {
      assert GroupsBefore(keys, n) == before;
    } else {
      GatherOneMore(results, keys, before, keys[n - 1], |keys|);
    }
  }

  lemma {:induction false} PickedStep(rows: seq<Row>, keys: seq<GroupKey>, n: nat)
    requires 0 < n <= |rows| == |keys|
    ensures Leads(keys, n - 1) ==> Picked(rows, keys, n) == Picked(rows, keys, n - 1) + [rows[n - 1]]
    ensures !Leads(keys, n - 1) ==> Picked(rows, keys, n) == Picked(rows, keys, n - 1)
  {
  }

  lemma {:induction false} PickedCarry(results: seq<Hit>, keys: seq<GroupKey>, rows: seq<Row>, n: nat)
    requires AllShow(results, keys, rows) && 0 < n <= |keys|
    ensures multiset(AllCarried(Picked(rows, keys, n)))
         == multiset(AllCarried(Picked(rows, keys, n - 1)))
          + if Leads(keys, n - 1) then multiset(Group(results, keys, keys[n - 1], |keys|)) else multiset{}
  {
    PickedStep(rows, keys, n);
    if Leads(keys, n - 1) {
      CarriedGrows(Picked(rows, keys, n - 1), rows[n - 1]);
      assert ShowsAt(results, keys, rows, n - 1);
    }
  }

  /** What the first `n` rows carry is what the groups met by then gather. */
  ghost predicate Balanced(results: seq<Hit>, keys: seq<GroupKey>, rows: seq<Row>, n: nat)
    requires |results| == |keys| == |rows| && n <= |keys|
  {
    multiset(AllCarried(Picked(rows, keys, n))) == Gathered(results, keys, GroupsBefore(keys, n), |keys|)
  }

  lemma {:induction false} NothingYet(results: seq<Hit>, keys: seq<GroupKey>, rows: seq<Row>, n: nat)
    requires |results| == |keys| == |rows| && n == 0
    ensures Balanced(results, keys, rows, n)
  {
    GatherNone(results, keys, |keys|);
    assert GroupsBefore(keys, n) == {};
    assert Picked(rows, keys, n) == [] && AllCarried([]) == [];
  }

  lemma {:induction false} BalanceKept(results: seq<Hit>, keys: seq<GroupKey>, rows: seq<Row>, n: nat)
    requires AllShow(results, keys, rows) && 0 < n <= |keys| && Balanced(results, keys, rows, n - 1)
    ensures Balanced(results, keys, rows, n)
  {
    GatheredGrows(results, keys, n);
    PickedCarry(results, keys, rows, n);
  }

  lemma {:induction false} CarriedSoFar(results: seq<Hit>, keys: seq<GroupKey>, rows: seq<Row>, n: nat)
    requires AllShow(results, keys, rows) && n <= |keys|
    ensures forall k {:trigger Balanced(results, keys, rows, k)} :: 0 <= k <= n ==> Balanced(results, keys, rows, k)
    decreases n
  {
    if n == 0 {
      NothingYet(results, keys, rows, n);
    } else {
      CarriedSoFar(results, keys, rows, n - 1);
      BalanceKept(results, keys, rows, n);
    }
  }

  /** Nothing is lost and nothing is shown twice: the rows carry a permutation of the input. */
  lemma Conservation(p: Page, keys: seq<GroupKey>)
    requires p.Keyed(keys) && Explained(p)
    ensures multiset(AllCarried(p.Emitted(keys, |keys|))) == multiset(p.results)
  {
    var rows := RowsOfPage(p, keys);
    CarriedSoFar(p.results, keys, rows, |keys|);
    assert Balanced(p.results, keys, rows, |keys|);
    GatherAll(p.results, keys, GroupsBefore(keys, |keys|), |keys|);
    assert p.results[..|keys|] == p.results;
  }

  // ---- ranking and scores ---------------------------------------------------

  /** The ranks below `n` that emit a row. */
  ghost function Leaders(keys: seq<GroupKey>, n: nat): (ranks: seq<nat>)
    requires n <= |keys|
    ensures forall r :: 0 <= r < |ranks| ==> ranks[r] < n && Leads(keys, ranks[r])
    ensures forall r, q :: 0 <= r < q < |ranks| ==> ranks[r] < ranks[q]
  {
    if n == 0 then [] else Leaders(keys, n - 1) + if Leads(keys, n - 1) then [n - 1] else []
  }

  lemma {:induction false} RowsFollowLeaders(p: Page, keys: seq<GroupKey>, n: nat)
    requires p.Keyed(keys) && n <= |keys|
    ensures |p.Emitted(keys, n)| == |Leaders(keys, n)|
    ensures forall r :: 0 <= r < |Leaders(keys, n)| ==> p.Emitted(keys, n)[r] == p.RowAt(keys, Leaders(keys, n)[r])
  {
    if n > 0 {
      RowsFollowLeaders(p, keys, n - 1);
      var rows, leaders := p.Emitted(keys, n - 1), Leaders(keys, n - 1);
      if Leads(keys, n - 1) {
        assert p.Emitted(keys, n) == rows + [p.RowAt(keys, n - 1)] && Leaders(keys, n) == leaders + [n - 1];
      } else {
        assert p.Emitted(keys, n) == rows && Leaders(keys, n) == leaders;
      }
    }
  }

  /** Every result has exactly one emitting rank for its group, and that rank is the best of the group. */
  lemma {:induction false} OneLeaderEach(keys: seq<GroupKey>, i: nat) returns (leader: nat)
    requires i < |keys|
    ensures leader <= i && keys[leader] == keys[i] && Leads(keys, leader)
    ensures forall other :: 0 <= other < |keys| && keys[other] == keys[i] ==>
      leader <= other && (Leads(keys, other) ==> other == leader)
  {
    if Leads(keys, i) {
      leader := i;
    } else {
      var j :| 0 <= j < i && keys[j] == keys[i];
      leader := OneLeaderEach(keys, j);
    }
    assert forall other :: 0 <= other < leader ==> keys[other] != keys[leader];
  }

  /** Output targets are a subsequence of the input's: rows keep the rank order of their best members. */
  lemma RowsKeepRankOrder(p: Page, keys: seq<GroupKey>)
    requires p.Keyed(keys)
    ensures |p.Emitted(keys, |keys|)| == |Leaders(keys, |keys|)|
    ensures forall r :: 0 <= r < |Leaders(keys, |keys|)| ==>
      p.Emitted(keys, |keys|)[r].targetId == p.results[Leaders(keys, |keys|)[r]].targetId
  {
    RowsFollowLeaders(p, keys, |keys|);
    var leaders := Leaders(keys, |keys|);
    forall r | 0 <= r < |leaders|
      ensures p.RowAt(keys, leaders[r]).targetId == p.results[leaders[r]].targetId
    {
      assert p.KeyAt(leaders[r]) == keys[leaders[r]];
    }
  }

  ghost predicate ScoresDescend(p: Page) {
    forall i, j :: 0 <= i <= j < |p.results| ==> p.results[i].score >= p.results[j].score
  }

  lemma LeaderHasMaxScore(p: Page, keys: seq<GroupKey>, i: nat)
    requires p.Keyed(keys) && i < |keys| && Leads(keys, i) && ScoresDescend(p)
    ensures p.RowAt(keys, i).score == p.results[i].score
  {
    assert p.KeyAt(i) == keys[i];
    if !keys[i].Alone? {
      var group := p.GroupAt(keys, i);
      GroupHolds(p.results, keys, i, |keys|);
      GroupComesFrom(p.results, keys, keys[i], |keys|);
      forall k | 0 <= k < |group| ensures group[k].score <= p.results[i].score {
        assert group[k] in group;
        var j :| 0 <= j < |keys| && keys[j] == keys[i] && p.results[j] == group[k];
        assert i <= j;
      }
      GroupIsLocated(p, keys, i);
      var m := MaxScore(group);
      var k :| 0 <= k < |group| && group[k] == p.results[i];
      assert m == p.results[i].score;
    }
  }

  /** Grouping adds zero points: a row scores what its leader scored, so the page stays ordered. */
  lemma GroupingAddsNoPoints(p: Page, keys: seq<GroupKey>)
    requires p.Keyed(keys) && ScoresDescend(p)
    ensures |p.Emitted(keys, |keys|)| == |Leaders(keys, |keys|)|
    ensures forall r :: 0 <= r < |Leaders(keys, |keys|)| ==>
      p.Emitted(keys, |keys|)[r].score == p.results[Leaders(keys, |keys|)[r]].score
    ensures forall r, q :: 0 <= r <= q < |Leaders(keys, |keys|)| ==>
      p.Emitted(keys, |keys|)[r].score >= p.Emitted(keys, |keys|)[q].score
  {
    RowsFollowLeaders(p, keys, |keys|);
    var leaders := Leaders(keys, |keys|);
    forall r | 0 <= r < |leaders| ensures p.RowAt(keys, leaders[r]).score == p.results[leaders[r]].score {
      LeaderHasMaxScore(p, keys, leaders[r]);
    }
  }

  // ---- merged reasons -------------------------------------------------------

  lemma OutranksSorts()
    ensures Sorting.StrictWeak(Outranks)
    ensures forall a: Reason, b: Reason :: a.name != b.name ==> Outranks(a, b) || Outranks(b, a)
  {
    LessSorts();
    forall a, b, c | !Outranks(a, b) && !Outranks(b, c) ensures !Outranks(a, c) {
      if a.points == b.points == c.points { assert !Less(a.name, b.name) && !Less(b.name, c.name); }
    }
  }

  /** Reason `k` is the strongest of its label, and the first one that strong. */
  ghost predicate StrongestAt(reasons: seq<Reason>, k: nat)
    requires k < |reasons|
  {
    forall j :: 0 <= j < |reasons| && reasons[j].name == reasons[k].name ==>
      reasons[j].points <= reasons[k].points && (j < k ==> reasons[j].points < reasons[k].points)
  }

  ghost predicate StrongestOfLabel(reasons: seq<Reason>, r: Reason) {
    exists k :: 0 <= k < |reasons| && reasons[k] == r && StrongestAt(reasons, k)
  }

  lemma StrongestSurvives(before: seq<Reason>, last: Reason, r: Reason)
    requires StrongestOfLabel(before, r) && (last.name == r.name ==> last.points <= r.points)
    ensures StrongestOfLabel(before + [last], r)
  {
    var k :| 0 <= k < |before| && before[k] == r && StrongestAt(before, k);
    assert (before + [last])[k] == r && StrongestAt(before + [last], k);
  }

  lemma NewcomerIsStrongest(before: seq<Reason>, last: Reason)
    requires forall j :: 0 <= j < |before| && before[j].name == last.name ==> before[j].points < last.points
    ensures StrongestOfLabel(before + [last], last)
  {
    assert (before + [last])[|before|] == last && StrongestAt(before + [last], |before|);
  }

  /** What the `byLabel` map knows about the reasons it has met. */
  ghost predicate Summarises(reasons: seq<Reason>, byLabel: ByLabel) {
    && (forall l :: l in byLabel.best ==> byLabel.best[l].name == l && StrongestOfLabel(reasons, byLabel.best[l]))
    && (forall j :: 0 <= j < |reasons| ==> reasons[j].name in byLabel.best)
  }

  lemma AdmitSummarises(before: seq<Reason>, byLabel: ByLabel, last: Reason)
    requires Summarises(before, byLabel)
    ensures Summarises(before + [last], byLabel.Admit(last))
  {
    var byLabel' := byLabel.Admit(last);
    if last.name in byLabel.best {
      var k :| 0 <= k < |before| && before[k] == byLabel.best[last.name] && StrongestAt(before, k);
    }
    if last.name !in byLabel.best || last.points > byLabel.best[last.name].points {
      NewcomerIsStrongest(before, last);
    }
    forall l | l in byLabel'.best
      ensures byLabel'.best[l].name == l && StrongestOfLabel(before + [last], byLabel'.best[l])
    {
      if l in byLabel.best && byLabel'.best[l] == byLabel.best[l] {
        StrongestSurvives(before, last, byLabel.best[l]);
      }
    }
  }

  lemma {:induction false} GroupedSummarises(reasons: seq<Reason>)
    ensures Summarises(reasons, Grouped(reasons))
  {
    if reasons != [] {
      var front, last := reasons[..|reasons| - 1], reasons[|reasons| - 1];
      assert front + [last] == reasons && Grouped(reasons) == Grouped(front).Admit(last);
      GroupedSummarises(front);
      AdmitSummarises(front, Grouped(front), last);
    }
  }

  ghost predicate Labelled(chips: seq<Reason>, name: Str) {
    exists r :: r in chips && r.name == name
  }

  /** One strongest reason per label of the group, and no label twice. */
  ghost predicate OnePerLabel(reasons: seq<Reason>, chips: seq<Reason>) {
    && (forall r :: r in chips ==> StrongestOfLabel(reasons, r))
    && (forall j :: 0 <= j < |reasons| ==> Labelled(chips, reasons[j].name))
    && (forall r, q :: r in chips && q in chips && r.name == q.name ==> r == q)
  }

  lemma ValuesArePerLabel(reasons: seq<Reason>)
    ensures OnePerLabel(reasons, Grouped(reasons).Values())
    ensures Sorting.Distinct(Grouped(reasons).Values())
  {
    GroupedSummarises(reasons);
    ValuesStandForLabels(reasons, Grouped(reasons), Grouped(reasons).Values());
    ValuesCoverLabels(reasons, Grouped(reasons), Grouped(reasons).Values());
  }

  lemma ValuesStandForLabels(reasons: seq<Reason>, grouped: ByLabel, values: seq<Reason>)
    requires grouped.Valid() && values == grouped.Values() && Summarises(reasons, grouped)
    requires forall l :: l in grouped.best <==> l in grouped.order
    ensures forall r :: r in values ==> StrongestOfLabel(reasons, r)
    ensures forall r, q :: r in values && q in values && r.name == q.name ==> r == q
    ensures Sorting.Distinct(values)
  {
    forall k | 0 <= k < |values|
      ensures values[k].name == grouped.order[k] && StrongestOfLabel(reasons, values[k])
    {
      assert grouped.order[k] in grouped.best;
    }
    forall r, q | r in values && q in values && r.name == q.name ensures r == q {
      var i :| 0 <= i < |values| && values[i] == r;
      var j :| 0 <= j < |values| && values[j] == q;
      assert grouped.order[i] == grouped.order[j];
    }
    forall i, j | 0 <= i < j < |values| ensures values[i] != values[j] {
      assert grouped.order[i] != grouped.order[j];
    }
  }

  lemma ValuesCoverLabels(reasons: seq<Reason>, grouped: ByLabel, values: seq<Reason>)
    requires grouped.Valid() && values == grouped.Values() && Summarises(reasons, grouped)
    requires forall l :: l in grouped.best <==> l in grouped.order
    ensures forall j :: 0 <= j < |reasons| ==> Labelled(values, reasons[j].name)
  {
    forall j | 0 <= j < |reasons| ensures Labelled(values, reasons[j].name) {
      assert reasons[j].name in grouped.best;
      var k :| 0 <= k < |grouped.order| && grouped.order[k] == reasons[j].name;
      assert values[k] in values && values[k].name == reasons[j].name;
    }
  }

  /**
   * The chips of a merged row: strictly ordered by points then label, one per label of the
   * group, each the strongest its members offered and the earliest of those.
   */
  lemma ReasonsExplainTheGroup(reasons: seq<Reason>)
    ensures Sorting.Increasing(MergedReasons(reasons), Outranks)
    ensures OnePerLabel(reasons, MergedReasons(reasons))
  {
    ValuesArePerLabel(reasons);
    OutranksSorts();
    var values := Grouped(reasons).Values();
    Sorting.SamePresence(values, MergedReasons(reasons));
    Sorting.SortIncreasing(values, Outranks);
  }

  // ---- section runs ---------------------------------------------------------

  /** One past the last result linked on from `i`. */
  ghost function RunEnd(p: Page, i: nat): (end: nat)
    requires i < |p.results|
    ensures i < end <= |p.results| && !p.Linked(end - 1)
    ensures forall k :: i <= k < end - 1 ==> p.Linked(k)
    decreases |p.results| - i
  {
    if p.Linked(i) then RunEnd(p, i + 1) else i + 1
  }

  lemma {:induction false} RunReachesBack(p: Page, i: nat)
    requires i < |p.results|
    ensures !p.Linked(p.RunStart(i) - 1)
    ensures forall k :: p.RunStart(i) <= k < i ==> p.Linked(k)
  {
    if p.Linked(i - 1) { RunReachesBack(p, i - 1); }
  }

  /**
   * A run is a maximal block of rank-neighbours in one section, none claimed by an anchor,
   * each one verse id from the next.
   */
  lemma RunIsMaximalBlock(p: Page, keys: seq<GroupKey>, i: nat)
    requires p.Keyed(keys) && i < |keys| && keys[i].Run?
    ensures var lo := keys[i].start; lo <= i < RunEnd(p, lo)
    ensures var lo := keys[i].start; RunEnd(p, lo) - lo >= 2 && p.GroupAt(keys, i) == p.results[lo..RunEnd(p, lo)]
    ensures var lo := keys[i].start; !p.Linked(lo - 1) && !p.Linked(RunEnd(p, lo) - 1)
    ensures var lo := keys[i].start; forall k :: lo <= k < RunEnd(p, lo) - 1 ==> p.Linked(k)
    ensures var lo := keys[i].start; forall k :: lo <= k < RunEnd(p, lo) ==>
      && p.Sectioned(lo) && p.Sectioned(k) && !p.Anchored(k)
      && p.SectionAt(k).span.startVerseId == p.SectionAt(lo).span.startVerseId
  {
    assert p.KeyAt(i) == keys[i];
    var lo := keys[i].start;
    RunReachesBack(p, i);
    var hi := RunEnd(p, lo);
    Runs.BlockIsRun(p, keys, lo, hi);
    OneSection(p, lo, hi);
  }

  lemma {:induction false} OneSection(p: Page, lo: nat, hi: nat)
    requires lo + 1 < hi <= |p.results| && forall k :: lo <= k < hi - 1 ==> p.Linked(k)
    ensures p.Sectioned(lo)
    ensures forall k :: lo <= k < hi ==>
      p.Sectioned(k) && !p.Anchored(k) && p.SectionAt(k).span.startVerseId == p.SectionAt(lo).span.startVerseId
  {
    assert p.Linked(lo);
    if lo + 2 < hi {
      OneSection(p, lo, hi - 1);
      assert p.Linked(hi - 2);
    }
  }

  /** No two results carry the same verse. */
  ghost predicate DistinctVerses(p: Page) {
    forall i, j :: 0 <= i < j < |p.results| && p.Known(i) && p.Known(j) ==> p.VerseAt(i).verseId != p.VerseAt(j).verseId
  }

  function Shift(up: bool, n: int): int {
    if up then n else -n
  }

  /** The verse ids of a block move steadily: always up by one, or always down by one. */
  ghost predicate Steady(p: Page, lo: nat, hi: nat, up: bool)
    requires lo < hi <= |p.results|
  {
    forall k :: lo <= k < hi ==> p.Known(k) && p.Known(lo) && p.VerseAt(k).verseId == p.VerseAt(lo).verseId + Shift(up, k - lo)
  }

  lemma {:induction false} LinkedMovesSteadily(p: Page, lo: nat, hi: nat) returns (up: bool)
    requires lo + 1 < hi <= |p.results| && DistinctVerses(p)
    requires forall k :: lo <= k < hi - 1 ==> p.Linked(k)
    ensures Steady(p, lo, hi, up)
  {
    assert p.Linked(hi - 2);
    if lo + 2 == hi {
      up := p.VerseAt(lo + 1).verseId > p.VerseAt(lo).verseId;
    } else {
      up := LinkedMovesSteadily(p, lo, hi - 1);
      assert p.VerseAt(hi - 2).verseId == p.VerseAt(lo).verseId + Shift(up, hi - 2 - lo);
      assert p.VerseAt(hi - 3).verseId == p.VerseAt(lo).verseId + Shift(up, hi - 3 - lo);
      assert p.VerseAt(hi - 1).verseId != p.VerseAt(hi - 3).verseId;
    }
  }

  /** Every verse record agrees with the codec. */
  ghost predicate WellPlaced(p: Page, bookOf: map<Str, int>) {
    forall t :: t in p.verses ==>
      t in bookOf && Encodes(p.verses[t].verseId, bookOf[t], p.verses[t].chapter, p.verses[t].verse)
  }

  function LocationAt(p: Page, i: nat, bookOf: map<Str, int>): Location
    requires i < |p.results| && p.Known(i) && p.results[i].targetId in bookOf
  {
    Location(bookOf[p.results[i].targetId], p.VerseAt(i).chapter, p.VerseAt(i).verse)
  }

  /** A steady block stays in one chapter, its verse numbers moving with its ids. */
  lemma {:induction false} SteadyStaysInChapter(p: Page, lo: nat, k: nat, hi: nat, up: bool, bookOf: map<Str, int>)
    requires lo <= k < hi <= |p.results| && Steady(p, lo, hi, up)
    requires WellPlaced(p, bookOf)
    ensures p.Known(lo) && p.Known(k)
    ensures LocationAt(p, k, bookOf)
         == LocationAt(p, lo, bookOf).(verse := p.VerseAt(lo).verse + Shift(up, k - lo))
  {
    assert p.Known(lo) && p.Known(k);
    if lo < k {
      SteadyStaysInChapter(p, lo, k - 1, hi, up, bookOf);
      var a, b := if up then k - 1 else k, if up then k else k - 1;
      NeighbourStaysInChapter(p.VerseAt(a).verseId, p.VerseAt(b).verseId,
                              LocationAt(p, a, bookOf), LocationAt(p, b, bookOf));
    }
  }

  /** The canonical list runs from the lowest to the highest verse of the group. */
  lemma CanonicalSpansTheHits(p: Page, group: seq<Hit>)
    requires Located(p, group)
    ensures Sorting.Sorted(Canonical(p, group), EarlierVerse(p)) && multiset(Canonical(p, group)) == multiset(group)
    ensures var c := Canonical(p, group); c[0] in group && c[|c| - 1] in group
    ensures var c := Canonical(p, group);
      forall hit :: hit in group ==> VerseIdOf(p, c[0]) <= VerseIdOf(p, hit) <= VerseIdOf(p, c[|c| - 1])
  {
    var c := Canonical(p, group);
    Sorting.SortSorted(group, EarlierVerse(p));
    Sorting.SamePresence(group, c);
    forall hit | hit in group ensures VerseIdOf(p, c[0]) <= VerseIdOf(p, hit) <= VerseIdOf(p, c[|c| - 1]) {
      var k :| 0 <= k < |c| && c[k] == hit;
      assert 0 < k ==> !EarlierVerse(p)(c[k], c[0]);
      assert k < |c| - 1 ==> !EarlierVerse(p)(c[|c| - 1], c[k]);
    }
    assert c[0] in c && c[|c| - 1] in c;
  }

  /** The member with the least (or greatest) verse id of a steady block is a rank end of it. */
  lemma EndOfBlock(p: Page, lo: nat, hi: nat, up: bool, hit: Hit, least: bool)
    requires lo + 1 < hi <= |p.results| && hit in p.results[lo..hi]
    requires forall k :: lo <= k < hi ==> VerseIdOf(p, p.results[k]) == VerseIdOf(p, p.results[lo]) + Shift(up, k - lo)
    requires forall k :: lo <= k < hi ==>
      if least then VerseIdOf(p, hit) <= VerseIdOf(p, p.results[k]) else VerseIdOf(p, p.results[k]) <= VerseIdOf(p, hit)
    ensures hit == p.results[if up == least then lo else hi - 1]
  {
    var f :| 0 <= f < hi - lo && p.results[lo..hi][f] == hit;
    assert p.results[lo + f] == hit;
    assert VerseIdOf(p, p.results[hi - 1]) == VerseIdOf(p, p.results[lo]) + Shift(up, hi - 1 - lo);
  }

  /** The canonical ends of a steady block are its two rank ends. */
  lemma SteadyExtremes(p: Page, lo: nat, hi: nat, up: bool)
    requires lo + 1 < hi <= |p.results| && Steady(p, lo, hi, up)
    requires Located(p, p.results[lo..hi])
    ensures var c := Canonical(p, p.results[lo..hi]);
      c[0] == p.results[if up then lo else hi - 1] && c[|c| - 1] == p.results[if up then hi - 1 else lo]
  {
    var group := p.results[lo..hi];
    CanonicalSpansTheHits(p, group);
    var c := Canonical(p, group);
    forall k | lo <= k < hi
      ensures VerseIdOf(p, p.results[k]) == VerseIdOf(p, p.results[lo]) + Shift(up, k - lo)
      ensures VerseIdOf(p, c[0]) <= VerseIdOf(p, p.results[k]) <= VerseIdOf(p, c[|c| - 1])
    {
      assert p.VerseAt(k).verseId == p.VerseAt(lo).verseId + Shift(up, k - lo);
      assert group[k - lo] in group;
    }
    EndOfBlock(p, lo, hi, up, c[0], true);
    EndOfBlock(p, lo, hi, up, c[|c| - 1], false);
  }

  /** `name` spans exactly the verses of results `lo..hi`, in one chapter. */
  ghost predicate NamesBlock(p: Page, name: Label, lo: nat, hi: nat)
    requires lo < hi <= |p.results|
  {
    && name.WithinChapter?
    && name.lastVerse - name.first.verse + 1 == hi - lo
    && (forall k :: lo <= k < hi ==> p.Known(k) && p.VerseAt(k).chapter == name.first.chapter)
    && (forall k :: lo <= k < hi ==> name.first.verse <= p.VerseAt(k).verse <= name.lastVerse)
    && (forall k :: lo <= k < hi ==>
          p.VerseAt(k).verseId - name.first.verseId == p.VerseAt(k).verse - name.first.verse)
  }

  lemma SteadyLabel(p: Page, lo: nat, hi: nat, up: bool, bookOf: map<Str, int>)
    requires lo + 1 < hi <= |p.results| && Steady(p, lo, hi, up)
    requires WellPlaced(p, bookOf) && Located(p, p.results[lo..hi])
    ensures NamesBlock(p, GroupLabel(p, Canonical(p, p.results[lo..hi])), lo, hi)
  {
    SteadyExtremes(p, lo, hi, up);
    forall k | lo <= k < hi
      ensures p.Known(k) && p.Known(lo) && p.VerseAt(k).verseId == p.VerseAt(lo).verseId + Shift(up, k - lo)
      ensures p.VerseAt(k).chapter == p.VerseAt(lo).chapter
      ensures p.VerseAt(k).verse == p.VerseAt(lo).verse + Shift(up, k - lo)
    {
      SteadyStaysInChapter(p, lo, k, hi, up, bookOf);
    }
    var c := Canonical(p, p.results[lo..hi]);
    assert p.verses[c[0].targetId] == p.VerseAt(if up then lo else hi - 1);
    assert p.verses[c[|c| - 1].targetId] == p.VerseAt(if up then hi - 1 else lo);
  }

  /**
   * A section row's label names one chapter and exactly the verses that surfaced: as many
   * numbers as members, and every member's verse between the two ends.
   */
  lemma RunLabelIsExact(p: Page, keys: seq<GroupKey>, i: nat, bookOf: map<Str, int>)
    requires p.Keyed(keys) && i < |keys| && keys[i].Run?
    requires DistinctVerses(p) && WellPlaced(p, bookOf)
    ensures keys[i].start < |p.results|
    ensures NamesBlock(p, p.RowAt(keys, i).reference, keys[i].start, RunEnd(p, keys[i].start))
  {
    RunIsMaximalBlock(p, keys, i);
    assert p.KeyAt(i) == keys[i];
    var lo := keys[i].start;
    var hi := RunEnd(p, lo);
    var up := LinkedMovesSteadily(p, lo, hi);
    GroupIsLocated(p, keys, i);
    SteadyLabel(p, lo, hi, up, bookOf);
  }

  // ---- the merged excerpt -----------------------------------------------------

  function Excerpts(hits: seq<Hit>): seq<Str> {
    seq(|hits|, i requires 0 <= i < |hits| => hits[i].excerpt)
  }

  lemma {:induction false} JoinGrows(parts: seq<Str>, last: Str, sep: Unit)
    requires parts != []
    ensures JoinWith(parts + [last], sep) == JoinWith(parts, sep) + [sep] + last
  {
    assert (parts + [last])[1..] == parts[1..] + [last];
    if |parts| > 1 { JoinGrows(parts[1..], last, sep); }
  }

  /** The merged excerpt is every member's text, in order and separated by one space. */
  lemma {:induction false} ExcerptJoinsEveryVerse(hits: seq<Hit>)
    ensures JoinedExcerpts(hits) == JoinWith(Excerpts(hits), 0x20)
  {
    var texts := Excerpts(hits);
    if hits == [] {
      assert texts == [];
    } else if |hits| == 1 {
      assert texts == [hits[0].excerpt];
    } else {
      var n := |hits| - 1;
      var front, last := hits[..n], hits[n].excerpt;
      ExcerptJoinsEveryVerse(front);
      assert texts == Excerpts(front) + [last];
      JoinGrows(Excerpts(front), last, 0x20);
      assert JoinedExcerpts(hits) == JoinedExcerpts(front) + [0x20] + last;
    }
  }
}
