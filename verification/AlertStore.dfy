/** The alert store in its two modes, and what each mode makes of the same history of creates. */
module AlertStore {
  import opened Common
  import opened Ordering
  import opened Rules

  const LIST_LIMIT := 100

  /** A verified caller. */
  datatype Actor = Actor(productTenant: string, subject: Uuid)

  /** One row of `eal_alert_rules`, and equally one successful create. */
  datatype AlertRow = AlertRow(owner: Actor, rule: AlertRule)

  datatype AlertKey = AlertKey(owner: Actor, id: Uuid)

  /** `ORDER BY updated_at DESC, id`. */
  function RuleKey(rule: AlertRule): Key {
    Key(-rule.updatedAt, rule.id)
  }

  /** `a` is listed before `b`: it was updated later, or at the same time with the smaller id. */
  predicate Precedes(a: AlertRule, b: AlertRule) {
    a.updatedAt > b.updatedAt || (a.updatedAt == b.updatedAt && a.id < b.id)
  }

  ghost predicate NewestFirst(rules: seq<AlertRule>) {
    forall i, j | 0 <= i < j < |rules| :: Precedes(rules[i], rules[j])
  }

  /** The primary key of the alert table. */
  ghost predicate DistinctIds(table: seq<AlertRow>) {
    forall i, j | 0 <= i < j < |table| :: table[i].rule.id != table[j].rule.id
  }

  // ----- Database mode -----

  /** The rules matching `product_tenant = $1 AND owner_subject = $2`, in table order. */
  function Owned(table: seq<AlertRow>, actor: Actor): seq<AlertRule> {
    if table == [] then []
    else if table[0].owner == actor then [table[0].rule] + Owned(table[1..], actor)
    else Owned(table[1..], actor)
  }

  /** The server's fixed query: the owner's rules, newest first, at most 100. */
  function ReadAlerts(table: seq<AlertRow>, actor: Actor): seq<AlertRule> {
    Limit(Sort(Owned(table, actor), RuleKey), LIST_LIMIT)
  }

  function Find(rules: seq<AlertRule>, id: Uuid): Option<AlertRule> {
    if rules == [] then None else if rules[0].id == id then Some(rules[0]) else Find(rules[1..], id)
  }

  function DatabaseGet(table: seq<AlertRow>, actor: Actor, id: Uuid): Option<AlertRule> {
    Find(ReadAlerts(table, actor), id)
  }

  // ----- Fallback mode -----

  /** The in-memory map after a history of creates; a later create with the same key replaces. */
  function FallbackOf(history: seq<AlertRow>): map<AlertKey, AlertRule> {
    if history == [] then map[]
    else
      var last := history[|history| - 1];
      FallbackOf(history[..|history| - 1])[AlertKey(last.owner, last.rule.id) := last.rule]
  }

  function FallbackGet(fallback: map<AlertKey, AlertRule>, actor: Actor, id: Uuid): Option<AlertRule> {
    var key := AlertKey(actor, id);
    if key in fallback then Some(fallback[key]) else None
  }

  /** The rules `list` returns; the map's iteration order is unspecified. */
  ghost function FallbackRules(fallback: map<AlertKey, AlertRule>, actor: Actor): set<AlertRule> {
    set key | key in fallback && key.owner == actor :: fallback[key]
  }

  ghost function Values(fallback: map<AlertKey, AlertRule>, keys: set<AlertKey>): set<AlertRule>
    requires keys <= fallback.Keys
  {
    set key | key in keys :: fallback[key]
  }

  /** The actor's rules that are listed before `rule`. */
  ghost function Preceding(table: seq<AlertRow>, actor: Actor, rule: AlertRule): set<AlertRule> {
    set r | r in Owned(table, actor) && Precedes(r, rule)
  }

  // ----- Properties of the query -----

  lemma {:induction false} OwnedRules(table: seq<AlertRow>, actor: Actor)
    ensures forall rule :: rule in Owned(table, actor) <==> AlertRow(actor, rule) in table
  {
    if table != [] {
      OwnedRules(table[1..], actor);
      assert table == [table[0]] + table[1..];
    }
  }

  lemma {:induction false} OwnedKeysDistinct(table: seq<AlertRow>, actor: Actor)
    requires DistinctIds(table)
    ensures DistinctKeys(Owned(table, actor), RuleKey)
  {
    if table != [] {
      OwnedKeysDistinct(table[1..], actor);
      OwnedRules(table[1..], actor);
      var rest := Owned(table[1..], actor);
      forall j | 0 <= j < |rest|
        ensures rest[j].id != table[0].rule.id
      {
        assert AlertRow(actor, rest[j]) in table[1..];
      }
    }
  }

  lemma PrecedingIsBefore(table: seq<AlertRow>, actor: Actor, rule: AlertRule)
    ensures Preceding(table, actor, rule) == Before(Owned(table, actor), RuleKey, RuleKey(rule))
  {
  }

  /** The page lists only the actor's rules, newest first, and is full whenever it can be. */
  lemma PageIsSorted(table: seq<AlertRow>, actor: Actor)
    requires DistinctIds(table)
    ensures Ascending(ReadAlerts(table, actor), RuleKey) && NewestFirst(ReadAlerts(table, actor))
    ensures |ReadAlerts(table, actor)| == Min(100, |Owned(table, actor)|)
    ensures forall rule | rule in ReadAlerts(table, actor) :: AlertRow(actor, rule) in table
  {
    var owned := Owned(table, actor);
    OwnedKeysDistinct(table, actor);
    SortAscends(owned, RuleKey);
    SortRows(owned, RuleKey);
    OwnedRules(table, actor);
    assert forall rule | rule in ReadAlerts(table, actor) :: rule in Sort(owned, RuleKey);
  }

  /** A rule is on the page exactly when it is the actor's and fewer than 100 of the actor's rules precede it. */
  lemma PageMembership(table: seq<AlertRow>, actor: Actor, rule: AlertRule)
    requires DistinctIds(table)
    ensures rule in ReadAlerts(table, actor) <==>
              AlertRow(actor, rule) in table && |Preceding(table, actor, rule)| < 100
  {
    PrecedingIsBefore(table, actor, rule);
    var owned := Owned(table, actor);
    var sorted := Sort(owned, RuleKey);
    OwnedKeysDistinct(table, actor);
    SortAscends(owned, RuleKey);
    SortRows(owned, RuleKey);
    OwnedRules(table, actor);
    if rule in owned {
      assert rule in sorted;
      var i :| 0 <= i < |sorted| && sorted[i] == rule;
      PositionCountsRowsBefore(sorted, RuleKey, i);
      assert Before(sorted, RuleKey, RuleKey(rule)) == Before(owned, RuleKey, RuleKey(rule));
      if i < 100 {
        assert ReadAlerts(table, actor)[i] == rule;
      } else {
        forall j | 0 <= j < 100
          ensures ReadAlerts(table, actor)[j] != rule
        {
          assert Less(RuleKey(sorted[j]), RuleKey(sorted[i]));
        }
      }
    } else {
      assert forall r | r in ReadAlerts(table, actor) :: r in sorted;
    }
  }

  lemma {:induction false} FindIsMembership(rules: seq<AlertRule>, id: Uuid, rule: AlertRule)
    requires forall i, j | 0 <= i < j < |rules| :: rules[i].id != rules[j].id
    ensures Find(rules, id) == Some(rule) <==> rule in rules && rule.id == id
  {
    if rules != [] {
      FindIsMembership(rules[1..], id, rule);
      assert rules == [rules[0]] + rules[1..];
    }
  }

  lemma IdIdentifies(table: seq<AlertRow>, a: AlertRow, b: AlertRow)
    requires DistinctIds(table) && a in table && b in table && a.rule.id == b.rule.id
    ensures a == b
  {
  }

  lemma PageIdsDistinct(table: seq<AlertRow>, actor: Actor)
    requires DistinctIds(table)
    ensures forall i, j | 0 <= i < j < |ReadAlerts(table, actor)| ::
              ReadAlerts(table, actor)[i].id != ReadAlerts(table, actor)[j].id
  {
    PageIsSorted(table, actor);
    var page := ReadAlerts(table, actor);
    forall i, j | 0 <= i < j < |page|
      ensures page[i].id != page[j].id
    {
      assert Less(RuleKey(page[i]), RuleKey(page[j]));
      if page[i].id == page[j].id {
        IdIdentifies(table, AlertRow(actor, page[i]), AlertRow(actor, page[j]));
      }
    }
  }

  /** In database mode `get` finds a rule exactly when it is among the actor's newest 100. */
  lemma DatabaseGetExactly(table: seq<AlertRow>, actor: Actor, id: Uuid, rule: AlertRule)
    requires DistinctIds(table)
    ensures DatabaseGet(table, actor, id) == Some(rule) <==>
              && rule.id == id
              && AlertRow(actor, rule) in table
              && |Preceding(table, actor, rule)| < 100
  {
    PageIdsDistinct(table, actor);
    FindIsMembership(ReadAlerts(table, actor), id, rule);
    PageMembership(table, actor, rule);
  }

  // ----- Properties of the fallback -----

  /** After creates with distinct ids, the map holds exactly the created rules, each under its owner. */
  lemma {:induction false} FallbackHoldsHistory(history: seq<AlertRow>, actor: Actor, id: Uuid, rule: AlertRule)
    requires DistinctIds(history)
    ensures FallbackGet(FallbackOf(history), actor, id) == Some(rule) <==>
              rule.id == id && AlertRow(actor, rule) in history
  {
    if history != [] {
      var init, last := history[..|history| - 1], history[|history| - 1];
      assert history == init + [last];
      assert DistinctIds(init);
      FallbackHoldsHistory(init, actor, id, rule);
      if AlertKey(last.owner, last.rule.id) == AlertKey(actor, id) && AlertRow(actor, rule) in init && rule.id == id {
        IdIdentifies(history, AlertRow(actor, rule), last);
      }
    }
  }

  /** `list` in fallback mode returns exactly what the actor created; `get` is membership in it. */
  lemma FallbackListsHistory(history: seq<AlertRow>, actor: Actor)
    requires DistinctIds(history)
    ensures forall rule :: rule in FallbackRules(FallbackOf(history), actor) <==> AlertRow(actor, rule) in history
    ensures forall id, rule :: FallbackGet(FallbackOf(history), actor, id) == Some(rule) <==>
                                 rule in FallbackRules(FallbackOf(history), actor) && rule.id == id
  {
    var fallback := FallbackOf(history);
    forall id, rule
      ensures FallbackGet(fallback, actor, id) == Some(rule) <==> rule.id == id && AlertRow(actor, rule) in history
    {
      FallbackHoldsHistory(history, actor, id, rule);
    }
    forall rule
      ensures rule in FallbackRules(fallback, actor) <==> AlertRow(actor, rule) in history
    {
      if rule in FallbackRules(fallback, actor) {
        var key :| key in fallback && key.owner == actor && fallback[key] == rule;
        assert FallbackGet(fallback, actor, key.id) == Some(rule);
      }
      if AlertRow(actor, rule) in history {
        assert FallbackGet(fallback, actor, rule.id) == Some(rule);
        assert AlertKey(actor, rule.id) in fallback;
      }
    }
  }

  // ----- The two modes compared -----

  lemma {:induction false} BeforeIsSmaller(owned: seq<AlertRule>, rule: AlertRule)
    requires rule in owned
    ensures |Before(owned, RuleKey, RuleKey(rule))| < |owned|
  {
    var i :| 0 <= i < |owned| && owned[i] == rule;
    var others := owned[..i] + owned[i + 1..];
    var front := Before(owned, RuleKey, RuleKey(rule));
    assert front <= set r | r in others by {
      forall r | r in front
        ensures r in others
      {
        var j :| 0 <= j < |owned| && owned[j] == r;
        assert j != i;
        assert r == others[if j < i then j else j - 1];
      }
    }
    SetNoLarger(front, others);
  }

  lemma {:induction false} SetNoLarger(rows: set<AlertRule>, xs: seq<AlertRule>)
    requires rows <= set r | r in xs
    ensures |rows| <= |xs|
  {
    if xs != [] {
      var rest := rows - {xs[0]};
      assert rest <= set r | r in xs[1..];
      SetNoLarger(rest, xs[1..]);
      assert rows <= rest + {xs[0]};
      SubsetSize(rows, rest + {xs[0]});
    } else {
      assert rows == {};
    }
  }

  lemma {:induction false} SubsetSize(a: set<AlertRule>, b: set<AlertRule>)
    requires a <= b
    ensures |a| <= |b|
  {
    assert b == a + (b - a);
  }

  /** The oldest of more than 100 rules: owned, yet with at least 100 rules before it. */
  lemma OverflowWitness(history: seq<AlertRow>, actor: Actor) returns (rule: AlertRule)
    requires DistinctIds(history) && |Owned(history, actor)| > 100
    ensures AlertRow(actor, rule) in history
    ensures |Preceding(history, actor, rule)| >= 100
  {
    var owned := Owned(history, actor);
    var sorted := Sort(owned, RuleKey);
    OwnedKeysDistinct(history, actor);
    SortAscends(owned, RuleKey);
    SortRows(owned, RuleKey);
    OwnedRules(history, actor);
    rule := sorted[100];
    assert rule in sorted;
    PositionCountsRowsBefore(sorted, RuleKey, 100);
    PrecedingIsBefore(history, actor, rule);
    assert Before(sorted, RuleKey, RuleKey(rule)) == Before(owned, RuleKey, RuleKey(rule));
  }

  /** Whatever the history, a database `get` never disagrees with the fallback other than by missing a rule. */
  lemma DatabaseGetRefinesFallback(history: seq<AlertRow>, actor: Actor, id: Uuid)
    requires DistinctIds(history)
    ensures DatabaseGet(history, actor, id).None?
            || DatabaseGet(history, actor, id) == FallbackGet(FallbackOf(history), actor, id)
    ensures |Owned(history, actor)| <= 100 ==>
              DatabaseGet(history, actor, id) == FallbackGet(FallbackOf(history), actor, id)
  {
    var db := DatabaseGet(history, actor, id);
    var fb := FallbackGet(FallbackOf(history), actor, id);
    if db.Some? {
      DatabaseGetExactly(history, actor, id, db.value);
      FallbackHoldsHistory(history, actor, id, db.value);
    } else if fb.Some? && |Owned(history, actor)| <= 100 {
      FallbackHoldsHistory(history, actor, id, fb.value);
      OwnedRules(history, actor);
      BeforeIsSmaller(Owned(history, actor), fb.value);
      PrecedingIsBefore(history, actor, fb.value);
      DatabaseGetExactly(history, actor, id, fb.value);
    }
  }

  /**
   * The two modes answer every `get` alike exactly when the actor owns at most 100 rules.
   */
  lemma ModesAgreeIffWithinLimit(history: seq<AlertRow>, actor: Actor)
    requires DistinctIds(history)
    ensures (forall id :: DatabaseGet(history, actor, id) == FallbackGet(FallbackOf(history), actor, id))
            <==> |Owned(history, actor)| <= 100
  {
    forall id: Uuid
      ensures |Owned(history, actor)| <= 100 ==>
                DatabaseGet(history, actor, id) == FallbackGet(FallbackOf(history), actor, id)
    {
      DatabaseGetRefinesFallback(history, actor, id);
    }
    if |Owned(history, actor)| > 100 {
      var rule := OverflowWitness(history, actor);
      DatabaseGetExactly(history, actor, rule.id, rule);
      FallbackHoldsHistory(history, actor, rule.id, rule);
    }
  }

  /** The lists agree as sets under the same condition. */
  lemma ListsAgreeIffWithinLimit(history: seq<AlertRow>, actor: Actor)
    requires DistinctIds(history)
    ensures (set rule | rule in ReadAlerts(history, actor)) == FallbackRules(FallbackOf(history), actor)
            <==> |Owned(history, actor)| <= 100
  {
    FallbackListsHistory(history, actor);
    PageIsSorted(history, actor);
    OwnedRules(history, actor);
    if |Owned(history, actor)| > 100 {
      var rule := OverflowWitness(history, actor);
      PageMembership(history, actor, rule);
      assert rule in FallbackRules(FallbackOf(history), actor);
    } else {
      forall rule
        ensures rule in ReadAlerts(history, actor) <==> AlertRow(actor, rule) in history
      {
        SortRows(Owned(history, actor), RuleKey);
      }
    }
  }

  // ----- The store itself -----

  /** How a database statement can go wrong: refused, or with the outcome unknown to the server. */
  datatype Fault = NoFault | Failed(applied: bool)

  datatype StoreError = Unavailable | InvalidRecord

  datatype CreateResult = Created(rule: AlertRule) | Rejected(error: StoreError)

  /** `durable` is the presence of a database; otherwise the map is used. */
  class Store {
    const durable: bool
    var table: seq<AlertRow>
    var fallback: map<AlertKey, AlertRule>
    ghost var history: seq<AlertRow>

    /** `history` is the creates that took effect, in order. */
    ghost predicate Valid()
      reads this
    {
      && (durable ==> table == history && DistinctIds(table) && fallback == map[])
      && (!durable ==> table == [] && fallback == FallbackOf(history))
      && forall row | row in history :: CleanRule(row.rule)
    }

    constructor (durable: bool)
      ensures Valid() && this.durable == durable && history == []
    {
      this.durable := durable;
      table, fallback, history := [], map[], [];
    }

    method List(actor: Actor, fault: Fault) returns (r: Option<seq<AlertRule>>)
      requires Valid()
      ensures durable ==> r == if fault.NoFault? then Some(ReadAlerts(history, actor)) else None
      ensures !durable ==> r.Some?
                           && (set rule | rule in r.value) == FallbackRules(FallbackOf(history), actor)
                           && |r.value| == |set key | key in FallbackOf(history) && key.owner == actor|
    {
      if durable {
        return if fault.NoFault? then Some(ReadAlerts(table, actor)) else None;
      }
      var rules: seq<AlertRule>, keys := [], fallback.Keys;
      ghost var seen: set<AlertKey> := {};
      while keys != {}
        invariant keys <= fallback.Keys && seen <= fallback.Keys
        invariant seen == set key | key in fallback && key !in keys && key.owner == actor
        invariant (set rule | rule in rules) == Values(fallback, seen)
        invariant |rules| == |seen|
        decreases keys
      {
        var key :| key in keys;
        if key.owner == actor {
          assert Values(fallback, seen + {key}) == Values(fallback, seen) + {fallback[key]};
          rules := rules + [fallback[key]];
          seen := seen + {key};
        }
        keys := keys - {key};
      }
      assert FallbackRules(fallback, actor) == Values(fallback, seen);
      assert seen == set key | key in fallback && key.owner == actor;
      r := Some(rules);
    }

    method Get(actor: Actor, id: Uuid, fault: Fault) returns (r: Option<Option<AlertRule>>)
      requires Valid()
      ensures durable ==> r == if fault.NoFault? then Some(DatabaseGet(history, actor, id)) else None
      ensures !durable ==> r == Some(FallbackGet(FallbackOf(history), actor, id))
    {
      if durable {
        var rules := List(actor, fault);
        if rules.None? {
          return None;
        }
        return Some(Find(rules.value, id));
      }
      r := Some(FallbackGet(fallback, actor, id));
    }

    /** The INSERT: the primary key and the CHECK constraints may refuse the row. */
    method Insert(row: AlertRow, fault: Fault) returns (ok: bool)
      requires Valid() && durable && CleanRule(row.rule)
      modifies this`table, this`history
      ensures Valid()
      ensures ok <==> && AlertTableChecks(row.owner.productTenant, row.rule) && fault.NoFault?
                      && forall r | r in old(history) :: r.rule.id != row.rule.id
      ensures ok ==> history == old(history) + [row]
      ensures !ok ==> history == old(history) || (fault == Failed(true) && history == old(history) + [row])
    {
      if !AlertTableChecks(row.owner.productTenant, row.rule)
         || exists i | 0 <= i < |table| :: table[i].rule.id == row.rule.id {
        return false;
      }
      if fault == Failed(false) {
        return false;
      }
      table := table + [row];
      history := history + [row];
      ok := fault.NoFault?;
    }

    /** `id` and `now` stand for the random identifier and the clock. */
    method Create(actor: Actor, input: CreateAlertRule, id: Uuid, now: int, fault: Fault) returns (r: CreateResult)
      requires Valid()
      modifies this
      ensures Valid()
      ensures r.Created? <==>
                && Validate(input).Pass?
                && (durable ==> && fault.NoFault?
                                && 1 <= |actor.productTenant| <= 64
                                && forall row | row in old(history) :: row.rule.id != id)
      ensures r.Rejected? ==> r.error == if Validate(input).Fail? then InvalidRecord else Unavailable
      ensures r.Created? ==> r.rule == IntoRule(input, id, now) && CleanRule(r.rule)
                             && history == old(history) + [AlertRow(actor, r.rule)]
      ensures r.Rejected? ==> history == old(history)
                              || (fault == Failed(true) && Validate(input).Pass?
                                  && history == old(history) + [AlertRow(actor, IntoRule(input, id, now))])
    {
      if Validate(input).Fail? {
        return Rejected(InvalidRecord);
      }
      var rule := IntoRule(input, id, now);
      AcceptedInputIsClean(input, id, now);
      var row := AlertRow(actor, rule);
      if durable {
        if 1 <= |actor.productTenant| <= 64 {
          AcceptedInputRoundTrips(input, id, now, actor.productTenant);
        }
        var ok := Insert(row, fault);
        if !ok {
          return Rejected(Unavailable);
        }
      } else {
        fallback := fallback[AlertKey(actor, id) := rule];
        assert (history + [row])[..|history|] == history;
        history := history + [row];
      }
      r := Created(rule);
    }
  }
}
