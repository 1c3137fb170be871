/** The event log of the ratchet, and what a scan of it says about a cluster of findings. */
module Findings {
  import opened Model
  import opened Kahn

  const CRITICAL := "critical"
  const HIGH := "high"
  const MEDIUM := "medium"
  const LOW := "low"
  const ROLLBACK := "rollback"
  const BLOCK := "block"
  const GLOBAL := "global"

  datatype Key = Key(scopeType: string, scopeKey: string, category: string, fingerprint: string)

  datatype Event = Event(key: Key, runID: string, issueID: string, stage: string, title: string, summary: string,
                         severity: string, impact: string)

  datatype Stat = Stat(occurrences: int, rollbacks: int, blocks: int)

  datatype Cluster = Cluster(key: Key, title: string, summary: string, severity: string,
                             occurrences: int, distinctRuns: int, distinctIssues: int)

  // ---- Counting by scanning ----

  /** `SELECT COUNT(*) FROM finding_events` with these conditions. */
  datatype Query = Query(key: Key, stage: Option<string>, impact: Option<string>)

  predicate Matches(q: Query, e: Event) {
    && e.key == q.key
    && (q.stage.Some? ==> e.stage == q.stage.value)
    && (q.impact.Some? ==> e.impact == q.impact.value)
  }

  ghost function Where(events: seq<Event>, q: Query): set<nat> {
    set i: nat | i < |events| && Matches(q, events[i])
  }

  ghost function Count(events: seq<Event>, q: Query): nat {
    |Where(events, q)|
  }

  lemma CountAppend(events: seq<Event>, e: Event, q: Query)
    ensures Count(events + [e], q) == Count(events, q) + (if Matches(q, e) then 1 else 0)
  {
    if Matches(q, e) {
      assert Where(events + [e], q) == Where(events, q) + {|events|};
    } else {
      assert Where(events + [e], q) == Where(events, q);
    }
  }

  ghost function Occurrences(events: seq<Event>, key: Key): nat {
    Count(events, Query(key, None, None))
  }

  /** What a scan tells about one stage of a cluster. */
  ghost function StatOf(events: seq<Event>, key: Key, stage: string): Stat {
    Stat(Count(events, Query(key, Some(stage), None)),
         Count(events, Query(key, Some(stage), Some(ROLLBACK))),
         Count(events, Query(key, Some(stage), Some(BLOCK))))
  }

  function BoolInt(b: bool): int {
    if b then 1 else 0
  }

  function Plus(s: Stat, e: Event): Stat {
    Stat(s.occurrences + 1, s.rollbacks + BoolInt(e.impact == ROLLBACK), s.blocks + BoolInt(e.impact == BLOCK))
  }

  lemma StatAppend(events: seq<Event>, e: Event, key: Key, stage: string)
    ensures StatOf(events + [e], key, stage)
         == if e.key == key && e.stage == stage then Plus(StatOf(events, key, stage), e) else StatOf(events, key, stage)
  {
    CountAppend(events, e, Query(key, Some(stage), None));
    CountAppend(events, e, Query(key, Some(stage), Some(ROLLBACK)));
    CountAppend(events, e, Query(key, Some(stage), Some(BLOCK)));
  }

  /** A stage without occurrences has nothing else either. */
  lemma NoOccurrence(events: seq<Event>, key: Key, stage: string)
    ensures StatOf(events, key, stage).occurrences == 0 ==> StatOf(events, key, stage) == Stat(0, 0, 0)
  {
    var all := Where(events, Query(key, Some(stage), None));
    if |all| == 0 {
      assert Where(events, Query(key, Some(stage), Some(ROLLBACK))) <= all;
      assert Where(events, Query(key, Some(stage), Some(BLOCK))) <= all;
      assert all == {};
    }
  }

  ghost function Runs(events: seq<Event>, key: Key): set<string> {
    set e | e in events && e.key == key :: e.runID
  }

  ghost function Issues(events: seq<Event>, key: Key): set<string> {
    set e | e in events && e.key == key :: e.issueID
  }

  lemma ElsewhereAppend(events: seq<Event>, e: Event, key: Key)
    requires e.key != key
    ensures Runs(events + [e], key) == Runs(events, key) && Issues(events + [e], key) == Issues(events, key)
  {
    assert forall x :: x in events + [e] <==> x in events || x == e;
  }

  // ---- The highest severity ----

  ghost predicate Has(events: seq<Event>, key: Key, severity: string) {
    exists e :: e in events && e.key == key && e.severity == severity
  }

  /** The first severity that is not empty. */
  ghost function FirstSeverity(events: seq<Event>, key: Key): string {
    if |events| == 0 then ""
    else
      var first, last := FirstSeverity(events[..|events| - 1], key), events[|events| - 1];
      if first != "" then first else if last.key == key then last.severity else ""
  }

  /** The highest severity known by name that occurs; without one, the first that is given at all. */
  ghost function SeverityOf(events: seq<Event>, key: Key): string {
    if Has(events, key, CRITICAL) then CRITICAL
    else if Has(events, key, HIGH) then HIGH
    else if Has(events, key, MEDIUM) then MEDIUM
    else if Has(events, key, LOW) then LOW
    else FirstSeverity(events, key)
  }

  /** `highestSeveritySQL`. */
  function HighestSeverity(new': string, existing: string): string {
    if new' == CRITICAL || existing == CRITICAL then CRITICAL
    else if new' == HIGH || existing == HIGH then HIGH
    else if new' == MEDIUM || existing == MEDIUM then MEDIUM
    else if new' == LOW || existing == LOW then LOW
    else if existing != "" then existing
    else new'
  }

  lemma KnownDiffer()
    ensures CRITICAL != HIGH && CRITICAL != MEDIUM && CRITICAL != LOW && HIGH != MEDIUM && HIGH != LOW && MEDIUM != LOW
    ensures CRITICAL != "" && HIGH != "" && MEDIUM != "" && LOW != ""
  {
    assert CRITICAL[0] == 'c' && HIGH[0] == 'h' && MEDIUM[0] == 'm' && LOW[0] == 'l';
  }

  lemma {:induction false} FirstSeverityOccurs(events: seq<Event>, key: Key)
    ensures FirstSeverity(events, key) != "" ==> Has(events, key, FirstSeverity(events, key))
  {
    if |events| > 0 {
      var front := events[..|events| - 1];
      FirstSeverityOccurs(front, key);
      assert events == front + [events[|events| - 1]];
    }
  }

  lemma HasAppend(events: seq<Event>, e: Event, key: Key, severity: string)
    ensures Has(events + [e], key, severity) == (Has(events, key, severity) || (e.key == key && e.severity == severity))
  {
    if Has(events, key, severity) {
      var x :| x in events && x.key == key && x.severity == severity;
      assert x in events + [e];
    }
    if e.key == key && e.severity == severity { assert e in events + [e]; }
  }

  /** Comparing each new severity with the highest so far finds the highest of all. */
  lemma SeverityAppend(events: seq<Event>, e: Event, key: Key)
    ensures SeverityOf(events + [e], key)
         == if e.key == key then HighestSeverity(e.severity, SeverityOf(events, key)) else SeverityOf(events, key)
  {
    KnownDiffer();
    HasAppend(events, e, key, CRITICAL);
    HasAppend(events, e, key, HIGH);
    HasAppend(events, e, key, MEDIUM);
    HasAppend(events, e, key, LOW);
    FirstSeverityOccurs(events, key);
    assert (events + [e])[..|events|] == events;
  }

  lemma {:induction false} SeverityOfNothing(events: seq<Event>, key: Key)
    requires forall e :: e in events ==> e.key != key
    ensures SeverityOf(events, key) == ""
  {
    if |events| > 0 {
      var front := events[..|events| - 1];
      assert forall e :: e in front ==> e in events;
      SeverityOfNothing(front, key);
      KnownDiffer();
      FirstSeverityOccurs(front, key);
      assert events[|events| - 1] in events;
    }
  }

  // ---- Clusters and stage statistics against the log ----

  ghost predicate IsLast(events: seq<Event>, key: Key, i: nat) {
    i < |events| && events[i].key == key && forall j :: i < j < |events| ==> events[j].key != key
  }

  /** The row says what a scan says, and shows the title and the summary of the last event. */
  ghost predicate ClusterIs(events: seq<Event>, c: Cluster) {
    && c.occurrences == Occurrences(events, c.key)
    && c.distinctRuns == |Runs(events, c.key)|
    && c.distinctIssues == |Issues(events, c.key)|
    && c.severity == SeverityOf(events, c.key)
    && exists i: nat :: IsLast(events, c.key, i) && c.title == events[i].title && c.summary == events[i].summary
  }

  lemma OtherClusterIs(events: seq<Event>, e: Event, c: Cluster)
    requires ClusterIs(events, c) && c.key != e.key
    ensures ClusterIs(events + [e], c)
  {
    CountAppend(events, e, Query(c.key, None, None));
    ElsewhereAppend(events, e, c.key);
    SeverityAppend(events, e, c.key);
    var i: nat :| IsLast(events, c.key, i) && c.title == events[i].title && c.summary == events[i].summary;
    assert IsLast(events + [e], c.key, i);
  }

  /** The row that counts the event, after both updates of its transaction. */
  lemma SameClusterIs(events: seq<Event>, e: Event, before: Option<Cluster>, after: Cluster)
    requires before.Some? ==> ClusterIs(events, before.value) && before.value.key == e.key
    requires before.None? ==> forall x :: x in events ==> x.key != e.key
    requires after.key == e.key && after.title == e.title && after.summary == e.summary
    requires after.occurrences == if before.Some? then before.value.occurrences + 1 else 1
    requires after.severity == if before.Some? then HighestSeverity(e.severity, before.value.severity) else e.severity
    requires after.distinctRuns == |Runs(events + [e], e.key)| && after.distinctIssues == |Issues(events + [e], e.key)|
    ensures ClusterIs(events + [e], after)
  {
    CountAppend(events, e, Query(e.key, None, None));
    SeverityAppend(events, e, e.key);
    if before.None? {
      SeverityOfNothing(events, e.key);
      KnownDiffer();
      assert Where(events, Query(e.key, None, None)) == {};
    }
    assert IsLast(events + [e], e.key, |events|);
  }

  datatype StageKey = StageKey(id: nat, stage: string)

  /** The rows of `id` are the stages with occurrences, each with what a scan says. */
  ghost predicate StatsAre(events: seq<Event>, key: Key, stats: map<StageKey, Stat>, id: nat) {
    forall stage :: StatIs(events, key, stats, id, stage)
  }

  ghost predicate StatIs(events: seq<Event>, key: Key, stats: map<StageKey, Stat>, id: nat, stage: string) {
    && (StageKey(id, stage) in stats <==> StatOf(events, key, stage).occurrences > 0)
    && (StageKey(id, stage) in stats ==> stats[StageKey(id, stage)] == StatOf(events, key, stage))
  }

  /** Insert a first occurrence, or add to the row there is. */
  function Upsert(stats: map<StageKey, Stat>, id: nat, e: Event): map<StageKey, Stat> {
    var k := StageKey(id, e.stage);
    stats[k := Plus(if k in stats then stats[k] else Stat(0, 0, 0), e)]
  }

  lemma UpsertIs(events: seq<Event>, e: Event, stats: map<StageKey, Stat>, id: nat)
    requires StatsAre(events, e.key, stats, id)
    ensures StatsAre(events + [e], e.key, Upsert(stats, id, e), id)
  {
    forall stage ensures StatIs(events + [e], e.key, Upsert(stats, id, e), id, stage) {
      assert StatIs(events, e.key, stats, id, stage);
      StatAppend(events, e, e.key, stage);
      NoOccurrence(events, e.key, stage);
    }
  }

  lemma OtherStatsAre(events: seq<Event>, e: Event, key: Key, stats: map<StageKey, Stat>, id: nat, other: nat)
    requires StatsAre(events, key, stats, id) && id != other && key != e.key
    ensures StatsAre(events + [e], key, Upsert(stats, other, e), id) && StatsAre(events + [e], key, stats, id)
  {
    forall stage ensures StatIs(events + [e], key, Upsert(stats, other, e), id, stage) && StatIs(events + [e], key, stats, id, stage) {
      assert StatIs(events, key, stats, id, stage);
      StatAppend(events, e, key, stage);
    }
  }

  // ---- When a cluster deserves a proposal ----

  /** `shouldPropose`. */
  function ShouldPropose(c: Cluster): (reason: Option<string>) {
    if c.severity == CRITICAL then Some("severity_threshold")
    else if c.occurrences >= 3 && c.distinctRuns >= 3 then Some("frequency_threshold")
    else if c.occurrences >= 2 && c.key.scopeType == GLOBAL then Some("global_frequency_threshold")
    else None
  }

  /** Whatever is logged later, a cluster that deserved a proposal keeps deserving one. */
  lemma ShouldProposeForever(events: seq<Event>, more: seq<Event>, c: Cluster, d: Cluster)
    requires ClusterIs(events, c) && ClusterIs(events + more, d) && c.key == d.key
    requires ShouldPropose(c).Some?
    ensures ShouldPropose(d).Some?
  {
    var q := Query(c.key, None, None);
    SubsetSize(Where(events, q), Where(events + more, q));
    SubsetSize(Runs(events, c.key), Runs(events + more, c.key));
    if c.severity == CRITICAL {
      KnownDiffer();
      FirstSeverityOccurs(events, c.key);
      var e :| e in events && e.key == c.key && e.severity == CRITICAL;
      assert e in events + more;
    }
  }

  // ---- The same, told by the log ----

  /** A critical event of the cluster is in the log. */
  ghost predicate CriticalOnce(events: seq<Event>, key: Key) {
    exists e :: e in events && e.key == key && e.severity == CRITICAL
  }

  /** At least three events, from at least three runs. */
  ghost predicate ThreeTimes(events: seq<Event>, key: Key) {
    && |set i: nat | i < |events| && events[i].key == key| >= 3
    && |set e | e in events && e.key == key :: e.runID| >= 3
  }

  /** At least two events that concern everybody. */
  ghost predicate TwiceGlobally(events: seq<Event>, key: Key) {
    key.scopeType == GLOBAL && |set i: nat | i < |events| && events[i].key == key| >= 2
  }

  ghost predicate Deserves(events: seq<Event>, key: Key) {
    CriticalOnce(events, key) || ThreeTimes(events, key) || TwiceGlobally(events, key)
  }

  const SEVERITY_THRESHOLD := "severity_threshold"
  const FREQUENCY_THRESHOLD := "frequency_threshold"
  const GLOBAL_FREQUENCY_THRESHOLD := "global_frequency_threshold"

  /** The reason is that of the first case that applies. */
  ghost predicate IsReason(events: seq<Event>, key: Key, reason: string) {
    if CriticalOnce(events, key) then reason == SEVERITY_THRESHOLD
    else if ThreeTimes(events, key) then reason == FREQUENCY_THRESHOLD
    else reason == GLOBAL_FREQUENCY_THRESHOLD
  }

  lemma DeservingOccur(events: seq<Event>, key: Key)
    requires Deserves(events, key)
    ensures exists e :: e in events && e.key == key
  {
    var found := set i: nat | i < |events| && events[i].key == key;
    if !CriticalOnce(events, key) {
      assert found != {};
      var i :| i in found;
      assert events[i] in events;
    }
  }

  lemma CriticalIff(events: seq<Event>, c: Cluster)
    requires ClusterIs(events, c)
    ensures c.severity == CRITICAL <==> CriticalOnce(events, c.key)
  {
    KnownDiffer();
    FirstSeverityOccurs(events, c.key);
  }

  lemma OccurrencesAre(events: seq<Event>, key: Key)
    ensures Occurrences(events, key) == |set i: nat | i < |events| && events[i].key == key|
  {
    assert Where(events, Query(key, None, None)) == set i: nat | i < |events| && events[i].key == key;
  }

  /** Looking at the row decides what a look at the log would. */
  lemma ProposedIffDeserved(events: seq<Event>, c: Cluster)
    requires ClusterIs(events, c)
    ensures ShouldPropose(c).Some? <==> Deserves(events, c.key)
    ensures ShouldPropose(c).Some? ==> IsReason(events, c.key, ShouldPropose(c).value)
  {
    CriticalIff(events, c);
    OccurrencesAre(events, c.key);
  }
}
