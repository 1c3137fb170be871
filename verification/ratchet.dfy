/** `internal/ratchet/postgres.go` and `service.go`: aggregates kept beside the event log, proposals and active invariants. */
module Ratchet {
  import opened Model
  import opened Findings

  const PROPOSED := "proposed"
  const APPROVED := "approved"

  datatype Proposal = Proposal(clusterID: nat, key: Key, text: string, reason: string, status: string)

  datatype ActiveInvariant = ActiveInvariant(key: Key, statement: string, severity: string, mode: string, source: nat)

  // ---- What the tables have to say, given the log ----

  /** One row per cluster of the log, and no other. */
  ghost predicate ClustersAre(events: seq<Event>, clusters: map<nat, Cluster>) {
    && (forall c :: c in clusters ==> ClusterIs(events, clusters[c]))
    && (forall c, d :: c in clusters && d in clusters && clusters[c].key == clusters[d].key ==> c == d)
    && (forall e {:trigger HasCluster(clusters, e.key)} :: e in events ==> HasCluster(clusters, e.key))
  }

  ghost predicate HasCluster(clusters: map<nat, Cluster>, key: Key) {
    exists c :: c in clusters && clusters[c].key == key
  }

  ghost predicate ClusterStatsAre(events: seq<Event>, clusters: map<nat, Cluster>, stats: map<StageKey, Stat>) {
    forall c :: c in clusters ==> StatsAre(events, clusters[c].key, stats, c)
  }

  ghost predicate InvariantStatsAre(events: seq<Event>, invariants: map<nat, ActiveInvariant>, stats: map<StageKey, Stat>) {
    forall i :: i in invariants ==> StatsAre(events, invariants[i].key, stats, i)
  }

  ghost predicate IsActive(invariants: map<nat, ActiveInvariant>, key: Key) {
    exists i :: i in invariants && invariants[i].key == key
  }

  ghost predicate InvariantsAre(clusters: map<nat, Cluster>, invariants: map<nat, ActiveInvariant>) {
    && (forall i, j :: i in invariants && j in invariants && invariants[i].key == invariants[j].key ==> i == j)
    && (forall i :: i in invariants ==> HasCluster(clusters, invariants[i].key))
  }

  /** A proposal is for its cluster, and approved only once its invariant is active. */
  ghost predicate ProposalsAre(clusters: map<nat, Cluster>, invariants: map<nat, ActiveInvariant>, proposals: map<nat, Proposal>) {
    forall p :: p in proposals ==> ProposalIs(clusters, invariants, proposals[p])
  }

  ghost predicate ProposalIs(clusters: map<nat, Cluster>, invariants: map<nat, ActiveInvariant>, p: Proposal) {
    && p.clusterID in clusters && p.key == clusters[p.clusterID].key
    && (p.status == PROPOSED || p.status == APPROVED)
    && (p.status == APPROVED ==> IsActive(invariants, p.key))
  }

  /** Statistics belong to rows that there are. */
  ghost predicate RowsOf(stats: map<StageKey, Stat>, ids: set<nat>) {
    forall k :: k in stats ==> k.id in ids
  }

  datatype Tables = Tables(events: seq<Event>, clusters: map<nat, Cluster>, clusterStats: map<StageKey, Stat>,
                           proposals: map<nat, Proposal>, invariants: map<nat, ActiveInvariant>, invariantStats: map<StageKey, Stat>)

  /** Every table says what a scan of the event log says. */
  ghost predicate Faithful(t: Tables) {
    && LogKept(t.events, t.clusters, t.clusterStats)
    && InvariantsKept(t.events, t.clusters, t.invariants, t.invariantStats)
    && ProposalsAre(t.clusters, t.invariants, t.proposals)
  }

  ghost predicate LogKept(events: seq<Event>, clusters: map<nat, Cluster>, stats: map<StageKey, Stat>) {
    ClustersAre(events, clusters) && ClusterStatsAre(events, clusters, stats) && RowsOf(stats, clusters.Keys)
  }

  ghost predicate InvariantsKept(events: seq<Event>, clusters: map<nat, Cluster>, invariants: map<nat, ActiveInvariant>,
                                 stats: map<StageKey, Stat>) {
    InvariantsAre(clusters, invariants) && InvariantStatsAre(events, invariants, stats) && RowsOf(stats, invariants.Keys)
  }

  ghost predicate NumberedUpTo(ids: set<nat>, last: nat) {
    forall id :: id in ids ==> id <= last
  }

  predicate IsOpen(t: Tables, clusterID: nat) {
    exists p :: p in t.proposals && t.proposals[p].clusterID == clusterID && t.proposals[p].status == PROPOSED
  }

  // ---- The store ----

  class PostgresStore {
    var t: Tables
    var lastCluster: nat
    var lastProposal: nat
    var lastInvariant: nat

    constructor ()
      ensures Valid() && t == Tables([], map[], map[], map[], map[], map[])
    {
      t := Tables([], map[], map[], map[], map[], map[]);
      lastCluster, lastProposal, lastInvariant := 0, 0, 0;
    }

    /** The sequences that number the rows are ahead of them. */
    ghost predicate Valid()
      reads this
    {
      && NumberedUpTo(t.clusters.Keys, lastCluster) && NumberedUpTo(t.proposals.Keys, lastProposal)
      && NumberedUpTo(t.invariants.Keys, lastInvariant)
    }

    method FindCluster(key: Key) returns (found: Option<nat>)
      ensures found.Some? ==> found.value in t.clusters && t.clusters[found.value].key == key
      ensures found.None? ==> !HasCluster(t.clusters, key)
    {
      found := None;
      var left := t.clusters.Keys;
      while left != {}
        invariant left <= t.clusters.Keys && forall c :: c in t.clusters && c !in left ==> t.clusters[c].key != key
        decreases left
      {
        var c :| c in left;
        if t.clusters[c].key == key { return Some(c); }
        left := left - {c};
      }
    }

    method FindInvariant(key: Key) returns (found: Option<nat>)
      ensures IsFound(t.invariants, key, found)
    {
      found := None;
      var left := t.invariants.Keys;
      while left != {}
        invariant left <= t.invariants.Keys && forall i :: i in t.invariants && i !in left ==> t.invariants[i].key != key
        decreases left
      {
        var i :| i in left;
        if t.invariants[i].key == key { return Some(i); }
        left := left - {i};
      }
    }

    /** The first statement on `finding_clusters`: insert a row, or count one occurrence more. */
    method UpsertCluster(e: Event) returns (id: nat, ghost before: Option<Cluster>)
      requires NumberedUpTo(t.clusters.Keys, lastCluster)
      modifies this`t, this`lastCluster
      ensures NumberedUpTo(t.clusters.Keys, lastCluster)
      ensures id in t.clusters && t == old(t).(clusters := old(t).clusters[id := t.clusters[id]])
      ensures WasRow(old(t).clusters, id, e.key, before)
      ensures var c := t.clusters[id];
        && c.key == e.key && c.title == e.title && c.summary == e.summary
        && c.occurrences == (if before.Some? then before.value.occurrences + 1 else 1)
        && c.severity == if before.Some? then HighestSeverity(e.severity, before.value.severity) else e.severity
    {
      var found := FindCluster(e.key);
      if found.Some? {
        id := found.value;
        var c := t.clusters[id];
        before := Some(c);
        t := t.(clusters := t.clusters[id := c.(title := e.title, summary := e.summary, occurrences := c.occurrences + 1,
                                                severity := HighestSeverity(e.severity, c.severity))]);
      } else {
        before := None;
        lastCluster := lastCluster + 1;
        id := lastCluster;
        t := t.(clusters := t.clusters[id := Cluster(e.key, e.title, e.summary, e.severity, 1, 0, 0)]);
      }
    }

    /** `COUNT(DISTINCT ...)` over the log. */
    method CountDistinct(key: Key) returns (runs: nat, issues: nat)
      ensures runs == |Runs(t.events, key)| && issues == |Issues(t.events, key)|
    {
      var events := t.events;
      var seenRuns: set<string>, seenIssues: set<string> := {}, {};
      for i := 0 to |events|
        invariant seenRuns == Runs(events[..i], key) && seenIssues == Issues(events[..i], key)
      {
        assert events[..i + 1] == events[..i] + [events[i]];
        if events[i].key == key {
          seenRuns, seenIssues := seenRuns + {events[i].runID}, seenIssues + {events[i].issueID};
        } else {
          ElsewhereAppend(events[..i], events[i], key);
        }
      }
      assert events[..|events|] == events;
      runs, issues := |seenRuns|, |seenIssues|;
    }

    method RecordFinding(e: Event) returns (id: nat, active: Option<nat>, ghost before: Option<Cluster>)
      requires Valid()
      modifies this
      ensures Valid() && Records(old(t), e, t, id, before, active)
    {
      t := t.(events := t.events + [e]);
      id, before := UpsertCluster(e);
      var runs, issues := CountDistinct(e.key);
      t := t.(clusters := t.clusters[id := t.clusters[id].(distinctRuns := runs, distinctIssues := issues)]);
      t := t.(clusterStats := Upsert(t.clusterStats, id, e));
      active := FindInvariant(e.key);
      if active.Some? {
        t := t.(invariantStats := Upsert(t.invariantStats, active.value, e));
      }
    }

    predicate HasOpenProposal(clusterID: nat)
      reads this
    {
      IsOpen(t, clusterID)
    }

    method CreateProposal(clusterID: nat, reason: string) returns (id: nat)
      requires Valid() && clusterID in t.clusters
      modifies this`t, this`lastProposal
      ensures Valid() && id !in old(t).proposals && clusterID in old(t).clusters
      ensures t == WithProposal(old(t), clusterID, reason, id)
    {
      lastProposal := lastProposal + 1;
      id := lastProposal;
      t := t.(proposals := t.proposals[id := Proposal(clusterID, t.clusters[clusterID].key, t.clusters[clusterID].title, reason, PROPOSED)]);
    }

    /** An approved proposal may be activated again; then its invariant is written anew. */
    method ActivateProposal(proposalID: nat, mode: string) returns (activated: Option<nat>)
      requires Valid()
      modifies this`t, this`lastInvariant
      ensures Valid()
      ensures activated.None? ==> t == old(t) && !Activatable(old(t), proposalID)
      ensures activated.Some? ==> Activated(old(t), t, proposalID, mode, activated.value)
    {
      if proposalID !in t.proposals || t.proposals[proposalID].clusterID !in t.clusters { return None; }
      var p := t.proposals[proposalID];
      var found := FindInvariant(p.key);
      if found.None? { lastInvariant := lastInvariant + 1; }
      var id := if found.Some? then found.value else lastInvariant;
      t := t.(invariants := t.invariants[id := ActiveInvariant(p.key, p.text, t.clusters[p.clusterID].severity, mode, proposalID)]);
      t := t.(invariantStats := Seeded(t.invariantStats, id, t.clusterStats, p.clusterID));
      t := t.(proposals := t.proposals[proposalID := p.(status := APPROVED)]);
      activated := Some(id);
    }
  }

  function WithProposal(t: Tables, clusterID: nat, reason: string, id: nat): Tables
    requires clusterID in t.clusters
  {
    var c := t.clusters[clusterID];
    t.(proposals := t.proposals[id := Proposal(clusterID, c.key, c.title, reason, PROPOSED)])
  }

  /** The proposal can be loaded together with its cluster. */
  ghost predicate Activatable(t: Tables, proposalID: nat) {
    proposalID in t.proposals && t.proposals[proposalID].clusterID in t.clusters
  }

  /** `was` is the row there was for the cluster `key`, and `id` the number it has or is to get. */
  ghost predicate WasRow(clusters: map<nat, Cluster>, id: nat, key: Key, was: Option<Cluster>) {
    if was.Some? then id in clusters && was.value == clusters[id] && was.value.key == key
    else id !in clusters && !HasCluster(clusters, key)
  }

  /** The row of this cluster is new or changed; no other is. */
  ghost predicate OnlyRowOf(before: map<nat, Cluster>, after: map<nat, Cluster>, id: nat, key: Key) {
    && id in after && after == before[id := after[id]] && after[id].key == key
    && (id in before ==> before[id].key == key)
  }

  /** The proposal is approved, and its invariant is in force with the severity of its cluster and the statistics of its cluster. */
  ghost predicate Activated(t: Tables, u: Tables, proposalID: nat, mode: string, id: nat) {
    && proposalID in t.proposals
    && var p := t.proposals[proposalID];
    && p.clusterID in t.clusters
    && (if id in t.invariants then t.invariants[id].key == p.key else !IsActive(t.invariants, p.key))
    && u == t.(proposals := t.proposals[proposalID := p.(status := APPROVED)],
               invariants := t.invariants[id := ActiveInvariant(p.key, p.text, t.clusters[p.clusterID].severity, mode, proposalID)],
               invariantStats := Seeded(t.invariantStats, id, t.clusterStats, p.clusterID))
  }

  /** Copying the cluster's rows over those of the invariant. */
  function Seeded(stats: map<StageKey, Stat>, id: nat, from: map<StageKey, Stat>, clusterID: nat): map<StageKey, Stat> {
    stats + map k | k in from && k.id == clusterID :: StageKey(id, k.stage) := from[k]
  }

  // ---- Recording ----

  /** The transaction of `RecordFinding`, on the cluster numbered `id`, while `active` is in force for it. */
  ghost predicate Records(t: Tables, e: Event, u: Tables, id: nat, was: Option<Cluster>, active: Option<nat>) {
    && OnlyRowOf(t.clusters, u.clusters, id, e.key) && ClusterNow(t.events, e, was, u.clusters[id])
    && WasRow(t.clusters, id, e.key, was) && IsFound(t.invariants, e.key, active)
    && u == t.(events := t.events + [e], clusters := u.clusters, clusterStats := Upsert(t.clusterStats, id, e),
               invariantStats := if active.Some? then Upsert(t.invariantStats, active.value, e) else t.invariantStats)
  }

  lemma Recorded(t: Tables, e: Event, u: Tables, id: nat, was: Option<Cluster>, active: Option<nat>)
    requires Faithful(t) && Records(t, e, u, id, was, active)
    ensures Faithful(u)
  {
    LogRecorded(t, e, u, id, was, active);
    InvariantsRecorded(t, e, u, id, was, active);
    StillProposed(t, e, u, id, was, active);
  }

  ghost predicate IsFound(invariants: map<nat, ActiveInvariant>, key: Key, active: Option<nat>) {
    if active.Some? then active.value in invariants && invariants[active.value].key == key else !IsActive(invariants, key)
  }

  lemma LogRecorded(t: Tables, e: Event, u: Tables, id: nat, was: Option<Cluster>, active: Option<nat>)
    requires LogKept(t.events, t.clusters, t.clusterStats) && Records(t, e, u, id, was, active)
    ensures LogKept(u.events, u.clusters, u.clusterStats)
  {
    ClustersRecorded(t.events, e, t.clusters, u.clusters, id, was);
    ClusterStatsRecorded(t.events, e, t.clusters, u.clusters, t.clusterStats, id, was);
  }

  lemma InvariantsRecorded(t: Tables, e: Event, u: Tables, id: nat, was: Option<Cluster>, active: Option<nat>)
    requires InvariantsKept(t.events, t.clusters, t.invariants, t.invariantStats) && Records(t, e, u, id, was, active)
    ensures InvariantsKept(u.events, u.clusters, u.invariants, u.invariantStats)
  {
    InvariantStatsRecorded(t.events, e, t.invariants, t.invariantStats, active);
    StillAbout(t.clusters, u.clusters, t.invariants);
  }

  lemma ProposedKeeps(t: Tables, clusterID: nat, reason: string, id: nat)
    requires Faithful(t) && clusterID in t.clusters
    ensures Faithful(WithProposal(t, clusterID, reason, id))
  {
    OneMoreProposal(t.clusters, t.invariants, t.proposals, id, WithProposal(t, clusterID, reason, id).proposals[id]);
  }

  lemma OneMoreProposal(clusters: map<nat, Cluster>, invariants: map<nat, ActiveInvariant>, proposals: map<nat, Proposal>, id: nat, p: Proposal)
    requires ProposalsAre(clusters, invariants, proposals)
    requires p.clusterID in clusters && p.key == clusters[p.clusterID].key && p.status == PROPOSED
    ensures ProposalsAre(clusters, invariants, proposals[id := p])
  {
    assert APPROVED[0] == 'a' && PROPOSED[0] == 'p';
  }

  lemma ClustersRecorded(log: seq<Event>, e: Event, before: map<nat, Cluster>, after: map<nat, Cluster>, id: nat, was: Option<Cluster>)
    requires ClustersAre(log, before) && OnlyRowOf(before, after, id, e.key) && ClusterNow(log, e, was, after[id])
    requires WasRow(before, id, e.key, was)
    ensures ClustersAre(log + [e], after)
  {
    SameClusterIs(log, e, was, after[id]);
    forall c | c in after && c != id ensures ClusterIs(log + [e], after[c]) {
      assert after[c].key != e.key;
      OtherClusterIs(log, e, after[c]);
    }
    forall x | x in log + [e] ensures HasCluster(after, x.key) { StillClustered(log, e, before, after, id, x); }
  }

  lemma StillClustered(log: seq<Event>, e: Event, before: map<nat, Cluster>, after: map<nat, Cluster>, id: nat, x: Event)
    requires OnlyRowOf(before, after, id, e.key) && x in log + [e] && (x in log ==> HasCluster(before, x.key))
    ensures HasCluster(after, x.key)
  {
    if x.key == e.key {
      assert after[id].key == x.key;
    } else {
      var c :| c in before && before[c].key == x.key;
      assert after[c].key == x.key;
    }
  }

  ghost predicate ClusterNow(log: seq<Event>, e: Event, was: Option<Cluster>, c: Cluster) {
    && c.key == e.key && c.title == e.title && c.summary == e.summary
    && c.occurrences == (if was.Some? then was.value.occurrences + 1 else 1)
    && c.severity == (if was.Some? then HighestSeverity(e.severity, was.value.severity) else e.severity)
    && c.distinctRuns == |Runs(log + [e], e.key)| && c.distinctIssues == |Issues(log + [e], e.key)|
  }

  lemma ClusterStatsRecorded(log: seq<Event>, e: Event, before: map<nat, Cluster>, after: map<nat, Cluster>,
                             stats: map<StageKey, Stat>, id: nat, was: Option<Cluster>)
    requires ClustersAre(log, before) && ClusterStatsAre(log, before, stats) && RowsOf(stats, before.Keys)
    requires OnlyRowOf(before, after, id, e.key) && WasRow(before, id, e.key, was)
    ensures ClusterStatsAre(log + [e], after, Upsert(stats, id, e))
  {
    if was.None? { NoStatsYet(log, e.key, stats, id); }
    UpsertIs(log, e, stats, id);
    forall c | c in after && c != id ensures StatsAre(log + [e], after[c].key, Upsert(stats, id, e), c) {
      assert after[c].key != e.key;
      OtherStatsAre(log, e, after[c].key, stats, c, id);
    }
  }

  lemma NoStatsYet(log: seq<Event>, key: Key, stats: map<StageKey, Stat>, id: nat)
    requires (forall e :: e in log ==> e.key != key) && forall k :: k in stats ==> k.id != id
    ensures StatsAre(log, key, stats, id)
  {
    forall stage ensures StatIs(log, key, stats, id, stage) {
      assert Where(log, Query(key, Some(stage), None)) == {};
    }
  }

  lemma InvariantStatsRecorded(log: seq<Event>, e: Event, invariants: map<nat, ActiveInvariant>, stats: map<StageKey, Stat>, active: Option<nat>)
    requires InvariantStatsAre(log, invariants, stats)
    requires forall i, j :: i in invariants && j in invariants && invariants[i].key == invariants[j].key ==> i == j
    requires IsFound(invariants, e.key, active)
    ensures InvariantStatsAre(log + [e], invariants, if active.Some? then Upsert(stats, active.value, e) else stats)
  {
    forall i | i in invariants
      ensures StatsAre(log + [e], invariants[i].key, if active.Some? then Upsert(stats, active.value, e) else stats, i) {
      if active == Some(i) {
        UpsertIs(log, e, stats, i);
      } else {
        assert invariants[i].key != e.key;
        OtherStatsAre(log, e, invariants[i].key, stats, i, if active.Some? then active.value else i + 1);
      }
    }
  }

  lemma StillAbout(before: map<nat, Cluster>, after: map<nat, Cluster>, invariants: map<nat, ActiveInvariant>)
    requires forall c :: c in before ==> c in after && after[c].key == before[c].key
    requires InvariantsAre(before, invariants)
    ensures InvariantsAre(after, invariants)
  {
    forall i | i in invariants ensures HasCluster(after, invariants[i].key) {
      assert HasCluster(before, invariants[i].key);
      var c :| c in before && before[c].key == invariants[i].key;
      assert after[c].key == invariants[i].key;
    }
  }

  lemma StillProposed(t: Tables, e: Event, u: Tables, id: nat, was: Option<Cluster>, active: Option<nat>)
    requires ProposalsAre(t.clusters, t.invariants, t.proposals) && Records(t, e, u, id, was, active)
    ensures ProposalsAre(u.clusters, u.invariants, u.proposals)
  {
    forall p | p in t.proposals ensures ProposalIs(u.clusters, u.invariants, u.proposals[p]) {
      assert ProposalIs(t.clusters, t.invariants, t.proposals[p]);
    }
  }

  // ---- Activating ----

  lemma ActivatedKeeps(t: Tables, u: Tables, proposalID: nat, mode: string, id: nat)
    requires Faithful(t) && Activated(t, u, proposalID, mode, id)
    ensures Faithful(u)
  {
    ActivatedInvariants(t, u, proposalID, mode, id);
    ActivatedProposals(t, u, proposalID, mode, id);
  }

  /** The invariant put in force is the proposal's text, with the highest severity in the log, in the mode asked for; the proposal is approved. */
  lemma ActivationTakesEffect(t: Tables, u: Tables, proposalID: nat, mode: string, id: nat)
    requires Faithful(t) && Activated(t, u, proposalID, mode, id)
    ensures var p := t.proposals[proposalID];
      && u.proposals == t.proposals[proposalID := p.(status := APPROVED)]
      && u.invariants == t.invariants[id := ActiveInvariant(p.key, p.text, SeverityOf(t.events, p.key), mode, proposalID)]
      && (forall i :: i in t.invariants && t.invariants[i].key == p.key ==> i == id)
      && u.events == t.events && u.clusters == t.clusters && u.clusterStats == t.clusterStats
  {
    var p := t.proposals[proposalID];
    assert ProposalIs(t.clusters, t.invariants, p);
    assert ClusterIs(t.events, t.clusters[p.clusterID]);
  }

  lemma ActivatedInvariants(t: Tables, u: Tables, proposalID: nat, mode: string, id: nat)
    requires LogKept(t.events, t.clusters, t.clusterStats) && InvariantsKept(t.events, t.clusters, t.invariants, t.invariantStats)
    requires ProposalsAre(t.clusters, t.invariants, t.proposals) && Activated(t, u, proposalID, mode, id)
    ensures InvariantsKept(u.events, u.clusters, u.invariants, u.invariantStats)
  {
    var p := t.proposals[proposalID];
    assert ProposalIs(t.clusters, t.invariants, p);
    InvariantSeeded(t.events, t.clusters, t.clusterStats, t.invariants, u.invariants, t.invariantStats, id, p);
  }

  lemma ActivatedProposals(t: Tables, u: Tables, proposalID: nat, mode: string, id: nat)
    requires ProposalsAre(t.clusters, t.invariants, t.proposals) && Activated(t, u, proposalID, mode, id)
    ensures ProposalsAre(u.clusters, u.invariants, u.proposals)
  {
    assert u.invariants[id].key == t.proposals[proposalID].key;
    StillActive(t.clusters, t.invariants, u.invariants, t.proposals, u.proposals, proposalID);
  }

  lemma InvariantSeeded(log: seq<Event>, clusters: map<nat, Cluster>, clusterStats: map<StageKey, Stat>,
                        before: map<nat, ActiveInvariant>, after: map<nat, ActiveInvariant>, stats: map<StageKey, Stat>, id: nat, p: Proposal)
    requires p.clusterID in clusters && p.key == clusters[p.clusterID].key && StatsAre(log, p.key, clusterStats, p.clusterID)
    requires InvariantsKept(log, clusters, before, stats)
    requires id in after && after == before[id := after[id]] && after[id].key == p.key
    requires if id in before then before[id].key == p.key else !IsActive(before, p.key)
    ensures InvariantsKept(log, clusters, after, Seeded(stats, id, clusterStats, p.clusterID))
  {
    SeededStats(log, p.key, clusterStats, p.clusterID, stats, id, id in before);
    forall i | i in after && i != id ensures StatsAre(log, after[i].key, Seeded(stats, id, clusterStats, p.clusterID), i) {
      OtherSeeded(log, after[i].key, clusterStats, p.clusterID, stats, id, i);
    }
    assert HasCluster(clusters, p.key);
  }

  lemma SeededStats(log: seq<Event>, key: Key, clusterStats: map<StageKey, Stat>, clusterID: nat, stats: map<StageKey, Stat>, id: nat, had: bool)
    requires StatsAre(log, key, clusterStats, clusterID)
    requires if had then StatsAre(log, key, stats, id) else forall k :: k in stats ==> k.id != id
    ensures StatsAre(log, key, Seeded(stats, id, clusterStats, clusterID), id)
  {
    forall stage ensures StatIs(log, key, Seeded(stats, id, clusterStats, clusterID), id, stage) {
      assert StatIs(log, key, clusterStats, clusterID, stage);
      if had { assert StatIs(log, key, stats, id, stage); }
      assert StageKey(clusterID, stage) in clusterStats ==> StageKey(id, stage) in Seeded(stats, id, clusterStats, clusterID);
    }
  }

  lemma OtherSeeded(log: seq<Event>, key: Key, clusterStats: map<StageKey, Stat>, clusterID: nat, stats: map<StageKey, Stat>, id: nat, other: nat)
    requires StatsAre(log, key, stats, other) && other != id
    ensures StatsAre(log, key, Seeded(stats, id, clusterStats, clusterID), other)
  {
    forall stage ensures StatIs(log, key, Seeded(stats, id, clusterStats, clusterID), other, stage) {
      assert StatIs(log, key, stats, other, stage);
    }
  }

  lemma StillActive(clusters: map<nat, Cluster>, before: map<nat, ActiveInvariant>, after: map<nat, ActiveInvariant>,
                    was: map<nat, Proposal>, now: map<nat, Proposal>, id: nat)
    requires ProposalsAre(clusters, before, was) && id in was && now == was[id := was[id].(status := APPROVED)]
    requires IsActive(after, was[id].key) && forall i :: i in before ==> i in after && after[i].key == before[i].key
    ensures ProposalsAre(clusters, after, now)
  {
    forall p | p in now ensures ProposalIs(clusters, after, now[p]) {
      assert ProposalIs(clusters, before, was[p]);
      if IsActive(before, was[p].key) {
        var i :| i in before && before[i].key == was[p].key;
        assert after[i].key == was[p].key;
      }
    }
  }

  // ---- Proposing what deserves it ----

  /** There is an open proposal for findings of this key. */
  ghost predicate IsProposed(proposals: map<nat, Proposal>, key: Key) {
    exists p :: p in proposals && proposals[p].key == key && proposals[p].status == PROPOSED
  }

  ghost predicate OnlyNewProposal(before: map<nat, Proposal>, after: map<nat, Proposal>, id: nat) {
    id !in before && id in after && after == before[id := after[id]]
  }

  /** An open proposal, made on the occasion of the event, with its title for a text and the reason for which it was made. */
  ghost predicate IsProposalFor(log: seq<Event>, e: Event, clusterID: nat, p: Proposal) {
    p.clusterID == clusterID && p.key == e.key && p.text == e.title && p.status == PROPOSED && IsReason(log, e.key, p.reason)
  }

  lemma OpenIffProposed(t: Tables, c: nat)
    requires Faithful(t) && c in t.clusters
    ensures IsOpen(t, c) <==> IsProposed(t.proposals, t.clusters[c].key)
  {
    forall p | p in t.proposals ensures t.proposals[p].key == t.clusters[c].key <==> t.proposals[p].clusterID == c {
      assert ProposalIs(t.clusters, t.invariants, t.proposals[p]);
    }
  }

  /** A cluster that deserves a proposal has one open, or its invariant is in force. */
  ghost predicate Covered(t: Tables, c: nat)
    requires c in t.clusters
  {
    ShouldPropose(t.clusters[c]).Some? ==> IsOpen(t, c) || IsActive(t.invariants, t.clusters[c].key)
  }

  /** No cluster ever has two proposals. */
  ghost predicate OneProposal(proposals: map<nat, Proposal>) {
    forall p, q :: p in proposals && q in proposals && proposals[p].clusterID == proposals[q].clusterID ==> p == q
  }

  ghost predicate AllCovered(t: Tables) {
    forall c :: c in t.clusters ==> Covered(t, c)
  }

  ghost predicate Sound(t: Tables) {
    Faithful(t) && OneProposal(t.proposals) && AllCovered(t)
  }

  /** Whatever the log gives reason to propose is proposed or in force. */
  lemma DeservingAreCovered(t: Tables, key: Key)
    requires Sound(t) && Deserves(t.events, key)
    ensures IsProposed(t.proposals, key) || IsActive(t.invariants, key)
  {
    DeservingOccur(t.events, key);
    var e :| e in t.events && e.key == key;
    assert HasCluster(t.clusters, e.key);
    var c :| c in t.clusters && t.clusters[c].key == key;
    ProposedIffDeserved(t.events, t.clusters[c]);
    OpenIffProposed(t, c);
    assert Covered(t, c);
  }

  class Service {
    const store: PostgresStore

    constructor (store: PostgresStore)
      ensures this.store == store
    {
      this.store := store;
    }

    method IngestFinding(e: Event) returns (cluster: nat, proposal: Option<nat>)
      requires store.Valid() && Sound(store.t)
      modifies store
      ensures store.Valid() && Sound(store.t)
      ensures store.t.events == old(store.t).events + [e] && store.t.invariants == old(store.t).invariants
      ensures cluster in store.t.clusters && store.t.clusters[cluster].key == e.key
      ensures proposal.Some? <==>
        Deserves(store.t.events, e.key) && !IsActive(old(store.t).invariants, e.key) && !IsProposed(old(store.t).proposals, e.key)
      ensures proposal.None? ==> store.t.proposals == old(store.t).proposals
      ensures proposal.Some? ==> OnlyNewProposal(old(store.t).proposals, store.t.proposals, proposal.value)
      ensures proposal.Some? ==> IsProposalFor(store.t.events, e, cluster, store.t.proposals[proposal.value])
    {
      ghost var was := store.t;
      var active: Option<nat>;
      ghost var before: Option<Cluster>;
      cluster, active, before := store.RecordFinding(e);
      proposal := None;
      Recorded(was, e, store.t, cluster, before, active);
      OthersCovered(was, e, store.t, cluster, before, active);
      ProposedIffDeserved(store.t.events, store.t.clusters[cluster]);
      OpenIffProposed(store.t, cluster);
      if active.Some? { return; }
      var reason := ShouldPropose(store.t.clusters[cluster]);
      if reason.None? { return; }
      var exists' := store.HasOpenProposal(cluster);
      if exists' { return; }
      ghost var mid := store.t;
      var id := store.CreateProposal(cluster, reason.value);
      ProposedKeeps(mid, cluster, reason.value, id);
      NowCovered(mid, cluster, reason.value, id);
      proposal := Some(id);
    }

    method ActivateProposal(proposalID: nat, mode: string) returns (activated: Option<nat>)
      requires store.Valid() && Sound(store.t)
      modifies store
      ensures store.Valid() && Sound(store.t)
      ensures activated.Some? <==> proposalID in old(store.t).proposals
      ensures if activated.Some? then Activated(old(store.t), store.t, proposalID, mode, activated.value) else store.t == old(store.t)
    {
      ghost var was := store.t;
      assert proposalID in was.proposals ==> ProposalIs(was.clusters, was.invariants, was.proposals[proposalID]);
      activated := store.ActivateProposal(proposalID, mode);
      if activated.Some? {
        ActivatedKeeps(was, store.t, proposalID, mode, activated.value);
        StillCovered(was, store.t, proposalID, mode, activated.value);
      }
    }
  }

  lemma OthersCovered(t: Tables, e: Event, u: Tables, id: nat, was: Option<Cluster>, active: Option<nat>)
    requires AllCovered(t) && Records(t, e, u, id, was, active)
    ensures forall c :: c in u.clusters && c != id ==> Covered(u, c)
  {
    forall c | c in u.clusters && c != id ensures Covered(u, c) { StaysCovered(t, u, c); }
  }

  lemma StaysCovered(t: Tables, u: Tables, c: nat)
    requires c in t.clusters && Covered(t, c) && c in u.clusters && u.clusters[c] == t.clusters[c]
    requires forall p :: p in t.proposals ==> p in u.proposals && u.proposals[p] == t.proposals[p]
    requires forall i :: i in t.invariants ==> i in u.invariants && u.invariants[i].key == t.invariants[i].key
    ensures Covered(u, c)
  {
    if IsOpen(t, c) {
      var p :| p in t.proposals && t.proposals[p].clusterID == c && t.proposals[p].status == PROPOSED;
      assert p in u.proposals && u.proposals[p].clusterID == c;
    }
    if IsActive(t.invariants, t.clusters[c].key) {
      var i :| i in t.invariants && t.invariants[i].key == t.clusters[c].key;
      assert i in u.invariants;
    }
  }

  lemma NowCovered(t: Tables, c: nat, reason: string, id: nat)
    requires ProposalsAre(t.clusters, t.invariants, t.proposals) && OneProposal(t.proposals)
    requires c in t.clusters && id !in t.proposals && !IsOpen(t, c) && !IsActive(t.invariants, t.clusters[c].key)
    requires forall d :: d in t.clusters && d != c ==> Covered(t, d)
    ensures var u := WithProposal(t, c, reason, id); OneProposal(u.proposals) && AllCovered(u)
  {
    var u := WithProposal(t, c, reason, id);
    forall p | p in t.proposals ensures t.proposals[p].clusterID != c {
      assert ProposalIs(t.clusters, t.invariants, t.proposals[p]);
    }
    forall d | d in u.clusters ensures Covered(u, d) {
      if d == c {
        assert u.proposals[id].clusterID == c && u.proposals[id].status == PROPOSED;
      } else {
        StaysCovered(t, u, d);
      }
    }
  }

  lemma StillCovered(t: Tables, u: Tables, proposalID: nat, mode: string, id: nat)
    requires Faithful(t) && AllCovered(t) && OneProposal(t.proposals) && Activated(t, u, proposalID, mode, id)
    ensures AllCovered(u) && OneProposal(u.proposals)
  {
    forall c | c in u.clusters ensures Covered(u, c) { CoveredAfterActivation(t, u, proposalID, mode, id, c); }
  }

  lemma CoveredAfterActivation(t: Tables, u: Tables, proposalID: nat, mode: string, id: nat, c: nat)
    requires ProposalsAre(t.clusters, t.invariants, t.proposals) && Activated(t, u, proposalID, mode, id)
    requires c in t.clusters && c in u.clusters && Covered(t, c)
    ensures Covered(u, c)
  {
    if IsOpen(t, c) {
      var p :| p in t.proposals && t.proposals[p].clusterID == c && t.proposals[p].status == PROPOSED;
      assert ProposalIs(t.clusters, t.invariants, t.proposals[p]);
      assert p in u.proposals && u.proposals[p].clusterID == c;
      if p == proposalID { assert u.invariants[id].key == u.clusters[c].key; }
    }
    if IsActive(t.invariants, t.clusters[c].key) {
      var i :| i in t.invariants && t.invariants[i].key == t.clusters[c].key;
      assert i in u.invariants && u.invariants[i].key == t.invariants[i].key;
    }
  }

  // ---- What the tables are good for ----

  /** An active invariant's statistics are those of its cluster, stage by stage. */
  lemma InvariantStatsAreClusterStats(t: Tables, i: nat, c: nat, stage: string)
    requires Faithful(t) && i in t.invariants && c in t.clusters && t.clusters[c].key == t.invariants[i].key
    ensures StageKey(i, stage) in t.invariantStats <==> StageKey(c, stage) in t.clusterStats
    ensures StageKey(i, stage) in t.invariantStats ==> t.invariantStats[StageKey(i, stage)] == t.clusterStats[StageKey(c, stage)]
  {
    assert StatIs(t.events, t.clusters[c].key, t.clusterStats, c, stage);
    assert StatIs(t.events, t.invariants[i].key, t.invariantStats, i, stage);
  }
}
