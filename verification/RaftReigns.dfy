/** The theory of reigns: authentic logs, quorums, chosen entries, and leader completeness. */
module RaftReigns {
  import opened RaftProtocol
  import opened RaftCluster

  // ---------- Quorums ----------

  ghost predicate IsQuorum(q: set<NodeId>, size: nat) {
    && (forall v | v in q :: v < size)
    && 2 * |q| > size
  }

  lemma {:induction false} BoundedSetSize(q: set<NodeId>, size: nat)
    requires forall v | v in q :: v < size
    ensures |q| <= size
  {
    if size == 0 {
      assert q == {};
    } else {
      BoundedSetSize(q - {size - 1}, size - 1);
    }
  }

  lemma QuorumsMeet(q: set<NodeId>, r: set<NodeId>, size: nat) returns (v: NodeId)
    requires IsQuorum(q, size) && IsQuorum(r, size)
    ensures v in q && v in r
  {
    BoundedSetSize(q + r, size);
    assert |q + r| + |q * r| == |q| + |r|;
    v :| v in q * r;
  }

  // ---------- Authentic logs ----------

  ghost predicate Covered(reigns: map<Term, Reign>, log: seq<LogEntry>, i: nat)
    requires i < |log|
  {
    && log[i].term in reigns
    && reigns[log[i].term].base <= i < |reigns[log[i].term].log|
    && log[..i + 1] == reigns[log[i].term].log[..i + 1]
  }

  // Up to each of its entries the log is that of the leader who created the entry.
  ghost predicate Authentic(reigns: map<Term, Reign>, log: seq<LogEntry>) {
    forall i :: 0 <= i < |log| ==> Covered(reigns, log, i)
  }

  ghost predicate ReignOk(reigns: map<Term, Reign>, t: Term)
    requires t in reigns
  {
    && 1 <= t
    && reigns[t].base <= |reigns[t].log|
    && (forall i :: 0 <= i < reigns[t].base ==> reigns[t].log[i].term < t)
    && (forall i :: reigns[t].base <= i < |reigns[t].log| ==> reigns[t].log[i].term == t)
    && (forall i :: 0 <= i < |reigns[t].log| ==> reigns[t].log[i].index == i + 1)
    && Authentic(reigns, reigns[t].log)
  }

  ghost predicate ReignsOk(reigns: map<Term, Reign>) {
    forall t :: t in reigns ==> ReignOk(reigns, t)
  }

  // The log is what some leader's log was at a moment of its reign, not before its election.
  ghost predicate StanceOk(reigns: map<Term, Reign>, s: Stance) {
    if s.accepted == 0 then s.log == []
    else
      && s.accepted in reigns
      && reigns[s.accepted].base <= |s.log|
      && s.log <= reigns[s.accepted].log
  }

  lemma StanceAuthentic(reigns: map<Term, Reign>, s: Stance)
    requires ReignsOk(reigns) && StanceOk(reigns, s)
    ensures Authentic(reigns, s.log)
    ensures forall i :: 0 <= i < |s.log| ==> s.log[i].term <= s.accepted && s.log[i].index == i + 1
  {
    if s.accepted != 0 {
      var whole := reigns[s.accepted].log;
      assert ReignOk(reigns, s.accepted);
      forall i | 0 <= i < |s.log|
        ensures Covered(reigns, s.log, i)
      {
        assert Covered(reigns, whole, i);
        assert s.log[..i + 1] == whole[..i + 1];
      }
    }
  }

  lemma AuthenticTermsAscend(reigns: map<Term, Reign>, log: seq<LogEntry>, i: nat, j: nat)
    requires ReignsOk(reigns) && Authentic(reigns, log) && i <= j < |log|
    ensures log[i].term <= log[j].term
  {
    var t := log[j].term;
    assert Covered(reigns, log, j);
    assert ReignOk(reigns, t);
    assert log[i] == log[..j + 1][i] == reigns[t].log[i];
  }

  // Two authentic logs that agree on the term at a position agree up to that position.
  lemma AuthenticLogsMatch(reigns: map<Term, Reign>, a: seq<LogEntry>, b: seq<LogEntry>, i: nat)
    requires Authentic(reigns, a) && Authentic(reigns, b) && i < |a| && i < |b|
    requires a[i].term == b[i].term
    ensures a[..i + 1] == b[..i + 1]
  {
    assert Covered(reigns, a, i) && Covered(reigns, b, i);
  }

  // ---------- Growth of the history ----------

  ghost predicate Grows(reigns: map<Term, Reign>, reigns': map<Term, Reign>) {
    forall t :: t in reigns ==>
      && t in reigns'
      && reigns'[t].leader == reigns[t].leader
      && reigns'[t].base == reigns[t].base
      && reigns'[t].voters == reigns[t].voters
      && reigns[t].log <= reigns'[t].log
  }

  lemma AuthenticGrows(reigns: map<Term, Reign>, reigns': map<Term, Reign>, log: seq<LogEntry>)
    requires Grows(reigns, reigns') && Authentic(reigns, log)
    ensures Authentic(reigns', log)
  {
    forall i | 0 <= i < |log|
      ensures Covered(reigns', log, i)
    {
      assert Covered(reigns, log, i);
      assert reigns'[log[i].term].log[..i + 1] == reigns[log[i].term].log[..i + 1];
    }
  }

  lemma StanceGrows(reigns: map<Term, Reign>, reigns': map<Term, Reign>, s: Stance)
    requires Grows(reigns, reigns') && StanceOk(reigns, s)
    ensures StanceOk(reigns', s)
  {
  }

  // ---------- Chosen entries ----------

  // Node v holds entry j of the leader of term t: it acknowledged it, or it is that leader.
  ghost predicate Endorses(reigns: map<Term, Reign>, acks: set<Ack>, v: NodeId, t: Term, j: LogIndex) {
    || Ack(t, v, j) in acks
    || (t in reigns && reigns[t].leader == v && reigns[t].base < j <= |reigns[t].log|)
  }

  ghost predicate EndorsedBy(reigns: map<Term, Reign>, acks: set<Ack>, q: set<NodeId>, t: Term, j: LogIndex) {
    forall v :: v in q ==> Endorses(reigns, acks, v, t, j)
  }

  // Entry j, which the leader of term t created, is held by a majority.
  ghost predicate Chosen(reigns: map<Term, Reign>, acks: set<Ack>, size: nat, t: Term, j: LogIndex) {
    && t in reigns
    && reigns[t].base < j <= |reigns[t].log|
    && exists q :: IsQuorum(q, size) && EndorsedBy(reigns, acks, q, t, j)
  }

  lemma ChosenGrows(reigns: map<Term, Reign>, acks: set<Ack>, reigns': map<Term, Reign>, acks': set<Ack>, size: nat,
                    t: Term, j: LogIndex)
    requires Grows(reigns, reigns') && acks <= acks' && Chosen(reigns, acks, size, t, j)
    ensures Chosen(reigns', acks', size, t, j)
  {
    var q :| IsQuorum(q, size) && EndorsedBy(reigns, acks, q, t, j);
    assert EndorsedBy(reigns', acks', q, t, j);
  }

  // ---------- Elections ----------

  // The stance records all that v endorsed before it voted in term t.
  ghost predicate Witnesses(reigns: map<Term, Reign>, acks: set<Ack>, v: NodeId, t: Term, s: Stance) {
    forall t0: Term, j: LogIndex :: t0 < t && Endorses(reigns, acks, v, t0, j) ==>
      t0 <= s.accepted && (t0 == s.accepted ==> j <= |s.log|)
  }

  ghost predicate VoterOk(reigns: map<Term, Reign>, acks: set<Ack>, t: Term, v: NodeId)
    requires t in reigns && v in reigns[t].voters && reigns[t].base <= |reigns[t].log|
  {
    var s := reigns[t].voters[v];
    && StanceOk(reigns, s)
    && s.accepted < t
    && AtLeastAsUpToDate(reigns[t].base, LastTerm(reigns[t].log[..reigns[t].base]), s.log)
    && Witnesses(reigns, acks, v, t, s)
  }

  ghost predicate ElectionOk(reigns: map<Term, Reign>, acks: set<Ack>, size: nat, t: Term)
    requires t in reigns
  {
    && reigns[t].base <= |reigns[t].log|
    && reigns[t].leader < size
    && IsQuorum(reigns[t].voters.Keys, size)
    && forall v :: v in reigns[t].voters ==> VoterOk(reigns, acks, t, v)
  }

  ghost predicate VotersOk(reigns: map<Term, Reign>, acks: set<Ack>, size: nat) {
    forall t :: t in reigns ==> ElectionOk(reigns, acks, size, t)
  }

  // A log at least as up to date as one that holds a chosen entry holds it too, provided all
  // leaders of the terms in between do.
  lemma UpToDateLogHolds(reigns: map<Term, Reign>, t: Term, j: LogIndex, t': Term, own: seq<LogEntry>, s: Stance)
    requires ReignsOk(reigns) && t in reigns && reigns[t].base < j <= |reigns[t].log|
    requires t < t' && Authentic(reigns, own) && (forall i :: 0 <= i < |own| ==> own[i].term < t')
    requires StanceOk(reigns, s) && j <= |s.log| && s.log[..j] == reigns[t].log[..j]
    requires AtLeastAsUpToDate(|own|, LastTerm(own), s.log)
    requires forall u :: u in reigns && t < u < t' ==> j <= reigns[u].base && reigns[u].log[..j] == reigns[t].log[..j]
    ensures j <= |own| && own[..j] == reigns[t].log[..j]
  {
    StanceAuthentic(reigns, s);
    assert s.log[j - 1] == s.log[..j][j - 1] == reigns[t].log[..j][j - 1] == reigns[t].log[j - 1];
    assert ReignOk(reigns, t);
    assert s.log[j - 1].term == t;
    AuthenticTermsAscend(reigns, s.log, j - 1, |s.log| - 1);
    assert LastTerm(own) >= LastTerm(s.log) >= t >= 1;
    var last := |own| - 1;
    var u := own[last].term;
    assert Covered(reigns, own, last);
    if u == LastTerm(s.log) {
      var k := |s.log| - 1;
      assert Covered(reigns, s.log, k);
      assert own[..last + 1] == own && s.log[..k + 1] == s.log;
      assert own[..j] == own[..last + 1][..j] == reigns[u].log[..last + 1][..j] == reigns[u].log[..j];
      assert s.log[..j] == s.log[..k + 1][..j] == reigns[u].log[..k + 1][..j] == reigns[u].log[..j];
    } else {
      assert t < u < t';
      assert j <= reigns[u].base <= last;
      assert own[..j] == own[..last + 1][..j] == reigns[u].log[..last + 1][..j] == reigns[u].log[..j];
    }
  }

  // A node that endorsed a chosen entry still held it when it voted in a later term, provided the
  // leaders of the terms in between held it.
  lemma VoterHolds(reigns: map<Term, Reign>, acks: set<Ack>, t: Term, j: LogIndex, t': Term, v: NodeId, s: Stance)
    requires t in reigns && reigns[t].base < j <= |reigns[t].log|
    requires t < t' && StanceOk(reigns, s) && s.accepted < t'
    requires Endorses(reigns, acks, v, t, j) && Witnesses(reigns, acks, v, t', s)
    requires forall u :: u in reigns && t < u < t' ==>
               j <= reigns[u].base <= |reigns[u].log| && reigns[u].log[..j] == reigns[t].log[..j]
    ensures j <= |s.log| && s.log[..j] == reigns[t].log[..j]
  {
    var a := s.accepted;
    assert t <= a;
    assert s.log == reigns[a].log[..|s.log|];
    assert s.log[..j] == reigns[a].log[..j];
  }

  lemma PrefixAuthentic(reigns: map<Term, Reign>, log: seq<LogEntry>, k: nat)
    requires Authentic(reigns, log) && k <= |log|
    ensures Authentic(reigns, log[..k])
  {
    forall i | 0 <= i < k
      ensures Covered(reigns, log[..k], i)
    {
      assert Covered(reigns, log, i);
      assert log[..k][..i + 1] == log[..i + 1];
    }
  }

  // Leader Completeness: a chosen entry is in the log every later leader was elected with.
  lemma {:induction false} LeaderCompleteness(reigns: map<Term, Reign>, acks: set<Ack>, size: nat, t: Term,
                                              j: LogIndex, t': Term)
    requires ReignsOk(reigns) && VotersOk(reigns, acks, size)
    requires Chosen(reigns, acks, size, t, j) && t < t' && t' in reigns
    ensures j <= reigns[t'].base <= |reigns[t'].log| && reigns[t'].log[..j] == reigns[t].log[..j]
    decreases t'
  {
    forall u | u in reigns && t < u < t'
      ensures j <= reigns[u].base <= |reigns[u].log| && reigns[u].log[..j] == reigns[t].log[..j]
    {
      LeaderCompleteness(reigns, acks, size, t, j, u);
    }
    var v := SharedVoter(reigns, acks, size, t, j, t');
    ElectedLogHolds(reigns, acks, t, j, t', v);
  }

  lemma SharedVoter(reigns: map<Term, Reign>, acks: set<Ack>, size: nat, t: Term, j: LogIndex, t': Term)
    returns (v: NodeId)
    requires VotersOk(reigns, acks, size) && Chosen(reigns, acks, size, t, j) && t' in reigns
    ensures reigns[t'].base <= |reigns[t'].log|
    ensures v in reigns[t'].voters && VoterOk(reigns, acks, t', v) && Endorses(reigns, acks, v, t, j)
  {
    var q :| IsQuorum(q, size) && EndorsedBy(reigns, acks, q, t, j);
    assert ElectionOk(reigns, acks, size, t');
    v := QuorumsMeet(q, reigns[t'].voters.Keys, size);
  }

  lemma ElectedLogHolds(reigns: map<Term, Reign>, acks: set<Ack>, t: Term, j: LogIndex, t': Term, v: NodeId)
    requires ReignsOk(reigns) && t in reigns && t' in reigns && t < t'
    requires reigns[t].base < j <= |reigns[t].log| && reigns[t'].base <= |reigns[t'].log|
    requires v in reigns[t'].voters && VoterOk(reigns, acks, t', v) && Endorses(reigns, acks, v, t, j)
    requires forall u :: u in reigns && t < u < t' ==>
               j <= reigns[u].base <= |reigns[u].log| && reigns[u].log[..j] == reigns[t].log[..j]
    ensures j <= reigns[t'].base && reigns[t'].log[..j] == reigns[t].log[..j]
  {
    var s := reigns[t'].voters[v];
    var base := reigns[t'].base;
    var own := reigns[t'].log[..base];
    assert j <= |s.log| && s.log[..j] == reigns[t].log[..j] by { VoterHolds(reigns, acks, t, j, t', v, s); }
    assert Authentic(reigns, own) && forall i :: 0 <= i < base ==> own[i].term < t' by {
      assert ReignOk(reigns, t');
      PrefixAuthentic(reigns, reigns[t'].log, base);
    }
    UpToDateLogHolds(reigns, t, j, t', own, s);
    assert own[..j] == reigns[t'].log[..j];
  }

  // ---------- Committed prefixes ----------

  ghost predicate ChosenUnder(reigns: map<Term, Reign>, acks: set<Ack>, size: nat, t: Term, count: nat, u: Term,
                              j: LogIndex)
    requires t in reigns && count <= |reigns[t].log|
  {
    && u <= t && Chosen(reigns, acks, size, u, j) && count <= j
    && reigns[u].log[..count] == reigns[t].log[..count]
  }

  // The first `count` entries of the log of term t's leader are chosen, by that leader or earlier.
  ghost predicate Committed(reigns: map<Term, Reign>, acks: set<Ack>, size: nat, t: Term, count: nat) {
    || count == 0
    || (&& t in reigns
        && count <= |reigns[t].log|
        && exists u: Term, j: LogIndex :: ChosenUnder(reigns, acks, size, t, count, u, j))
  }

  lemma CommittedGrows(reigns: map<Term, Reign>, acks: set<Ack>, reigns': map<Term, Reign>, acks': set<Ack>,
                       size: nat, t: Term, count: nat)
    requires Grows(reigns, reigns') && acks <= acks' && Committed(reigns, acks, size, t, count)
    ensures Committed(reigns', acks', size, t, count)
    ensures count > 0 ==>
              && t in reigns && t in reigns' && count <= |reigns[t].log|
              && reigns'[t].log[..count] == reigns[t].log[..count]
  {
    if count > 0 {
      var u: Term, j: LogIndex :| ChosenUnder(reigns, acks, size, t, count, u, j);
      ChosenGrows(reigns, acks, reigns', acks', size, u, j);
      assert reigns'[u].log[..count] == reigns[u].log[..count];
      assert reigns'[t].log[..count] == reigns[t].log[..count];
      assert ChosenUnder(reigns', acks', size, t, count, u, j);
    }
  }

  // What is committed under one leader is at the front of the log of every later leader.
  lemma CommittedCarries(reigns: map<Term, Reign>, acks: set<Ack>, size: nat, t: Term, count: nat, t': Term)
    requires ReignsOk(reigns) && VotersOk(reigns, acks, size)
    requires Committed(reigns, acks, size, t, count) && t < t' && t' in reigns
    ensures count <= reigns[t'].base && Committed(reigns, acks, size, t', count)
    ensures count > 0 ==> t in reigns && count <= |reigns[t].log| && reigns[t'].log[..count] == reigns[t].log[..count]
  {
    if count > 0 {
      var u: Term, j: LogIndex :| ChosenUnder(reigns, acks, size, t, count, u, j);
      LeaderCompleteness(reigns, acks, size, u, j, t');
      PrefixOfPrefix(reigns[t'].log, reigns[u].log, j, count);
      assert ChosenUnder(reigns, acks, size, t', count, u, j);
    }
  }

  lemma CommittedUnder(reigns: map<Term, Reign>, acks: set<Ack>, size: nat, t: Term, count: nat, t': Term)
    requires t < t' ==> ReignsOk(reigns) && VotersOk(reigns, acks, size)
    requires Committed(reigns, acks, size, t, count) && t <= t' && t' in reigns
    ensures Committed(reigns, acks, size, t', count)
  {
    if t < t' {
      CommittedCarries(reigns, acks, size, t, count, t');
    } else {
      assert t == t';
    }
  }

  lemma PrefixOfPrefix(a: seq<LogEntry>, b: seq<LogEntry>, j: nat, count: nat)
    requires count <= j <= |a| && j <= |b| && a[..j] == b[..j]
    ensures a[..count] == b[..count]
  {
    assert a[..count] == a[..j][..count];
    assert b[..count] == b[..j][..count];
  }
}
