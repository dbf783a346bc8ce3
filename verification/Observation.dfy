/** The member-observation cache: one round of polls per instance, reused for a short while. */
module Observation {
  import opened Common

  datatype Pod = Pod(name: string, ready: bool, ip: string, deleting: bool)

  // What an agent says of itself when it answers.
  datatype Report = Report(healthy: bool, timeline: nat, receivedLsn: nat, replayLsn: nat, inRecovery: bool,
                           walReceiver: bool, walFull: bool)

  datatype Member = Member(
    name: string, podReady: bool, reachable: bool,
    timeline: nat, receivedLsn: nat, replayLsn: nat, inRecovery: bool, walReceiver: bool, walFull: bool)

  datatype Round = Round(members: seq<Member>, reports: seq<Report>, observed: int)

  // One poll as it was made: for whom, of which Pods, what came back, and when it was done.
  datatype Poll = Poll(instance: string, pods: seq<Pod>, round: Round)

  // ------------------------------------------------------------------ polling

  predicate Answers(p: Pod, answer: Option<Report>) {
    p.ip != "" && !p.deleting && answer.Some? && answer.value.healthy
  }

  function MemberOf(p: Pod, answer: Option<Report>): Member {
    if Answers(p, answer) then
      var r := answer.value;
      Member(p.name, p.ready, true, r.timeline, r.receivedLsn, r.replayLsn, r.inRecovery, r.walReceiver, r.walFull)
    else Member(p.name, p.ready, false, 0, 0, 0, false, false, false)
  }

  function ReportsOf(pods: seq<Pod>, answers: seq<Option<Report>>): seq<Report>
    requires |answers| == |pods|
  {
    if pods == [] then []
    else
      var last := |pods| - 1;
      ReportsOf(pods[..last], answers[..last])
      + if Answers(pods[last], answers[last]) then [answers[last].value] else []
  }

  ghost predicate PollOf(pods: seq<Pod>, answers: seq<Option<Report>>, members: seq<Member>, reports: seq<Report>) {
    && |answers| == |pods| == |members|
    && (forall i | 0 <= i < |pods| :: members[i] == MemberOf(pods[i], answers[i]))
    && reports == ReportsOf(pods, answers)
  }

  // Asks every Pod; `answers` is what each would say.
  method PollMembers(pods: seq<Pod>, answers: seq<Option<Report>>) returns (members: seq<Member>, reports: seq<Report>)
    requires |answers| == |pods|
    ensures PollOf(pods, answers, members, reports)
    // A member is reachable exactly when it has an address, is not going away and answered healthy; and then
    // it is as it says, and otherwise nothing is known of it.
    ensures forall i | 0 <= i < |pods| ::
              && members[i].name == pods[i].name && members[i].podReady == pods[i].ready
              && (members[i].reachable <==>
                    pods[i].ip != "" && !pods[i].deleting && answers[i].Some? && answers[i].value.healthy)
              && (members[i].reachable ==> Says(members[i], answers[i].value))
              && (!members[i].reachable ==> members[i] == Member(pods[i].name, pods[i].ready, false, 0, 0, 0, false,
                    false, false))
    ensures forall r :: r in reports <==> exists i | 0 <= i < |pods| :: members[i].reachable && answers[i] == Some(r)
  {
    members, reports := [], [];
    for i := 0 to |pods|
      invariant |members| == i && forall j | 0 <= j < i :: members[j] == MemberOf(pods[j], answers[j])
      invariant reports == ReportsOf(pods[..i], answers[..i])
    {
      assert pods[..i + 1][..i] == pods[..i] && answers[..i + 1][..i] == answers[..i];
      var member := Member(pods[i].name, pods[i].ready, false, 0, 0, 0, false, false, false);
      if pods[i].ip != "" && !pods[i].deleting {
        if answers[i].Some? && answers[i].value.healthy {
          var r := answers[i].value;
          member := member.(reachable := true, timeline := r.timeline, receivedLsn := r.receivedLsn,
                            replayLsn := r.replayLsn, inRecovery := r.inRecovery, walReceiver := r.walReceiver,
                            walFull := r.walFull);
          reports := reports + [r];
        }
      }
      members := members + [member];
    }
    assert pods[..|pods|] == pods && answers[..|answers|] == answers;
    ReportsAre(pods, answers);
  }

  predicate Says(m: Member, r: Report) {
    && m.timeline == r.timeline && m.receivedLsn == r.receivedLsn && m.replayLsn == r.replayLsn
    && m.inRecovery == r.inRecovery && m.walReceiver == r.walReceiver && m.walFull == r.walFull
  }

  lemma {:induction false} ReportsAre(pods: seq<Pod>, answers: seq<Option<Report>>)
    requires |answers| == |pods|
    ensures forall r :: r in ReportsOf(pods, answers) <==>
              exists i | 0 <= i < |pods| :: Answers(pods[i], answers[i]) && answers[i] == Some(r)
  {
    if pods != [] {
      var last := |pods| - 1;
      ReportsAre(pods[..last], answers[..last]);
      assert forall i | 0 <= i < last :: pods[..last][i] == pods[i] && answers[..last][i] == answers[i];
    }
  }

  // ------------------------------------------------------------------ the cache

  ghost predicate SameNames(members: seq<Member>, pods: seq<Pod>) {
    |members| == |pods| && forall i | 0 <= i < |pods| :: members[i].name == pods[i].name
  }

  method SameMembers(members: seq<Member>, pods: seq<Pod>) returns (same: bool)
    ensures same <==> SameNames(members, pods)
  {
    if |members| != |pods| { return false; }
    for i := 0 to |pods|
      invariant forall j | 0 <= j < i :: members[j].name == pods[j].name
    {
      if members[i].name != pods[i].name { return false; }
    }
    return true;
  }

  // A round may be served for these Pods at this time.
  ghost predicate Servable(round: Round, pods: seq<Pod>, at: int, ttl: int) {
    ttl > 0 && at - round.observed < ttl && SameNames(round.members, pods)
  }

  // The entries still fresh at a time.
  function Fresh(entries: map<string, Round>, now: int, ttl: int): map<string, Round> {
    map k | k in entries && now - entries[k].observed < ttl :: entries[k]
  }

  // What the cache would serve.
  ghost function Serves(entries: map<string, Round>, instance: string, pods: seq<Pod>, at: int, ttl: int): Option<Round>
  {
    if instance in entries && Servable(entries[instance], pods, at, ttl) then Some(entries[instance]) else None
  }

  // Eviction, however often and whenever it ran, changes nothing that is ever served: a cache evicted at
  // any earlier times answers every request as one that kept every round would.
  lemma {:induction false} EvictionIsInvisible(entries: map<string, Round>, times: seq<int>, instance: string,
                                               pods: seq<Pod>, at: int, ttl: int)
    requires forall i | 0 <= i < |times| :: times[i] <= at
    ensures Serves(EvictedAt(entries, times, ttl), instance, pods, at, ttl) == Serves(entries, instance, pods, at, ttl)
  {
    if times != [] {
      EvictionIsInvisible(Fresh(entries, times[0], ttl), times[1..], instance, pods, at, ttl);
    }
  }

  // A round is kept by an eviction exactly when it is younger than the lifetime, and as it was.
  lemma FreshExactly(entries: map<string, Round>, now: int, ttl: int, k: string)
    ensures k in Fresh(entries, now, ttl) <==> k in entries && now < entries[k].observed + ttl
    ensures k in Fresh(entries, now, ttl) ==> Fresh(entries, now, ttl)[k] == entries[k]
  {}

  function EvictedAt(entries: map<string, Round>, times: seq<int>, ttl: int): map<string, Round> {
    if times == [] then entries else EvictedAt(Fresh(entries, times[0], ttl), times[1..], ttl)
  }

  class Cache {
    var entries: map<string, Round>
    const ttl: int
    ghost var polls: seq<Poll>
    ghost var clock: int

    // Every cached round is a poll made for that same instance, of Pods named like its members.
    ghost predicate Valid()
      reads this
    {
      && (forall k | k in entries :: exists p :: p in polls && p.instance == k && p.round == entries[k])
      && (forall p | p in polls :: SameNames(p.round.members, p.pods) && p.round.observed <= clock)
    }

    constructor (ttl: int)
      ensures Valid() && this.ttl == ttl && entries == map[] && polls == []
    {
      entries, this.ttl, polls, clock := map[], ttl, [], 0;
    }

    method Evict(now: int)
      modifies this`entries
      ensures entries == Fresh(old(entries), now, ttl)
    {
      var left := entries.Keys;
      ghost var was := entries;
      while left != {}
        invariant left <= was.Keys
        invariant forall k :: k in entries <==> k in was && (k in left || now - was[k].observed < ttl)
        invariant forall k | k in entries :: entries[k] == was[k]
        decreases left
      {
        var k :| k in left;
        left := left - {k};
        if k in entries && now - entries[k].observed >= ttl { entries := entries - {k}; }
      }
      assert entries == Fresh(was, now, ttl);
    }

    // The round for this instance: the cached one when it may be served, and a poll otherwise.
    // `checked` is when the cache is consulted, `polled` when a poll would be done.
    method ObserveMembers(instance: string, pods: seq<Pod>, answers: seq<Option<Report>>, checked: int, polled: int)
      returns (members: seq<Member>, reports: seq<Report>)
      requires Valid() && |answers| == |pods| && clock <= checked <= polled
      modifies this
      ensures Valid() && old(polls) <= polls
      // Whatever is returned is a poll made for this instance, of Pods of these names in this order,
      // just now or less than the lifetime ago.
      ensures exists p ::
                && p in polls && p.instance == instance && p.round.members == members && p.round.reports == reports
                && SameNames(members, p.pods) && SameNames(members, pods)
                && (if polls == old(polls) then checked - p.round.observed < ttl
                    else p == polls[|polls| - 1] && p.round.observed == polled)
      // It polls exactly when it has nothing it may serve, and then answers as a direct poll would.
      ensures polls == old(polls) <==> instance in old(entries) && Servable(old(entries)[instance], pods, checked, ttl)
      ensures polls != old(polls) ==>
                && PollOf(pods, answers, members, reports)
                && polls == old(polls) + [Poll(instance, pods, Round(members, reports, polled))]
                && entries == Fresh(old(entries), polled, ttl)[instance := Round(members, reports, polled)]
      ensures polls == old(polls) ==> entries == old(entries)
    {
      if ttl > 0 && instance in entries && checked - entries[instance].observed < ttl {
        var same := SameMembers(entries[instance].members, pods);
        if same {
          clock := checked;
          return entries[instance].members, entries[instance].reports;
        }
      }
      members, reports := PollMembers(pods, answers);
      Evict(polled);
      var round := Round(members, reports, polled);
      entries := entries[instance := round];
      ghost var p := Poll(instance, pods, round);
      polls := polls + [p];
      clock := polled;
      assert polls[|polls| - 1] == p;
      forall k | k in entries ensures exists q :: q in polls && q.instance == k && q.round == entries[k] {
        if k == instance {
          assert p in polls;
        } else {
          var q :| q in old(polls) && q.instance == k && q.round == entries[k];
          assert q in polls;
        }
      }
    }
  }
}
