/** The append-only event log of a tenant's missions. */
module MissionLog {
  import opened Outcomes
  import opened Ordering

  datatype MissionEvent = MissionEvent(
    missionId: string,
    sequence: nat,
    eventType: string,
    eventKey: string,
    actorType: string,
    actorId: string,
    payload: string,
    payloadHash: string)

  datatype LogError = WrongTenant | KeyReused

  /** One request to append, made for a mission that belongs to some organization. */
  datatype Append = Append(
    organizationId: string,
    missionId: string,
    eventType: string,
    eventKey: string,
    actorType: string,
    actorId: string,
    payload: string)

  type Hasher = string -> string

  function KeyOf(e: MissionEvent): string { e.eventKey }

  /** The stored event with the key, whichever mission it belongs to. */
  function WithKey(events: seq<MissionEvent>, key: string): (r: Option<MissionEvent>)
    ensures r.Some? ==> r.value in events && r.value.eventKey == key
    ensures r.None? ==> forall e :: e in events ==> e.eventKey != key
  {
    if events == [] then None
    else if events[0].eventKey == key then Some(events[0])
    else WithKey(events[1..], key)
  }

  /** The highest sequence number of a mission, zero when it has no events. */
  function MaxSequence(events: seq<MissionEvent>, missionId: string): nat {
    if events == [] then 0
    else
      var last, before := events[|events| - 1], MaxSequence(events[..|events| - 1], missionId);
      if last.missionId == missionId && last.sequence > before then last.sequence else before
  }

  function NewEvent(hash: Hasher, events: seq<MissionEvent>, a: Append): MissionEvent {
    MissionEvent(a.missionId, MaxSequence(events, a.missionId) + 1, a.eventType, a.eventKey, a.actorType, a.actorId,
      a.payload, hash(a.payload))
  }

  /** What a request answers and what the log is afterwards. */
  function Answer(hash: Hasher, tenant: string, events: seq<MissionEvent>, a: Append)
    : (Result<MissionEvent, LogError>, seq<MissionEvent>)
  {
    if a.organizationId != tenant then (Raise(WrongTenant), events)
    else
      match WithKey(events, a.eventKey)
      case Some(e) => (if e.payloadHash == hash(a.payload) then Ok(e) else Raise(KeyReused), events)
      case None => (Ok(NewEvent(hash, events, a)), events + [NewEvent(hash, events, a)])
  }

  /**
   * A request of the tenant under a new key appends the event it describes, numbered after the mission's highest;
   * any other request leaves the log alone.
   */
  lemma AppendedExactly(hash: Hasher, tenant: string, events: seq<MissionEvent>, a: Append)
    ensures var after := Answer(hash, tenant, events, a).1;
            && (after != events <==> a.organizationId == tenant && forall e :: e in events ==> e.eventKey != a.eventKey)
            && (after != events ==>
                  && |after| == |events| + 1 && events <= after
                  && var e := after[|events|];
                     && Answer(hash, tenant, events, a).0 == Ok(e)
                     && e.missionId == a.missionId && e.eventType == a.eventType && e.eventKey == a.eventKey
                     && e.actorType == a.actorType && e.actorId == a.actorId
                     && e.payload == a.payload && e.payloadHash == hash(a.payload)
                     && e.sequence >= 1
                     && (forall x :: x in events && x.missionId == a.missionId ==> x.sequence < e.sequence)
                     && (e.sequence > 1 ==>
                           exists x :: x in events && x.missionId == a.missionId && x.sequence == e.sequence - 1))
  {
    HighestAttained(events, a.missionId);
    assert |events + [NewEvent(hash, events, a)]| == |events| + 1;
  }

  lemma {:induction false} HighestAttained(events: seq<MissionEvent>, missionId: string)
    ensures forall x :: x in events && x.missionId == missionId ==> x.sequence <= MaxSequence(events, missionId)
    ensures MaxSequence(events, missionId) > 0 ==>
              exists x :: x in events && x.missionId == missionId && x.sequence == MaxSequence(events, missionId)
  {
    if events != [] {
      var before, last := events[..|events| - 1], events[|events| - 1];
      assert events == before + [last];
      HighestAttained(before, missionId);
      assert forall x :: x in events <==> x in before || x == last;
    }
  }

  // ---- What the log keeps ----

  function OfMission(events: seq<MissionEvent>, missionId: string): seq<MissionEvent> {
    if events == [] then []
    else
      OfMission(events[..|events| - 1], missionId)
      + if events[|events| - 1].missionId == missionId then [events[|events| - 1]] else []
  }

  /** A mission's events are numbered 1, 2, 3 and so on, in the order they were appended. */
  ghost predicate Numbered(events: seq<MissionEvent>, missionId: string) {
    forall i :: 0 <= i < |OfMission(events, missionId)| ==> OfMission(events, missionId)[i].sequence == i + 1
  }

  /** Every mission is numbered without gaps, and no key occurs twice in the tenant. */
  ghost predicate Sound(events: seq<MissionEvent>) {
    Distinct(Map(events, KeyOf)) && forall missionId :: Numbered(events, missionId)
  }

  lemma {:induction false} MaxIsCount(events: seq<MissionEvent>, missionId: string)
    requires Numbered(events, missionId)
    ensures MaxSequence(events, missionId) == |OfMission(events, missionId)|
  {
    if events != [] {
      var before, mine := events[..|events| - 1], OfMission(events, missionId);
      var earlier := OfMission(before, missionId);
      forall i | 0 <= i < |earlier| ensures earlier[i].sequence == i + 1 { assert mine[i] == earlier[i]; }
      MaxIsCount(before, missionId);
      if events[|events| - 1].missionId == missionId { assert mine[|earlier|] == events[|events| - 1]; }
    }
  }

  lemma AppendNumbers(hash: Hasher, events: seq<MissionEvent>, a: Append, missionId: string)
    requires forall m :: Numbered(events, m)
    ensures Numbered(events + [NewEvent(hash, events, a)], missionId)
  {
    var e := NewEvent(hash, events, a);
    assert Numbered(events, missionId) && Numbered(events, a.missionId);
    assert (events + [e])[..|events|] == events;
    MaxIsCount(events, a.missionId);
  }

  lemma AppendKeys(events: seq<MissionEvent>, e: MissionEvent)
    requires Distinct(Map(events, KeyOf)) && forall x :: x in events ==> x.eventKey != e.eventKey
    ensures Distinct(Map(events + [e], KeyOf))
  {
    var keys := Map(events + [e], KeyOf);
    forall i, j | 0 <= i < j < |keys| ensures keys[i] != keys[j] {
      assert keys[i] == Map(events, KeyOf)[i] && events[i] in events;
      if j < |events| { assert keys[j] == Map(events, KeyOf)[j]; }
    }
  }

  /** Every request, whatever it answers, keeps the log sound and the earlier events as they are. */
  lemma AnswerKeepsSound(hash: Hasher, tenant: string, events: seq<MissionEvent>, a: Append)
    requires Sound(events)
    ensures Sound(Answer(hash, tenant, events, a).1)
    ensures events <= Answer(hash, tenant, events, a).1
  {
    if a.organizationId == tenant && WithKey(events, a.eventKey).None? {
      forall missionId ensures Numbered(events + [NewEvent(hash, events, a)], missionId) {
        AppendNumbers(hash, events, a, missionId);
      }
      AppendKeys(events, NewEvent(hash, events, a));
    }
  }

  /** The log after a run of requests. */
  function Run(hash: Hasher, tenant: string, events: seq<MissionEvent>, requests: seq<Append>): seq<MissionEvent> {
    if requests == [] then events
    else Answer(hash, tenant, Run(hash, tenant, events, requests[..|requests| - 1]), requests[|requests| - 1]).1
  }

  /** Any run of requests keeps the log sound and only adds to its end. */
  lemma {:induction false} RunSound(hash: Hasher, tenant: string, events: seq<MissionEvent>, requests: seq<Append>)
    requires Sound(events)
    ensures Sound(Run(hash, tenant, events, requests)) && events <= Run(hash, tenant, events, requests)
  {
    if requests != [] {
      var rest := requests[..|requests| - 1];
      RunSound(hash, tenant, events, rest);
      AnswerKeepsSound(hash, tenant, Run(hash, tenant, events, rest), requests[|requests| - 1]);
    }
  }

  lemma {:induction false} KeyFound(events: seq<MissionEvent>, e: MissionEvent)
    requires Distinct(Map(events, KeyOf)) && e in events
    ensures WithKey(events, e.eventKey) == Some(e)
  {
    var found := WithKey(events, e.eventKey);
    var i :| 0 <= i < |events| && events[i] == e;
    var j :| 0 <= j < |events| && events[j] == found.value;
    assert Map(events, KeyOf)[i] == Map(events, KeyOf)[j];
  }

  /**
   * An accepted request repeated at any later time answers the same event and changes nothing; with
   * another payload under the same key it is refused and changes nothing.
   */
  lemma ReplayIsNoOp(hash: Hasher, tenant: string, events: seq<MissionEvent>, a: Append, later: seq<Append>,
      again: Append)
    requires Sound(events) && Answer(hash, tenant, events, a).0.Ok?
    requires again.eventKey == a.eventKey && again.organizationId == tenant
    ensures var log := Run(hash, tenant, Answer(hash, tenant, events, a).1, later);
            && Answer(hash, tenant, log, again).1 == log
            && (hash(again.payload) == hash(a.payload) ==>
                 Answer(hash, tenant, log, again).0 == Answer(hash, tenant, events, a).0)
            && (hash(again.payload) != hash(a.payload) ==> Answer(hash, tenant, log, again).0 == Raise(KeyReused))
  {
    var after, e := Answer(hash, tenant, events, a).1, Answer(hash, tenant, events, a).0.value;
    AnswerKeepsSound(hash, tenant, events, a);
    RunSound(hash, tenant, after, later);
    var log := Run(hash, tenant, after, later);
    assert e in after by {
      if WithKey(events, a.eventKey).None? { assert after[|events|] == e; }
    }
    assert e in log;
    KeyFound(log, e);
  }

  /** The log as the repository holds it. */
  class Log {
    const tenant: string
    const hash: Hasher
    var events: seq<MissionEvent>

    ghost predicate Valid()
      reads this
    {
      Sound(events)
    }

    constructor (tenant: string, hash: Hasher)
      ensures Valid() && events == [] && this.tenant == tenant && this.hash == hash
    {
      this.tenant := tenant;
      this.hash := hash;
      events := [];
    }

    method AppendEvent(a: Append) returns (r: Result<MissionEvent, LogError>)
      requires Valid()
      modifies this
      ensures Valid()
      ensures (r, events) == Answer(hash, tenant, old(events), a)
      ensures old(events) <= events
    {
      AnswerKeepsSound(hash, tenant, events, a);
      if a.organizationId != tenant {
        return Raise(WrongTenant);
      }
      var existing := WithKey(events, a.eventKey);
      if existing.Some? {
        if existing.value.payloadHash != hash(a.payload) {
          return Raise(KeyReused);
        }
        return Ok(existing.value);
      }
      var sequence := MaxSequence(events, a.missionId) + 1;
      var event :=
        MissionEvent(a.missionId, sequence, a.eventType, a.eventKey, a.actorType, a.actorId, a.payload,
          hash(a.payload));
      events := events + [event];
      r := Ok(event);
    }
  }
}
