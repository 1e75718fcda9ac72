/** Keyed state transitions of a tenant's purchase intents, with their log and outbox. */
module PurchaseIntents {
  import opened Outcomes
  import opened Ordering

  datatype StateField = ApprovalStatus | PaymentStatus | FulfillmentStatus {
    function Name(): string {
      match this
      case ApprovalStatus => "approval_status"
      case PaymentStatus => "payment_status"
      case FulfillmentStatus => "fulfillment_status"
    }
  }

  function FieldNamed(name: string): Option<StateField> {
    if name == "approval_status" then Some(ApprovalStatus)
    else if name == "payment_status" then Some(PaymentStatus)
    else if name == "fulfillment_status" then Some(FulfillmentStatus)
    else None
  }

  datatype Statuses = Statuses(approval: string, payment: string, fulfillment: string) {
    function Get(f: StateField): string {
      match f
      case ApprovalStatus => approval
      case PaymentStatus => payment
      case FulfillmentStatus => fulfillment
    }

    function With(f: StateField, to: string): (s: Statuses)
      ensures s.Get(f) == to
      ensures forall other :: other != f ==> s.Get(other) == Get(other)
    {
      match f
      case ApprovalStatus => this.(approval := to)
      case PaymentStatus => this.(payment := to)
      case FulfillmentStatus => this.(fulfillment := to)
    }
  }

  /** A logged transition; the log does not record which field moved. */
  datatype Transition = Transition(intentId: string, fromState: string, toState: string, eventKey: string,
      payloadHash: string, actorId: string, reasonCode: string)

  datatype OutboxEvent = OutboxEvent(aggregateId: string, eventType: string, eventKey: string)

  /** What the database holds for one tenant. */
  datatype Store = Store(intents: map<string, Statuses>, transitions: seq<Transition>, outbox: seq<OutboxEvent>)

  datatype Change = Change(
    intentId: string,
    stateField: string,
    allowedFrom: set<string>,
    toState: string,
    eventKey: string,
    payloadHash: string,
    actorId: string,
    reasonCode: string)

  datatype IntentError = UnsupportedStateField | IntentNotFound | ReplayedDifferently | TransitionNotAllowed

  /** The logged transition of the intent under the key. */
  function Logged(transitions: seq<Transition>, intentId: string, eventKey: string): (r: Option<Transition>)
    ensures r.Some? ==> r.value in transitions && r.value.intentId == intentId && r.value.eventKey == eventKey
    ensures r.None? ==> forall t :: t in transitions ==> !(t.intentId == intentId && t.eventKey == eventKey)
  {
    if transitions == [] then None
    else if transitions[0].intentId == intentId && transitions[0].eventKey == eventKey then Some(transitions[0])
    else Logged(transitions[1..], intentId, eventKey)
  }

  function OutboxKey(e: OutboxEvent): string { e.eventKey }

  /** Emit an event unless the tenant already emitted one under the key. */
  function Emit(outbox: seq<OutboxEvent>, e: OutboxEvent): seq<OutboxEvent> {
    if e.eventKey in Map(outbox, OutboxKey) then outbox else outbox + [e]
  }

  function OutboxKeyOf(eventKey: string): string {
    "outbox:" + eventKey
  }

  function TransitionOf(c: Change, from: string): Transition {
    Transition(c.intentId, from, c.toState, c.eventKey, c.payloadHash, c.actorId, c.reasonCode)
  }

  function Announcement(c: Change, f: StateField): OutboxEvent {
    OutboxEvent(c.intentId, "purchase_intent." + f.Name() + ".changed", OutboxKeyOf(c.eventKey))
  }

  /** What a call answers and what it leaves behind. */
  function Answer(s: Store, c: Change): (Result<Statuses, IntentError>, Store) {
    match FieldNamed(c.stateField)
    case None => (Raise(UnsupportedStateField), s)
    case Some(f) =>
      if c.intentId !in s.intents then (Raise(IntentNotFound), s)
      else
        var intent := s.intents[c.intentId];
        match Logged(s.transitions, c.intentId, c.eventKey)
        case Some(t) =>
          (if t.toState != c.toState || t.payloadHash != c.payloadHash then Raise(ReplayedDifferently)
            else Ok(intent), s)
        case None =>
          if intent.Get(f) !in c.allowedFrom then (Raise(TransitionNotAllowed), s)
          else
            (Ok(intent.With(f, c.toState)),
             Store(s.intents[c.intentId := intent.With(f, c.toState)],
                   s.transitions + [TransitionOf(c, intent.Get(f))],
                   Emit(s.outbox, Announcement(c, f))))
  }

  // ---- Event sourcing ----

  /** Replaying a log from the initial statuses; fields says which field each entry moved. */
  function Fold(initial: Statuses, transitions: seq<Transition>, fields: seq<StateField>, intentId: string): Statuses
    requires |transitions| == |fields|
  {
    if transitions == [] then initial
    else
      var n := |transitions| - 1;
      var before := Fold(initial, transitions[..n], fields[..n], intentId);
      if transitions[n].intentId == intentId then before.With(fields[n], transitions[n].toState) else before
  }

  ghost predicate KeysUnique(transitions: seq<Transition>) {
    forall i, j ::
        0 <= i < j < |transitions| && transitions[i].intentId == transitions[j].intentId ==>
          transitions[i].eventKey != transitions[j].eventKey
  }

  /** Every entry starts from where the entries before it had left its intent. */
  ghost predicate FromsMatch(initial: map<string, Statuses>, transitions: seq<Transition>, fields: seq<StateField>)
    requires |transitions| == |fields|
  {
    forall k :: 0 <= k < |transitions| ==>
      && transitions[k].intentId in initial
      && transitions[k].fromState
         == Fold(initial[transitions[k].intentId], transitions[..k], fields[..k],
           transitions[k].intentId).Get(fields[k])
  }

  function EventKeys(transitions: seq<Transition>): set<string> {
    set t | t in transitions :: t.eventKey
  }

  /** The outbox has one event for each key, and a transition's key is there exactly when one is logged under it. */
  ghost predicate Announced(transitions: seq<Transition>, outbox: seq<OutboxEvent>) {
    && Distinct(Map(outbox, OutboxKey))
    && forall key :: OutboxKeyOf(key) in Map(outbox, OutboxKey) <==> key in EventKeys(transitions)
  }

  /** Each intent's statuses are what its log entries make of the initial ones. */
  ghost predicate StatusesFollow(intents: map<string, Statuses>, initial: map<string, Statuses>,
      transitions: seq<Transition>, fields: seq<StateField>)
    requires |transitions| == |fields|
  {
    forall id :: id in initial ==> id in intents && intents[id] == Fold(initial[id], transitions, fields, id)
  }

  /** The store is what its log says: keys unique, from-states right, and statuses the fold of the log. */
  ghost predicate EventSourced(s: Store, initial: map<string, Statuses>, fields: seq<StateField>) {
    && |fields| == |s.transitions| && s.intents.Keys == initial.Keys
    && KeysUnique(s.transitions)
    && FromsMatch(initial, s.transitions, fields)
    && StatusesFollow(s.intents, initial, s.transitions, fields)
    && Announced(s.transitions, s.outbox)
  }

  /** The field the call moves, if it is accepted as a new transition. */
  function Moved(s: Store, c: Change): seq<StateField> {
    if |Answer(s, c).1.transitions| > |s.transitions| then [FieldNamed(c.stateField).value] else []
  }

  lemma NewFold(initial: Statuses, transitions: seq<Transition>, fields: seq<StateField>, t: Transition, f: StateField,
      id: string)
    requires |transitions| == |fields|
    ensures Fold(initial, transitions + [t], fields + [f], id)
         == if t.intentId == id then Fold(initial, transitions, fields, id).With(f, t.toState)
           else Fold(initial, transitions, fields, id)
  {
    assert (transitions + [t])[..|transitions|] == transitions && (fields + [f])[..|fields|] == fields;
  }

  lemma NewFroms(initial: map<string, Statuses>, transitions: seq<Transition>, fields: seq<StateField>, t: Transition,
      f: StateField)
    requires |transitions| == |fields| && FromsMatch(initial, transitions, fields)
    requires t.intentId in initial && t.fromState == Fold(initial[t.intentId], transitions, fields, t.intentId).Get(f)
    ensures FromsMatch(initial, transitions + [t], fields + [f])
  {
    var ts, fs := transitions + [t], fields + [f];
    forall k | 0 <= k < |ts|
      ensures ts[k].intentId in initial
      ensures ts[k].fromState == Fold(initial[ts[k].intentId], ts[..k], fs[..k], ts[k].intentId).Get(fs[k])
    {
      assert ts[..k] == transitions[..k] && fs[..k] == fields[..k];
      if k == |transitions| { assert transitions[..k] == transitions && fields[..k] == fields; }
    }
  }

  lemma EmitAnnounces(outbox: seq<OutboxEvent>, e: OutboxEvent)
    ensures Distinct(Map(outbox, OutboxKey)) ==> Distinct(Map(Emit(outbox, e), OutboxKey))
    ensures forall k :: k in Map(Emit(outbox, e), OutboxKey) <==> k in Map(outbox, OutboxKey) || k == e.eventKey
  {
    var before, after := Map(outbox, OutboxKey), Map(Emit(outbox, e), OutboxKey);
    if e.eventKey !in before {
      assert after == before + [e.eventKey];
    }
  }

  lemma KeysApart(key: string, other: string)
    requires OutboxKeyOf(key) == OutboxKeyOf(other)
    ensures key == other
  {
    assert OutboxKeyOf(key)[|"outbox:"|..] == key && OutboxKeyOf(other)[|"outbox:"|..] == other;
  }

  lemma NewKeys(transitions: seq<Transition>, t: Transition)
    requires KeysUnique(transitions)
    requires forall x :: x in transitions ==> !(x.intentId == t.intentId && x.eventKey == t.eventKey)
    ensures KeysUnique(transitions + [t])
  {
    var ts := transitions + [t];
    forall i, j | 0 <= i < j < |ts| && ts[i].intentId == ts[j].intentId ensures ts[i].eventKey != ts[j].eventKey {
      assert transitions[i] in transitions;
    }
  }

  lemma NewStatuses(intents: map<string, Statuses>, initial: map<string, Statuses>, transitions: seq<Transition>,
      fields: seq<StateField>, t: Transition, f: StateField)
    requires |transitions| == |fields| && StatusesFollow(intents, initial, transitions, fields) && t.intentId in initial
    ensures StatusesFollow(intents[t.intentId := intents[t.intentId].With(f, t.toState)], initial, transitions + [t],
              fields + [f])
  {
    forall id | id in initial
      ensures intents[t.intentId := intents[t.intentId].With(f, t.toState)][id]
              == Fold(initial[id], transitions + [t], fields + [f], id)
    {
      NewFold(initial[id], transitions, fields, t, f, id);
    }
  }

  lemma NewAnnounced(transitions: seq<Transition>, outbox: seq<OutboxEvent>, t: Transition, e: OutboxEvent)
    requires Announced(transitions, outbox) && e.eventKey == OutboxKeyOf(t.eventKey)
    ensures Announced(transitions + [t], Emit(outbox, e))
  {
    EmitAnnounces(outbox, e);
    assert EventKeys(transitions + [t]) == EventKeys(transitions) + {t.eventKey};
    forall key ensures OutboxKeyOf(key) == e.eventKey <==> key == t.eventKey {
      if OutboxKeyOf(key) == e.eventKey { KeysApart(key, t.eventKey); }
    }
  }

  lemma AcceptedKeeps(s: Store, initial: map<string, Statuses>, fields: seq<StateField>, t: Transition, f: StateField,
      e: OutboxEvent)
    requires EventSourced(s, initial, fields) && t.intentId in s.intents
    requires t.fromState == s.intents[t.intentId].Get(f) && e.eventKey == OutboxKeyOf(t.eventKey)
    requires forall x :: x in s.transitions ==> !(x.intentId == t.intentId && x.eventKey == t.eventKey)
    ensures EventSourced(Store(s.intents[t.intentId := s.intents[t.intentId].With(f, t.toState)], s.transitions + [t],
              Emit(s.outbox, e)), initial, fields + [f])
  {
    NewFroms(initial, s.transitions, fields, t, f);
    NewKeys(s.transitions, t);
    NewStatuses(s.intents, initial, s.transitions, fields, t, f);
    NewAnnounced(s.transitions, s.outbox, t, e);
  }

  /** Every call, accepted or not, keeps the store event-sourced. */
  lemma AnswerKeepsSourced(s: Store, initial: map<string, Statuses>, fields: seq<StateField>, c: Change)
    requires EventSourced(s, initial, fields)
    ensures EventSourced(Answer(s, c).1, initial, fields + Moved(s, c))
    ensures s.transitions <= Answer(s, c).1.transitions
  {
    var f := FieldNamed(c.stateField);
    if f.Some? && c.intentId in s.intents && Logged(s.transitions, c.intentId, c.eventKey).None?
        && s.intents[c.intentId].Get(f.value) in c.allowedFrom {
      AcceptedKeeps(s, initial, fields, TransitionOf(c, s.intents[c.intentId].Get(f.value)), f.value,
        Announcement(c, f.value));
    } else {
      assert Moved(s, c) == [] && fields + [] == fields;
    }
  }

  // ---- Runs ----

  function Run(s: Store, calls: seq<Change>): Store {
    if calls == [] then s else Answer(Run(s, calls[..|calls| - 1]), calls[|calls| - 1]).1
  }

  /** After any run of calls the store is still what its log says, and the log has only grown. */
  lemma {:induction false} RunSourced(s: Store, initial: map<string, Statuses>, fields: seq<StateField>,
      calls: seq<Change>)
    returns (all: seq<StateField>)
    requires EventSourced(s, initial, fields)
    ensures EventSourced(Run(s, calls), initial, all)
    ensures s.transitions <= Run(s, calls).transitions
  {
    all := fields;
    if calls != [] {
      var rest, last := calls[..|calls| - 1], calls[|calls| - 1];
      var before := RunSourced(s, initial, fields, rest);
      AnswerKeepsSourced(Run(s, rest), initial, before, last);
      all := before + Moved(Run(s, rest), last);
    }
  }

  lemma LoggedUnique(transitions: seq<Transition>, t: Transition)
    requires KeysUnique(transitions) && t in transitions
    ensures Logged(transitions, t.intentId, t.eventKey) == Some(t)
  {
    var found := Logged(transitions, t.intentId, t.eventKey).value;
    var i :| 0 <= i < |transitions| && transitions[i] == t;
    var j :| 0 <= j < |transitions| && transitions[j] == found;
    if i < j {
      assert transitions[i].eventKey == transitions[j].eventKey;
    } else if j < i {
      assert transitions[j].eventKey == transitions[i].eventKey;
    }
  }

  lemma {:induction false} RunKeepsIntent(s: Store, calls: seq<Change>, id: string)
    ensures id in s.intents ==> id in Run(s, calls).intents
  {
    if calls != [] { RunKeepsIntent(s, calls[..|calls| - 1], id); }
  }

  /** The transition an accepted call is logged under, new or old. */
  lemma AcceptedLogged(s: Store, c: Change) returns (t: Transition)
    requires Answer(s, c).0.Ok?
    ensures t in Answer(s, c).1.transitions
    ensures t.intentId == c.intentId && t.eventKey == c.eventKey && t.toState == c.toState
            && t.payloadHash == c.payloadHash
    ensures c.intentId in Answer(s, c).1.intents
  {
    var f := FieldNamed(c.stateField).value;
    if Logged(s.transitions, c.intentId, c.eventKey).Some? {
      t := Logged(s.transitions, c.intentId, c.eventKey).value;
    } else {
      t := TransitionOf(c, s.intents[c.intentId].Get(f));
      assert Answer(s, c).1.transitions[|s.transitions|] == t;
    }
  }

  /**
   * An accepted call repeated at any later time changes nothing and answers the statuses as they
   * are by then; with another target or payload under the same key it is refused.
   */
  lemma ReplayIsNoOp(s: Store, initial: map<string, Statuses>, fields: seq<StateField>, c: Change, later: seq<Change>,
      again: Change)
    requires EventSourced(s, initial, fields) && Answer(s, c).0.Ok?
    requires again.intentId == c.intentId && again.eventKey == c.eventKey && FieldNamed(again.stateField).Some?
    ensures var store := Run(Answer(s, c).1, later);
            && Answer(store, again).1 == store
            && (again.toState == c.toState && again.payloadHash == c.payloadHash ==>
                  c.intentId in store.intents && Answer(store, again).0 == Ok(store.intents[c.intentId]))
            && (again.toState != c.toState || again.payloadHash != c.payloadHash ==>
                 Answer(store, again).0 == Raise(ReplayedDifferently))
  {
    var t := AcceptedLogged(s, c);
    var after := Answer(s, c).1;
    AnswerKeepsSourced(s, initial, fields, c);
    var all := RunSourced(after, initial, fields + Moved(s, c), later);
    RunKeepsIntent(after, later, c.intentId);
    var store := Run(after, later);
    assert t in store.transitions;
    LoggedUnique(store.transitions, t);
  }

  /** The call is accepted and logged as a new transition. */
  predicate Logs(s: Store, c: Change) {
    Answer(s, c).1.transitions != s.transitions
  }

  /**
   * A newly logged transition gets an event of its own exactly when no transition of the tenant, on any
   * intent, carries its event key yet; otherwise the outbox stays as it is.
   */
  lemma AnnouncedExactly(s: Store, initial: map<string, Statuses>, fields: seq<StateField>, c: Change)
    requires EventSourced(s, initial, fields) && Logs(s, c)
    ensures FieldNamed(c.stateField).Some?
    ensures var announced := s.outbox + [Announcement(c, FieldNamed(c.stateField).value)];
            && (Answer(s, c).1.outbox == announced <==> c.eventKey !in EventKeys(s.transitions))
            && (Answer(s, c).1.outbox == s.outbox <==> c.eventKey in EventKeys(s.transitions))
  {
    assert |s.outbox + [Announcement(c, FieldNamed(c.stateField).value)]| == |s.outbox| + 1;
  }

  /**
   * A call is logged as a new transition exactly when it names a field and an intent, its key is new to the
   * intent and the field is in one of the states it allows; the transition then records the call and the state
   * it leaves, that field of that intent moves, and nothing else changes but the outbox.
   */
  lemma LoggedExactly(s: Store, c: Change)
    ensures Logs(s, c)
            <==> && FieldNamed(c.stateField).Some? && c.intentId in s.intents
                 && (forall t :: t in s.transitions ==> !(t.intentId == c.intentId && t.eventKey == c.eventKey))
                 && s.intents[c.intentId].Get(FieldNamed(c.stateField).value) in c.allowedFrom
    ensures !Logs(s, c) ==> Answer(s, c).1 == s
    ensures Logs(s, c) ==>
              var after, f := Answer(s, c).1, FieldNamed(c.stateField).value;
              && |after.transitions| == |s.transitions| + 1 && s.transitions <= after.transitions
              && var t := after.transitions[|s.transitions|];
                 && t.intentId == c.intentId && t.eventKey == c.eventKey && t.payloadHash == c.payloadHash
                 && t.actorId == c.actorId && t.reasonCode == c.reasonCode
                 && t.fromState == s.intents[c.intentId].Get(f) && t.toState == c.toState
                 && after.intents.Keys == s.intents.Keys && after.intents[c.intentId].Get(f) == c.toState
                 && (forall g :: g != f ==> after.intents[c.intentId].Get(g) == s.intents[c.intentId].Get(g))
                 && (forall id :: id in s.intents && id != c.intentId ==> after.intents[id] == s.intents[id])
                 && Answer(s, c).0 == Ok(after.intents[c.intentId])
  {
    assert forall t: Transition :: |s.transitions + [t]| == |s.transitions| + 1;
  }

  /** The fields are named after their columns, and an announcement names intent, field and key. */
  lemma AnnouncementExact(c: Change, f: StateField)
    ensures FieldNamed("approval_status") == Some(ApprovalStatus) && FieldNamed("payment_status") == Some(PaymentStatus)
            && FieldNamed("fulfillment_status") == Some(FulfillmentStatus)
    ensures FieldNamed(c.stateField) == Some(f) ==>
              Announcement(c, f)
              == OutboxEvent(c.intentId, "purchase_intent." + c.stateField + ".changed", "outbox:" + c.eventKey)
  {
    assert "approval_status"[0] != "payment_status"[0] && "approval_status"[0] != "fulfillment_status"[0]
      && "payment_status"[0] != "fulfillment_status"[0];
  }

  /**
   * Outbox keys are shared by all intents of the tenant: a second intent that moves under a key
   * already used leaves its transition without an announcement of its own.
   */
  lemma SharedKeyAnnouncedOnce(s: Store, initial: map<string, Statuses>, fields: seq<StateField>, c: Change, d: Change,
      f: StateField)
    requires EventSourced(s, initial, fields)
    requires Answer(s, c).0.Ok? && FieldNamed(d.stateField) == Some(f)
    requires d.eventKey == c.eventKey && d.intentId != c.intentId && d.intentId in s.intents
    requires Logged(s.transitions, d.intentId, d.eventKey).None? && s.intents[d.intentId].Get(f) in d.allowedFrom
    ensures var store := Answer(s, c).1;
            && |Answer(store, d).1.transitions| == |store.transitions| + 1
            && Answer(store, d).1.outbox == store.outbox
  {
    hide EventSourced;
    var t := AcceptedLogged(s, c);
    AnswerKeepsSourced(s, initial, fields, c);
    var store := Answer(s, c).1;
    assert store.intents[d.intentId] == s.intents[d.intentId];
    assert Logged(store.transitions, d.intentId, d.eventKey).None?;
    assert t.eventKey in EventKeys(store.transitions);
    AnnouncedExactly(store, initial, fields + Moved(s, c), d);
  }

  // ---- The repository ----

  /** The repository of one tenant. The fields moved so far are kept for the proof only. */
  class Repository {
    var intents: map<string, Statuses>
    var transitions: seq<Transition>
    var outbox: seq<OutboxEvent>
    ghost var initial: map<string, Statuses>
    ghost var fields: seq<StateField>

    ghost function Contents(): Store
      reads this
    {
      Store(intents, transitions, outbox)
    }

    ghost predicate Valid()
      reads this
    {
      EventSourced(Contents(), initial, fields)
    }

    constructor (intents: map<string, Statuses>)
      ensures Valid() && Contents() == Store(intents, [], []) && initial == intents
    {
      this.intents := intents;
      transitions := [];
      outbox := [];
      initial := intents;
      fields := [];
    }

    method TransitionPurchaseIntent(c: Change) returns (r: Result<Statuses, IntentError>)
      requires Valid()
      modifies this
      ensures Valid() && initial == old(initial)
      ensures (r, Contents()) == Answer(old(Contents()), c)
      ensures old(transitions) <= transitions
    {
      AnswerKeepsSourced(Contents(), initial, fields, c);
      var field := FieldNamed(c.stateField);
      if field.None? {
        return Raise(UnsupportedStateField);
      }
      if c.intentId !in intents {
        return Raise(IntentNotFound);
      }
      var intent := intents[c.intentId];
      var current := intent.Get(field.value);
      var duplicate := Logged(transitions, c.intentId, c.eventKey);
      if duplicate.Some? {
        if duplicate.value.toState != c.toState || duplicate.value.payloadHash != c.payloadHash {
          return Raise(ReplayedDifferently);
        }
        return Ok(intent);
      }
      if current !in c.allowedFrom {
        return Raise(TransitionNotAllowed);
      }
      Accept(c, field.value, intent);
      r := Ok(intents[c.intentId]);
    }

    /** Moves the field, logs the transition and announces it. */
    method Accept(c: Change, field: StateField, intent: Statuses)
      modifies this
      ensures Contents() == Store(old(intents)[c.intentId := intent.With(field, c.toState)],
                                  old(transitions) + [TransitionOf(c, intent.Get(field))],
                                  Emit(old(outbox), Announcement(c, field)))
      ensures initial == old(initial) && fields == old(fields) + [field]
    {
      intents := intents[c.intentId := intent.With(field, c.toState)];
      transitions := transitions + [TransitionOf(c, intent.Get(field))];
      AddOutbox(Announcement(c, field));
      fields := fields + [field];
    }

    /** Adds the event unless its key is already there, so that each key stays in the outbox once. */
    method AddOutbox(e: OutboxEvent)
      modifies this`outbox
      ensures e.eventKey in Map(outbox, OutboxKey)
      ensures Distinct(old(Map(outbox, OutboxKey))) ==> Distinct(Map(outbox, OutboxKey))
      ensures outbox == old(outbox) || outbox == old(outbox) + [e]
      ensures outbox == old(outbox) <==> e.eventKey in old(Map(outbox, OutboxKey))
    {
      EmitAnnounces(outbox, e);
      if e.eventKey !in Map(outbox, OutboxKey) {
        outbox := outbox + [e];
      }
    }
  }
}
