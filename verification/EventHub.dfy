/** The administration event hub: a bounded, time-pruned event log with per-subscriber
    bounded queues, replay from a cursor, and eviction of slow consumers.

    One `Hub` object is the state guarded by the hub's mutex, so every method is one
    critical section.  The clock and the identifier source are inputs: the clock never goes
    backwards and the source never repeats an identifier. */
module EventHub {
  import opened Wrappers
  import opened Text

  datatype Topic =
    | Overview | Groups | Settings | JoinRequests | Commands | ScheduledJobs | Knowledge | System | Auth
    | OtherTopic(name: string)

  datatype EventType =
    | OverviewUpdated | GroupUpdated | SettingsUpdated | JoinRequestCreated | JoinRequestUpdated
    | CommandUpdated | CommandRunCompleted | ScheduledJobUpdated | ScheduledJobRunCompleted
    | KnowledgeReloadCompleted | SystemHealthChanged | SystemConfigurationChanged | StreamReset
    | AuthSessionRevoked | OtherType(name: string)

  datatype ResourceType =
    | OverviewResource | GroupResource | SettingsResource | JoinRequestResource | CommandResource
    | ScheduledJobResource | KnowledgeResource | SystemResource | SessionResource | OtherResource(name: string)

  datatype Resource = Resource(kind: ResourceType, id: string, version: nat)

  datatype Event = Event(
    id: string, kind: EventType, occurredAt: int, resource: Option<Resource>, reason: string, topic: Topic)

  // occurredAt is None for the zero time, which the hub replaces by the time of publication.
  datatype Draft = Draft(kind: EventType, occurredAt: Option<int>, resource: Option<Resource>, reason: string)

  datatype Retained = Retained(event: Event, publishedAt: int)

  datatype SubscribeOptions = SubscribeOptions(
    allowedTopics: seq<Topic>, requestedTopics: seq<Topic>, lastEventID: string, sessionID: string, userID: string)

  datatype ReplayState = Live | Available | Reset

  datatype HubError = InvalidEvent | InvalidSubscription | TopicForbidden | IDSourceFailed

  const MAX_OPAQUE_LENGTH := 256
  const EMPTY_SLOT := Retained(Event("", OtherType(""), 0, None, "", OtherTopic("")), 0)

  function TopicForEvent(kind: EventType): Option<Topic> {
    match kind
    case OverviewUpdated => Some(Overview)
    case GroupUpdated => Some(Groups)
    case SettingsUpdated => Some(Settings)
    case JoinRequestCreated => Some(JoinRequests)
    case JoinRequestUpdated => Some(JoinRequests)
    case CommandUpdated => Some(Commands)
    case CommandRunCompleted => Some(Commands)
    case ScheduledJobUpdated => Some(ScheduledJobs)
    case ScheduledJobRunCompleted => Some(ScheduledJobs)
    case KnowledgeReloadCompleted => Some(Knowledge)
    case SystemHealthChanged => Some(System)
    case SystemConfigurationChanged => Some(System)
    case StreamReset => Some(System)
    case AuthSessionRevoked => Some(Auth)
    case OtherType(_) => None
  }

  /** The kinds of event that a topic stands for. */
  function KindsOf(topic: Topic): set<EventType> {
    match topic
    case Overview => {OverviewUpdated}
    case Groups => {GroupUpdated}
    case Settings => {SettingsUpdated}
    case JoinRequests => {JoinRequestCreated, JoinRequestUpdated}
    case Commands => {CommandUpdated, CommandRunCompleted}
    case ScheduledJobs => {ScheduledJobUpdated, ScheduledJobRunCompleted}
    case Knowledge => {KnowledgeReloadCompleted}
    case System => {SystemHealthChanged, SystemConfigurationChanged, StreamReset}
    case Auth => {AuthSessionRevoked}
    case OtherTopic(_) => {}
  }

  lemma TopicForEventIff(kind: EventType, topic: Topic)
    ensures TopicForEvent(kind) == Some(topic) <==> kind in KindsOf(topic)
    ensures TopicForEvent(kind).Some? <==> !kind.OtherType?
  {
  }

  predicate SafeChar(c: char) {
    'A' <= c <= 'Z' || 'a' <= c <= 'z' || '0' <= c <= '9' || c in "._:-"
  }

  predicate ValidOpaqueValue(value: string, maxLength: nat) {
    1 <= |value| <= maxLength && forall i :: 0 <= i < |value| ==> SafeChar(value[i])
  }

  lemma OpaqueIsNamed(value: string)
    requires ValidOpaqueValue(value, MAX_OPAQUE_LENGTH)
    ensures value != ""
  {
  }

  predicate ValidResource(resource: Option<Resource>) {
    match resource
    case None => true
    case Some(r) =>
      !r.kind.OtherResource? &&
      (r.id == "" ||
       if r.kind == JoinRequestResource
       then |r.id| <= 512 && forall i :: 0 <= i < |r.id| ==> !IsControl(r.id[i])
       else ValidOpaqueValue(r.id, MAX_OPAQUE_LENGTH))
  }

  method ResourceIsValid(resource: Option<Resource>) returns (ok: bool)
    ensures ok <==> ValidResource(resource)
  {
    if resource.None? {
      return true;
    }
    var id := resource.value.id;
    if resource.value.kind.OtherResource? {
      return false;
    }
    if id == "" {
      return true;
    }
    if resource.value.kind != JoinRequestResource {
      return ValidOpaqueValue(id, MAX_OPAQUE_LENGTH);
    }
    if |id| > 512 {
      return false;
    }
    for i := 0 to |id|
      invariant forall j :: 0 <= j < i ==> !IsControl(id[j])
    {
      if IsControl(id[i]) {
        return false;
      }
    }
    ok := true;
  }

  predicate ValidDraft(draft: Draft) {
    !draft.kind.OtherType? && ValidOpaqueValue(draft.reason, 100) && ValidResource(draft.resource)
  }

  predicate AllKnown(topics: seq<Topic>) {
    forall t :: t in topics ==> !t.OtherTopic?
  }

  // ---------------------------------------------------------------------------------------
  // The event log as a value

  /** What a subscriber to `topics` is owed from a stretch of the log. */
  function Filter(log: seq<Retained>, topics: set<Topic>): seq<Event> {
    if log == [] then []
    else
      var last := log[|log| - 1].event;
      Filter(log[..|log| - 1], topics) + if last.topic in topics then [last] else []
  }

  lemma {:induction false} FilterConcat(a: seq<Retained>, b: seq<Retained>, topics: set<Topic>)
    ensures Filter(a + b, topics) == Filter(a, topics) + Filter(b, topics)
    decreases |b|
  {
    if b == [] {
      assert a + b == a;
    } else {
      FilterConcat(a, b[..|b| - 1], topics);
      assert (a + b)[..|a + b| - 1] == a + b[..|b| - 1];
    }
  }

  lemma FilterEmpty(topics: set<Topic>)
    ensures Filter([], topics) == []
  {
  }

  lemma FilterSplit(log: seq<Retained>, from: nat, mid: nat, limit: nat, topics: set<Topic>)
    requires from <= mid <= limit <= |log|
    ensures Filter(log[from..limit], topics) == Filter(log[from..mid], topics) + Filter(log[mid..limit], topics)
  {
    assert log[from..limit] == log[from..mid] + log[mid..limit];
    FilterConcat(log[from..mid], log[mid..limit], topics);
  }

  /** Publishing one more event leaves every covered stretch as it was, and extends by that
      event, if wanted, the one that reached the end. */
  lemma StretchGrows(log: seq<Retained>, since: nat, until: nat, topics: set<Topic>)
    requires since <= until < |log|
    ensures Filter(log[since..until], topics) == Filter(log[..|log| - 1][since..until], topics)
    ensures var last := log[|log| - 1].event;
            Filter(log[since..|log|], topics) ==
            Filter(log[since..|log| - 1], topics) + if last.topic in topics then [last] else []
  {
    assert log[..|log| - 1][since..until] == log[since..until];
    var stretch := log[since..|log|];
    assert stretch[..|stretch| - 1] == log[since..|log| - 1];
  }

  /** A nonempty prefix of a filtered stretch is itself a filtered stretch, ending at its last event. */
  lemma {:induction false} PrefixEndsSomewhere(log: seq<Retained>, from: nat, limit: nat, topics: set<Topic>, got: seq<Event>)
      returns (end: nat)
    requires from <= limit <= |log| && got != [] && got <= Filter(log[from..limit], topics)
    ensures from < end <= limit && got == Filter(log[from..end], topics)
    ensures log[end - 1].event == got[|got| - 1] && log[end - 1].event.topic in topics
    decreases limit
  {
    var whole := log[from..limit];
    assert whole != [];
    assert whole[..|whole| - 1] == log[from..limit - 1];
    assert whole[|whole| - 1] == log[limit - 1];
    if got == Filter(whole, topics) && log[limit - 1].event.topic in topics {
      end := limit;
    } else {
      end := PrefixEndsSomewhere(log, from, limit - 1, topics, got);
    }
  }

  /** The entries that survive pruning at `cutoff`. */
  function Kept(log: seq<Retained>, cutoff: int): seq<Retained> {
    if log == [] then []
    else
      var last := log[|log| - 1];
      Kept(log[..|log| - 1], cutoff) + if last.publishedAt >= cutoff then [last] else []
  }

  lemma KeptSnoc(log: seq<Retained>, x: Retained, cutoff: int)
    ensures Kept(log + [x], cutoff) == Kept(log, cutoff) + if x.publishedAt >= cutoff then [x] else []
  {
    assert (log + [x])[..|log|] == log;
  }

  predicate ClockOrdered(log: seq<Retained>) {
    forall i, j :: 0 <= i < j < |log| ==> log[i].publishedAt <= log[j].publishedAt
  }

  /** Every event is filed under the topic that stands for its kind. */
  predicate Filed(log: seq<Retained>) {
    forall i :: 0 <= i < |log| ==> log[i].event.kind in KindsOf(log[i].event.topic)
  }

  /** A subscriber is owed exactly the events of the kinds that its topics stand for. */
  lemma {:induction false} FilterIsByKind(log: seq<Retained>, topics: set<Topic>, e: Event)
    requires Filed(log)
    ensures e in Filter(log, topics) <==>
            (exists i :: 0 <= i < |log| && log[i].event == e) && exists topic :: topic in topics && e.kind in KindsOf(topic)
  {
    hide KindsOf;
    if log != [] {
      var front, last := log[..|log| - 1], log[|log| - 1].event;
      FilterIsByKind(front, topics, e);
      assert last.kind in KindsOf(last.topic);
      forall topic | topic in topics && last.kind in KindsOf(topic)
        ensures topic == last.topic
      {
        TopicForEventIff(last.kind, topic);
        TopicForEventIff(last.kind, last.topic);
      }
      assert forall i :: 0 <= i < |front| ==> front[i] == log[i];
    }
  }

  /** The log respects the clock, its events are filed under their topics, and its identifiers are
      distinct and not empty. */
  predicate Recorded(log: seq<Retained>, clock: int, issued: set<string>) {
    ClockOrdered(log) && Filed(log) && "" !in issued &&
    (forall i :: 0 <= i < |log| ==> log[i].publishedAt <= clock && log[i].event.id in issued) &&
    (forall i, j :: 0 <= i < j < |log| ==> log[i].event.id != log[j].event.id)
  }

  lemma RecordedOrdered(log: seq<Retained>, clock: int, issued: set<string>)
    requires Recorded(log, clock, issued)
    ensures ClockOrdered(log) && Filed(log)
  {
  }

  lemma RecordedNamed(log: seq<Retained>, clock: int, issued: set<string>)
    requires Recorded(log, clock, issued)
    ensures "" !in issued && forall i :: 0 <= i < |log| ==> log[i].event.id != ""
    ensures forall i, j :: 0 <= i < j < |log| ==> log[i].event.id != log[j].event.id
  {
  }

  lemma RecordedLater(log: seq<Retained>, clock: int, issued: set<string>, later: int, more: set<string>)
    requires Recorded(log, clock, issued) && clock <= later && issued <= more && "" !in more
    ensures Recorded(log, later, more)
  {
  }

  lemma RecordedSnoc(log: seq<Retained>, clock: int, issued: set<string>, entry: Retained)
    requires Recorded(log, clock, issued) && clock <= entry.publishedAt && entry.event.id !in issued + {""}
    requires entry.event.kind in KindsOf(entry.event.topic)
    ensures Recorded(log + [entry], entry.publishedAt, issued + {entry.event.id})
  {
  }

  predicate IsSuffix(part: seq<Retained>, log: seq<Retained>) {
    |part| <= |log| && part == log[|log| - |part|..]
  }

  /** Pruning at `cutoff` never keeps an entry older in the log than one it drops. */
  predicate DropsOnlyOldest(log: seq<Retained>, cutoff: int) {
    forall i, j :: 0 <= i < j < |log| && log[i].publishedAt >= cutoff ==> log[j].publishedAt >= cutoff
  }

  lemma {:induction false} KeptConcat(a: seq<Retained>, b: seq<Retained>, cutoff: int)
    ensures Kept(a + b, cutoff) == Kept(a, cutoff) + Kept(b, cutoff)
    decreases |b|
  {
    if b == [] {
      assert a + b == a;
    } else {
      KeptConcat(a, b[..|b| - 1], cutoff);
      assert (a + b)[..|a + b| - 1] == a + b[..|b| - 1];
    }
  }

  lemma {:induction false} KeptOnly(log: seq<Retained>, cutoff: int)
    ensures |Kept(log, cutoff)| <= |log|
    ensures forall k :: 0 <= k < |Kept(log, cutoff)| ==> Kept(log, cutoff)[k].publishedAt >= cutoff
  {
    if log != [] {
      KeptOnly(log[..|log| - 1], cutoff);
    }
  }

  lemma {:induction false} KeptAll(log: seq<Retained>, cutoff: int)
    requires forall i :: 0 <= i < |log| ==> log[i].publishedAt >= cutoff
    ensures Kept(log, cutoff) == log
  {
    if log != [] {
      KeptAll(log[..|log| - 1], cutoff);
    }
  }

  lemma {:induction false} KeptNone(log: seq<Retained>, cutoff: int)
    ensures Kept(log, cutoff) == [] <==> forall i :: 0 <= i < |log| ==> log[i].publishedAt < cutoff
  {
    if log != [] {
      var front := log[..|log| - 1];
      KeptNone(front, cutoff);
      assert log == front + [log[|log| - 1]];
    }
  }

  lemma {:induction false} PruneKeepsSuffix(log: seq<Retained>, cutoff: int)
    requires DropsOnlyOldest(log, cutoff)
    ensures IsSuffix(Kept(log, cutoff), log)
  {
    if log != [] && log[|log| - 1].publishedAt >= cutoff {
      var front, last := log[..|log| - 1], log[|log| - 1];
      hide Kept;
      assert forall i :: 0 <= i < |front| ==> front[i] == log[i];
      PruneKeepsSuffix(front, cutoff);
      KeptSnoc(front, last, cutoff);
      assert front + [last] == log;
      var kept := Kept(front, cutoff);
      assert log[|front| - |kept|..] == front[|front| - |kept|..] + [last];
    } else {
      KeptNone(log, cutoff);
    }
  }

  lemma SuffixDropsOnlyOldest(log: seq<Retained>, cutoff: int)
    requires IsSuffix(Kept(log, cutoff), log)
    ensures DropsOnlyOldest(log, cutoff)
  {
    hide Kept;
    var kept := Kept(log, cutoff);
    var n := |log| - |kept|;
    KeptOnly(log, cutoff);
    assert forall j :: n <= j < |log| ==> log[j] == kept[j - n];
    assert Kept(log[..n], cutoff) == [] by {
      KeptAll(kept, cutoff);
      KeptConcat(log[..n], kept, cutoff);
      assert log == log[..n] + kept;
    }
    KeptNone(log[..n], cutoff);
    assert forall i :: 0 <= i < n ==> log[i] == log[..n][i];
  }

  /** Pruning leaves a suffix of the log, that is, no hole, exactly when publication times are
      ordered around the cutoff: a clock that goes back breaks it. */
  lemma PruneLeavesSuffixIff(log: seq<Retained>, cutoff: int)
    ensures IsSuffix(Kept(log, cutoff), log) <==> DropsOnlyOldest(log, cutoff)
  {
    hide *;
    if DropsOnlyOldest(log, cutoff) {
      PruneKeepsSuffix(log, cutoff);
    }
    if IsSuffix(Kept(log, cutoff), log) {
      SuffixDropsOnlyOldest(log, cutoff);
    }
  }

  lemma ClockOrderedPrune(log: seq<Retained>, cutoff: int)
    requires ClockOrdered(log)
    ensures IsSuffix(Kept(log, cutoff), log)
  {
    PruneLeavesSuffixIff(log, cutoff);
  }

  /** The newest entries, as many as fit. */
  function Newest(log: seq<Retained>, capacity: nat): seq<Retained> {
    if |log| <= capacity then log else log[|log| - capacity..]
  }

  /** Pruning, appending one event and trimming the oldest entries keeps a suffix of the log a suffix. */
  lemma RetainKeepsSuffix(events: seq<Retained>, log: seq<Retained>, cutoff: int, entry: Retained, capacity: nat)
    requires IsSuffix(events, log) && ClockOrdered(log)
    ensures IsSuffix(Newest(Kept(events, cutoff) + [entry], capacity), log + [entry])
  {
    PrunedSuffix(events, log, cutoff);
    var kept := Kept(events, cutoff);
    assert kept + [entry] == (log + [entry])[|log| - |kept|..];
  }

  lemma PrunedSuffix(events: seq<Retained>, log: seq<Retained>, cutoff: int)
    requires IsSuffix(events, log) && ClockOrdered(log)
    ensures IsSuffix(Kept(events, cutoff), log)
  {
    ClockOrderedPrune(events, cutoff);
    assert Kept(events, cutoff) == log[|log| - |Kept(events, cutoff)|..];
  }

  /** Where the events after a retained one begin in the log. */
  lemma ReplayStretch(events: seq<Retained>, log: seq<Retained>, cursor: nat) returns (since: nat)
    requires IsSuffix(events, log) && cursor < |events|
    ensures 0 < since <= |log| && log[since - 1] == events[cursor] && log[since..|log|] == events[cursor + 1..]
  {
    since := |log| - |events| + cursor + 1;
    assert log[since - 1] == log[|log| - |events|..][cursor];
  }

  /** The hypothesis on the clock is needed: three events published at 10, 1 and 10 leave a
      hole when pruned at 5. */
  lemma PruneHoleExample(first: Event, second: Event, third: Event)
    ensures var log := [Retained(first, 10), Retained(second, 1), Retained(third, 10)];
            Kept(log, 5) == [log[0], log[2]] && !IsSuffix(Kept(log, 5), log)
  {
    var a, b, c := Retained(first, 10), Retained(second, 1), Retained(third, 10);
    KeptSnoc([], a, 5);
    KeptSnoc([a], b, 5);
    KeptSnoc([a, b], c, 5);
    assert [] + [a] == [a] && [a] + [b] == [a, b] && [a, b] + [c] == [a, b, c];
    assert Kept([a, b, c], 5) == [a] + [c];
    assert [a, b, c][1..][0] == b;
  }

  // ---------------------------------------------------------------------------------------
  // Subscriptions

  /** A subscription: what it is for, and its channel, which keeps its contents when closed. */
  datatype Subscription = Subscription(
    sessionID: string, userID: string, topics: set<Topic>, capacity: nat, queue: seq<Event>, open: bool)

  /** What a channel has carried: `prefix` (nothing or one reset event), then the published
      events at since..until that the topics select; `received` of them were taken out. */
  datatype Stream = Stream(received: seq<Event>, prefix: seq<Event>, since: nat, until: nat)

  /** Offering one event: it is queued if wanted and there is room; a wanted event that does
      not fit closes the subscription. */
  function Offer(s: Subscription, event: Event): Subscription {
    if !s.open || event.topic !in s.topics then s
    else if |s.queue| < s.capacity then s.(queue := s.queue + [event])
    else s.(open := false)
  }

  /** No gap, duplicate or reordering: everything received and queued is the stretch of the log
      the subscription covers, filtered by topic; an open subscription covers it to the end; and
      the channel is never over capacity. */
  ghost predicate Delivered(s: Subscription, t: Stream, log: seq<Retained>) {
    t.since <= t.until <= |log| && (s.open ==> t.until == |log|) && |s.queue| <= s.capacity &&
    t.received + s.queue == t.prefix + Filter(log[t.since..t.until], s.topics)
  }

  /** The stream once a new event has been offered. */
  function Extend(t: Stream, after: Subscription, log: seq<Retained>): Stream {
    if after.open then t.(until := |log|) else t
  }

  ghost predicate AllDelivered(subscriptions: map<nat, Subscription>, streams: map<nat, Stream>, log: seq<Retained>)
    requires streams.Keys == subscriptions.Keys
  {
    forall id :: id in subscriptions ==> Delivered(subscriptions[id], streams[id], log)
  }

  function OfferAll(subscriptions: map<nat, Subscription>, event: Event): map<nat, Subscription> {
    map id | id in subscriptions :: Offer(subscriptions[id], event)
  }

  /** OfferAll, as far as the subscriptions in `pending` are still to be visited. */
  ghost predicate OfferedUpTo(before: map<nat, Subscription>, now: map<nat, Subscription>, event: Event, pending: set<nat>) {
    now.Keys == before.Keys && forall id :: id in before ==>
      now[id] == if id in pending then before[id] else Offer(before[id], event)
  }

  lemma NothingOffered(before: map<nat, Subscription>, event: Event, pending: set<nat>)
    requires forall id :: id in before && before[id].open ==> id in pending
    ensures OfferedUpTo(before, before, event, pending)
  {
  }

  lemma OfferNext(before: map<nat, Subscription>, now: map<nat, Subscription>, event: Event, pending: set<nat>, id: nat)
    requires OfferedUpTo(before, now, event, pending) && id in pending && id in now
    ensures OfferedUpTo(before, now[id := Offer(now[id], event)], event, pending - {id})
  {
  }

  lemma AllOffered(before: map<nat, Subscription>, after: map<nat, Subscription>, event: Event)
    requires OfferedUpTo(before, after, event, {})
    ensures after == OfferAll(before, event)
  {
  }

  ghost function ExtendAll(streams: map<nat, Stream>, after: map<nat, Subscription>, log: seq<Retained>): map<nat, Stream> {
    map id | id in streams && id in after :: Extend(streams[id], after[id], log)
  }

  /** The subscriptions with those that `chosen` selects closed. */
  function ClosedWhere(subscriptions: map<nat, Subscription>, chosen: Subscription -> bool): map<nat, Subscription> {
    map id | id in subscriptions ::
      if chosen(subscriptions[id]) then subscriptions[id].(open := false) else subscriptions[id]
  }

  /** The same as far as the subscriptions in `pending` are still to be visited. */
  ghost predicate ClosedUpTo(before: map<nat, Subscription>, now: map<nat, Subscription>, chosen: Subscription -> bool, pending: set<nat>) {
    now.Keys == before.Keys && forall id :: id in before ==>
      now[id] == if id in pending then before[id] else ClosedWhere(before, chosen)[id]
  }

  lemma NothingClosed(before: map<nat, Subscription>, chosen: Subscription -> bool, pending: set<nat>)
    requires forall id :: id in before && before[id].open ==> id in pending
    ensures ClosedUpTo(before, before, chosen, pending)
  {
  }

  lemma CloseNext(before: map<nat, Subscription>, now: map<nat, Subscription>, chosen: Subscription -> bool, pending: set<nat>, id: nat)
    requires ClosedUpTo(before, now, chosen, pending) && id in pending && id in now
    ensures ClosedUpTo(before, if chosen(now[id]) then now[id := now[id].(open := false)] else now, chosen, pending - {id})
  {
  }

  lemma AllClosed(before: map<nat, Subscription>, after: map<nat, Subscription>, chosen: Subscription -> bool,
                  streams: map<nat, Stream>, log: seq<Retained>)
    requires ClosedUpTo(before, after, chosen, {}) && streams.Keys == before.Keys && AllDelivered(before, streams, log)
    ensures after == ClosedWhere(before, chosen) && AllDelivered(after, streams, log)
  {
    hide Delivered;
    forall id | id in after
      ensures Delivered(after[id], streams[id], log)
    {
      ClosedDelivered(before[id], streams[id], log);
    }
  }

  lemma ClosedDelivered(s: Subscription, t: Stream, log: seq<Retained>)
    requires Delivered(s, t, log)
    ensures Delivered(s.(open := false), t, log)
  {
  }

  lemma OfferKeepsDelivered(s: Subscription, t: Stream, log: seq<Retained>)
    requires log != [] && Delivered(s, t, log[..|log| - 1])
    ensures var after := Offer(s, log[|log| - 1].event); Delivered(after, Extend(t, after, log), log)
  {
    StretchGrows(log, t.since, t.until, s.topics);
    var event := log[|log| - 1].event;
    assert t.received + (s.queue + [event]) == (t.received + s.queue) + [event];
    assert t.prefix + (Filter(log[t.since..t.until], s.topics) + [event]) == (t.prefix + Filter(log[t.since..t.until], s.topics)) + [event];
  }

  lemma OfferAllKeepsDelivered(subscriptions: map<nat, Subscription>, streams: map<nat, Stream>,
                               log: seq<Retained>, entry: Retained)
    requires streams.Keys == subscriptions.Keys && AllDelivered(subscriptions, streams, log)
    ensures var after := OfferAll(subscriptions, entry.event);
            AllDelivered(after, ExtendAll(streams, after, log + [entry]), log + [entry])
  {
    var longer := log + [entry];
    assert longer[..|longer| - 1] == log;
    forall id | id in subscriptions
      ensures var after := Offer(subscriptions[id], entry.event);
              Delivered(after, Extend(streams[id], after, longer), longer)
    {
      OfferKeepsDelivered(subscriptions[id], streams[id], longer);
    }
  }

  /** How the stretch of a new subscription begins: live ones at the end of the log, replayed
      ones right after the event the client saw last, and reset ones with a reset event. */
  ghost predicate Starts(state: ReplayState, t: Stream, log: seq<Retained>, lastEventID: string) {
    t.since <= |log| &&
    match state
    case Live => t.prefix == [] && t.since == |log|
    case Available => t.prefix == [] && 0 < t.since && log[t.since - 1].event.id == lastEventID
    case Reset => |t.prefix| == 1 && t.prefix[0].kind == StreamReset && t.since == |log|
  }

  ghost predicate Holds(events: seq<Retained>, id: string) {
    exists k :: 0 <= k < |events| && events[k].event.id == id
  }

  /** Why a cursor is refused: it is malformed, or it is gone and no reset event can be made. */
  ghost function CursorRefusal(retained: seq<Retained>, lastEventID: string, resetID: Option<string>): Option<HubError> {
    if lastEventID == "" then None
    else if !ValidOpaqueValue(lastEventID, MAX_OPAQUE_LENGTH) then Some(InvalidSubscription)
    else if Holds(retained, lastEventID) then None
    else if resetID.None? || !ValidOpaqueValue(resetID.value, MAX_OPAQUE_LENGTH) then Some(IDSourceFailed)
    else None
  }

  ghost predicate TopicsAccepted(allowed: seq<Topic>, requested: seq<Topic>) {
    AllKnown(allowed) && if requested == [] then allowed != [] else forall t :: t in requested ==> t in allowed
  }

  /** Why a subscription is refused, given the events retained when its cursor is looked up. */
  ghost function Refusal(options: SubscribeOptions, retained: seq<Retained>, resetID: Option<string>): Option<HubError> {
    if Utf8Length(options.sessionID) > 256 || Utf8Length(options.userID) > 256 then Some(InvalidSubscription)
    else if !TopicsAccepted(options.allowedTopics, options.requestedTopics) then
      Some(if !AllKnown(options.allowedTopics) || AsksUnknown(options.allowedTopics, options.requestedTopics)
           then InvalidSubscription else TopicForbidden)
    else CursorRefusal(retained, options.lastEventID, resetID)
  }

  function Wanted(allowed: seq<Topic>, requested: seq<Topic>): seq<Topic> {
    if requested == [] then allowed else requested
  }

  /** A topic the hub does not know is asked for before any that is not allowed. */
  ghost predicate AsksUnknown(allowed: seq<Topic>, requested: seq<Topic>) {
    exists k :: 0 <= k < |requested| && requested[k].OtherTopic? && forall j :: 0 <= j < k ==> requested[j] in allowed
  }

  // ---------------------------------------------------------------------------------------
  // The hub

  class Hub {
    const capacity: nat
    const retention: nat
    const subscriberBuffer: nat
    const slots: array<Retained>
    var count: nat
    var subscriptions: map<nat, Subscription> // every subscription handed out, open or closed
    var subscribers: set<nat>                 // those still registered
    var nextSubscriberID: nat
    ghost var streams: map<nat, Stream>
    ghost var published: seq<Retained>        // everything ever published
    ghost var clock: int                      // latest time read
    ghost var issued: set<string>             // every identifier the source has produced

    /** The retained events. */
    ghost function Events(): seq<Retained>
      requires count <= slots.Length
      reads this, slots
    {
      slots[..count]
    }

    ghost predicate LogValid()
      reads this, slots
    {
      0 < capacity && slots.Length == capacity + 1 && count <= capacity &&
      IsSuffix(slots[..count], published) && Recorded(published, clock, issued)
    }

    ghost predicate TableValid()
      reads this
    {
      0 < subscriberBuffer && streams.Keys == subscriptions.Keys &&
      (forall id :: id in subscriptions ==> id <= nextSubscriberID) &&
      (forall id :: id in subscribers <==> id in subscriptions && subscriptions[id].open)
    }

    ghost predicate Valid()
      reads this, slots
    {
      LogValid() && TableValid() && AllDelivered(subscriptions, streams, published)
    }

    lemma LogIsNamed()
      requires Valid()
      ensures forall i :: 0 <= i < |published| ==> published[i].event.id != ""
      ensures forall i, j :: 0 <= i < j < |published| ==> published[i].event.id != published[j].event.id
    {
      RecordedNamed(published, clock, issued);
    }

    constructor (capacity: nat, retention: nat, subscriberBuffer: nat)
      requires 0 < capacity && 0 < retention && 0 < subscriberBuffer
      ensures Valid() && published == [] && subscriptions == map[] && fresh(slots)
      ensures this.capacity == capacity && this.retention == retention && this.subscriberBuffer == subscriberBuffer
    {
      this.capacity, this.retention, this.subscriberBuffer := capacity, retention, subscriberBuffer;
      slots := new Retained[capacity + 1](_ => EMPTY_SLOT);
      count, subscriptions, subscribers, nextSubscriberID := 0, map[], {}, 0;
      streams, published, clock, issued := map[], [], 0, {};
    }

    /** Drops expired entries, compacting the retained events in place. */
    method PruneLocked(now: int)
      requires count <= slots.Length
      modifies this`count, slots
      ensures count <= slots.Length && count <= old(count)
      ensures Events() == Kept(old(Events()), now - retention)
    {
      hide Kept;
      var cutoff := now - retention;
      var kept := 0;
      ghost var before := Events();
      KeptNone([], cutoff);
      for i := 0 to count
        invariant 0 <= kept <= i && count == old(count)
        invariant slots[..kept] == Kept(before[..i], cutoff)
        invariant forall k :: i <= k < count ==> slots[k] == before[k]
      {
        KeptSnoc(before[..i], before[i], cutoff);
        assert before[..i + 1] == before[..i] + [before[i]];
        if slots[i].publishedAt >= cutoff {
          slots[kept] := slots[i];
          kept := kept + 1;
          assert slots[..kept] == slots[..kept - 1] + [before[i]];
        }
      }
      assert before[..count] == before;
      for i := kept to count
        invariant slots[..kept] == Kept(before, cutoff)
      {
        slots[i] := EMPTY_SLOT;
      }
      count := kept;
    }

    /** copy(events, events[1:]) on a log one event over capacity. */
    method ShiftLocked()
      requires slots.Length == capacity + 1
      modifies slots
      ensures slots[..capacity] == old(slots[1..])
    {
      for i := 0 to capacity
        invariant forall k :: 0 <= k < i ==> slots[k] == old(slots[k + 1])
        invariant forall k :: i <= k <= capacity ==> slots[k] == old(slots[k])
      {
        slots[i] := slots[i + 1];
      }
    }

    /** Appends one event and shifts the oldest one out when the log is over capacity. */
    method AppendLocked(entry: Retained)
      requires 0 < capacity && slots.Length == capacity + 1 && count <= capacity
      modifies this`count, slots
      ensures count <= capacity && Events() == Newest(old(Events()) + [entry], capacity)
    {
      ghost var full := Events() + [entry];
      slots[count] := entry;
      count := count + 1;
      assert slots[..count] == full;
      if count > capacity {
        assert slots[1..] == full[1..];
        ShiftLocked();
        count := capacity;
        assert slots[..count] == full[1..];
      }
    }

    /** Prunes, appends and trims: the retained events stay a suffix of the published log. */
    method RetainLocked(entry: Retained)
      requires LogValid() && clock <= entry.publishedAt && entry.event.id !in issued + {""}
      requires entry.event.kind in KindsOf(entry.event.topic)
      modifies this`count, this`published, this`clock, this`issued, slots
      ensures LogValid() && published == old(published) + [entry]
      ensures clock == entry.publishedAt && issued == old(issued) + {entry.event.id}
      ensures Events() == Newest(Kept(old(Events()), entry.publishedAt - retention) + [entry], capacity)
    {
      hide Recorded, IsSuffix, Kept, Newest, KindsOf;
      ghost var log := published;
      RecordedSnoc(log, clock, issued, entry);
      RecordedOrdered(log, clock, issued);
      RetainKeepsSuffix(Events(), log, entry.publishedAt - retention, entry, capacity);
      published, clock, issued := log + [entry], entry.publishedAt, issued + {entry.event.id};
      PruneLocked(entry.publishedAt);
      AppendLocked(entry);
    }

    /** Offers a freshly appended event to every registered subscriber, in any order. */
    method OfferLocked(event: Event)
      requires TableValid()
      modifies this`subscribers, this`subscriptions
      ensures TableValid()
      ensures subscriptions == OfferAll(old(subscriptions), event)
    {
      hide OfferedUpTo;
      ghost var before := subscriptions;
      var pending := subscribers;
      NothingOffered(before, event, pending);
      while pending != {}
        invariant pending <= subscribers && TableValid() && OfferedUpTo(before, subscriptions, event, pending)
      {
        var id :| id in pending;
        OfferNext(before, subscriptions, event, pending, id);
        pending := pending - {id};
        var s := subscriptions[id];
        if event.topic in s.topics {
          if |s.queue| < s.capacity {
            subscriptions := subscriptions[id := s.(queue := s.queue + [event])];
          } else {
            CloseSubscriptionLocked(id);
          }
        } else {
          assert subscriptions[id := s] == subscriptions;
        }
      }
      AllOffered(before, subscriptions, event);
    }

    method CloseSubscriptionLocked(id: nat)
      requires id in subscribers && id in subscriptions
      modifies this`subscribers, this`subscriptions
      ensures subscribers == old(subscribers) - {id}
      ensures subscriptions == old(subscriptions)[id := old(subscriptions)[id].(open := false)]
    {
      subscribers := subscribers - {id};
      subscriptions := subscriptions[id := subscriptions[id].(open := false)];
    }

    /** Retains an event and offers it to every subscriber. */
    method AdmitLocked(event: Event, now: int)
      requires Valid() && clock <= now && event.id !in issued + {""} && event.kind in KindsOf(event.topic)
      modifies this, slots
      ensures Valid() && published == old(published) + [Retained(event, now)]
      ensures clock == now && issued == old(issued) + {event.id}
      ensures streams == ExtendAll(old(streams), subscriptions, published)
      ensures Events() == Newest(Kept(old(Events()), now - retention) + [Retained(event, now)], capacity)
      ensures subscriptions == OfferAll(old(subscriptions), event)
    {
      hide Delivered, Kept, Newest, Recorded, IsSuffix, Filter, Offer, Extend, KindsOf;
      OfferAllKeepsDelivered(subscriptions, streams, published, Retained(event, now));
      RetainLocked(Retained(event, now));
      OfferLocked(event);
      streams := ExtendAll(streams, subscriptions, published);
    }

    /** Publishes an event.  `id` is what the identifier source returned. */
    method Publish(draft: Draft, now: int, id: Option<string>) returns (r: Result<Event, HubError>)
      requires Valid() && clock <= now && (id.Some? ==> id.value !in issued)
      modifies this, slots
      ensures Valid()
      ensures !ValidDraft(draft) <==> r == Err(InvalidEvent)
      ensures r == Err(IDSourceFailed) <==>
              ValidDraft(draft) && (id.None? || !ValidOpaqueValue(id.value, MAX_OPAQUE_LENGTH))
      ensures r.Err? ==> r.error == InvalidEvent || r.error == IDSourceFailed
      ensures r.Err? ==> published == old(published) && Events() == old(Events()) && subscriptions == old(subscriptions)
      ensures r.Err? ==> streams == old(streams) && clock == old(clock) && issued == old(issued)
      ensures r.Ok? ==>
                streams == ExtendAll(old(streams), subscriptions, published) && clock == now && issued == old(issued) + {id.value}
      ensures r.Ok? ==>
                r.value == Event(id.value, draft.kind,
                                 if draft.occurredAt.Some? then draft.occurredAt.value else now,
                                 draft.resource, draft.reason, r.value.topic) &&
                draft.kind in KindsOf(r.value.topic) &&
                published == old(published) + [Retained(r.value, now)] &&
                Events() == Newest(Kept(old(Events()), now - retention) + [Retained(r.value, now)], capacity) &&
                subscriptions == OfferAll(old(subscriptions), r.value)
    {
      var topic := TopicForEvent(draft.kind);
      var resourceOk := ResourceIsValid(draft.resource);
      if topic.None? || !ValidOpaqueValue(draft.reason, 100) || !resourceOk {
        return Err(InvalidEvent);
      }
      TopicForEventIff(draft.kind, topic.value);
      if id.None? || !ValidOpaqueValue(id.value, MAX_OPAQUE_LENGTH) {
        return Err(IDSourceFailed);
      }
      var occurredAt := if draft.occurredAt.Some? then draft.occurredAt.value else now;
      var event := Event(id.value, draft.kind, occurredAt, draft.resource, draft.reason, topic.value);
      AdmitLocked(event, now);
      return Ok(event);
    }

    /** The topics a subscriber may have: those requested, or all allowed ones by default. */
    static method SubscriptionTopics(allowed: seq<Topic>, requested: seq<Topic>) returns (r: Result<set<Topic>, HubError>)
      ensures r.Ok? <==> TopicsAccepted(allowed, requested)
      ensures r.Ok? ==> r.value == set t | t in Wanted(allowed, requested)
      ensures r.Err? ==> r.error == if !AllKnown(allowed) || AsksUnknown(allowed, requested) then InvalidSubscription else TopicForbidden
    {
      var allowedSet := {};
      for i := 0 to |allowed|
        invariant AllKnown(allowed[..i]) && allowedSet == set t | t in allowed[..i]
        invariant 0 < i ==> allowedSet != {}
      {
        if allowed[i].OtherTopic? {
          return Err(InvalidSubscription);
        }
        assert allowed[..i + 1] == allowed[..i] + [allowed[i]];
        allowedSet := allowedSet + {allowed[i]};
      }
      assert allowed[..|allowed|] == allowed;
      if requested == [] {
        if allowedSet == {} {
          return Err(TopicForbidden);
        }
        return Ok(allowedSet);
      }
      var selected := {};
      for i := 0 to |requested|
        invariant selected == set t | t in requested[..i]
        invariant forall k :: 0 <= k < i ==> requested[k] in allowed
      {
        if requested[i].OtherTopic? {
          assert AsksUnknown(allowed, requested);
          return Err(InvalidSubscription);
        }
        if requested[i] !in allowedSet {
          assert requested[i] in requested && requested[i] !in allowed;
          return Err(TopicForbidden);
        }
        assert requested[..i + 1] == requested[..i] + [requested[i]];
        selected := selected + {requested[i]};
      }
      assert requested[..|requested|] == requested;
      return Ok(selected);
    }

    /** Where a retained event with this identifier is. */
    method FindCursor(lastEventID: string) returns (cursor: int)
      requires count <= slots.Length
      ensures -1 <= cursor < count
      ensures cursor >= 0 ==> Events()[cursor].event.id == lastEventID
      ensures cursor < 0 <==> !Holds(Events(), lastEventID)
    {
      for i := 0 to count
        invariant forall k :: 0 <= k < i ==> slots[k].event.id != lastEventID
      {
        if slots[i].event.id == lastEventID {
          assert Events()[i].event.id == lastEventID;
          return i;
        }
      }
      return -1;
    }

    method CollectReplay(cursor: nat, topics: set<Topic>) returns (replay: seq<Event>)
      requires cursor < count <= slots.Length
      ensures replay == Filter(slots[cursor + 1..count], topics)
    {
      replay := [];
      for i := cursor + 1 to count
        invariant replay == Filter(slots[cursor + 1..i], topics)
      {
        var event := slots[i].event;
        assert slots[cursor + 1..i + 1][..i - cursor - 1] == slots[cursor + 1..i];
        if event.topic in topics {
          replay := replay + [event];
        }
      }
    }

    /** What a new subscriber starts with.  `since` is where its stretch of the log begins. */
    method ReplayLocked(lastEventID: string, topics: set<Topic>, resetID: Option<string>, resetAt: int)
      returns (r: Result<(seq<Event>, ReplayState), HubError>, ghost t: Stream)
      requires LogValid() && clock <= resetAt && (resetID.Some? ==> resetID.value !in issued)
      modifies this`clock, this`issued
      ensures LogValid()
      ensures if r.Ok? && r.value.1 == Reset then resetID.Some? && clock == resetAt && issued == old(issued) + {resetID.value}
              else clock == old(clock) && issued == old(issued)
      ensures r.Err? <==> CursorRefusal(Events(), lastEventID, resetID).Some?
      ensures r.Err? ==> r.error == CursorRefusal(Events(), lastEventID, resetID).value
      ensures r.Ok? ==> (r.value.1 == Live <==> lastEventID == "")
      ensures r.Ok? ==> (r.value.1 == Reset <==>
                lastEventID != "" && !Holds(Events(), lastEventID))
      ensures r.Ok? ==> t.received == [] && t.until == |published| && Starts(r.value.1, t, published, lastEventID) &&
                        r.value.0 == t.prefix + Filter(published[t.since..t.until], topics)
    {
      hide Recorded, IsSuffix, Holds, Filter, ValidOpaqueValue;
      FilterEmpty(topics);
      t := Stream([], [], |published|, |published|);
      assert published[|published|..|published|] == [];
      if lastEventID == "" {
        return Ok(([], Live)), t;
      }
      if !ValidOpaqueValue(lastEventID, MAX_OPAQUE_LENGTH) {
        return Err(InvalidSubscription), t;
      }
      var cursor := FindCursor(lastEventID);
      if cursor < 0 {
        if resetID.None? || !ValidOpaqueValue(resetID.value, MAX_OPAQUE_LENGTH) {
          return Err(IDSourceFailed), t;
        }
        OpaqueIsNamed(resetID.value);
        RecordedNamed(published, clock, issued);
        RecordedLater(published, clock, issued, resetAt, issued + {resetID.value});
        clock, issued := resetAt, issued + {resetID.value};
        var reset := Event(resetID.value, StreamReset, resetAt, None, "cursor_unavailable", System);
        return Ok(([reset], Reset)), t.(prefix := [reset]);
      }
      var replay := CollectReplay(cursor, topics);
      ghost var since := ReplayStretch(Events(), published, cursor);
      assert Events()[cursor + 1..] == slots[cursor + 1..count];
      return Ok((replay, Available)), t.(since := since);
    }

    method PrunePublishedLocked(now: int)
      requires LogValid() && clock <= now
      modifies this`count, this`clock, slots
      ensures LogValid() && clock == now && Events() == Kept(old(Events()), now - retention)
    {
      hide IsSuffix, Kept;
      RecordedOrdered(published, clock, issued);
      PrunedSuffix(Events(), published, now - retention);
      clock := now;
      PruneLocked(now);
    }

    /** `id` is a new open subscription holding its replay, and nothing else changed. */
    ghost predicate Subscribed(before: map<nat, Subscription>, streamsBefore: map<nat, Stream>, id: nat, state: ReplayState,
                               options: SubscribeOptions)
      reads this
    {
      id !in before && id in streams && streams == streamsBefore[id := streams[id]] &&
      var t := streams[id];
      t.received == [] && t.until == |published| && Starts(state, t, published, options.lastEventID) &&
      var topics := set x | x in Wanted(options.allowedTopics, options.requestedTopics);
      var replay := t.prefix + Filter(published[t.since..t.until], topics);
      subscriptions == before[id := Subscription(options.sessionID, options.userID, topics,
                                                 subscriberBuffer + |replay|, replay, true)]
    }

    method Subscribe(options: SubscribeOptions, now: int, resetID: Option<string>, resetAt: int)
      returns (r: Result<(nat, ReplayState), HubError>)
      requires Valid() && clock <= now <= resetAt && (resetID.Some? ==> resetID.value !in issued)
      modifies this, slots
      ensures Valid() && published == old(published)
      ensures var retained := Kept(old(Events()), now - retention);
              (r.Err? <==> Refusal(options, retained, resetID).Some?) &&
              (r.Err? ==> r.error == Refusal(options, retained, resetID).value)
      ensures r.Err? ==> subscriptions == old(subscriptions) && streams == old(streams) && clock <= now && issued == old(issued)
      ensures r.Ok? ==> if r.value.1 == Reset then resetID.Some? && clock == resetAt && issued == old(issued) + {resetID.value}
                        else clock == now && issued == old(issued)
      ensures r.Ok? ==> Subscribed(old(subscriptions), old(streams), r.value.0, r.value.1, options)
      ensures r.Ok? ==> (r.value.1 == Live <==> options.lastEventID == "")
      ensures r.Ok? ==> (r.value.1 == Reset <==>
                options.lastEventID != "" && !Holds(Events(), options.lastEventID))
      ensures r.Ok? ==> Events() == Kept(old(Events()), now - retention)
    {
      hide Recorded, IsSuffix, Kept, Delivered, Filter, Holds, ValidOpaqueValue, Utf8Length, CursorRefusal, TopicsAccepted;
      if Utf8Length(options.sessionID) > 256 || Utf8Length(options.userID) > 256 {
        return Err(InvalidSubscription);
      }
      var topics := SubscriptionTopics(options.allowedTopics, options.requestedTopics);
      if topics.Err? {
        return Err(topics.error);
      }
      PrunePublishedLocked(now);
      var replay, t := ReplayLocked(options.lastEventID, topics.value, resetID, resetAt);
      if replay.Err? {
        return Err(replay.error);
      }
      var id := nextSubscriberID + 1;
      RegisterLocked(id, options, topics.value, replay.value.0, t);
      return Ok((id, replay.value.1));
    }

    method RegisterLocked(id: nat, options: SubscribeOptions, topics: set<Topic>, replay: seq<Event>, ghost t: Stream)
      requires Valid() && id == nextSubscriberID + 1
      requires t.received == [] && t.since <= t.until == |published|
      requires replay == t.prefix + Filter(published[t.since..t.until], topics)
      modifies this`nextSubscriberID, this`subscriptions, this`subscribers, this`streams
      ensures Valid() && id !in old(subscriptions)
      ensures streams == old(streams)[id := t]
      ensures subscriptions == old(subscriptions)[id := Subscription(options.sessionID, options.userID, topics,
                                                                     subscriberBuffer + |replay|, replay, true)]
    {
      nextSubscriberID := id;
      var s := Subscription(options.sessionID, options.userID, topics, subscriberBuffer + |replay|, replay, true);
      assert [] + replay == replay;
      assert Delivered(s, t, published);
      subscriptions := subscriptions[id := s];
      subscribers := subscribers + {id};
      streams := streams[id := t];
    }

    /** Closes every open subscription that `chosen` selects. */
    method CloseWhere(chosen: Subscription -> bool)
      requires Valid()
      modifies this`subscriptions, this`subscribers
      ensures Valid()
      ensures subscriptions == ClosedWhere(old(subscriptions), chosen)
    {
      hide Delivered, ClosedUpTo;
      ghost var before := subscriptions;
      var pending := subscribers;
      NothingClosed(before, chosen, pending);
      while pending != {}
        invariant pending <= subscribers && TableValid() && ClosedUpTo(before, subscriptions, chosen, pending)
      {
        var id :| id in pending;
        CloseNext(before, subscriptions, chosen, pending, id);
        pending := pending - {id};
        if chosen(subscriptions[id]) {
          CloseSubscriptionLocked(id);
        }
      }
      AllClosed(before, subscriptions, chosen, streams, published);
    }

    method CloseSession(sessionID: string)
      requires Valid()
      modifies this`subscriptions, this`subscribers
      ensures Valid()
      ensures subscriptions == if sessionID == "" then old(subscriptions)
                               else ClosedWhere(old(subscriptions), (s: Subscription) => s.sessionID == sessionID)
    {
      if sessionID != "" {
        CloseWhere((s: Subscription) => s.sessionID == sessionID);
      }
    }

    method CloseUser(userID: string)
      requires Valid()
      modifies this`subscriptions, this`subscribers
      ensures Valid()
      ensures subscriptions == if userID == "" then old(subscriptions)
                               else ClosedWhere(old(subscriptions), (s: Subscription) => s.userID == userID)
    {
      if userID != "" {
        CloseWhere((s: Subscription) => s.userID == userID);
      }
    }

    method Close(id: nat)
      requires Valid() && id in subscriptions
      modifies this`subscriptions, this`subscribers
      ensures Valid() && subscriptions == old(subscriptions)[id := old(subscriptions)[id].(open := false)]
    {
      if id in subscribers {
        CloseSubscriptionLocked(id);
      }
    }

    /** A client takes the next event from its channel, open or closed, if there is one. */
    method Receive(id: nat) returns (event: Option<Event>)
      requires Valid() && id in subscriptions
      modifies this`subscriptions, this`streams
      ensures Valid() && streams.Keys == old(streams).Keys && subscriptions.Keys == old(subscriptions).Keys
      ensures event.None? <==> old(subscriptions)[id].queue == []
      ensures event.None? ==> streams == old(streams) && subscriptions == old(subscriptions)
      ensures event.Some? ==>
                subscriptions == old(subscriptions)[id := old(subscriptions)[id].(queue := old(subscriptions)[id].queue[1..])] &&
                event.value == old(subscriptions)[id].queue[0] &&
                streams == old(streams)[id := old(streams)[id].(received := old(streams)[id].received + [event.value])]
    {
      var s := subscriptions[id];
      if s.queue == [] {
        return None;
      }
      event := Some(s.queue[0]);
      subscriptions := subscriptions[id := s.(queue := s.queue[1..])];
      assert streams[id].received + s.queue == (streams[id].received + [s.queue[0]]) + s.queue[1..];
      streams := streams[id := streams[id].(received := streams[id].received + [s.queue[0]])];
    }
  }

  // ---------------------------------------------------------------------------------------
  // Clients that reconnect

  /** A client on connection `id`: before this connection it received exactly the filtered log from
      `first` up to where the connection's stretch begins. */
  ghost predicate Follows(log: seq<Retained>, subscriptions: map<nat, Subscription>, streams: map<nat, Stream>,
                          topics: set<Topic>, id: nat, first: nat, received: seq<Event>)
  {
    id in subscriptions && id in streams && subscriptions[id].topics == topics && streams[id].prefix == [] &&
    first <= streams[id].since <= |log| &&
    received == Filter(log[first..streams[id].since], topics) + streams[id].received
  }

  /** What was received, if anything, is the filtered log from `first` to the event before `end`. */
  ghost predicate SawStretch(log: seq<Retained>, topics: set<Topic>, first: nat, end: nat, received: seq<Event>) {
    received != [] ==>
      first < end <= |log| && received == Filter(log[first..end], topics) && log[end - 1].event == received[|received| - 1]
  }

  /** A call by somebody else: it publishes at most, and takes nothing from the client's channel. */
  ghost predicate Undisturbed(log: seq<Retained>, subscriptions: map<nat, Subscription>, streams: map<nat, Stream>,
                              log': seq<Retained>, subscriptions': map<nat, Subscription>, streams': map<nat, Stream>, id: nat)
  {
    log <= log' &&
    (id in subscriptions && id in streams ==>
      id in subscriptions' && id in streams' && subscriptions'[id].topics == subscriptions[id].topics &&
      streams'[id].(until := 0) == streams[id].(until := 0))
  }

  function Head(queue: seq<Event>): seq<Event> {
    if queue == [] then [] else [queue[0]]
  }

  lemma UndisturbedItself(log: seq<Retained>, subscriptions: map<nat, Subscription>, streams: map<nat, Stream>, id: nat)
    ensures Undisturbed(log, subscriptions, streams, log, subscriptions, streams, id)
  {
  }

  lemma UndisturbedGrows(log: seq<Retained>, subscriptions: map<nat, Subscription>, streams: map<nat, Stream>,
                         log': seq<Retained>, subscriptions': map<nat, Subscription>, streams': map<nat, Stream>, id: nat)
    requires Undisturbed(log, subscriptions, streams, log', subscriptions', streams', id)
    ensures log <= log'
  {
  }

  lemma PublishSpares(log: seq<Retained>, subscriptions: map<nat, Subscription>, streams: map<nat, Stream>, entry: Retained, id: nat)
    ensures var after := OfferAll(subscriptions, entry.event);
            Undisturbed(log, subscriptions, streams, log + [entry], after, ExtendAll(streams, after, log + [entry]), id)
  {
  }

  lemma AddingSpares(log: seq<Retained>, subscriptions: map<nat, Subscription>, streams: map<nat, Stream>,
                     other: nat, s: Subscription, t: Stream, id: nat)
    requires other !in subscriptions
    ensures Undisturbed(log, subscriptions, streams, log, subscriptions[other := s], streams[other := t], id)
  {
  }

  lemma OtherSpares(log: seq<Retained>, subscriptions: map<nat, Subscription>, streams: map<nat, Stream>,
                    other: nat, s: Subscription, t: Stream, id: nat)
    requires other != id
    ensures Undisturbed(log, subscriptions, streams, log, subscriptions[other := s], streams[other := t], id)
  {
  }

  lemma ClosingSpares(log: seq<Retained>, subscriptions: map<nat, Subscription>, streams: map<nat, Stream>, other: nat, id: nat)
    requires other in subscriptions
    ensures Undisturbed(log, subscriptions, streams, log, subscriptions[other := subscriptions[other].(open := false)], streams, id)
  {
  }

  lemma ClosingAllSpares(log: seq<Retained>, subscriptions: map<nat, Subscription>, streams: map<nat, Stream>,
                         chosen: Subscription -> bool, id: nat)
    ensures Undisturbed(log, subscriptions, streams, log, ClosedWhere(subscriptions, chosen), streams, id)
  {
  }

  lemma FollowsOn(log: seq<Retained>, subscriptions: map<nat, Subscription>, streams: map<nat, Stream>,
                  log': seq<Retained>, subscriptions': map<nat, Subscription>, streams': map<nat, Stream>,
                  topics: set<Topic>, id: nat, first: nat, received: seq<Event>)
    requires Follows(log, subscriptions, streams, topics, id, first, received)
    requires Undisturbed(log, subscriptions, streams, log', subscriptions', streams', id)
    ensures Follows(log', subscriptions', streams', topics, id, first, received)
  {
    assert log'[first..streams[id].since] == log[first..streams[id].since];
    assert streams'[id].since == streams[id].since && streams'[id].received == streams[id].received;
  }

  /** The client takes one event. */
  lemma FollowsTaking(log: seq<Retained>, subscriptions: map<nat, Subscription>, streams: map<nat, Stream>,
                      topics: set<Topic>, id: nat, first: nat, received: seq<Event>, event: Event, s: Subscription)
    requires Follows(log, subscriptions, streams, topics, id, first, received) && s.topics == topics
    ensures Follows(log, subscriptions[id := s], streams[id := streams[id].(received := streams[id].received + [event])],
                    topics, id, first, received + [event])
  {
    var before := Filter(log[first..streams[id].since], topics);
    assert before + streams[id].received + [event] == before + (streams[id].received + [event]);
  }

  /** What a client has received is the filtered log from `first` to its last event; with what is
      queued for it, it is the filtered log to the end of its connection's stretch. */
  lemma FollowedStretch(log: seq<Retained>, subscriptions: map<nat, Subscription>, streams: map<nat, Stream>,
                        topics: set<Topic>, id: nat, first: nat, received: seq<Event>) returns (end: nat)
    requires Follows(log, subscriptions, streams, topics, id, first, received)
    requires Delivered(subscriptions[id], streams[id], log)
    ensures received + subscriptions[id].queue == Filter(log[first..streams[id].until], topics)
    ensures SawStretch(log, topics, first, end, received)
  {
    hide Filter;
    var t, queue := streams[id], subscriptions[id].queue;
    FilterSplit(log, first, t.since, t.until, topics);
    assert received + queue == Filter(log[first..t.since], topics) + (t.received + queue);
    assert received <= received + queue;
    end := first;
    if received != [] {
      end := PrefixEndsSomewhere(log, first, t.until, topics, received);
    }
  }

  /** Reconnecting with the last identifier begins right after the last event received. */
  lemma ContinuesAfterLast(log: seq<Retained>, topics: set<Topic>, first: nat, end: nat, received: seq<Event>, t: Stream,
                           state: ReplayState)
    requires forall i, j :: 0 <= i < j < |log| ==> log[i].event.id != log[j].event.id
    requires forall i :: 0 <= i < |log| ==> log[i].event.id != ""
    requires SawStretch(log, topics, first, end, received) && received != [] && t.received == [] && state != Reset
    requires Starts(state, t, log, received[|received| - 1].id) && (state == Live <==> received[|received| - 1].id == "")
    ensures t.prefix == [] && first <= t.since == end && received == Filter(log[first..t.since], topics) + t.received
  {
    assert log[end - 1].event.id == log[t.since - 1].event.id;
  }

  // What the hub may be asked for; `Take` and `Reconnect` are the followed client's own calls.
  datatype Call =
    | PublishCall(draft: Draft, now: int, eventID: Option<string>)
    | SubscribeCall(options: SubscribeOptions, now: int, resetID: Option<string>, resetAt: int)
    | ReceiveCall(subscription: nat)
    | CloseCall(subscription: nat)
    | CloseSessionCall(sessionID: string)
    | CloseUserCall(userID: string)
    | Take
    | Reconnect(now: int, resetID: Option<string>, resetAt: int)

  // A publication that the hub accepts, at a time and with an identifier that are allowed.
  predicate Publishes(call: Call, clock: int, issued: set<string>) {
    call.PublishCall? && clock <= call.now && ValidDraft(call.draft) && call.eventID.Some? && call.eventID.value !in issued &&
    ValidOpaqueValue(call.eventID.value, MAX_OPAQUE_LENGTH)
  }

  /** One client of a hub among others, who connects and reconnects with the identifier of the last
      event it received and always asks for the same topics. */
  class Client {
    const hub: Hub
    // What it asks for; the cursor is where it wants to begin.
    const options: SubscribeOptions
    // The time and the identifiers that the environment has reached.
    var clock: int
    var issued: set<string>
    var connection: Option<nat>
    var received: seq<Event>
    var wasReset: bool
    ghost var first: nat

    constructor (hub: Hub, options: SubscribeOptions, clock: int, issued: set<string>)
      requires hub.Valid() && hub.clock <= clock && hub.issued <= issued
      ensures Valid() && this.hub == hub && this.options == options && received == [] && !wasReset && connection == None
    {
      this.hub, this.options, this.clock, this.issued := hub, options, clock, issued;
      connection, received, wasReset, first := None, [], false, 0;
    }

    function Topics(): set<Topic> {
      set x | x in Wanted(options.allowedTopics, options.requestedTopics)
    }

    function Cursor(): string
      reads this
    {
      if received == [] then options.lastEventID else received[|received| - 1].id
    }

    ghost predicate Valid()
      reads this, hub, hub.slots
    {
      hub.Valid() && hub.clock <= clock && hub.issued <= issued &&
      (connection.None? ==> received == []) &&
      (connection.Some? && !wasReset ==>
        Follows(hub.published, hub.subscriptions, hub.streams, Topics(), connection.value, first, received))
    }

    /** Over any calls, as long as it was not reset, a client that received anything has received
        exactly the filtered log from its first event to its last; what is queued for it follows,
        and while it is connected this reaches the end of the log. */
    lemma ReconnectHasNoGap() returns (end: nat)
      requires Valid() && !wasReset
      ensures SawStretch(hub.published, Topics(), first, end, received)
      ensures connection.Some? ==>
        connection.value in hub.subscriptions &&
        var s := hub.subscriptions[connection.value];
        s.open ==> received + s.queue == Filter(hub.published[first..], Topics())
    {
      end := 0;
      if connection.Some? {
        hide Filter, Delivered;
        var id := connection.value;
        assert Delivered(hub.subscriptions[id], hub.streams[id], hub.published);
        end := FollowedStretch(hub.published, hub.subscriptions, hub.streams, Topics(), id, first, received);
        OpenReachesEnd(hub.subscriptions[id], hub.streams[id], hub.published);
        assert hub.published[first..|hub.published|] == hub.published[first..];
      }
    }

    /** One call of anybody, if the clock did not go back and its identifiers are new.  Only a
        connection that asks for an event the hub no longer retains resets the client. */
    method Perform(call: Call)
      requires Valid()
      modifies this, hub, hub.slots
      ensures Valid() && old(received) <= received && (old(wasReset) ==> wasReset) && old(hub.published) <= hub.published
      ensures wasReset && !old(wasReset) ==> call.Reconnect? && Cursor() != "" && !Holds(hub.Events(), Cursor())
      ensures Publishes(call, old(clock), old(issued)) ==> |hub.published| == |old(hub.published)| + 1
      ensures call.Take? && !wasReset && connection.Some? ==>
        connection == old(connection) && connection.value in old(hub.subscriptions) &&
        received == old(received) + Head(old(hub.subscriptions)[connection.value].queue)
    {
      match call {
        case Take => TakeNext();
        case Reconnect(now, resetID, resetAt) => ConnectAgain(now, resetID, resetAt);
        case _ => OthersCall(call);
      }
    }

    method TakeNext()
      requires Valid()
      modifies this`received, hub
      ensures Valid() && hub.published == old(hub.published)
      ensures !wasReset && connection.Some? ==>
        connection.value in old(hub.subscriptions) &&
        received == old(received) + Head(old(hub.subscriptions)[connection.value].queue)
      ensures wasReset || connection.None? ==> received == old(received)
    {
      if !wasReset && connection.Some? {
        TakeFrom(connection.value);
      }
    }

    method TakeFrom(id: nat)
      requires Valid() && !wasReset && connection == Some(id)
      modifies this`received, hub
      ensures Valid() && hub.published == old(hub.published)
      ensures id in old(hub.subscriptions) && received == old(received) + Head(old(hub.subscriptions)[id].queue)
    {
      hide Follows, Hub.Valid;
      Connected(hub.published, hub.subscriptions, hub.streams, Topics(), id, first, received);
      var event := hub.Receive(id);
      if event.Some? {
        FollowsTaking(hub.published, old(hub.subscriptions), old(hub.streams), Topics(), id, first, received,
                      event.value, hub.subscriptions[id]);
        received := received + [event.value];
      }
    }

    /** Any call that is not the client's own; it may still close the client's connection. */
    method OthersCall(call: Call)
      requires Valid() && !call.Take? && !call.Reconnect?
      modifies this`clock, this`issued, hub, hub.slots
      ensures Valid() && old(hub.published) <= hub.published
      ensures Publishes(call, old(clock), old(issued)) ==> |hub.published| == |old(hub.published)| + 1
    {
      hide Follows, Undisturbed, Hub.Valid;
      // Without a connection any other subscription stands for it.
      ghost var id := if connection.Some? then connection.value else if call.ReceiveCall? then call.subscription + 1 else 0;
      UndisturbedItself(hub.published, hub.subscriptions, hub.streams, id);
      match call {
        case PublishCall(draft, now, eventID) => OthersPublish(draft, now, eventID, id);
        case SubscribeCall(asked, now, resetID, resetAt) => OthersSubscribe(asked, now, resetID, resetAt, id);
        case ReceiveCall(other) =>
          if connection != Some(other) {
            OthersReceive(other, id);
          }
        case CloseCall(other) => OthersClose(other, id);
        case CloseSessionCall(sessionID) => OthersCloseSession(sessionID, id);
        case CloseUserCall(userID) => OthersCloseUser(userID, id);
      }
      UndisturbedGrows(old(hub.published), old(hub.subscriptions), old(hub.streams),
                       hub.published, hub.subscriptions, hub.streams, id);
      if connection.Some? && !wasReset {
        FollowsOn(old(hub.published), old(hub.subscriptions), old(hub.streams),
                  hub.published, hub.subscriptions, hub.streams, Topics(), id, first, received);
      }
    }

    // The environment has not fallen behind what the hub has seen.
    ghost predicate InStep()
      reads this, hub, hub.slots
    {
      hub.Valid() && hub.clock <= clock && hub.issued <= issued
    }

    // The hub's calls leave the connection `mine` undisturbed.
    twostate predicate Spares(mine: nat)
      reads this, hub
    {
      Undisturbed(old(hub.published), old(hub.subscriptions), old(hub.streams),
                  hub.published, hub.subscriptions, hub.streams, mine)
    }

    method OthersPublish(draft: Draft, now: int, eventID: Option<string>, ghost mine: nat)
      requires InStep()
      modifies this`clock, this`issued, hub, hub.slots
      ensures InStep() && Spares(mine)
      ensures Publishes(PublishCall(draft, now, eventID), old(clock), old(issued)) ==>
        |hub.published| == |old(hub.published)| + 1
    {
      hide Undisturbed, Hub.Valid, ValidDraft, OfferAll, ExtendAll, ValidOpaqueValue, Newest, Kept;
      UndisturbedItself(hub.published, hub.subscriptions, hub.streams, mine);
      if clock <= now && (eventID.None? || eventID.value !in issued) {
        var r := hub.Publish(draft, now, eventID);
        clock := now;
        if r.Ok? {
          issued := issued + {eventID.value};
          PublishSpares(old(hub.published), old(hub.subscriptions), old(hub.streams), Retained(r.value, now), mine);
        }
      }
    }

    method OthersSubscribe(asked: SubscribeOptions, now: int, resetID: Option<string>, resetAt: int, ghost mine: nat)
      requires InStep()
      modifies this`clock, this`issued, hub, hub.slots
      ensures InStep() && Spares(mine)
    {
      hide Undisturbed, Hub.Valid, Kept, Refusal, Holds, Starts, Filter;
      UndisturbedItself(hub.published, hub.subscriptions, hub.streams, mine);
      if clock <= now <= resetAt && (resetID.None? || resetID.value !in issued) {
        var r := hub.Subscribe(asked, now, resetID, resetAt);
        Advance(r, now, resetID, resetAt);
        if r.Ok? {
          AddingSpares(hub.published, old(hub.subscriptions), old(hub.streams), r.value.0, hub.subscriptions[r.value.0],
                       hub.streams[r.value.0], mine);
        }
      }
    }

    method OthersReceive(other: nat, ghost mine: nat)
      requires InStep() && other != mine
      modifies hub
      ensures InStep() && Spares(mine)
    {
      hide Undisturbed, Hub.Valid;
      UndisturbedItself(hub.published, hub.subscriptions, hub.streams, mine);
      if other in hub.subscriptions {
        var event := hub.Receive(other);
        if event.Some? {
          OtherSpares(hub.published, old(hub.subscriptions), old(hub.streams), other, hub.subscriptions[other],
                      hub.streams[other], mine);
        }
      }
    }

    method OthersClose(other: nat, ghost mine: nat)
      requires InStep()
      modifies hub
      ensures InStep() && Spares(mine)
    {
      hide Undisturbed, Hub.Valid;
      UndisturbedItself(hub.published, hub.subscriptions, hub.streams, mine);
      if other in hub.subscriptions {
        hub.Close(other);
        ClosingSpares(hub.published, old(hub.subscriptions), hub.streams, other, mine);
      }
    }

    method OthersCloseSession(sessionID: string, ghost mine: nat)
      requires InStep()
      modifies hub
      ensures InStep() && Spares(mine)
    {
      hide Undisturbed, Hub.Valid, ClosedWhere;
      UndisturbedItself(hub.published, hub.subscriptions, hub.streams, mine);
      ClosingAllSpares(hub.published, hub.subscriptions, hub.streams, (s: Subscription) => s.sessionID == sessionID, mine);
      hub.CloseSession(sessionID);
    }

    method OthersCloseUser(userID: string, ghost mine: nat)
      requires InStep()
      modifies hub
      ensures InStep() && Spares(mine)
    {
      hide Undisturbed, Hub.Valid, ClosedWhere;
      UndisturbedItself(hub.published, hub.subscriptions, hub.streams, mine);
      ClosingAllSpares(hub.published, hub.subscriptions, hub.streams, (s: Subscription) => s.userID == userID, mine);
      hub.CloseUser(userID);
    }

    // The environment after a subscription: a reset took a time and an identifier of its own.
    method Advance(r: Result<(nat, ReplayState), HubError>, now: int, resetID: Option<string>, resetAt: int)
      requires r.Ok? && r.value.1 == Reset ==> resetID.Some?
      modifies this`clock, this`issued
      ensures if r.Ok? && r.value.1 == Reset then clock == resetAt && issued == old(issued) + {resetID.value}
              else clock == now && issued == old(issued)
    {
      if r.Ok? && r.value.1 == Reset {
        clock, issued := resetAt, issued + {resetID.value};
      } else {
        clock := now;
      }
    }

    /** Connects, or reconnects after whatever happened to the connection before. */
    method ConnectAgain(now: int, resetID: Option<string>, resetAt: int)
      requires Valid()
      modifies this, hub, hub.slots
      ensures Valid() && received == old(received) && hub.published == old(hub.published) && (old(wasReset) ==> wasReset)
      ensures wasReset && !old(wasReset) ==> Cursor() != "" && !Holds(hub.Events(), Cursor())
      ensures (!old(wasReset) && old(clock) <= now <= resetAt && (resetID.None? || resetID.value !in old(issued)) &&
               Refusal(options.(lastEventID := Cursor()), Kept(old(hub.Events()), now - hub.retention), resetID).None?) ==>
                connection.Some? && connection.value !in old(hub.subscriptions)
    {
      if !wasReset && clock <= now <= resetAt && (resetID.None? || resetID.value !in issued) {
        Connect(now, resetID, resetAt);
      }
    }

    method Connect(now: int, resetID: Option<string>, resetAt: int)
      requires Valid() && !wasReset && clock <= now <= resetAt && (resetID.None? || resetID.value !in issued)
      modifies this, hub, hub.slots
      ensures Valid() && received == old(received) && hub.published == old(hub.published)
      ensures wasReset ==> Cursor() != "" && !Holds(hub.Events(), Cursor())
      ensures Refusal(options.(lastEventID := Cursor()), Kept(old(hub.Events()), now - hub.retention), resetID).None? ==>
                connection.Some? && connection.value !in old(hub.subscriptions)
    {
      hide Follows, Filter, Holds, Starts, Hub.Valid, SawStretch, Refusal, Kept;
      ghost var end := ReconnectHasNoGap();
      var r := Ask(now, resetID, resetAt);
      if r.Ok? {
        if r.value.1 == Reset {
          wasReset, connection := true, Some(r.value.0);
        } else {
          Adopt(r.value.0, r.value.1, end);
        }
      }
    }

    method Ask(now: int, resetID: Option<string>, resetAt: int) returns (r: Result<(nat, ReplayState), HubError>)
      requires InStep() && clock <= now <= resetAt && (resetID.None? || resetID.value !in issued)
      modifies this`clock, this`issued, hub, hub.slots
      ensures InStep() && hub.published == old(hub.published)
      ensures r.Err? ==> hub.subscriptions == old(hub.subscriptions) && hub.streams == old(hub.streams)
      ensures r.Err? <==> Refusal(options.(lastEventID := Cursor()), Kept(old(hub.Events()), now - hub.retention), resetID).Some?
      ensures r.Ok? ==> r.value.0 !in old(hub.subscriptions)
      ensures r.Ok? ==> (r.value.1 == Live <==> Cursor() == "")
      ensures r.Ok? && r.value.1 == Reset ==> Cursor() != "" && !Holds(hub.Events(), Cursor())
      ensures r.Ok? ==>
        r.value.0 in hub.subscriptions && r.value.0 in hub.streams && hub.subscriptions[r.value.0].topics == Topics() &&
        hub.streams[r.value.0].received == [] && Starts(r.value.1, hub.streams[r.value.0], hub.published, Cursor())
    {
      hide Filter, Holds, Starts, Hub.Valid, Refusal, Kept;
      r := hub.Subscribe(options.(lastEventID := Cursor()), now, resetID, resetAt);
      Advance(r, now, resetID, resetAt);
    }

    /** The new connection becomes the client's. */
    method Adopt(id: nat, state: ReplayState, ghost end: nat)
      requires InStep() && !wasReset && state != Reset && (state == Live <==> Cursor() == "")
      requires id in hub.subscriptions && id in hub.streams && hub.subscriptions[id].topics == Topics()
      requires hub.streams[id].received == [] && Starts(state, hub.streams[id], hub.published, Cursor())
      requires SawStretch(hub.published, Topics(), first, end, received)
      modifies this`connection, this`first
      ensures Valid() && connection == Some(id)
    {
      hide Filter, Starts;
      hub.LogIsNamed();
      ghost var t := hub.streams[id];
      if received == [] {
        BeginsAfresh(hub.published, Topics(), t, state, Cursor());
        first := t.since;
      } else {
        ContinuesAfterLast(hub.published, Topics(), first, end, received, t, state);
      }
      connection := Some(id);
    }

    /** Any sequence of calls of anybody. */
    method Run(calls: seq<Call>) returns (ghost end: nat)
      requires Valid()
      modifies this, hub, hub.slots
      ensures Valid() && old(received) <= received && old(hub.published) <= hub.published
      ensures !wasReset ==> SawStretch(hub.published, Topics(), first, end, received)
    {
      hide SawStretch, Hub.Valid, Follows;
      for i := 0 to |calls|
        invariant Valid() && old(received) <= received && old(hub.published) <= hub.published
      {
        Perform(calls[i]);
      }
      end := 0;
      if !wasReset {
        end := ReconnectHasNoGap();
      }
    }
  }

  lemma BeginsAfresh(log: seq<Retained>, topics: set<Topic>, t: Stream, state: ReplayState, lastEventID: string)
    requires Starts(state, t, log, lastEventID) && state != Reset && t.received == []
    ensures t.prefix == [] && t.since <= |log| && Filter(log[t.since..t.since], topics) + t.received == []
  {
    assert log[t.since..t.since] == [];
  }

  /** A followed connection exists. */
  lemma Connected(log: seq<Retained>, subscriptions: map<nat, Subscription>, streams: map<nat, Stream>,
                  topics: set<Topic>, id: nat, first: nat, received: seq<Event>)
    requires Follows(log, subscriptions, streams, topics, id, first, received)
    ensures id in subscriptions && id in streams && subscriptions[id].topics == topics
  {
  }

  lemma OpenReachesEnd(s: Subscription, t: Stream, log: seq<Retained>)
    requires Delivered(s, t, log)
    ensures s.open ==> t.until == |log|
  {
  }
}
