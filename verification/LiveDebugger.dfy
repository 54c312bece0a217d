/** The live debugger panel (src/components/LiveCpuDebuggerWorkbench.tsx): overlapping requests
    guarded by one generation ticket. The session client is outside; its replies arrive with the
    completions, in any order. */
module LiveDebugger {
  datatype Reply = Reply(json: string)

  datatype Collection = Collection(text: string, replies: seq<Reply>)

  datatype Kind = Connect | Send(command: string) | CollectQueries | InspectTarget | CollectObserved | Disconnect

  /** What the client delivers; each kind of request uses its own part. `owned` says whether the
      client still holds the inspected collection. */
  datatype Outcome = Delivered(reply: Reply, collection: Collection, owned: bool) | Failed(code: string, text: string)

  datatype Notice = Idle | Replaced(needsCleanup: bool) | Working(kind: Kind) | Completed(kind: Kind)
                  | Failure(code: string, text: string)

  /** A displayed value and the number of the request that delivered it. */
  datatype Slot<T> = Empty | Holds(value: T, origin: nat)

  /** A request made; an inspection carries the observed collection it was made from. */
  datatype Request = Request(kind: Kind, held: Slot<Collection>)

  /** `requests` lists all requests so far, in order; `pending` gives the ticket of each one not
      yet completed. */
  datatype State = State(disposed: bool, generation: nat, reply: Slot<Reply>, queries: Slot<Collection>,
                         observed: Slot<Collection>, target: Slot<Reply>, fields: map<string, string>,
                         busy: bool, notice: Notice, requests: seq<Request>, pending: map<nat, nat>)

  /** `Other` stands for the inputs that are not protocol fields. */
  datatype Input = Field(name: string, value: string) | Other

  datatype Event = Replace(needsCleanup: bool) | Edit(input: Input) | Begin(kind: Kind)
                 | Finish(id: nat, outcome: Outcome) | Dispose

  const INITIAL := State(false, 0, Empty, Empty, Empty, Empty, map[], false, Idle, [], map[])

  function ClearVisible(s: State): State {
    s.(generation := s.generation + 1, reply := Empty, queries := Empty, observed := Empty, target := Empty,
       busy := false)
  }

  function LastReply(c: Collection, id: nat): Slot<Reply> {
    if c.replies == [] then Empty else Holds(c.replies[|c.replies| - 1], id)
  }

  /** What a delivered outcome shows; an inspection shows its own collection again. */
  function Display(s: State, request: Request, id: nat, reply: Reply, collection: Collection, owned: bool): State {
    match request.kind
    case Connect => s.(reply := Holds(reply, id))
    case Send(_) => s.(reply := Holds(reply, id))
    case CollectQueries => s.(queries := Holds(collection, id), reply := LastReply(collection, id))
    case InspectTarget =>
      if owned then s.(reply := Holds(reply, id), observed := request.held, target := Holds(reply, id))
      else s.(reply := Holds(reply, id))
    case CollectObserved => s.(observed := Holds(collection, id), reply := LastReply(collection, id))
    case Disconnect => s.(fields := map[])
  }

  function Finished(s: State, id: nat, outcome: Outcome): State
    requires id in s.pending && id < |s.requests|
  {
    var rest := s.(pending := s.pending - {id});
    if s.pending[id] != s.generation then rest
    else
      match outcome
      case Delivered(reply, collection, owned) =>
        Display(rest, s.requests[id], id, reply, collection, owned).(
          notice := Completed(s.requests[id].kind), busy := false)
      case Failed(code, text) => rest.(notice := Failure(code, text), busy := false)
  }

  /** Spelled out: a completion with an old ticket changes nothing but its own entry; one with the
      current ticket frees the panel and gives notice. */
  lemma FinishIs(s: State, id: nat, outcome: Outcome)
    requires id in s.pending && id < |s.requests|
    ensures var t := Finished(s, id, outcome);
      && t.pending == s.pending - {id} && t.generation == s.generation && t.requests == s.requests
      && t.disposed == s.disposed
      && (s.pending[id] != s.generation ==> t == s.(pending := s.pending - {id}))
      && (s.pending[id] == s.generation ==>
            && !t.busy
            && t.notice == match outcome
                           case Failed(code, text) => Failure(code, text)
                           case Delivered(_, _, _) => Completed(s.requests[id].kind))
  {
    KeepsTickets(s, id, outcome);
    DisplayKeeps(s.(pending := s.pending - {id}), s.requests[id], id, outcome);
    hide Display;
  }

  lemma DisplayKeeps(s: State, request: Request, id: nat, outcome: Outcome)
    ensures outcome.Delivered? ==>
      Display(s, request, id, outcome.reply, outcome.collection, outcome.owned).disposed == s.disposed
  {
  }

  /** An inspection is offered only beside the observed collection it inspects. */
  predicate Offered(s: State, kind: Kind) { kind.InspectTarget? ==> s.observed.Holds? }

  function Begun(s: State, kind: Kind): State {
    var c := ClearVisible(s);
    var request := Request(kind, if kind.InspectTarget? then s.observed else Empty);
    c.(busy := true, notice := Working(kind), requests := s.requests + [request],
       pending := s.pending[|s.requests| := c.generation])
  }

  function Edited(s: State, input: Input): State {
    var c := s.(reply := Empty, queries := Empty, observed := Empty);
    if input.Field? then c.(fields := s.fields[input.name := input.value]) else c
  }

  /** One event; a disposed panel receives nothing but completions. */
  function Step(s: State, e: Event): State {
    match e
    case Finish(id, outcome) => if id in s.pending && id < |s.requests| then Finished(s, id, outcome) else s
    case Replace(needsCleanup) => if s.disposed then s else ClearVisible(s).(notice := Replaced(needsCleanup))
    case Edit(input) => if s.disposed then s else Edited(s, input)
    case Begin(kind) => if s.disposed || !Offered(s, kind) then s else Begun(s, kind)
    case Dispose => if s.disposed then s else s.(disposed := true, generation := s.generation + 1)
  }

  function Run(s: State, events: seq<Event>): State {
    if events == [] then s else Step(Run(s, events[..|events| - 1]), events[|events| - 1])
  }

  // ---- What every schedule keeps ----

  predicate Blank(s: State) { s.reply.Empty? && s.queries.Empty? && s.observed.Empty? && s.target.Empty? }

  /** Something is on screen. The target reply is drawn only beside an observed collection. */
  predicate Visible(s: State) { s.reply.Holds? || s.queries.Holds? || s.observed.Holds? || TargetVisible(s) }

  predicate TargetVisible(s: State) { s.target.Holds? && s.observed.Holds? }

  /** The request may still report. */
  predicate Current(s: State, id: nat) { id in s.pending && id < |s.requests| && s.pending[id] == s.generation }

  function Last(s: State): Request
    requires s.requests != []
  { s.requests[|s.requests| - 1] }

  predicate FromLast<T>(slot: Slot<T>, s: State) { slot.Holds? ==> s.requests != [] && slot.origin == |s.requests| - 1 }

  /** An observed collection is the last request's own, or the one the last request inspected. */
  predicate ObservedFrom(s: State) {
    s.observed.Holds? ==>
      && s.requests != []
      && ((Last(s).kind.CollectObserved? && s.observed.origin == |s.requests| - 1)
          || (Last(s).kind.InspectTarget? && s.observed == Last(s).held))
  }

  /** A retained target reply answers the last request, an inspection of a collection that is the
      only one it can appear beside. */
  predicate TargetFrom(s: State) {
    s.target.Holds? ==>
      && s.requests != [] && s.target.origin == |s.requests| - 1 && Last(s).kind.InspectTarget?
      && (s.observed.Holds? ==> s.observed == Last(s).held)
      && (s.reply.Holds? ==> s.reply == s.target)
  }

  /** A request that may still report is the last one, and nothing is shown while it runs. */
  ghost predicate Tickets(s: State) {
    && (forall id :: id in s.pending ==> id < |s.requests| && s.pending[id] <= s.generation)
    && (forall id: nat :: Current(s, id) ==> id == |s.requests| - 1 && !s.disposed && s.busy && Blank(s))
    && (s.busy && !s.disposed ==> s.requests != [] && Current(s, |s.requests| - 1))
  }

  /** Where everything displayed came from. */
  predicate Slots(s: State) {
    && FromLast(s.reply, s) && FromLast(s.queries, s) && ObservedFrom(s) && TargetFrom(s)
    && (s.queries.Holds? ==> s.observed.Empty? && s.target.Empty?)
  }

  ghost predicate Inv(s: State) { Tickets(s) && Slots(s) }

  lemma FinishTickets(s: State, id: nat, outcome: Outcome)
    requires Tickets(s) && id in s.pending && id < |s.requests|
    ensures Tickets(Finished(s, id, outcome))
  {
    var t := Finished(s, id, outcome);
    KeepsTickets(s, id, outcome);
    if Current(s, id) {
      forall i: nat ensures !Current(t, i) { assert Current(t, i) ==> Current(s, i); }
    } else {
      forall i: nat | Current(t, i) ensures i == |t.requests| - 1 && !t.disposed && t.busy && Blank(t) {
        assert Current(s, i);
      }
      assert s.busy && !s.disposed ==> Current(t, |s.requests| - 1);
    }
  }

  lemma DisplaySlots(s: State, id: nat, reply: Reply, collection: Collection, owned: bool)
    requires s.requests != [] && id == |s.requests| - 1 && Blank(s)
    ensures Slots(Display(s, Last(s), id, reply, collection, owned))
  {
    var request := Last(s);
    var t := Display(s, request, id, reply, collection, owned);
    assert t.requests == s.requests && Last(t) == request;
    match request.kind
    case Connect =>
    case Send(_) =>
    case CollectQueries =>
    case InspectTarget => assert !owned ==> t.observed.Empty? && t.target.Empty?;
    case CollectObserved =>
    case Disconnect => assert Blank(t);
  }

  lemma FinishSlots(s: State, id: nat, outcome: Outcome)
    requires Slots(s) && Current(s, id) && id == |s.requests| - 1 && Blank(s)
    ensures Slots(Finished(s, id, outcome))
  {
    hide Display;
    match outcome
    case Delivered(reply, collection, owned) =>
      DisplaySlots(s.(pending := s.pending - {id}), id, reply, collection, owned);
    case Failed(_, _) =>
  }

  lemma FinishKeeps(s: State, id: nat, outcome: Outcome)
    requires Inv(s) && id in s.pending && id < |s.requests|
    ensures Inv(Finished(s, id, outcome))
    ensures !Current(s, id) ==> Finished(s, id, outcome) == s.(pending := s.pending - {id})
  {
    FinishTickets(s, id, outcome);
    hide Display;
    if Current(s, id) { FinishSlots(s, id, outcome); }
  }

  lemma BeginKeeps(s: State, kind: Kind)
    requires Inv(s) && !s.disposed
    ensures Inv(Begun(s, kind))
  {
    var t := Begun(s, kind);
    forall i: nat ensures Current(t, i) <==> i == |s.requests| {}
  }

  lemma EditKeeps(s: State, input: Input)
    requires Inv(s)
    ensures Inv(Edited(s, input))
  {
    forall i: nat ensures Current(Edited(s, input), i) <==> Current(s, i) {}
  }

  lemma StepKeeps(s: State, e: Event)
    requires Inv(s)
    ensures Inv(Step(s, e))
  {
    var t := Step(s, e);
    match e
    case Finish(id, outcome) => if id in s.pending { FinishKeeps(s, id, outcome); }
    case Edit(input) => EditKeeps(s, input);
    case Begin(kind) => if !s.disposed { BeginKeeps(s, kind); }
    case _ => assert !s.disposed ==> forall i: nat :: !Current(t, i);
  }

  lemma {:induction false} RunKeeps(events: seq<Event>)
    ensures Inv(Run(INITIAL, events))
  {
    hide Inv, Step;
    if events == [] {
      assert Inv(INITIAL) by { InitialInv(); }
    } else {
      RunKeeps(events[..|events| - 1]);
      StepKeeps(Run(INITIAL, events[..|events| - 1]), events[|events| - 1]);
    }
  }

  lemma InitialInv()
    ensures Inv(INITIAL)
  {
  }

  // ---- Where an observed collection was delivered ----

  /** Event k completes request `id`, a collection of observations that could still report, and
      delivers c. */
  predicate DeliversAt(events: seq<Event>, k: nat, id: nat, c: Collection) {
    && k < |events| && events[k].Finish? && events[k].id == id
    && events[k].outcome.Delivered? && events[k].outcome.collection == c
    && Current(Run(INITIAL, events[..k]), id) && Run(INITIAL, events[..k]).requests[id].kind.CollectObserved?
  }

  /** The collection in the slot really was delivered by the request the slot names. */
  ghost predicate Genuine(events: seq<Event>, slot: Slot<Collection>) {
    slot.Holds? ==> exists k: nat :: DeliversAt(events, k, slot.origin, slot.value)
  }

  lemma GenuineGrows(events: seq<Event>, e: Event, slot: Slot<Collection>)
    requires Genuine(events, slot)
    ensures Genuine(events + [e], slot)
  {
    hide Run;
    if slot.Holds? {
      var k: nat :| DeliversAt(events, k, slot.origin, slot.value);
      assert (events + [e])[..k] == events[..k];
      assert DeliversAt(events + [e], k, slot.origin, slot.value);
    }
  }

  /** One event puts into the observed slot, and into a new request, only what was there, what the
      request it completes was made from, or what it delivers itself. */
  lemma StepObserved(s: State, e: Event)
    ensures var t := Step(s, e);
      || t.observed.Empty? || t.observed == s.observed
      || (e.Finish? && Current(s, e.id) && t.observed == s.requests[e.id].held)
      || (e.Finish? && Current(s, e.id) && s.requests[e.id].kind.CollectObserved? && e.outcome.Delivered?
          && t.observed == Holds(e.outcome.collection, e.id))
    ensures Extends(s, Step(s, e))
  {
    if e.Finish? && e.id in s.pending && e.id < |s.requests| { KeepsTickets(s, e.id, e.outcome); }
  }

  /** At most one request more, made from nothing or from the observed collection on display. */
  predicate Extends(s: State, t: State) {
    || t.requests == s.requests
    || (t.requests != [] && t.requests == s.requests + [Last(t)] && (Last(t).held.Empty? || Last(t).held == s.observed))
  }

  ghost predicate AllGenuine(events: seq<Event>, s: State) {
    && Genuine(events, s.observed)
    && forall i :: 0 <= i < |s.requests| ==> Genuine(events, s.requests[i].held)
  }

  lemma {:induction false} RunGenuine(events: seq<Event>)
    ensures AllGenuine(events, Run(INITIAL, events))
  {
    if events != [] {
      var init, e := events[..|events| - 1], events[|events| - 1];
      RunGenuine(init);
      var s := Run(INITIAL, init);
      assert events == init + [e];
      StepObserved(s, e);
      if e.Finish? && e.outcome.Delivered? && Current(s, e.id) && s.requests[e.id].kind.CollectObserved? {
        assert DeliversAt(events, |init|, e.id, e.outcome.collection);
      }
      hide Run, Step, DeliversAt, Genuine, Current;
      StepGenuine(init, e, s, Run(INITIAL, events));
    }
  }

  lemma StepGenuine(init: seq<Event>, e: Event, s: State, t: State)
    requires AllGenuine(init, s)
    requires t.observed.Empty? || Genuine(init + [e], t.observed) || t.observed == s.observed
      || exists i :: 0 <= i < |s.requests| && t.observed == s.requests[i].held
    requires Extends(s, t)
    ensures AllGenuine(init + [e], t)
  {
    GenuineGrows(init, e, s.observed);
    forall i | 0 <= i < |s.requests| ensures Genuine(init + [e], s.requests[i].held) {
      GenuineGrows(init, e, s.requests[i].held);
    }
    assert Genuine(init + [e], Empty);
    hide DeliversAt;
    assert Genuine(init + [e], t.observed);
  }

  // ---- Main results, over every schedule ----

  /** A shown reply or query collection came from the last request started. A shown observed
      collection was delivered by a collection of observations that could still report when it
      completed; that is the last request, or the last request inspects exactly it. While a request
      runs nothing is shown, and at most one can still report. */
  lemma EveryScheduleShowsTheLast(events: seq<Event>, i: nat, j: nat)
    ensures var s := Run(INITIAL, events); FromLast(s.reply, s) && FromLast(s.queries, s) && FromLast(s.target, s)
    ensures var s := Run(INITIAL, events); Genuine(events, s.observed) && ObservedFrom(s)
    ensures var s := Run(INITIAL, events);
      s.busy && !s.disposed ==> Blank(s) && s.requests != [] && Current(s, |s.requests| - 1)
    ensures var s := Run(INITIAL, events); Current(s, i) && Current(s, j) ==> i == j
  {
    RunKeeps(events);
    RunGenuine(events);
    hide Run, Genuine;
  }

  /** A retained target reply is on screen only beside the collection its request inspected. */
  lemma TargetStaysWithItsCollection(events: seq<Event>)
    ensures var s := Run(INITIAL, events);
      TargetVisible(s) ==>
        && s.requests != [] && Last(s).kind.InspectTarget? && s.target.origin == |s.requests| - 1
        && s.observed == Last(s).held && Genuine(events, Last(s).held)
  {
    RunKeeps(events);
    RunGenuine(events);
    hide Run, Genuine;
  }

  /** A superseded completion changes nothing; the current one frees the panel and shows exactly
      what its kind of request shows. */
  lemma EveryCompletion(events: seq<Event>, id: nat, outcome: Outcome)
    requires id in Run(INITIAL, events).pending
    ensures var s := Run(INITIAL, events);
      id < |s.requests| && (!Current(s, id) ==> Step(s, Finish(id, outcome)) == s.(pending := s.pending - {id}))
    ensures var s, t := Run(INITIAL, events), Step(Run(INITIAL, events), Finish(id, outcome));
      Current(s, id) ==> !t.busy && Shows(t, s.requests[id], id, outcome)
  {
    RunKeeps(events);
    hide Run;
    FinishKeeps(Run(INITIAL, events), id, outcome);
  }

  function LastOf(replies: seq<Reply>, id: nat): Slot<Reply> {
    if |replies| == 0 then Empty else Holds(replies[|replies| - 1], id)
  }

  /** Everything on display after the current request completes. */
  predicate Shows(t: State, request: Request, id: nat, outcome: Outcome) {
    match outcome
    case Failed(code, text) => Blank(t) && t.notice == Failure(code, text)
    case Delivered(reply, collection, owned) =>
      && t.notice == Completed(request.kind)
      && t.reply == (match request.kind
                     case CollectQueries => LastOf(collection.replies, id)
                     case CollectObserved => LastOf(collection.replies, id)
                     case Disconnect => Empty
                     case _ => Holds(reply, id))
      && t.queries == (if request.kind.CollectQueries? then Holds(collection, id) else Empty)
      && t.observed == (if request.kind.CollectObserved? then Holds(collection, id)
                        else if request.kind.InspectTarget? && owned then request.held else Empty)
      && t.target == (if request.kind.InspectTarget? && owned then Holds(reply, id) else Empty)
      && (request.kind.Disconnect? ==> t.fields == map[])
  }

  predicate NoBegin(events: seq<Event>) { forall i :: 0 <= i < |events| ==> !events[i].Begin? }

  /** No event completes this request. */
  predicate NeverFinishes(events: seq<Event>, id: nat) {
    forall i :: 0 <= i < |events| ==> !(events[i].Finish? && events[i].id == id)
  }

  /** Nothing new is displayed: each slot is as it was, or blank. */
  predicate OnlyFades(s: State, t: State) {
    && (t.reply.Empty? || t.reply == s.reply) && (t.queries.Empty? || t.queries == s.queries)
    && (t.observed.Empty? || t.observed == s.observed) && (t.target.Empty? || t.target == s.target)
    && (s.disposed ==> t == s.(pending := t.pending))
  }

  /** Only this request can still report. */
  ghost predicate OnlyCurrent(s: State, id: nat) { forall i: nat :: Current(s, i) ==> i == id }

  ghost predicate Stale(s: State) { forall id: nat :: !Current(s, id) }

  lemma FadeStep(s: State, e: Event, id: nat)
    requires Inv(s) && OnlyCurrent(s, id) && !e.Begin? && !(e.Finish? && e.id == id)
    ensures OnlyCurrent(Step(s, e), id) && OnlyFades(s, Step(s, e))
  {
    var t := Step(s, e);
    forall i: nat | Current(t, i) ensures i == id { CurrentBefore(s, e, i); }
    if e.Finish? { assert !Current(s, e.id); }
  }

  /** A request that can report after an event that starts none could report before it. */
  lemma CurrentBefore(s: State, e: Event, i: nat)
    requires Inv(s) && !e.Begin? && Current(Step(s, e), i)
    ensures Current(s, i)
  {
    hide Inv, Display;
    match e
    case Finish(id, outcome) => if id in s.pending && id < |s.requests| { KeepsTickets(s, id, outcome); }
    case Replace(needsCleanup) => NotAhead(s, i);
    case Dispose => NotAhead(s, i);
    case Edit(input) =>
  }

  lemma KeepsTickets(s: State, id: nat, outcome: Outcome)
    requires id in s.pending && id < |s.requests|
    ensures var t := Finished(s, id, outcome);
      t.pending == s.pending - {id} && t.requests == s.requests && t.generation == s.generation
  {
  }

  lemma NotAhead(s: State, i: nat)
    requires Inv(s) && i in s.pending
    ensures i < |s.requests| && s.pending[i] <= s.generation
  {
  }

  lemma {:induction false} NothingComesBack(s: State, events: seq<Event>, id: nat)
    requires Inv(s) && OnlyCurrent(s, id) && NoBegin(events) && NeverFinishes(events, id)
    ensures Inv(Run(s, events)) && OnlyCurrent(Run(s, events), id) && OnlyFades(s, Run(s, events))
  {
    if events != [] {
      var init, e := events[..|events| - 1], events[|events| - 1];
      NothingComesBack(s, init, id);
      hide Inv, OnlyCurrent, Step;
      StepKeeps(Run(s, init), e);
      FadeStep(Run(s, init), e, id);
    }
  }

  /** With no request able to report, completions in any number and order show nothing. */
  lemma {:induction false} StaleStays(s: State, events: seq<Event>)
    requires Inv(s) && Stale(s) && NoBegin(events)
    ensures Inv(Run(s, events)) && Stale(Run(s, events)) && OnlyFades(s, Run(s, events))
  {
    if events != [] {
      var init, e := events[..|events| - 1], events[|events| - 1];
      StaleStays(s, init);
      var r := Run(s, init);
      StaleStep(r, e);
      hide Inv, Stale, Step;
      StepKeeps(r, e);
    }
  }

  lemma StaleStep(s: State, e: Event)
    requires Inv(s) && Stale(s) && !e.Begin?
    ensures Stale(Step(s, e)) && OnlyFades(s, Step(s, e))
  {
    var t := Step(s, e);
    forall i: nat ensures !Current(t, i) {
      if Current(t, i) { CurrentBefore(s, e, i); }
    }
    if e.Finish? { assert !Current(s, e.id); }
  }

  /** Once the connection input is replaced, nothing is displayed until another request starts,
      whatever completes in the meantime; a disposed panel is never changed again. */
  lemma ReplacedStaysBlank(before: seq<Event>, e: Event, after: seq<Event>)
    requires !Run(INITIAL, before).disposed && (e.Replace? || e.Dispose?) && NoBegin(after)
    ensures var s := Step(Run(INITIAL, before), e);
      && (e.Replace? ==> Blank(Run(s, after)))
      && (e.Dispose? ==> Run(s, after) == s.(pending := Run(s, after).pending))
  {
    RunKeeps(before);
    var s := Run(INITIAL, before);
    StepKeeps(s, e);
    assert Stale(Step(s, e)) by {
      forall id: nat ensures !Current(Step(s, e), id) { StaleAfter(s, e, id); }
    }
    hide Run, Inv, Stale;
    StaleStays(Step(s, e), after);
  }

  lemma StaleAfter(s: State, e: Event, id: nat)
    requires Inv(s) && !s.disposed && (e.Replace? || e.Dispose?)
    ensures !Current(Step(s, e), id)
  {
  }

  /** After an edit nothing is on screen until another request starts, or the one running then
      (the inputs are disabled while one runs) completes. */
  lemma EditHidesUntilNextRequest(before: seq<Event>, input: Input, after: seq<Event>)
    requires !Run(INITIAL, before).disposed && NoBegin(after)
    requires var s := Run(INITIAL, before); s.busy && s.requests != [] ==> NeverFinishes(after, |s.requests| - 1)
    ensures !Visible(Run(Step(Run(INITIAL, before), Edit(input)), after))
  {
    hide *;
    RunKeeps(before);
    var s := Run(INITIAL, before);
    var t := Step(s, Edit(input));
    StepKeeps(s, Edit(input));
    EditCurrent(s, input);
    EditClears(s, input);
    if s.busy {
      NothingComesBack(t, after, |s.requests| - 1);
    } else {
      StaleStays(t, after);
    }
    FadesFromHidden(t, Run(t, after));
  }

  lemma EditClears(s: State, input: Input)
    requires !s.disposed
    ensures !Visible(Step(s, Edit(input)))
  {
  }

  lemma FadesFromHidden(s: State, t: State)
    requires !Visible(s) && OnlyFades(s, t)
    ensures !Visible(t)
  {
  }

  lemma EditCurrent(s: State, input: Input)
    requires Inv(s) && !s.disposed
    ensures s.busy ==> s.requests != [] && OnlyCurrent(Step(s, Edit(input)), |s.requests| - 1)
    ensures !s.busy ==> Stale(Step(s, Edit(input)))
  {
    forall i: nat ensures Current(Step(s, Edit(input)), i) <==> Current(s, i) {}
  }

  // ---- The panel ----

  class Panel {
    var disposed: bool
    var generation: nat
    var reply: Slot<Reply>
    var queries: Slot<Collection>
    var observed: Slot<Collection>
    var target: Slot<Reply>
    var fields: map<string, string>
    var busy: bool
    var notice: Notice
    var requests: seq<Request>
    var pending: map<nat, nat>

    function View(): State
      reads this
    { State(disposed, generation, reply, queries, observed, target, fields, busy, notice, requests, pending) }

    constructor ()
      ensures View() == INITIAL
    {
      disposed, generation, reply, queries, observed, target := false, 0, Empty, Empty, Empty, Empty;
      fields, busy, notice, requests, pending := map[], false, Idle, [], map[];
    }

    method Clear()
      modifies this
      ensures View() == ClearVisible(old(View()))
      ensures generation == old(generation) + 1
      ensures reply.Empty? && queries.Empty? && observed.Empty? && target.Empty?
      ensures !busy && disposed == old(disposed) && fields == old(fields) && notice == old(notice)
      ensures requests == old(requests) && pending == old(pending)
    {
      generation := generation + 1;
      reply, queries, observed, target := Empty, Empty, Empty, Empty;
      busy := false;
    }

    method ReplaceConnection(needsCleanup: bool)
      requires !disposed
      modifies this
      ensures View() == Step(old(View()), Replace(needsCleanup))
      ensures generation == old(generation) + 1
      ensures reply.Empty? && queries.Empty? && observed.Empty? && target.Empty?
      ensures !busy && !disposed && fields == old(fields) && notice == Replaced(needsCleanup)
      ensures requests == old(requests) && pending == old(pending)
    {
      Clear();
      notice := Replaced(needsCleanup);
    }

    method EditInput(input: Input)
      requires !disposed
      modifies this
      ensures View() == Step(old(View()), Edit(input))
      ensures reply.Empty? && queries.Empty? && observed.Empty? && target == old(target)
      ensures fields == if input.Field? then old(fields)[input.name := input.value] else old(fields)
      ensures generation == old(generation) && busy == old(busy) && notice == old(notice) && !disposed
      ensures requests == old(requests) && pending == old(pending)
    {
      reply, queries, observed := Empty, Empty, Empty;
      if input.Field? { fields := fields[input.name := input.value]; }
    }

    /** Any request, up to its await; its ticket is the generation it set. An inspection is made
        from the observed collection on display and is not offered without one. */
    method Start(kind: Kind)
      requires !disposed
      modifies this
      ensures View() == Step(old(View()), Begin(kind))
      ensures kind.InspectTarget? && old(observed).Empty? ==> View() == old(View())
      ensures !(kind.InspectTarget? && old(observed).Empty?) ==>
        && generation == old(generation) + 1 && reply.Empty? && queries.Empty? && observed.Empty? && target.Empty?
        && busy && notice == Working(kind) && fields == old(fields) && !disposed
        && requests == old(requests) + [Request(kind, if kind.InspectTarget? then old(observed) else Empty)]
        && pending == old(pending)[|old(requests)| := generation]
    {
      if kind.InspectTarget? && observed.Empty? { return; }
      var request := Request(kind, if kind.InspectTarget? then observed else Empty);
      Clear();
      var current := generation;
      busy, notice := true, Working(kind);
      pending, requests := pending[|requests| := current], requests + [request];
    }

    /** The rest of a request, when the client answers. */
    method Complete(id: nat, outcome: Outcome)
      requires id in pending && id < |requests|
      modifies this
      ensures View() == Step(old(View()), Finish(id, outcome))
    {
      hide Display;
      var ticket, request := pending[id], requests[id];
      pending := pending - {id};
      if ticket == generation {
        match outcome {
          case Failed(code, text) =>
            notice := Failure(code, text);
          case Delivered(next, collection, owned) =>
            Show(request, id, next, collection, owned);
            notice := Completed(request.kind);
        }
        busy := false;
      }
    }

    method Show(request: Request, id: nat, next: Reply, collection: Collection, owned: bool)
      modifies this
      ensures View() == Display(old(View()), request, id, next, collection, owned)
    {
      match request.kind {
        case Connect =>
          reply := Holds(next, id);
        case Send(_) =>
          reply := Holds(next, id);
        case CollectQueries =>
          queries := Holds(collection, id);
          reply := LastReply(collection, id);
        case InspectTarget =>
          reply := Holds(next, id);
          if owned {
            observed := request.held;
            target := Holds(next, id);
          }
        case CollectObserved =>
          observed := Holds(collection, id);
          reply := LastReply(collection, id);
        case Disconnect =>
          fields := map[];
      }
    }

    method DisposePanel()
      requires !disposed
      modifies this
      ensures View() == Step(old(View()), Dispose)
      ensures disposed && generation == old(generation) + 1 && reply == old(reply) && queries == old(queries)
      ensures observed == old(observed) && target == old(target) && fields == old(fields) && busy == old(busy)
      ensures notice == old(notice) && requests == old(requests) && pending == old(pending)
    {
      disposed := true;
      generation := generation + 1;
    }
  }
}
