/** The recorded-import panel (src/components/RecordedResourceImport.tsx): asynchronous imports
    that may finish in any order, guarded by a generation ticket and an abort controller. */
module RecordedImport {
  datatype File = File(id: nat, name: string)

  datatype Choice = NoFile | Chosen(file: File)

  /** Importing is outside the model; its outcome arrives with the completion. */
  datatype Recording = Recording(text: string)

  datatype Outcome = Success(recording: Recording) | Refusal(reason: string) | OtherFailure

  datatype Message = Untouched | SelectionChanged | Cancelled | ResetDone | Reading | Imported | Refused(reason: string)

  datatype Controller = NoController | Held(id: nat)

  /** A displayed recording, its trimmed file names and the number of the import it came from. */
  datatype Result = Nothing | Shown(recording: Recording, names: (string, string), origin: nat)

  /** `started` lists the file pairs of all imports so far; import i is in flight while it has a
      ticket in `pending`, and its controller has fired when i is in `aborted`. */
  datatype State = State(mounted: bool, generation: nat, active: Controller, files: (Choice, Choice), result: Result,
                         busy: bool, error: bool, message: Message,
                         started: seq<(File, File)>, pending: map<nat, nat>, aborted: set<nat>)

  datatype Event = Choose(first: bool, choice: Choice) | Cancel | Reset | Start
                 | Finish(id: nat, outcome: Outcome) | Unmount

  const INITIAL := State(true, 0, NoController, (NoFile, NoFile), Nothing, false, false, Untouched, [], map[], {})

  function Take(s: string, n: nat): string { if |s| <= n then s else s[..n] }

  /** What is left of a text at most n characters long. */
  predicate Shortened(whole: string, part: string, n: nat) {
    if |whole| <= n then part == whole else |part| == n && part <= whole
  }

  function Abort(active: Controller, aborted: set<nat>): set<nat> {
    if active.Held? then aborted + {active.id} else aborted
  }

  /** Give up whatever is running and clear what is shown. */
  function ClearPending(s: State): State {
    s.(generation := s.generation + 1, aborted := Abort(s.active, s.aborted), active := NoController,
       busy := false, result := Nothing, error := false)
  }

  function StartImport(s: State): State {
    if !s.files.0.Chosen? || !s.files.1.Chosen? then s
    else
      var c, id := ClearPending(s), |s.started|;
      c.(active := Held(id), busy := true, message := Reading,
         started := s.started + [(s.files.0.file, s.files.1.file)],
         pending := s.pending[id := c.generation])
  }

  predicate Superseded(s: State, id: nat)
    requires id in s.pending
  { id in s.aborted || s.pending[id] != s.generation }

  function Finished(s: State, id: nat, outcome: Outcome): State
    requires id in s.pending && id < |s.started|
  {
    var reported :=
      if Superseded(s, id) then s
      else
        match outcome
        case Success(recording) =>
          var names := (Take(s.started[id].0.name, 120), Take(s.started[id].1.name, 120));
          s.(result := Shown(recording, names, id), message := Imported)
        case Refusal(reason) => s.(error := true, message := Refused(Take(reason, 384)))
        case OtherFailure => s.(error := true, message := Refused("Unsupported recording."));
    var released :=
      if s.pending[id] == s.generation then reported.(active := NoController, busy := false) else reported;
    released.(pending := s.pending - {id})
  }

  /** Spelled out: a completion with an old ticket changes nothing but its own entry; one with the
      current ticket frees the panel, and reports unless its controller has fired. */
  lemma FinishIs(s: State, id: nat, outcome: Outcome)
    requires id in s.pending && id < |s.started|
    ensures var t := Finished(s, id, outcome);
      && t.pending == s.pending - {id} && t.generation == s.generation && t.files == s.files
      && t.mounted == s.mounted && t.started == s.started && t.aborted == s.aborted
      && (s.pending[id] != s.generation ==> t == s.(pending := s.pending - {id}))
      && (s.pending[id] == s.generation ==> !t.busy && t.active.NoController?)
      && (s.pending[id] == s.generation && id in s.aborted ==>
            t.result == s.result && t.error == s.error && t.message == s.message)
      && (s.pending[id] == s.generation && id !in s.aborted ==>
            match outcome
            case Success(recording) =>
              && t.result.Shown? && t.result.recording == recording && t.result.origin == id
              && Shortened(s.started[id].0.name, t.result.names.0, 120)
              && Shortened(s.started[id].1.name, t.result.names.1, 120)
              && t.message.Imported? && t.error == s.error
            case Refusal(reason) =>
              t.error && t.result == s.result && t.message.Refused? && Shortened(reason, t.message.reason, 384)
            case OtherFailure =>
              t.error && t.result == s.result && t.message == Refused("Unsupported recording."))
  {
    if outcome.Success? {
      TakeShortens(s.started[id].0.name, 120);
      TakeShortens(s.started[id].1.name, 120);
    } else if outcome.Refusal? {
      TakeShortens(outcome.reason, 384);
    }
    hide Take, Shortened;
  }

  lemma TakeShortens(s: string, n: nat)
    ensures Shortened(s, Take(s, n), n)
  {
  }

  /** One event; a panel that is gone receives nothing but completions. */
  function Step(s: State, e: Event): State {
    match e
    case Finish(id, outcome) => if id in s.pending && id < |s.started| then Finished(s, id, outcome) else s
    case Choose(first, choice) =>
      if !s.mounted then s
      else ClearPending(s).(
          files := if first then (choice, s.files.1) else (s.files.0, choice), message := SelectionChanged)
    case Cancel => if s.mounted then ClearPending(s).(message := Cancelled) else s
    case Reset => if s.mounted then ClearPending(s).(files := (NoFile, NoFile), message := ResetDone) else s
    case Start => if s.mounted then StartImport(s) else s
    case Unmount =>
      if s.mounted then s.(mounted := false, generation := s.generation + 1, aborted := Abort(s.active, s.aborted))
      else s
  }

  function Run(s: State, events: seq<Event>): State {
    if events == [] then s else Step(Run(s, events[..|events| - 1]), events[|events| - 1])
  }

  // ---- What every schedule keeps ----

  predicate Live(s: State, id: nat) { id in s.pending && id !in s.aborted }

  predicate Selected(s: State, id: nat)
    requires id < |s.started|
  { s.files == (Chosen(s.started[id].0), Chosen(s.started[id].1)) }

  /** A live import is the last one started, of the files now selected, and holds the panel. */
  predicate LiveIsCurrent(s: State, id: nat)
    requires id < |s.started| && id in s.pending
  {
    && s.mounted && s.active == Held(id) && s.pending[id] == s.generation && id == |s.started| - 1
    && Selected(s, id) && s.busy && s.result.Nothing? && !s.error
  }

  ghost predicate Inv(s: State) {
    && (forall id :: id in s.pending ==> id < |s.started| && s.pending[id] <= s.generation)
    && (forall id: nat :: Live(s, id) ==> id < |s.started| && LiveIsCurrent(s, id))
    && (forall id :: id in s.pending && id in s.aborted ==> s.pending[id] < s.generation)
    && (forall id :: id in s.aborted ==> id < |s.started|)
    && (s.mounted && s.active.Held? ==> Live(s, s.active.id))
    && (s.mounted && s.busy ==> s.active.Held?)
    && (s.result.Shown? ==>
          && s.result.origin < |s.started| && s.result.origin == |s.started| - 1 && Selected(s, s.result.origin)
          && s.result.names ==
             (Take(s.started[s.result.origin].0.name, 120), Take(s.started[s.result.origin].1.name, 120))
          && !s.busy && !s.error)
  }

  lemma ClearKeeps(s: State, files: (Choice, Choice), message: Message)
    requires Inv(s) && s.mounted
    ensures Inv(ClearPending(s).(files := files, message := message))
    ensures forall id: nat :: !Live(ClearPending(s), id)
  {
    var c := ClearPending(s);
    forall id: nat ensures !Live(c, id) {
      if Live(s, id) { assert LiveIsCurrent(s, id); }
    }
    assert forall id: nat :: !Live(c.(files := files, message := message), id) by {
      forall id: nat ensures !Live(c.(files := files, message := message), id) { assert !Live(c, id); }
    }
  }

  lemma StartKeeps(s: State)
    requires Inv(s) && s.mounted
    ensures Inv(StartImport(s))
  {
    if s.files.0.Chosen? && s.files.1.Chosen? {
      ClearKeeps(s, s.files, s.message);
      var c, t, id := ClearPending(s), StartImport(s), |s.started|;
      forall i: nat ensures Live(t, i) <==> i == id {
        assert !Live(c, i);
        assert i != id ==> (Live(t, i) <==> Live(c, i));
      }
      assert id !in s.pending && id !in t.aborted;
    }
  }

  lemma FinishKeeps(s: State, id: nat, outcome: Outcome)
    requires Inv(s) && id in s.pending && id < |s.started|
    ensures Inv(Finished(s, id, outcome))
    ensures Superseded(s, id) <==> !Live(s, id)
    ensures Superseded(s, id) ==> Finished(s, id, outcome) == s.(pending := s.pending - {id})
  {
    hide Take;
    var t := Finished(s, id, outcome);
    if Live(s, id) {
      assert LiveIsCurrent(s, id);
      forall i: nat ensures !Live(t, i) { if Live(s, i) { assert LiveIsCurrent(s, i); } }
    } else {
      forall i: nat | Live(t, i) ensures i < |t.started| && LiveIsCurrent(t, i) { assert Live(s, i); }
    }
  }

  lemma UnmountKeeps(s: State)
    requires Inv(s)
    ensures Inv(Step(s, Unmount))
    ensures s.mounted ==> forall id: nat :: !Live(Step(s, Unmount), id)
  {
    hide Take;
    var t := Step(s, Unmount);
    if s.mounted {
      forall id: nat ensures !Live(t, id) { if Live(s, id) { assert LiveIsCurrent(s, id); } }
    }
  }

  lemma StepKeeps(s: State, e: Event)
    requires Inv(s)
    ensures Inv(Step(s, e))
  {
    match e
    case Finish(id, outcome) => if id in s.pending { FinishKeeps(s, id, outcome); }
    case Choose(first, choice) =>
      if s.mounted { ClearKeeps(s, if first then (choice, s.files.1) else (s.files.0, choice), SelectionChanged); }
    case Cancel => if s.mounted { ClearKeeps(s, s.files, Cancelled); }
    case Reset => if s.mounted { ClearKeeps(s, (NoFile, NoFile), ResetDone); }
    case Start => if s.mounted { StartKeeps(s); }
    case Unmount => UnmountKeeps(s);
  }

  lemma {:induction false} RunKeeps(events: seq<Event>)
    ensures Inv(Run(INITIAL, events))
  {
    hide Inv, Step;
    if events == [] {
      InitialInv();
    } else {
      RunKeeps(events[..|events| - 1]);
      StepKeeps(Run(INITIAL, events[..|events| - 1]), events[|events| - 1]);
    }
  }

  lemma InitialInv()
    ensures Inv(INITIAL)
  {
  }

  // ---- Main results, over every schedule ----

  /** A displayed recording came from the last import started, of the files selected now; at most
      one controller is live, and it is that of a running import. */
  lemma EveryScheduleShowsTheLast(events: seq<Event>, i: nat, j: nat)
    ensures var s := Run(INITIAL, events);
      s.result.Shown? ==> s.result.origin == |s.started| - 1 && Selected(s, s.result.origin) && !s.busy
    ensures var s := Run(INITIAL, events); Live(s, i) && Live(s, j) ==> i == j
    ensures var s := Run(INITIAL, events);
      s.mounted ==> (s.busy <==> s.active.Held?) && (s.active.Held? ==> Live(s, s.active.id))
  {
    RunKeeps(events);
    var s := Run(INITIAL, events);
    hide Run;
    if Live(s, i) && Live(s, j) { assert LiveIsCurrent(s, i) && LiveIsCurrent(s, j); }
    if s.mounted && s.active.Held? { assert LiveIsCurrent(s, s.active.id); }
  }

  /** A superseded completion changes nothing that is shown, whatever its outcome; the live one
      reports its outcome and frees the panel. */
  lemma EveryCompletion(events: seq<Event>, id: nat, outcome: Outcome)
    requires id in Run(INITIAL, events).pending
    ensures var s, t := Run(INITIAL, events), Step(Run(INITIAL, events), Finish(id, outcome));
      && (!Live(s, id) ==> t == s.(pending := s.pending - {id}))
      && (Live(s, id) ==> !t.busy && t.active.NoController? && t.error == !outcome.Success?)
      && (Live(s, id) && outcome.Success? ==>
            t.result.Shown? && t.result.recording == outcome.recording && t.result.origin == id)
      && (Live(s, id) && !outcome.Success? ==> t.result.Nothing? && t.message.Refused?)
  {
    RunKeeps(events);
    var s := Run(INITIAL, events);
    hide Run, Take;
    FinishKeeps(s, id, outcome);
    if Live(s, id) { assert LiveIsCurrent(s, id); }
  }

  predicate AllFinish(events: seq<Event>) { forall i :: 0 <= i < |events| ==> events[i].Finish? }

  lemma {:induction false} NothingComesBack(s: State, events: seq<Event>)
    requires Inv(s) && (forall id: nat :: !Live(s, id)) && AllFinish(events)
    ensures Inv(Run(s, events)) && forall id: nat :: !Live(Run(s, events), id)
    ensures Run(s, events) == s.(pending := Run(s, events).pending)
  {
    if events != [] {
      var init, e := events[..|events| - 1], events[|events| - 1];
      NothingComesBack(s, init);
      var r := Run(s, init);
      hide Inv, Run;
      StepKeeps(r, e);
      if e.id in r.pending && e.id < |r.started| {
        FinishKeeps(r, e.id, e.outcome);
        assert !Live(r, e.id);
        forall id: nat ensures !Live(Step(r, e), id) { assert !Live(r, id); }
      }
    }
  }

  /** After a choice, a cancel, a reset or an unmount, no completion of earlier imports, in any
      number or order, shows anything. */
  lemma ClearedStaysCleared(before: seq<Event>, e: Event, after: seq<Event>)
    requires Run(INITIAL, before).mounted
    requires e.Choose? || e.Cancel? || e.Reset? || e.Unmount?
    requires AllFinish(after)
    ensures var s := Step(Run(INITIAL, before), e);
      && Run(s, after) == s.(pending := Run(s, after).pending)
      && (!e.Unmount? ==> s.result.Nothing? && !s.busy && !s.error)
  {
    RunKeeps(before);
    var s := Run(INITIAL, before);
    StepKeeps(s, e);
    ClearKeeps(s, Step(s, e).files, Step(s, e).message);
    UnmountKeeps(s);
    hide Run, Inv;
    var t := Step(s, e);
    forall id: nat ensures !Live(t, id) { assert !Live(ClearPending(s), id); assert !Live(Step(s, Unmount), id); }
    NothingComesBack(t, after);
  }

  // ---- The panel ----

  class Panel {
    var mounted: bool
    var generation: nat
    var active: Controller
    var files: (Choice, Choice)
    var result: Result
    var busy: bool
    var error: bool
    var message: Message
    var started: seq<(File, File)>
    var pending: map<nat, nat>
    var aborted: set<nat>

    function View(): State
      reads this
    { State(mounted, generation, active, files, result, busy, error, message, started, pending, aborted) }

    constructor ()
      ensures View() == INITIAL
    {
      mounted, generation, active, files, result := true, 0, NoController, (NoFile, NoFile), Nothing;
      busy, error, message, started, pending, aborted := false, false, Untouched, [], map[], {};
    }

    method Clear()
      modifies this
      ensures View() == ClearPending(old(View()))
      ensures generation == old(generation) + 1 && active.NoController? && result.Nothing? && !busy && !error
      ensures aborted == old(aborted) + if old(active).Held? then {old(active).id} else {}
      ensures mounted == old(mounted) && files == old(files) && message == old(message)
      ensures started == old(started) && pending == old(pending)
    {
      generation := generation + 1;
      if active.Held? { aborted := aborted + {active.id}; }
      active := NoController;
      busy, result, error := false, Nothing, false;
    }

    method Pick(first: bool, choice: Choice)
      requires mounted
      modifies this
      ensures View() == Step(old(View()), Choose(first, choice))
      ensures files.0 == (if first then choice else old(files).0) && files.1 == if first then old(files).1 else choice
      ensures generation == old(generation) + 1 && active.NoController? && result.Nothing? && !busy && !error
      ensures aborted == old(aborted) + if old(active).Held? then {old(active).id} else {}
      ensures started == old(started) && pending == old(pending) && mounted && message.SelectionChanged?
    {
      Clear();
      files := if first then (choice, files.1) else (files.0, choice);
      message := SelectionChanged;
    }

    method CancelImport()
      requires mounted
      modifies this
      ensures View() == Step(old(View()), Cancel)
      ensures generation == old(generation) + 1 && active.NoController? && result.Nothing? && !busy && !error
      ensures aborted == old(aborted) + if old(active).Held? then {old(active).id} else {}
      ensures files == old(files) && started == old(started) && pending == old(pending) && mounted && message.Cancelled?
    {
      Clear();
      message := Cancelled;
    }

    method ResetAll()
      requires mounted
      modifies this
      ensures View() == Step(old(View()), Reset)
      ensures generation == old(generation) + 1 && active.NoController? && result.Nothing? && !busy && !error
      ensures aborted == old(aborted) + if old(active).Held? then {old(active).id} else {}
      ensures files == (NoFile, NoFile) && started == old(started) && pending == old(pending)
      ensures mounted && message.ResetDone?
    {
      Clear();
      files := (NoFile, NoFile);
      message := ResetDone;
    }

    /** Up to the first await; the controller, ticket and files are the import's own. */
    method Begin()
      requires mounted
      modifies this
      ensures View() == Step(old(View()), Start)
      ensures old(files).0.NoFile? || old(files).1.NoFile? ==> View() == old(View())
      ensures old(files).0.Chosen? && old(files).1.Chosen? ==>
        && started == old(started) + [(old(files).0.file, old(files).1.file)]
        && generation == old(generation) + 1 && pending == old(pending)[|old(started)| := generation]
        && active == Held(|old(started)|) && busy && message.Reading? && result.Nothing? && !error
        && aborted == old(aborted) + (if old(active).Held? then {old(active).id} else {})
        && files == old(files) && mounted
    {
      if !files.0.Chosen? || !files.1.Chosen? { return; }
      Clear();
      var selected, id, ticket := (files.0.file, files.1.file), |started|, generation;
      active := Held(id);
      busy, message := true, Reading;
      started, pending := started + [selected], pending[id := ticket];
    }

    /** After the last await, with its outcome. */
    method Complete(id: nat, outcome: Outcome)
      requires id in pending && id < |started|
      modifies this
      ensures View() == Step(old(View()), Finish(id, outcome))
    {
      hide Take;
      var ticket, selected := pending[id], started[id];
      pending := pending - {id};
      if id !in aborted && ticket == generation {
        match outcome {
          case Success(recording) =>
            result := Shown(recording, (Take(selected.0.name, 120), Take(selected.1.name, 120)), id);
            message := Imported;
          case Refusal(reason) =>
            error, message := true, Refused(Take(reason, 384));
          case OtherFailure =>
            error, message := true, Refused("Unsupported recording.");
        }
      }
      if ticket == generation {
        active := NoController;
        busy := false;
      }
    }

    method Dispose()
      requires mounted
      modifies this
      ensures View() == Step(old(View()), Unmount)
      ensures !mounted && generation == old(generation) + 1
      ensures aborted == old(aborted) + if old(active).Held? then {old(active).id} else {}
      ensures files == old(files) && result == old(result) && busy == old(busy) && error == old(error)
      ensures message == old(message) && started == old(started) && pending == old(pending) && active == old(active)
    {
      mounted := false;
      generation := generation + 1;
      if active.Held? { aborted := aborted + {active.id}; }
    }
  }
}
