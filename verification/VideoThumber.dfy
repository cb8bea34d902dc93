/** The five-state machine of the specialised video thumbnailer, as functions on
    a value of its fields, and what every run of it guarantees. */
module VideoThumberSpec {
  import opened Common

  datatype ThumberState = Null | PendingStop | Stopped | Paused | Working

  /** `files` is the list as stored: each URI was prepended. */
  datatype Task = Task(id: nat, files: seq<string>)

  datatype Signal = Started(id: nat) | Ready(uri: string) | Error(uri: string, code: nat) | Finished(id: nat)

  /** What running the pipeline on one file answers: success, failure with an error set, or without. */
  datatype PipeResult = PipeOk | PipeError | PipeUndefined

  /** Playback states of libplayback. */
  datatype Pb = Play | Stop | Other

  /** `playback` is the HAVE_PLAYBACK build switch. */
  datatype Config = Config(playback: bool, quitTimeout: int)

  /** The fields of the thumbnailer; `idle` and `timer` say that the source id is not 0.
      `asked`, `trace` and `submitted` record the playback states asked for, the signals sent and the
      tasks accepted so far. */
  datatype Snapshot = Snapshot(
    state: ThumberState, idle: bool, timer: bool,
    current: Option<Task>, pipe: bool, tasks: seq<Task>, files: seq<string>,
    idCounter: nat, quit: bool, asked: seq<Pb>, trace: seq<Signal>, submitted: seq<Task>)

  const INIT := Snapshot(Null, false, false, None, false, [], [], 0, false, [], [], [])

  function SetState(cfg: Config, s: Snapshot, state: ThumberState): Snapshot {
    match state
    case Working => s.(state := state, idle := true, timer := false)
    case Paused => s.(state := state, idle := false, timer := false)
    case PendingStop => s.(state := state, idle := false, timer := s.timer || cfg.quitTimeout >= 0)
    case Stopped => s.(state := state, idle := false, timer := true)
    case Null => s.(state := state)
  }

  function RequestResources(cfg: Config, s: Snapshot): Snapshot {
    if s.state == Working then s
    else if cfg.playback then SetState(cfg, s.(asked := s.asked + [Play]), Paused)
    else SetState(cfg, s, Working)
  }

  function ReleaseResources(cfg: Config, s: Snapshot): Snapshot {
    if s.state == Stopped then s
    else if cfg.playback then SetState(cfg, s.(asked := s.asked + [Stop]), PendingStop)
    else SetState(cfg, s, Stopped)
  }

  function NonEmpty(uris: seq<string>): seq<string> {
    if uris == [] then []
    else (if uris[0] == "" then [] else [uris[0]]) + NonEmpty(uris[1..])
  }

  /** The k-th task ever created (from 0), for the given URIs. */
  function MakeTask(k: nat, uris: seq<string>): Task {
    Task((k + 1) % UINT_MODULUS, Reverse(NonEmpty(uris)))
  }

  function AddTask(s: Snapshot, uris: seq<string>): Snapshot {
    var id := (s.idCounter + 1) % UINT_MODULUS;
    var task := Task(id, Reverse(NonEmpty(uris)));
    s.(idCounter := id, tasks := s.tasks + [task], submitted := s.submitted + [task])
  }

  function CreateMany(cfg: Config, s: Snapshot, uris: seq<string>): Snapshot {
    RequestResources(cfg, AddTask(s, uris))
  }

  function Outcome(uri: string, r: PipeResult): Signal {
    match r
    case PipeOk => Ready(uri)
    case PipeError => Error(uri, 1)
    case PipeUndefined => Error(uri, 0)
  }

  function FinishCurrent(s: Snapshot): Snapshot {
    if s.current.None? then s
    else s.(current := None, trace := s.trace + [Finished(s.current.value.id)])
  }

  function StartNext(s: Snapshot): Snapshot
    requires s.tasks != []
  {
    var task := s.tasks[0];
    s.(tasks := s.tasks[1..], pipe := true, files := s.files + task.files,
       current := Some(task), trace := s.trace + [Started(task.id)])
  }

  /** One call of the idle callback; the flag is its return value. */
  function Process(cfg: Config, s: Snapshot, r: PipeResult): (Snapshot, bool) {
    if s.pipe && s.files != [] then
      (s.(files := s.files[1..], trace := s.trace + [Outcome(s.files[0], r)]), true)
    else
      var s1 := FinishCurrent(s);
      if s1.tasks != [] then (StartNext(s1), true)
      else (ReleaseResources(cfg, s1.(pipe := false)).(idle := false), false)
  }

  function StateHint(cfg: Config, s: Snapshot, mayStop: bool, mayPlay: bool): Snapshot {
    match s.state
    case PendingStop => if mayStop then ReleaseResources(cfg, s) else s
    case Paused => if mayPlay then RequestResources(cfg, s) else s
    case _ => s
  }

  function StateRequest(cfg: Config, s: Snapshot, want: Pb): Snapshot {
    if want == Play && s.state == Paused then SetState(cfg, s, Working)
    else if want == Stop && s.state == Working then SetState(cfg, s, Paused)
    else s
  }

  function StateReply(cfg: Config, s: Snapshot, granted: Pb): Snapshot {
    if granted == Play && s.state == Paused then SetState(cfg, s, Working)
    else if granted == Stop && s.state == PendingStop then SetState(cfg, s, Stopped)
    else s
  }

  // ---------------------------------------------------------------- runs

  /** Everything the main loop can deliver. Playback events need no matching request:
      late, repeated and unsolicited ones are all allowed. */
  datatype Event =
    | Start
    | Create(uri: string)
    | CreateAll(uris: seq<string>)
    | Idle(result: PipeResult)
    | Hint(mayStop: bool, mayPlay: bool)
    | Request(want: Pb)
    | Reply(granted: Pb)
    | QuitTimer

  predicate Enabled(cfg: Config, s: Snapshot, e: Event) {
    !s.quit &&
    match e
    case Start => s.state == Null
    case Idle(_) => s.idle
    case Hint(_, _) => cfg.playback
    case Request(_) => cfg.playback
    case Reply(_) => cfg.playback
    case QuitTimer => s.timer
    case _ => true
  }

  function Step(cfg: Config, s: Snapshot, e: Event): Snapshot {
    match e
    case Start => SetState(cfg, s, Stopped)
    case Create(uri) => CreateMany(cfg, s, [uri])
    case CreateAll(uris) => CreateMany(cfg, s, uris)
    case Idle(r) => Process(cfg, s, r).0
    case Hint(mayStop, mayPlay) => StateHint(cfg, s, mayStop, mayPlay)
    case Request(want) => StateRequest(cfg, s, want)
    case Reply(granted) => StateReply(cfg, s, granted)
    case QuitTimer => s.(quit := true)
  }

  function Run(cfg: Config, es: seq<Event>): Snapshot {
    if es == [] then INIT else Step(cfg, Run(cfg, es[..|es| - 1]), es[|es| - 1])
  }

  lemma RunAppend(cfg: Config, es: seq<Event>, e: Event)
    requires Legal(cfg, es) && Enabled(cfg, Run(cfg, es), e)
    ensures Legal(cfg, es + [e]) && Run(cfg, es + [e]) == Step(cfg, Run(cfg, es), e)
  {
    assert (es + [e])[..|es|] == es;
  }

  predicate Legal(cfg: Config, es: seq<Event>) {
    es == [] || (Legal(cfg, es[..|es| - 1]) && Enabled(cfg, Run(cfg, es[..|es| - 1]), es[|es| - 1]))
  }

  /** The tasks one event asks for, after `k` earlier ones. */
  function Asks(e: Event, k: nat): seq<Task> {
    match e
    case Create(uri) => [MakeTask(k, [uri])]
    case CreateAll(uris) => [MakeTask(k, uris)]
    case _ => []
  }

  /** The tasks that the D-Bus calls among the events ask for, in call order. */
  function Requested(es: seq<Event>): seq<Task> {
    if es == [] then []
    else
      var before := Requested(es[..|es| - 1]);
      before + Asks(es[|es| - 1], |before|)
  }

  // ---------------------------------------------------------------- the signal language

  /** A signal with the verdict on a file forgotten. */
  datatype Mark = Begin(id: nat) | Handled(uri: string) | End(id: nat)

  function Erase(signal: Signal): Mark {
    match signal
    case Started(id) => Begin(id)
    case Ready(uri) => Handled(uri)
    case Error(uri, _) => Handled(uri)
    case Finished(id) => End(id)
  }

  function EraseAll(trace: seq<Signal>): (r: seq<Mark>)
    ensures |r| == |trace|
    ensures forall i :: 0 <= i < |trace| ==> r[i] == Erase(trace[i])
  {
    seq(|trace|, i requires 0 <= i < |trace| => Erase(trace[i]))
  }

  function HandledAll(uris: seq<string>): (r: seq<Mark>)
    ensures |r| == |uris|
    ensures forall i :: 0 <= i < |uris| ==> r[i] == Handled(uris[i])
  {
    seq(|uris|, i requires 0 <= i < |uris| => Handled(uris[i]))
  }

  function Bracket(task: Task): seq<Mark> {
    [Begin(task.id)] + HandledAll(task.files) + [End(task.id)]
  }

  function Brackets(tasks: seq<Task>): seq<Mark> {
    if tasks == [] then [] else Brackets(tasks[..|tasks| - 1]) + Bracket(tasks[|tasks| - 1])
  }

  /** The marks of a task in progress with `left` files still to do. */
  function OpenBracket(current: Option<Task>, left: nat): seq<Mark>
    requires current.Some? ==> left <= |current.value.files|
  {
    if current.None? then []
    else [Begin(current.value.id)] + HandledAll(current.value.files[..|current.value.files| - left])
  }

  function CurrentSeq(current: Option<Task>): seq<Task> {
    if current.None? then [] else [current.value]
  }

  // ---------------------------------------------------------------- invariant

  predicate ControlInv(cfg: Config, s: Snapshot) {
    && (s.idle <==> s.state == Working)
    && (s.state in {Working, Paused} ==> !s.timer)
    && (s.state == Stopped ==> s.timer)
    && (s.state == PendingStop ==> (s.timer <==> cfg.quitTimeout >= 0))
    && (s.state == Null ==> !s.timer)
    && (!cfg.playback ==> s.state !in {Paused, PendingStop})
    && (s.pipe <==> s.current.Some?)
    && (s.state in {Null, Stopped, PendingStop} ==> s.tasks == [] && s.current.None?)
    && (s.quit ==> s.timer)
  }

  /** `done` closed brackets, then the open one: the file queue is a suffix of the
      current task's files, and the submitted tasks are the done, the current and the waiting. */
  predicate QueueInv(s: Snapshot, done: nat) {
    && done <= |s.submitted|
    && s.submitted == s.submitted[..done] + CurrentSeq(s.current) + s.tasks
    && (s.current.None? ==> s.files == [])
    && (s.current.Some? ==>
          && |s.files| <= |s.current.value.files|
          && s.files == s.current.value.files[|s.current.value.files| - |s.files|..])
    && EraseAll(s.trace) == Brackets(s.submitted[..done]) + OpenBracket(s.current, |s.files|)
  }

  function DoneCount(s: Snapshot): int {
    |s.submitted| - |s.tasks| - (if s.current.Some? then 1 else 0)
  }

  predicate Inv(cfg: Config, s: Snapshot) {
    && ControlInv(cfg, s)
    && DoneCount(s) >= 0
    && QueueInv(s, DoneCount(s))
    && s.idCounter == |s.submitted| % UINT_MODULUS
  }

  lemma EraseAppend(trace: seq<Signal>, x: Signal)
    ensures EraseAll(trace + [x]) == EraseAll(trace) + [Erase(x)]
  {}

  lemma BracketGrows(task: Task, left: nat)
    requires 0 < left <= |task.files|
    ensures OpenBracket(Some(task), left - 1) == OpenBracket(Some(task), left) + [Handled(task.files[|task.files| - left])]
  {
    var k := |task.files| - left;
    assert task.files[..k + 1] == task.files[..k] + [task.files[k]];
    assert HandledAll(task.files[..k + 1]) == HandledAll(task.files[..k]) + [Handled(task.files[k])];
  }

  lemma SuffixOn(all: seq<string>, files: seq<string>)
    requires files != [] && |files| <= |all| && files == all[|all| - |files|..]
    ensures files[0] == all[|all| - |files|] && files[1..] == all[|all| - |files[1..]|..]
  {}

  lemma {:induction false} TakeFileKeeps(s: Snapshot, done: nat, x: Signal)
    requires QueueInv(s, done) && s.current.Some? && s.files != [] && Erase(x) == Handled(s.files[0])
    ensures QueueInv(s.(files := s.files[1..], trace := s.trace + [x]), done)
  {
    EraseAppend(s.trace, x);
    BracketGrows(s.current.value, |s.files|);
    SuffixOn(s.current.value.files, s.files);
    var (a, b) := (Brackets(s.submitted[..done]), OpenBracket(s.current, |s.files|));
    assert (a + b) + [Erase(x)] == a + (b + [Erase(x)]);
  }

  lemma ProcessKeepsFile(cfg: Config, s: Snapshot, r: PipeResult)
    requires Inv(cfg, s) && s.state == Working && s.files != []
    ensures Inv(cfg, Process(cfg, s, r).0)
  {
    TakeFileKeeps(s, DoneCount(s), Outcome(s.files[0], r));
  }

  /** The queues are as they were. */
  lemma SameQueues(s: Snapshot, t: Snapshot)
    requires DoneCount(s) >= 0 && QueueInv(s, DoneCount(s))
    requires t.submitted == s.submitted && t.current == s.current && t.tasks == s.tasks && t.files == s.files && t.trace == s.trace
    ensures DoneCount(t) == DoneCount(s) && QueueInv(t, DoneCount(t))
  {}

  lemma NextDone(submitted: seq<Task>, done: nat, c: Task, tasks: seq<Task>)
    requires done <= |submitted| && submitted == submitted[..done] + [c] + tasks
    ensures done + 1 <= |submitted| && submitted == submitted[..done + 1] + tasks
    ensures Brackets(submitted[..done + 1]) == Brackets(submitted[..done]) + Bracket(c)
  {
    assert submitted[done] == c;
    assert submitted[..done + 1] == submitted[..done] + [c];
    assert (submitted[..done + 1])[..done] == submitted[..done];
  }

  /** Closing the open bracket, if there is one. */
  lemma FinishCloses(s: Snapshot)
    requires DoneCount(s) >= 0 && QueueInv(s, DoneCount(s)) && s.files == []
    ensures var t := FinishCurrent(s); DoneCount(t) >= 0 && QueueInv(t, DoneCount(t))
  {
    if s.current.Some? {
      var c := s.current.value;
      NextDone(s.submitted, DoneCount(s), c, s.tasks);
      EraseAppend(s.trace, Finished(c.id));
      assert c.files[..|c.files|] == c.files;
      assert s.submitted[..DoneCount(s) + 1] + [] == s.submitted[..DoneCount(s) + 1];
      assert OpenBracket(s.current, 0) + [End(c.id)] == Bracket(c);
    }
  }

  lemma StartOpens(s: Snapshot)
    requires DoneCount(s) >= 0 && QueueInv(s, DoneCount(s)) && s.current.None? && s.tasks != []
    ensures var t := StartNext(s); DoneCount(t) == DoneCount(s) && QueueInv(t, DoneCount(t))
  {
    var done, t, task := DoneCount(s), StartNext(s), s.tasks[0];
    EraseAppend(s.trace, Started(task.id));
    assert s.tasks == [task] + s.tasks[1..];
    assert task.files[..0] == [] && HandledAll(task.files[..0]) == [];
    assert t.files == task.files && t.files == t.current.value.files[0..];
    assert EraseAll(t.trace) == Brackets(t.submitted[..done]) + OpenBracket(t.current, |t.files|);
  }

  lemma ProcessControl(cfg: Config, s: Snapshot, r: PipeResult)
    requires ControlInv(cfg, s) && s.state == Working && s.files == []
    ensures ControlInv(cfg, Process(cfg, s, r).0) && Process(cfg, s, r).0.submitted == s.submitted
    ensures Process(cfg, s, r).0.idCounter == s.idCounter
  {}

  lemma ProcessKeepsTask(cfg: Config, s: Snapshot, r: PipeResult)
    requires Inv(cfg, s) && s.state == Working && s.files == []
    ensures Inv(cfg, Process(cfg, s, r).0)
  {
    ProcessControl(cfg, s, r);
    FinishCloses(s);
    if s.tasks != [] {
      StartOpens(FinishCurrent(s));
    } else {
      SameQueues(FinishCurrent(s), Process(cfg, s, r).0);
    }
  }

  lemma RequestKeeps(cfg: Config, s: Snapshot, done: nat)
    requires QueueInv(s, done) && ControlInv(cfg, s.(tasks := [])) && !s.quit
    ensures var t := RequestResources(cfg, s);
      && ControlInv(cfg, t)
      && QueueInv(t, done)
      && DoneCount(t) == DoneCount(s)
      && t.idCounter == s.idCounter && t.submitted == s.submitted
  {}

  lemma OneMoreSubmitted(submitted: seq<Task>, done: nat, current: seq<Task>, tasks: seq<Task>, x: Task)
    requires done <= |submitted| && submitted == submitted[..done] + current + tasks
    ensures (submitted + [x])[..done] == submitted[..done]
    ensures submitted + [x] == submitted[..done] + current + (tasks + [x])
  {}

  lemma {:induction false} AddTaskKeeps(s: Snapshot, done: nat, uris: seq<string>)
    requires QueueInv(s, done) && s.idCounter == |s.submitted| % UINT_MODULUS
    ensures var t := AddTask(s, uris);
      && QueueInv(t, done)
      && DoneCount(t) == DoneCount(s)
      && t.submitted == s.submitted + [MakeTask(|s.submitted|, uris)]
      && t.idCounter == |t.submitted| % UINT_MODULUS
  {
    NextModulo(|s.submitted|);
    OneMoreSubmitted(s.submitted, done, CurrentSeq(s.current), s.tasks, MakeTask(|s.submitted|, uris));
  }

  lemma CreateKeeps(cfg: Config, s: Snapshot, uris: seq<string>)
    requires Inv(cfg, s) && !s.quit
    ensures Inv(cfg, CreateMany(cfg, s, uris))
    ensures CreateMany(cfg, s, uris).submitted == s.submitted + [MakeTask(|s.submitted|, uris)]
  {
    AddTaskKeeps(s, DoneCount(s), uris);
    RequestKeeps(cfg, AddTask(s, uris), DoneCount(s));
  }

  lemma StepKeeps(cfg: Config, s: Snapshot, e: Event)
    requires Inv(cfg, s) && Enabled(cfg, s, e)
    ensures Inv(cfg, Step(cfg, s, e))
  {
    match e
    case Create(uri) => CreateKeeps(cfg, s, [uri]);
    case CreateAll(uris) => CreateKeeps(cfg, s, uris);
    case Idle(r) =>
      if s.files != [] { ProcessKeepsFile(cfg, s, r); } else { ProcessKeepsTask(cfg, s, r); }
    case _ =>
  }

  lemma StepSubmits(cfg: Config, s: Snapshot, e: Event)
    requires Inv(cfg, s) && Enabled(cfg, s, e)
    ensures Step(cfg, s, e).submitted == s.submitted + Asks(e, |s.submitted|)
  {
    match e
    case Create(uri) => CreateKeeps(cfg, s, [uri]);
    case CreateAll(uris) => CreateKeeps(cfg, s, uris);
    case _ =>
  }

  /** The invariant holds after every run, and the tasks accepted are exactly those requested. */
  lemma {:induction false} RunKeepsInv(cfg: Config, es: seq<Event>)
    requires Legal(cfg, es)
    ensures Inv(cfg, Run(cfg, es))
    ensures Run(cfg, es).submitted == Requested(es)
  {
    if es == [] {
      assert EraseAll([]) == [];
    } else {
      var before := es[..|es| - 1];
      RunKeepsInv(cfg, before);
      StepKeeps(cfg, Run(cfg, before), es[|es| - 1]);
      StepSubmits(cfg, Run(cfg, before), es[|es| - 1]);
    }
  }

  // ---------------------------------------------------------------- verdicts

  /** An idle call that finds a file to run the pipeline on. */
  predicate TakesFile(s: Snapshot, e: Event) {
    e.Idle? && s.current.Some? && s.files != []
  }

  /** What is reported of a file, given what the pipeline answered for it. */
  predicate Tells(x: Signal, uri: string, r: PipeResult) {
    && (x == Ready(uri) <==> r == PipeOk)
    && (x == Error(uri, 1) <==> r == PipeError)
    && (x == Error(uri, 0) <==> r == PipeUndefined)
  }

  /** In every legal run an idle call that takes a file reports exactly that file and what the pipeline
      answered for it; no other event reports a file. */
  lemma VerdictIsResult(cfg: Config, es: seq<Event>, e: Event)
    requires Legal(cfg, es) && Enabled(cfg, Run(cfg, es), e)
    ensures var (s, t) := (Run(cfg, es), Run(cfg, es + [e]));
      if TakesFile(s, e) then
        |t.trace| == |s.trace| + 1 && t.trace[..|s.trace|] == s.trace && Tells(t.trace[|s.trace|], s.files[0], e.result)
      else Verdicts(t.trace) == Verdicts(s.trace)
  {
    RunKeepsInv(cfg, es);
    RunAppend(cfg, es, e);
    StepReports(cfg, Run(cfg, es), e);
  }

  /** The Ready and Error signals. */
  function Verdicts(trace: seq<Signal>): seq<Signal> {
    if trace == [] then []
    else
      var x := trace[|trace| - 1];
      Verdicts(trace[..|trace| - 1]) + (if x.Ready? || x.Error? then [x] else [])
  }

  lemma VerdictsAppend(trace: seq<Signal>, x: Signal)
    ensures Verdicts(trace + [x]) == Verdicts(trace) + (if x.Ready? || x.Error? then [x] else [])
  {
    assert (trace + [x])[..|trace|] == trace;
  }

  lemma BracketsReportNothing(trace: seq<Signal>, id: nat)
    ensures Verdicts(trace + [Started(id)]) == Verdicts(trace) && Verdicts(trace + [Finished(id)]) == Verdicts(trace)
  {
    VerdictsAppend(trace, Started(id));
    VerdictsAppend(trace, Finished(id));
  }

  lemma ProcessReports(cfg: Config, s: Snapshot, r: PipeResult)
    requires Inv(cfg, s) && !(s.pipe && s.files != [])
    ensures Verdicts(Process(cfg, s, r).0.trace) == Verdicts(s.trace)
  {
    if s.current.Some? { BracketsReportNothing(s.trace, s.current.value.id); }
    if s.tasks != [] { BracketsReportNothing(FinishCurrent(s).trace, s.tasks[0].id); }
  }

  lemma StepReports(cfg: Config, s: Snapshot, e: Event)
    requires Inv(cfg, s) && Enabled(cfg, s, e)
    ensures var t := Step(cfg, s, e);
      if TakesFile(s, e) then
        |t.trace| == |s.trace| + 1 && t.trace[..|s.trace|] == s.trace && Tells(t.trace[|s.trace|], s.files[0], e.result)
      else Verdicts(t.trace) == Verdicts(s.trace)
  {
    if e.Idle? && !TakesFile(s, e) {
      ProcessReports(cfg, s, e.result);
    }
  }

  /** What the pipeline answered in the idle calls that took a file, in order. */
  function Results(cfg: Config, es: seq<Event>): seq<PipeResult> {
    if es == [] then []
    else
      var before, e := es[..|es| - 1], es[|es| - 1];
      Results(cfg, before) + (if TakesFile(Run(cfg, before), e) then [e.result] else [])
  }

  /** The n-th report carries the n-th answer of the pipeline. */
  predicate Reported(v: seq<Signal>, results: seq<PipeResult>) {
    |v| == |results| &&
    forall n :: 0 <= n < |v| ==> (v[n].Ready? || v[n].Error?) && Tells(v[n], v[n].uri, results[n])
  }

  lemma {:induction false} ReportsAreAnswers(cfg: Config, es: seq<Event>)
    requires Legal(cfg, es)
    ensures Reported(Verdicts(Run(cfg, es).trace), Results(cfg, es))
  {
    if es != [] {
      var before, e := es[..|es| - 1], es[|es| - 1];
      assert es == before + [e];
      ReportsAreAnswers(cfg, before);
      VerdictIsResult(cfg, before, e);
      if TakesFile(Run(cfg, before), e) {
        var (s, t) := (Run(cfg, before), Run(cfg, es));
        VerdictsAppend(s.trace, t.trace[|s.trace|]);
        assert t.trace == s.trace + [t.trace[|s.trace|]];
      }
    }
  }

  // ---------------------------------------------------------------- main results

  /** Whatever pauses, resumptions and repeated playback replies interleave, the signals
      parse as closed brackets of the first tasks in request order, then at most one open one; and the
      n-th file reported has the verdict of the n-th idle call that took a file. */
  lemma TraceServesInOrder(cfg: Config, es: seq<Event>)
    requires Legal(cfg, es)
    ensures var s := Run(cfg, es); var wanted := Requested(es);
      exists done, left ::
        && 0 <= done <= |wanted|
        && (s.current.Some? ==> done < |wanted| && s.current.value == wanted[done])
        && (s.current.Some? ==> 0 <= left <= |s.current.value.files|)
        && left >= 0
        && EraseAll(s.trace) == Brackets(wanted[..done]) + OpenBracket(s.current, left)
    ensures Reported(Verdicts(Run(cfg, es).trace), Results(cfg, es))
  {
    RunKeepsInv(cfg, es);
    ReportsAreAnswers(cfg, es);
    var s := Run(cfg, es);
    assert s.current.Some? ==> s.submitted[DoneCount(s)] == s.current.value;
    assert EraseAll(s.trace) == Brackets(Requested(es)[..DoneCount(s)]) + OpenBracket(s.current, |s.files|);
  }

  /** How many of the URIs are not empty. */
  function Filled(uris: seq<string>): nat {
    if uris == [] then 0 else Filled(uris[..|uris| - 1]) + (if uris[|uris| - 1] == "" then 0 else 1)
  }

  lemma {:induction false} FilledTail(uris: seq<string>, j: nat)
    requires j < |uris|
    ensures Filled(uris[..j + 1]) == (if uris[0] == "" then 0 else 1) + Filled(uris[1..][..j])
  {
    if j == 0 {
      assert uris[..1] == [uris[0]] && uris[1..][..0] == [] && [uris[0]][..0] == [];
    } else {
      FilledTail(uris, j - 1);
      assert uris[..j + 1][..j] == uris[..j] && uris[1..][..j][..j - 1] == uris[1..][..j - 1];
    }
  }

  lemma {:induction false} NonEmptyAt(uris: seq<string>, j: nat)
    requires j < |uris| && uris[j] != ""
    ensures Filled(uris[..j]) < |NonEmpty(uris)| && NonEmpty(uris)[Filled(uris[..j])] == uris[j]
  {
    if j == 0 {
      assert uris[..0] == [];
    } else {
      NonEmptyAt(uris[1..], j - 1);
      FilledTail(uris, j - 1);
    }
  }

  lemma {:induction false} NonEmptyCount(uris: seq<string>)
    ensures |NonEmpty(uris)| == Filled(uris) && "" !in NonEmpty(uris)
  {
    if uris != [] {
      NonEmptyCount(uris[1..]);
      FilledTail(uris, |uris| - 1);
      assert uris[..|uris|] == uris && uris[1..][..|uris| - 1] == uris[1..];
    }
  }

  /** A task has as many files as it was given non-empty URIs, none of them empty; the k-th task has id
      k + 1 as an unsigned 32-bit number. */
  lemma TaskCounts(k: nat, uris: seq<string>)
    ensures var t := MakeTask(k, uris); t.id == (k + 1) % 0x1_0000_0000 && |t.files| == Filled(uris)
    ensures forall i :: 0 <= i < |MakeTask(k, uris).files| ==> MakeTask(k, uris).files[i] != ""
  {
    var kept := NonEmpty(uris);
    NonEmptyCount(uris);
    forall i | 0 <= i < |kept| ensures Reverse(kept)[i] != "" {
      ReverseAt(kept, i);
      assert kept[|kept| - 1 - i] in kept;
    }
  }

  /** Each non-empty URI is in its task, the last one first. */
  lemma TaskHoldsUri(k: nat, uris: seq<string>, j: nat)
    requires j < |uris| && uris[j] != ""
    ensures var f := MakeTask(k, uris).files; Filled(uris[..j]) < |f| && f[|f| - 1 - Filled(uris[..j])] == uris[j]
  {
    var kept := NonEmpty(uris);
    NonEmptyAt(uris, j);
    ReverseAt(kept, |kept| - 1 - Filled(uris[..j]));
  }

  // ---------------------------------------------------------------- playback

  /** Where each event leads from each state, the build switch and the calls left. */
  lemma NextState(cfg: Config, s: Snapshot, e: Event)
    requires Inv(cfg, s) && Enabled(cfg, s, e)
    ensures Step(cfg, s, e).state == match e
      case Start => Stopped
      case Create(_) => if cfg.playback && s.state != Working then Paused else Working
      case CreateAll(_) => if cfg.playback && s.state != Working then Paused else Working
      case Idle(_) => if CallsLeft(s) > 1 then Working else if cfg.playback then PendingStop else Stopped
      case Hint(_, _) => s.state
      case Request(want) => if want == Play && s.state == Paused then Working else if want == Stop && s.state == Working then Paused else s.state
      case Reply(granted) => if granted == Play && s.state == Paused then Working else if granted == Stop && s.state == PendingStop then Stopped else s.state
      case QuitTimer => s.state
    ensures Step(cfg, s, e).quit <==> s.quit || e == QuitTimer
  {
    if e.Idle? {
      IdleCallCounts(cfg, s, e.result);
    }
  }

  /** What each event asks of the playback arbiter. */
  lemma NextAsked(cfg: Config, s: Snapshot, e: Event)
    requires Inv(cfg, s) && Enabled(cfg, s, e)
    ensures Step(cfg, s, e).asked == s.asked +
      if cfg.playback && (e.Create? || e.CreateAll?) && s.state != Working then [Play]
      else if e.Hint? && e.mayPlay && s.state == Paused then [Play]
      else if e.Hint? && e.mayStop && s.state == PendingStop then [Stop]
      else if cfg.playback && e.Idle? && CallsLeft(s) == 1 then [Stop]
      else []
  {}

  /** The last thing asked is what the state waits for or runs on. */
  predicate AskedFor(s: Snapshot) {
    && (s.state in {Paused, Working} ==> s.asked != [] && s.asked[|s.asked| - 1] == Play)
    && (s.state == PendingStop ==> s.asked != [] && s.asked[|s.asked| - 1] == Stop)
    && (s.state == Stopped && s.asked != [] ==> s.asked[|s.asked| - 1] == Stop)
  }

  /** With arbitration, no work is done and no rest taken that was not asked for. */
  lemma {:induction false} AsksBeforeWaiting(cfg: Config, es: seq<Event>)
    requires Legal(cfg, es) && cfg.playback
    ensures AskedFor(Run(cfg, es)) && (Run(cfg, es).state == Null ==> Run(cfg, es).asked == [])
  {
    if es != [] {
      var before, e := es[..|es| - 1], es[|es| - 1];
      AsksBeforeWaiting(cfg, before);
      RunKeepsInv(cfg, before);
      NextState(cfg, Run(cfg, before), e);
      NextAsked(cfg, Run(cfg, before), e);
    }
  }

  /** Event j is a grant of play that ends a pause, and work has not been interrupted since. */
  ghost predicate GrantedAt(cfg: Config, es: seq<Event>, j: nat) {
    && j < |es| && (es[j] == Reply(Play) || es[j] == Request(Play)) && Run(cfg, es[..j]).state == Paused
    && forall k :: j < k <= |es| ==> Run(cfg, es[..k]).state == Working
  }

  lemma EntersWork(cfg: Config, s: Snapshot, e: Event)
    requires Inv(cfg, s) && Enabled(cfg, s, e) && cfg.playback && s.state != Working && Step(cfg, s, e).state == Working
    ensures s.state == Paused && (e == Reply(Play) || e == Request(Play))
  {
    NextState(cfg, s, e);
  }

  lemma {:induction false} GrantLasts(cfg: Config, es: seq<Event>, e: Event, j: nat)
    requires GrantedAt(cfg, es, j) && Run(cfg, es + [e]).state == Working
    ensures GrantedAt(cfg, es + [e], j)
  {
    var all := es + [e];
    assert all[..j] == es[..j] && all[..|all|] == all;
    forall k | j < k <= |all| ensures Run(cfg, all[..k]).state == Working {
      if k <= |es| { assert all[..k] == es[..k]; }
    }
  }

  /** With arbitration the thumbnailer works only on a grant. */
  lemma {:induction false} WorksOnlyIfGranted(cfg: Config, es: seq<Event>) returns (j: nat)
    requires Legal(cfg, es) && cfg.playback && Run(cfg, es).state == Working
    ensures GrantedAt(cfg, es, j)
  {
    var before, e := es[..|es| - 1], es[|es| - 1];
    assert es == before + [e];
    RunKeepsInv(cfg, before);
    if Run(cfg, before).state == Working {
      j := WorksOnlyIfGranted(cfg, before);
      GrantLasts(cfg, before, e, j);
    } else {
      EntersWork(cfg, Run(cfg, before), e);
      j := |before|;
      assert es[..j] == before && es[..|es|] == es;
    }
  }

  /** The process quits exactly by its timer. */
  lemma {:induction false} QuitsByTimer(cfg: Config, es: seq<Event>)
    requires Legal(cfg, es)
    ensures Run(cfg, es).quit <==> QuitTimer in es
  {
    if es != [] {
      var before, e := es[..|es| - 1], es[|es| - 1];
      assert es == before + [e];
      QuitsByTimer(cfg, before);
      RunKeepsInv(cfg, before);
      NextState(cfg, Run(cfg, before), e);
    }
  }

  // ---------------------------------------------------------------- quitting

  /** The quit timer is armed, and the process quits, only when every requested task was
      served completely. */
  lemma TimerOnlyWhenAllServed(cfg: Config, es: seq<Event>)
    requires Legal(cfg, es) && (Run(cfg, es).timer || Run(cfg, es).quit)
    ensures EraseAll(Run(cfg, es).trace) == Brackets(Requested(es))
    ensures Run(cfg, es).tasks == [] && Run(cfg, es).files == [] && !Run(cfg, es).pipe && !Run(cfg, es).idle
  {
    RunKeepsInv(cfg, es);
    var s := Run(cfg, es);
    assert s.submitted[..DoneCount(s)] == s.submitted;
  }

  /** Identifiers of requested tasks count up from 1, so they increase as long as the
      32-bit counter has not wrapped. */
  lemma {:induction false} IdsIncrease(es: seq<Event>, i: nat, j: nat)
    requires i < j < |Requested(es)|
    ensures Requested(es)[i].id == (i + 1) % UINT_MODULUS
    ensures Requested(es)[j].id == (j + 1) % UINT_MODULUS
    ensures |Requested(es)| < UINT_MODULUS ==> Requested(es)[i].id < Requested(es)[j].id
  {
    IdAt(es, i);
    IdAt(es, j);
  }

  lemma {:induction false} IdAt(es: seq<Event>, i: nat)
    requires i < |Requested(es)|
    ensures Requested(es)[i].id == (i + 1) % UINT_MODULUS
  {
    var before := es[..|es| - 1];
    if i < |Requested(before)| {
      IdAt(before, i);
    }
  }

  // ---------------------------------------------------------------- termination

  function Work(tasks: seq<Task>): nat {
    if tasks == [] then 0 else |tasks[0].files| + 1 + Work(tasks[1..])
  }

  /** Idle calls until the thumbnailer stops, when nothing else happens. */
  function CallsLeft(s: Snapshot): nat {
    |s.files| + Work(s.tasks) + 1
  }

  function Measure(s: Snapshot): nat {
    Work(s.tasks) + |s.tasks| + (if s.current.Some? then |s.files| + 1 else 0)
  }

  /** Every idle call that asks to be called again lowers the measure and takes exactly one
      call off the count; it returns false exactly when one call was left. */
  lemma IdleCallCounts(cfg: Config, s: Snapshot, r: PipeResult)
    requires Inv(cfg, s) && s.state == Working
    ensures var (t, again) := Process(cfg, s, r);
      && (again <==> CallsLeft(s) > 1)
      && (again <==> t.state == Working)
      && (again ==> CallsLeft(t) == CallsLeft(s) - 1 && Measure(t) < Measure(s))
      && (!again ==> t.state == (if cfg.playback then PendingStop else Stopped))
      && t.submitted == s.submitted
  {}

  function Idles(cfg: Config, s: Snapshot, rs: seq<PipeResult>): Snapshot
    decreases |rs|
  {
    if rs == [] then s else Idles(cfg, Process(cfg, s, rs[0]).0, rs[1..])
  }

  /** Left alone, a working thumbnailer stops after exactly `CallsLeft` idle calls, whatever the
      pipeline answers, with every submitted task served. */
  lemma {:induction false} StopsAfterExactly(cfg: Config, s: Snapshot, rs: seq<PipeResult>)
    requires Inv(cfg, s) && s.state == Working && !s.quit
    requires |rs| <= CallsLeft(s)
    ensures Inv(cfg, Idles(cfg, s, rs))
    ensures Idles(cfg, s, rs).state == Working <==> |rs| < CallsLeft(s)
    ensures |rs| == CallsLeft(s) ==> EraseAll(Idles(cfg, s, rs).trace) == Brackets(s.submitted)
    decreases |rs|
  {
    if rs != [] {
      IdleCallCounts(cfg, s, rs[0]);
      StepKeeps(cfg, s, Idle(rs[0]));
      var t := Process(cfg, s, rs[0]).0;
      if CallsLeft(s) > 1 {
        StopsAfterExactly(cfg, t, rs[1..]);
      } else {
        assert Idles(cfg, s, rs) == t;
        assert t.submitted[..DoneCount(t)] == t.submitted;
      }
    }
  }

  /** Work interrupted and granted again, by a reply or a request, goes on exactly where it was. */
  lemma ResumesWhereItWas(cfg: Config, s: Snapshot, mayStop: bool)
    requires Inv(cfg, s) && s.state == Working && cfg.playback
    ensures var paused := StateRequest(cfg, s, Stop);
      && paused.state == Paused && !paused.idle
      && StateReply(cfg, paused, Play) == s && StateRequest(cfg, paused, Play) == s
      && StateReply(cfg, StateHint(cfg, paused, mayStop, true), Play) == s.(asked := s.asked + [Play])
  {}

  /** The last counted call leaves it stopping or stopped. */
  lemma {:induction false} StopStops(cfg: Config, s: Snapshot, rs: seq<PipeResult>)
    requires Inv(cfg, s) && s.state == Working && !s.quit && |rs| == CallsLeft(s)
    ensures Idles(cfg, s, rs).state == if cfg.playback then PendingStop else Stopped
    ensures Inv(cfg, Idles(cfg, s, rs))
    decreases |rs|
  {
    IdleCallCounts(cfg, s, rs[0]);
    StepKeeps(cfg, s, Idle(rs[0]));
    if CallsLeft(s) > 1 {
      StopStops(cfg, Process(cfg, s, rs[0]).0, rs[1..]);
    }
  }

  function Granted(cfg: Config, s: Snapshot, uris: seq<string>): Snapshot {
    StateReply(cfg, CreateMany(cfg, s, uris), Play)
  }

  lemma GrantedWorks(cfg: Config, s: Snapshot, uris: seq<string>)
    requires Inv(cfg, s) && !s.quit
    ensures var t := Granted(cfg, s, uris);
      Inv(cfg, t) && t.state == Working && !t.quit && t.submitted == s.submitted + [MakeTask(|s.submitted|, uris)]
  {
    CreateKeeps(cfg, s, uris);
    GrantKeeps(cfg, CreateMany(cfg, s, uris));
  }

  lemma GrantKeeps(cfg: Config, s: Snapshot)
    requires Inv(cfg, s) && !s.quit && s.state == if cfg.playback && s.state != Working then Paused else Working
    ensures var t := StateReply(cfg, s, Play);
      Inv(cfg, t) && t.state == Working && !t.quit && t.submitted == s.submitted
  {
    SameQueues(s, StateReply(cfg, s, Play));
  }

  lemma StopConfirmed(cfg: Config, s: Snapshot)
    requires Inv(cfg, s) && s.state in {PendingStop, Stopped}
    ensures StateReply(cfg, s, Stop).state == Stopped && StateReply(cfg, s, Stop).timer
  {}

  /** Whatever state a request finds it in, once play is granted the counted idle calls serve everything
      asked for so far, and the confirmed stop arms the quit timer. */
  lemma {:induction false} GrantedWorkIsServed(cfg: Config, s: Snapshot, uris: seq<string>, rs: seq<PipeResult>)
    requires Inv(cfg, s) && !s.quit && |rs| == CallsLeft(Granted(cfg, s, uris))
    ensures var t := Idles(cfg, Granted(cfg, s, uris), rs);
      && EraseAll(t.trace) == Brackets(s.submitted + [MakeTask(|s.submitted|, uris)])
      && StateReply(cfg, t, Stop).state == Stopped && StateReply(cfg, t, Stop).timer
  {
    var t := Granted(cfg, s, uris);
    GrantedWorks(cfg, s, uris);
    StopsAfterExactly(cfg, t, rs);
    StopStops(cfg, t, rs);
    StopConfirmed(cfg, Idles(cfg, t, rs));
  }

  function TotalFiles(tasks: seq<Task>): nat {
    if tasks == [] then 0 else |tasks[0].files| + TotalFiles(tasks[1..])
  }

  /** From idle, n tasks with F files in all take F + n + 1 calls. */
  lemma {:induction false} CallsFromIdle(s: Snapshot)
    requires s.current.None? && s.files == []
    ensures CallsLeft(s) == TotalFiles(s.tasks) + |s.tasks| + 1
  {
    WorkIs(s.tasks);
  }

  lemma {:induction false} WorkIs(tasks: seq<Task>)
    ensures Work(tasks) == TotalFiles(tasks) + |tasks|
  {
    if tasks != [] {
      WorkIs(tasks[1..]);
    }
  }
}

/** The thumbnailer object whose callbacks update its fields in place. */
module VideoThumber {
  import opened Common
  import S = VideoThumberSpec

  /** Prepends each non-empty URI to the task's file list. */
  method TaskInfoAddUris(files0: seq<string>, uris: seq<string>) returns (files: seq<string>)
    ensures files == Reverse(S.NonEmpty(uris)) + files0
  {
    files := files0;
    var i := 0;
    while i < |uris|
      invariant 0 <= i <= |uris|
      invariant Reverse(S.NonEmpty(uris)) + files0 == Reverse(S.NonEmpty(uris[i..])) + files
    {
      ghost var rest := S.NonEmpty(uris[i + 1..]);
      assert uris[i..][1..] == uris[i + 1..];
      if uris[i] != "" {
        assert S.NonEmpty(uris[i..]) == [uris[i]] + rest;
        assert Reverse([uris[i]] + rest) == Reverse(rest) + [uris[i]];
        files := [uris[i]] + files;
      } else {
        assert S.NonEmpty(uris[i..]) == rest;
      }
      i := i + 1;
    }
  }

  class Thumber {
    const cfg: S.Config
    var state: S.ThumberState
    var idleId: bool
    var quitTimeoutId: bool
    var currentTask: Option<S.Task>
    var taskQueue: seq<S.Task>
    var fileQueue: seq<string>
    var pipe: bool
    var idCounter: nat
    var quit: bool
    ghost var asked: seq<S.Pb>
    ghost var trace: seq<S.Signal>
    ghost var submitted: seq<S.Task>
    /** Everything that has happened to this object. */
    ghost var events: seq<S.Event>

    ghost function Model(): S.Snapshot
      reads this
    {
      S.Snapshot(state, idleId, quitTimeoutId, currentTask, pipe, taskQueue, fileQueue,
                 idCounter, quit, asked, trace, submitted)
    }

    /** The object is where its history leads, so what holds of all runs holds of it. */
    ghost predicate Valid()
      reads this
    {
      S.Legal(cfg, events) && Model() == S.Run(cfg, events)
    }

    /** The object has just taken the step `e` of its history. */
    ghost method Record(before: S.Snapshot, e: S.Event)
      requires S.Legal(cfg, events) && before == S.Run(cfg, events) && S.Enabled(cfg, before, e)
      requires Model() == S.Step(cfg, before, e)
      modifies this`events
      ensures Valid() && events == old(events) + [e]
    {
      S.RunAppend(cfg, events, e);
      events := events + [e];
    }

    constructor (cfg: S.Config)
      ensures this.cfg == cfg && Valid() && events == [] && Model() == S.INIT
    {
      events := [];
      this.cfg := cfg;
      state, idleId, quitTimeoutId := S.Null, false, false;
      currentTask, taskQueue, fileQueue, pipe := None, [], [], false;
      idCounter, quit, asked, trace, submitted := 0, false, [], [], [];
    }

    method SetState(newState: S.ThumberState)
      modifies this
      ensures Model() == S.SetState(cfg, old(Model()), newState)
      ensures events == old(events)
    {
      match newState {
      case Working =>
        if !idleId { idleId := true; }
        if quitTimeoutId { quitTimeoutId := false; }
      case Paused =>
        if idleId { idleId := false; }
        if quitTimeoutId { quitTimeoutId := false; }
      case PendingStop =>
        if idleId { idleId := false; }
        if !quitTimeoutId {
          if cfg.quitTimeout >= 0 { quitTimeoutId := true; }
        }
      case Stopped =>
        if idleId { idleId := false; }
        if !quitTimeoutId { quitTimeoutId := true; }
      case Null =>
      }
      state := newState;
    }

    method RequestResources()
      modifies this
      ensures Model() == S.RequestResources(cfg, old(Model()))
      ensures events == old(events)
    {
      if state != S.Working {
        if cfg.playback {
          asked := asked + [S.Play];
          SetState(S.Paused);
        } else {
          SetState(S.Working);
        }
      }
    }

    method ReleaseResources()
      modifies this
      ensures Model() == S.ReleaseResources(cfg, old(Model()))
      ensures events == old(events)
    {
      if state != S.Stopped {
        if cfg.playback {
          asked := asked + [S.Stop];
          SetState(S.PendingStop);
        } else {
          SetState(S.Stopped);
        }
      }
    }

    /** `thumber_start`, called once before the main loop runs. */
    method Start()
      requires Valid() && S.Enabled(cfg, Model(), S.Start)
      modifies this
      ensures Valid() && events == old(events) + [S.Start]
      ensures Model() == S.Step(cfg, old(Model()), S.Start)
    {
      ghost var before := Model();
      SetState(S.Stopped);
      Record(before, S.Start);
    }

    method Create(uri: string)
      requires Valid() && !quit
      modifies this
      ensures Valid() && events == old(events) + [S.Create(uri)]
      ensures Model() == S.CreateMany(cfg, old(Model()), [uri])
    {
      ghost var before := Model();
      var _ := AddTask([uri]);
      Record(before, S.Create(uri));
    }

    /** Answers the task's id. */
    method CreateMany(uris: seq<string>) returns (id: nat)
      requires Valid() && !quit
      modifies this
      ensures Valid() && events == old(events) + [S.CreateAll(uris)]
      ensures Model() == S.CreateMany(cfg, old(Model()), uris)
      ensures id == idCounter
    {
      ghost var before := Model();
      id := AddTask(uris);
      Record(before, S.CreateAll(uris));
    }

    /** What the two D-Bus methods do: build the task, queue it and ask for resources. */
    method AddTask(uris: seq<string>) returns (id: nat)
      requires !quit
      modifies this
      ensures Model() == S.CreateMany(cfg, old(Model()), uris)
      ensures id == idCounter && events == old(events)
    {
      idCounter := (idCounter + 1) % UINT_MODULUS;
      id := idCounter;
      var files := TaskInfoAddUris([], uris);
      assert files == Reverse(S.NonEmpty(uris));
      var task := S.Task(id, files);
      taskQueue := taskQueue + [task];
      submitted := submitted + [task];
      RequestResources();
    }

    method PopulateFileQueue(task: S.Task)
      modifies this
      ensures Model() == old(Model()).(files := old(fileQueue) + task.files)
      ensures events == old(events)
    {
      var i := 0;
      while i < |task.files|
        invariant 0 <= i <= |task.files|
        invariant Model() == old(Model()).(files := old(fileQueue) + task.files[..i])
        invariant events == old(events)
      {
        fileQueue := fileQueue + [task.files[i]];
        i := i + 1;
      }
      assert task.files[..i] == task.files;
    }

    /** The idle callback; `result` is what the pipeline answers if it is run. */
    method ProcessFunc(result: S.PipeResult) returns (again: bool)
      requires Valid() && S.Enabled(cfg, Model(), S.Idle(result))
      modifies this
      ensures Valid() && events == old(events) + [S.Idle(result)]
      ensures (Model(), again) == S.Process(cfg, old(Model()), result)
    {
      ghost var before := Model();
      again := ProcessNext(result);
      Record(before, S.Idle(result));
    }

    method StartTask()
      requires taskQueue != []
      modifies this
      ensures Model() == S.StartNext(old(Model()))
      ensures events == old(events)
    {
      var task := taskQueue[0];
      taskQueue := taskQueue[1..];
      pipe := true;
      PopulateFileQueue(task);
      currentTask := Some(task);
      trace := trace + [S.Started(task.id)];
    }

    method ProcessNext(result: S.PipeResult) returns (again: bool)
      modifies this
      ensures (Model(), again) == S.Process(cfg, old(Model()), result)
      ensures events == old(events)
    {
      again := true;
      if pipe && fileQueue != [] {
        var file := fileQueue[0];
        fileQueue := fileQueue[1..];
        trace := trace + [S.Outcome(file, result)];
      } else {
        if currentTask.Some? {
          trace := trace + [S.Finished(currentTask.value.id)];
          currentTask := None;
        }
        if taskQueue != [] {
          StartTask();
        } else {
          pipe := false;
          ReleaseResources();
          idleId := false;
          again := false;
        }
      }
    }

    method QuitTimeoutCb()
      requires Valid() && S.Enabled(cfg, Model(), S.QuitTimer)
      modifies this
      ensures Valid() && events == old(events) + [S.QuitTimer]
      ensures Model() == S.Step(cfg, old(Model()), S.QuitTimer)
    {
      ghost var before := Model();
      quit := true;
      Record(before, S.QuitTimer);
    }

    method StateHintHandler(mayStop: bool, mayPlay: bool)
      requires Valid() && S.Enabled(cfg, Model(), S.Hint(mayStop, mayPlay))
      modifies this
      ensures Valid() && events == old(events) + [S.Hint(mayStop, mayPlay)]
      ensures Model() == S.StateHint(cfg, old(Model()), mayStop, mayPlay)
    {
      ghost var before := Model();
      match state {
      case PendingStop => if mayStop { ReleaseResources(); }
      case Paused => if mayPlay { RequestResources(); }
      case _ =>
      }
      Record(before, S.Hint(mayStop, mayPlay));
    }

    method StateRequestHandler(want: S.Pb)
      requires Valid() && S.Enabled(cfg, Model(), S.Request(want))
      modifies this
      ensures Valid() && events == old(events) + [S.Request(want)]
      ensures Model() == S.StateRequest(cfg, old(Model()), want)
    {
      ghost var before := Model();
      match want {
      case Play => if state == S.Paused { SetState(S.Working); }
      case Stop => if state == S.Working { SetState(S.Paused); }
      case Other =>
      }
      Record(before, S.Request(want));
    }

    method StateReplyHandler(granted: S.Pb)
      requires Valid() && S.Enabled(cfg, Model(), S.Reply(granted))
      modifies this
      ensures Valid() && events == old(events) + [S.Reply(granted)]
      ensures Model() == S.StateReply(cfg, old(Model()), granted)
    {
      ghost var before := Model();
      match granted {
      case Play => if state == S.Paused { SetState(S.Working); }
      case Stop => if state == S.PendingStop { SetState(S.Stopped); }
      case Other =>
      }
      Record(before, S.Reply(granted));
    }
  }
}
