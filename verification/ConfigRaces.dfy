/** Config updates that overlap (crates/app-server/src/lib.rs over HTTP): the config lock is given
    up between taking the snapshot and applying it, so the steps of several requests interleave. */
module ConfigRaces {
  import opened Options

  type Config = map<string, string>

  /** What set_value and unset_value do to the config; either may reject its arguments. */
  datatype Edit = Put(key: string, value: string) | Remove(key: string) | Rejected

  /** A change is saved to disk if the save succeeds; a reload takes what the disk holds. */
  datatype Job = Change(edit: Edit, saves: bool) | Load

  datatype Phase =
    | Waiting(job: Job)
    | Snapped(snapshot: Config, saves: bool)
    | Saved(snapshot: Config)
    | Shared(snapshot: Config)
    | Answered(snapshot: Config)

  datatype State = State(config: Config, runtime: Config, disk: Config, requests: map<nat, Phase>)

  function Apply(edit: Edit, config: Config): Config {
    match edit
    case Put(key, value) => config[key := value]
    case Remove(key) => config - {key}
    case Rejected => config
  }

  predicate Possible(state: State, request: nat) {
    request in state.requests && !state.requests[request].Answered?
  }

  /** The next step of one request: edit and snapshot under the lock, or read the disk; save;
      share; push to the runtime (where the reply is due). */
  function Next(state: State, request: nat): State
    requires Possible(state, request)
  {
    match state.requests[request]
    case Waiting(Change(edit, saves)) =>
      var edited := Apply(edit, state.config);
      state.(config := edited, requests := state.requests[request := Snapped(edited, saves)])
    case Waiting(Load) => state.(requests := state.requests[request := Snapped(state.disk, false)])
    case Snapped(snapshot, saves) =>
      state.(disk := if saves then snapshot else state.disk, requests := state.requests[request := Saved(snapshot)])
    case Saved(snapshot) => state.(config := snapshot, requests := state.requests[request := Shared(snapshot)])
    case Shared(snapshot) => state.(runtime := snapshot, requests := state.requests[request := Answered(snapshot)])
  }

  predicate Leads(state: State, request: nat, next: State) {
    Possible(state, request) && next == Next(state, request)
  }

  /** A run: which request moves at each step. */
  predicate Run(states: seq<State>, moves: seq<nat>) {
    && |states| == |moves| + 1
    && forall i :: 0 <= i < |moves| ==> Leads(states[i], moves[i], states[i + 1])
  }

  predicate Quiet(state: State) {
    forall r :: r in state.requests ==> state.requests[r].Waiting? || state.requests[r].Answered?
  }

  predicate Agreement(state: State) {
    state.config == state.runtime == state.disk
  }

  // ---- One request at a time ----

  datatype Stored = Stored(config: Config, disk: Config)

  /** What a request that nobody interrupts comes to. */
  function Served(stored: Stored, job: Job): Stored {
    match job
    case Change(edit, saves) =>
      var edited := Apply(edit, stored.config);
      Stored(edited, if saves then edited else stored.disk)
    case Load => Stored(stored.disk, stored.disk)
  }

  /** The moves of one request, with none of another's between them. */
  predicate Alone(moves: seq<nat>, from: nat) {
    from + 4 <= |moves| && forall i :: from <= i < from + 4 ==> moves[i] == moves[from]
  }

  lemma {:induction false} AloneIsServed(states: seq<State>, moves: seq<nat>, from: nat)
    requires Run(states, moves) && Alone(moves, from) && Quiet(states[from])
    ensures moves[from] in states[from].requests && states[from].requests[moves[from]].Waiting?
    ensures var now, was := states[from + 4], states[from];
            && Quiet(now) && now.runtime == now.config
            && Stored(now.config, now.disk) == Served(Stored(was.config, was.disk), was.requests[moves[from]].job)
  {
    assert Leads(states[from], moves[from], states[from + 1]);
    assert Leads(states[from + 1], moves[from + 1], states[from + 2]);
    assert Leads(states[from + 2], moves[from + 2], states[from + 3]);
    assert Leads(states[from + 3], moves[from + 3], states[from + 4]);
  }

  /** Requests taken one after the other. */
  function ServedAll(stored: Stored, states: seq<State>, moves: seq<nat>, n: nat): Stored
    requires Run(states, moves) && 4 * n <= |moves|
    decreases n
  {
    if n == 0 then stored
    else
      var before, r := ServedAll(stored, states, moves, n - 1), moves[4 * (n - 1)];
      if r in states[0].requests && states[0].requests[r].Waiting? then Served(before, states[0].requests[r].job) else before
  }

  predicate AloneInTurn(moves: seq<nat>, n: nat) {
    Alone(moves, 4 * n)
  }

  ghost predicate OneByOne(moves: seq<nat>) {
    forall n: nat :: 4 * n < |moves| ==> AloneInTurn(moves, n)
  }

  lemma {:induction false} RequestsWait(states: seq<State>, moves: seq<nat>, r: nat, n: nat)
    requires Run(states, moves) && n <= |moves| && r in states[n].requests && states[n].requests[r].Waiting?
    ensures r in states[0].requests && states[0].requests[r] == states[n].requests[r]
    decreases n
  {
    if n > 0 {
      assert Leads(states[n - 1], moves[n - 1], states[n]);
      RequestsWait(states, moves, r, n - 1);
    }
  }

  /** Runs in which requests do not overlap: each builds on what the one before it left, shared
      config and runtime agree after each, and the disk too as long as every save succeeds. */
  lemma {:induction false} OneByOneAgrees(states: seq<State>, moves: seq<nat>, n: nat)
    requires Run(states, moves) && OneByOne(moves) && 4 * n <= |moves|
    requires Agreement(states[0]) && Quiet(states[0])
    ensures var now := states[4 * n];
            && Quiet(now) && now.runtime == now.config
            && Stored(now.config, now.disk) == ServedAll(Stored(states[0].config, states[0].disk), states, moves, n)
    ensures EverySaveSucceeds(states[0]) ==> Agreement(states[4 * n])
    decreases n
  {
    if n > 0 {
      var from := 4 * (n - 1);
      OneByOneAgrees(states, moves, n - 1);
      assert AloneInTurn(moves, n - 1);
      AloneIsServed(states, moves, from);
      RequestsWait(states, moves, moves[from], from);
    }
  }

  predicate EverySaveSucceeds(start: State) {
    forall r :: r in start.requests && start.requests[r].Waiting? && start.requests[r].job.Change? ==> start.requests[r].job.saves
  }

  // ---- Schedules ----

  /** The state after a schedule; a move nobody can make is passed over. */
  function After(start: State, moves: seq<nat>): State {
    if moves == [] then start
    else
      var before, r := After(start, moves[..|moves| - 1]), moves[|moves| - 1];
      if Possible(before, r) then Next(before, r) else before
  }

  lemma {:induction false} RunIsAfter(states: seq<State>, moves: seq<nat>, n: nat)
    requires Run(states, moves) && n <= |moves|
    ensures states[n] == After(states[0], moves[..n])
  {
    if n > 0 {
      RunIsAfter(states, moves, n - 1);
      assert moves[..n][..n - 1] == moves[..n - 1];
      assert Leads(states[n - 1], moves[n - 1], states[n]);
    }
  }

  /** Who takes part: all requests, those that change the config, and those whose save succeeds. */
  datatype Shape = Shape(all: set<nat>, changing: set<nat>, saving: set<nat>)

  function ShapeOf(start: State): Shape
    requires AllWaiting(start)
  {
    Shape(start.requests.Keys,
          set r | r in start.requests && start.requests[r].job.Change?,
          set r | r in start.requests && start.requests[r].job.Change? && start.requests[r].job.saves)
  }

  predicate AllWaiting(start: State) {
    forall r :: r in start.requests ==> start.requests[r].Waiting?
  }

  /** How often a request has moved: once to edit or load, then to save, to share and to push. */
  function Moved(moves: seq<nat>, r: nat): nat {
    if moves == [] then 0
    else Moved(moves[..|moves| - 1], r) + if moves[|moves| - 1] == r then 1 else 0
  }

  /** A schedule of these requests in which none moves more often than it can. */
  predicate Schedule(moves: seq<nat>, requests: set<nat>) {
    moves == [] ||
      (var front, r := moves[..|moves| - 1], moves[|moves| - 1];
       Schedule(front, requests) && r in requests && Moved(front, r) < 4)
  }

  const FIRST: nat := 0
  const SAVE: nat := 1
  const SHARE: nat := 2
  const PUSH: nat := 3

  /** Which of some requests was the last to make a move of a kind. */
  function Last(moves: seq<nat>, who: set<nat>, kind: nat): Option<nat> {
    if moves == [] then None
    else
      var front, r := moves[..|moves| - 1], moves[|moves| - 1];
      if r in who && Moved(front, r) == kind then Some(r) else Last(front, who, kind)
  }

  function Editor(shape: Shape, moves: seq<nat>): Option<nat> {
    Last(moves, shape.changing, FIRST)
  }

  function Saver(shape: Shape, moves: seq<nat>): Option<nat> {
    Last(moves, shape.saving, SAVE)
  }

  function Pusher(shape: Shape, moves: seq<nat>): Option<nat> {
    Last(moves, shape.all, PUSH)
  }

  /** The request that last wrote the shared config, by its edit or by sharing its snapshot. */
  function Writer(shape: Shape, moves: seq<nat>): Option<nat> {
    if moves == [] then None
    else
      var front, r := moves[..|moves| - 1], moves[|moves| - 1];
      if (r in shape.changing && Moved(front, r) == FIRST) || Moved(front, r) == SHARE then Some(r) else Writer(shape, front)
  }

  /** Whose change a request carries: a change its own, a reload that of the last to save before
      it looked at the disk. */
  function Origin(shape: Shape, moves: seq<nat>, request: Option<nat>): Option<nat> {
    if request.None? || request.value in shape.changing then request
    else if moves == [] then None
    else
      var front, r := moves[..|moves| - 1], moves[|moves| - 1];
      if r == request.value && Moved(front, r) == FIRST then Saver(shape, front) else Origin(shape, front, request)
  }

  /** Whose change the shared config is. */
  function Current(shape: Shape, moves: seq<nat>): Option<nat> {
    Origin(shape, moves, Writer(shape, moves))
  }

  /** What a request carries since its first move; without a request, the old config. */
  function Version(start: State, now: State, request: Option<nat>): Config {
    if request.Some? && request.value in now.requests && !now.requests[request.value].Waiting? then
      now.requests[request.value].snapshot
    else start.config
  }

  function PhaseNumber(phase: Phase): nat {
    match phase case Waiting(_) => 0 case Snapped(_, _) => 1 case Saved(_) => 2 case Shared(_) => 3 case Answered(_) => 4
  }

  lemma {:induction false} OneStep(state: State, r: nat)
    requires Possible(state, r)
    ensures var was, now := state.requests, Next(state, r).requests;
            && now.Keys == was.Keys && (forall q :: q in was && q != r ==> now[q] == was[q])
            && PhaseNumber(now[r]) == PhaseNumber(was[r]) + 1
            && (was[r].Waiting? ==> now[r].saves == (was[r].job.Change? && was[r].job.saves))
            && (!was[r].Waiting? ==> now[r].snapshot == was[r].snapshot)
  {
  }

  lemma {:induction false} PhaseIsCount(start: State, moves: seq<nat>, r: nat)
    requires AllWaiting(start) && Schedule(moves, start.requests.Keys) && r in start.requests
    ensures var now := After(start, moves);
            && now.requests.Keys == start.requests.Keys
            && PhaseNumber(now.requests[r]) == Moved(moves, r)
            && (Moved(moves, r) == 0 ==> now.requests[r] == start.requests[r])
            && (Moved(moves, r) == 1 ==> (now.requests[r].saves <==> r in ShapeOf(start).saving))
  {
    if moves != [] {
      var front, m := moves[..|moves| - 1], moves[|moves| - 1];
      PhaseIsCount(start, front, r);
      if m != r { PhaseIsCount(start, front, m); }
      OneStep(After(start, front), m);
    }
  }

  predicate Started(moves: seq<nat>, requests: set<nat>, request: Option<nat>) {
    request.Some? ==> request.value in requests && Moved(moves, request.value) > 0
  }

  /** A snapshot once taken is carried unchanged. */
  lemma {:induction false} VersionStays(start: State, moves: seq<nat>, request: Option<nat>)
    requires AllWaiting(start) && Schedule(moves, start.requests.Keys) && moves != []
    requires Started(moves[..|moves| - 1], start.requests.Keys, request)
    ensures var before, now := After(start, moves[..|moves| - 1]), After(start, moves);
            Version(start, now, request) == Version(start, before, request)
  {
    if request.Some? {
      var front := moves[..|moves| - 1];
      PhaseIsCount(start, front, request.value);
      PhaseIsCount(start, front, moves[|moves| - 1]);
      OneStep(After(start, front), moves[|moves| - 1]);
    }
  }

  lemma {:induction false} LastHasMoved(moves: seq<nat>, requests: set<nat>, who: set<nat>, kind: nat)
    requires Schedule(moves, requests)
    ensures Started(moves, requests, Last(moves, who, kind))
    ensures Last(moves, who, kind).Some? ==> Last(moves, who, kind).value in who
  {
    if moves != [] { LastHasMoved(moves[..|moves| - 1], requests, who, kind); }
  }

  lemma {:induction false} WriterHasMoved(shape: Shape, moves: seq<nat>)
    requires Schedule(moves, shape.all)
    ensures Started(moves, shape.all, Writer(shape, moves))
  {
    if moves != [] { WriterHasMoved(shape, moves[..|moves| - 1]); }
  }

  lemma {:induction false} OriginHasMoved(shape: Shape, moves: seq<nat>, request: Option<nat>)
    requires Schedule(moves, shape.all) && shape.saving <= shape.changing && Started(moves, shape.all, request)
    ensures Started(moves, shape.all, Origin(shape, moves, request))
    ensures Origin(shape, moves, request).Some? ==> Origin(shape, moves, request).value in shape.changing
  {
    if request.Some? && request.value !in shape.changing {
      var front, r := moves[..|moves| - 1], moves[|moves| - 1];
      if r == request.value && Moved(front, r) == FIRST {
        LastHasMoved(front, shape.all, shape.saving, SAVE);
      } else {
        OriginHasMoved(shape, front, request);
      }
    }
  }

  /** At any point of any schedule the shared config is the version of its last writer, the disk
      that of the last to save and the runtime that of the last to push. */
  lemma {:induction false} VersionsInPlace(start: State, moves: seq<nat>)
    requires AllWaiting(start) && Agreement(start) && Schedule(moves, start.requests.Keys)
    ensures var now, shape := After(start, moves), ShapeOf(start);
            && now.config == Version(start, now, Writer(shape, moves))
            && now.disk == Version(start, now, Saver(shape, moves))
            && now.runtime == Version(start, now, Pusher(shape, moves))
  {
    if moves != [] {
      var shape, front, r := ShapeOf(start), moves[..|moves| - 1], moves[|moves| - 1];
      VersionsInPlace(start, front);
      PhaseIsCount(start, front, r);
      WriterHasMoved(shape, front);
      LastHasMoved(front, shape.all, shape.saving, SAVE);
      LastHasMoved(front, shape.all, shape.all, PUSH);
      VersionStays(start, moves, Writer(shape, front));
      VersionStays(start, moves, Saver(shape, front));
      VersionStays(start, moves, Pusher(shape, front));
    }
  }

  /** A request carries the version of the one whose change it is. */
  lemma {:induction false} OriginCarries(start: State, moves: seq<nat>, request: Option<nat>)
    requires AllWaiting(start) && Agreement(start) && Schedule(moves, start.requests.Keys)
    requires Started(moves, start.requests.Keys, request)
    ensures var now := After(start, moves);
            Version(start, now, request) == Version(start, now, Origin(ShapeOf(start), moves, request))
  {
    var shape := ShapeOf(start);
    if request.Some? && request.value !in shape.changing {
      var front, r := moves[..|moves| - 1], moves[|moves| - 1];
      PhaseIsCount(start, front, r);
      if Moved(front, request.value) == FIRST {
        VersionsInPlace(start, front);
        LastHasMoved(front, shape.all, shape.saving, SAVE);
        VersionStays(start, moves, Saver(shape, front));
      } else {
        OriginCarries(start, front, request);
        OriginHasMoved(shape, front, request);
        VersionStays(start, moves, request);
        VersionStays(start, moves, Origin(shape, front, request));
      }
    }
  }

  /** So they agree exactly when those three requests carry equal configs. */
  lemma {:induction false} AgreementIff(start: State, moves: seq<nat>)
    requires AllWaiting(start) && Agreement(start) && Schedule(moves, start.requests.Keys)
    ensures var now, shape := After(start, moves), ShapeOf(start);
            Agreement(now) <==>
              Version(start, now, Writer(shape, moves)) == Version(start, now, Saver(shape, moves)) == Version(start, now, Pusher(shape, moves))
  {
    VersionsInPlace(start, moves);
  }

  // ---- Agreement whatever is set ----

  predicate GoodShape(shape: Shape) {
    shape.saving <= shape.changing <= shape.all
  }

  /** Changes that all set one key, each to a value of its own, beside the same reloads. */
  function Rivals(shape: Shape): State {
    State(map[], map[], map[],
          map r | r in shape.all :: Waiting(if r in shape.changing then Change(Put("key", Own(r)), r in shape.saving) else Load))
  }

  function Own(r: nat): string {
    seq(r, i => 'x')
  }

  lemma {:induction false} RivalsStart(shape: Shape)
    requires GoodShape(shape)
    ensures Startable(Rivals(shape), shape)
  {
    assert ShapeOf(Rivals(shape)).all == shape.all;
    assert ShapeOf(Rivals(shape)).changing == shape.changing;
    assert ShapeOf(Rivals(shape)).saving == shape.saving;
  }

  lemma {:induction false} RivalsCarryTheirOwn(shape: Shape, moves: seq<nat>, r: nat)
    requires GoodShape(shape) && Schedule(moves, shape.all) && r in shape.changing && Moved(moves, r) > 0
    ensures var carried := Version(Rivals(shape), After(Rivals(shape), moves), Some(r));
            "key" in carried && carried["key"] == Own(r)
  {
    var front, m := moves[..|moves| - 1], moves[|moves| - 1];
    var start := Rivals(shape);
    RivalsStart(shape);
    PhaseIsCount(start, front, m);
    if Moved(front, r) > 0 {
      RivalsCarryTheirOwn(shape, front, r);
      VersionStays(start, moves, Some(r));
    }
  }

  lemma {:induction false} RivalsDiffer(shape: Shape, moves: seq<nat>, one: Option<nat>, other: Option<nat>)
    requires GoodShape(shape) && Schedule(moves, shape.all) && one != other
    requires Started(moves, shape.changing, one) && Started(moves, shape.changing, other)
    ensures var start := Rivals(shape); var now := After(start, moves);
            Version(start, now, one) != Version(start, now, other)
  {
    if one.Some? { RivalsCarryTheirOwn(shape, moves, one.value); }
    if other.Some? { RivalsCarryTheirOwn(shape, moves, other.value); }
    if one.Some? && other.Some? { assert |Own(one.value)| != |Own(other.value)|; }
  }

  predicate Startable(start: State, shape: Shape) {
    AllWaiting(start) && Agreement(start) && ShapeOf(start) == shape
  }

  /** The shared config, the disk and the runtime are one request's change. */
  predicate OneChange(shape: Shape, moves: seq<nat>) {
    Current(shape, moves) == Saver(shape, moves) == Origin(shape, moves, Pusher(shape, moves))
  }

  lemma {:induction false} AgreementByOrigin(start: State, moves: seq<nat>)
    requires AllWaiting(start) && Agreement(start) && Schedule(moves, start.requests.Keys)
    ensures var now, shape := After(start, moves), ShapeOf(start);
            && now.config == Version(start, now, Current(shape, moves))
            && now.disk == Version(start, now, Saver(shape, moves))
            && now.runtime == Version(start, now, Origin(shape, moves, Pusher(shape, moves)))
  {
    var shape := ShapeOf(start);
    VersionsInPlace(start, moves);
    WriterHasMoved(shape, moves);
    LastHasMoved(moves, shape.all, shape.all, PUSH);
    OriginCarries(start, moves, Writer(shape, moves));
    OriginCarries(start, moves, Pusher(shape, moves));
  }

  lemma {:induction false} OriginsHaveMoved(shape: Shape, moves: seq<nat>)
    requires GoodShape(shape) && Schedule(moves, shape.all)
    ensures Started(moves, shape.changing, Current(shape, moves)) && Started(moves, shape.changing, Saver(shape, moves))
    ensures Started(moves, shape.changing, Origin(shape, moves, Pusher(shape, moves)))
    ensures Started(moves, shape.changing, Editor(shape, moves))
  {
    WriterHasMoved(shape, moves);
    LastHasMoved(moves, shape.all, shape.all, PUSH);
    LastHasMoved(moves, shape.all, shape.saving, SAVE);
    LastHasMoved(moves, shape.all, shape.changing, FIRST);
    OriginHasMoved(shape, moves, Writer(shape, moves));
    OriginHasMoved(shape, moves, Pusher(shape, moves));
  }

  /** A schedule of changes and reloads, some saves failing, leaves shared config, runtime and disk
      in agreement whatever is set, exactly when all three are one and the same request's change. */
  lemma {:induction false} ScheduleAgreesIff(moves: seq<nat>, shape: Shape)
    requires GoodShape(shape) && Schedule(moves, shape.all)
    ensures (forall start :: Startable(start, shape) ==> Agreement(After(start, moves))) <==> OneChange(shape, moves)
  {
    var rivals := Rivals(shape);
    RivalsStart(shape);
    OriginsHaveMoved(shape, moves);
    if OneChange(shape, moves) {
      forall start | Startable(start, shape) ensures Agreement(After(start, moves)) { AgreementByOrigin(start, moves); }
    } else {
      AgreementByOrigin(rivals, moves);
      var current, saver, pushed := Current(shape, moves), Saver(shape, moves), Origin(shape, moves, Pusher(shape, moves));
      if current != saver { RivalsDiffer(shape, moves, current, saver); } else { RivalsDiffer(shape, moves, saver, pushed); }
    }
  }

  // ---- Lost updates ----

  predicate Holds(edit: Edit, config: Config) {
    match edit
    case Put(key, value) => key in config && config[key] == value
    case Remove(key) => key !in config
    case Rejected => true
  }

  lemma {:induction false} EditHolds(edit: Edit, config: Config)
    ensures Holds(edit, Apply(edit, config))
  {
  }

  /** An edit touches its own key and no other; a rejected one touches none. */
  lemma {:induction false} EditTouchesItsKey(edit: Edit, config: Config, key: string)
    requires edit.Rejected? || key != edit.key
    ensures key in Apply(edit, config) <==> key in config
    ensures key in config ==> Apply(edit, config)[key] == config[key]
  {
  }

  lemma {:induction false} OtherEditKeeps(edit: Edit, other: Edit, config: Config)
    requires !edit.Rejected? && !other.Rejected? && edit.key != other.key
    ensures Holds(edit, Apply(other, config)) == Holds(edit, config)
  {
  }

  predicate Changing(start: State, r: nat) {
    r in start.requests && start.requests[r].Waiting? && start.requests[r].job.Change?
  }

  function EditOf(start: State, r: nat): Edit
    requires Changing(start, r)
  {
    start.requests[r].job.edit
  }

  /** Changes of different keys, each of which changes something. */
  ghost predicate NewEdits(start: State) {
    && AllWaiting(start) && Agreement(start)
    && (forall r :: Changing(start, r) ==> !Holds(EditOf(start, r), start.config))
    && (forall r, q :: Changing(start, r) && Changing(start, q) && r != q ==> EditOf(start, r).key != EditOf(start, q).key)
  }

  ghost predicate NothingLost(start: State, moves: seq<nat>, config: Config) {
    forall r :: Changing(start, r) && Moved(moves, r) > 0 ==> Holds(EditOf(start, r), config)
  }

  /** A config knows nothing of edits that have not been made. */
  ghost predicate OnlyMade(start: State, moves: seq<nat>, config: Config) {
    forall r :: Changing(start, r) && Moved(moves, r) == 0 ==> !Holds(EditOf(start, r), config)
  }

  /** Every edit found the version of the latest edit before it in the shared config. */
  predicate EditsInLine(shape: Shape, moves: seq<nat>) {
    moves == [] ||
      (var front, r := moves[..|moves| - 1], moves[|moves| - 1];
       EditsInLine(shape, front)
       && (r in shape.changing && Moved(front, r) == FIRST ==> Current(shape, front) == Editor(shape, front)))
  }

  lemma {:induction false} EditTakesConfig(start: State, moves: seq<nat>)
    requires NewEdits(start) && Schedule(moves, start.requests.Keys) && moves != []
    requires Changing(start, moves[|moves| - 1]) && Moved(moves[..|moves| - 1], moves[|moves| - 1]) == FIRST
    ensures var front, r := moves[..|moves| - 1], moves[|moves| - 1];
            var found := Version(start, After(start, front), Current(ShapeOf(start), front));
            Version(start, After(start, moves), Some(r)) == Apply(EditOf(start, r), found)
  {
    var front, r := moves[..|moves| - 1], moves[|moves| - 1];
    PhaseIsCount(start, front, r);
    AgreementByOrigin(start, front);
  }

  lemma {:induction false} VersionsHoldOnlyMade(start: State, moves: seq<nat>, q: Option<nat>)
    requires NewEdits(start) && Schedule(moves, start.requests.Keys)
    requires Started(moves, ShapeOf(start).changing, q)
    ensures OnlyMade(start, moves, Version(start, After(start, moves), q))
  {
    if moves != [] && q.Some? {
      var front := moves[..|moves| - 1];
      if Moved(front, q.value) > 0 {
        VersionsHoldOnlyMade(start, front, q);
        VersionStays(start, moves, q);
      } else {
        EditTakesConfig(start, moves);
        OriginsHaveMoved(ShapeOf(start), front);
        VersionsHoldOnlyMade(start, front, Current(ShapeOf(start), front));
        StillOnlyMade(start, moves, Version(start, After(start, front), Current(ShapeOf(start), front)));
      }
    }
  }

  lemma {:induction false} StillOnlyMade(start: State, moves: seq<nat>, found: Config)
    requires NewEdits(start) && moves != [] && Changing(start, moves[|moves| - 1])
    requires OnlyMade(start, moves[..|moves| - 1], found)
    ensures OnlyMade(start, moves, Apply(EditOf(start, moves[|moves| - 1]), found))
  {
    var m := moves[|moves| - 1];
    forall r | Changing(start, r) && Moved(moves, r) == 0 ensures !Holds(EditOf(start, r), Apply(EditOf(start, m), found)) {
      OtherEditKeeps(EditOf(start, r), EditOf(start, m), found);
    }
  }

  /** As long as edits are in line, the latest version holds every edit made. */
  lemma {:induction false} InLineKeepsAll(start: State, moves: seq<nat>)
    requires NewEdits(start) && Schedule(moves, start.requests.Keys) && EditsInLine(ShapeOf(start), moves)
    ensures NothingLost(start, moves, Version(start, After(start, moves), Editor(ShapeOf(start), moves)))
  {
    if moves != [] {
      var shape, front, r := ShapeOf(start), moves[..|moves| - 1], moves[|moves| - 1];
      InLineKeepsAll(start, front);
      if Changing(start, r) && Moved(front, r) == FIRST {
        EditTakesConfig(start, moves);
        StillNothingLost(start, moves, Version(start, After(start, front), Editor(shape, front)));
      } else {
        LastHasMoved(front, shape.all, shape.changing, FIRST);
        VersionStays(start, moves, Editor(shape, front));
      }
    }
  }

  lemma {:induction false} StillNothingLost(start: State, moves: seq<nat>, found: Config)
    requires NewEdits(start) && moves != [] && Changing(start, moves[|moves| - 1])
    requires NothingLost(start, moves[..|moves| - 1], found)
    ensures NothingLost(start, moves, Apply(EditOf(start, moves[|moves| - 1]), found))
  {
    var m := moves[|moves| - 1];
    forall r | Changing(start, r) && Moved(moves, r) > 0 ensures Holds(EditOf(start, r), Apply(EditOf(start, m), found)) {
      if r == m { EditHolds(EditOf(start, m), found); } else { OtherEditKeeps(EditOf(start, r), EditOf(start, m), found); }
    }
  }

  /** Only the latest editor's own version holds its edit so far. */
  lemma {:induction false} LatestIsNew(start: State, moves: seq<nat>, q: Option<nat>)
    requires NewEdits(start) && Schedule(moves, start.requests.Keys) && Started(moves, ShapeOf(start).changing, q)
    requires Editor(ShapeOf(start), moves).Some? && Editor(ShapeOf(start), moves) != q
    ensures Changing(start, Editor(ShapeOf(start), moves).value)
    ensures !Holds(EditOf(start, Editor(ShapeOf(start), moves).value), Version(start, After(start, moves), q))
  {
    var shape, front, r := ShapeOf(start), moves[..|moves| - 1], moves[|moves| - 1];
    LastHasMoved(moves, shape.all, shape.changing, FIRST);
    if r in shape.changing && Moved(front, r) == FIRST {
      VersionsHoldOnlyMade(start, front, q);
    } else {
      LatestIsNew(start, front, q);
    }
    VersionStays(start, moves, q);
  }

  /** No change's version holds both edits. */
  ghost predicate NeverTogether(start: State, moves: seq<nat>, a: nat, b: nat)
    requires Changing(start, a) && Changing(start, b)
  {
    forall q :: Changing(start, q) && Moved(moves, q) > 0 ==>
      !HoldsBoth(start, Version(start, After(start, moves), Some(q)), a, b)
  }

  predicate HoldsBoth(start: State, config: Config, a: nat, b: nat)
    requires Changing(start, a) && Changing(start, b)
  {
    Holds(EditOf(start, a), config) && Holds(EditOf(start, b), config)
  }

  /** An edit out of line parts two edits for good. */
  lemma {:induction false} OutOfLineParts(start: State, moves: seq<nat>) returns (a: nat, b: nat)
    requires NewEdits(start) && Schedule(moves, start.requests.Keys) && !EditsInLine(ShapeOf(start), moves)
    ensures Changing(start, a) && Changing(start, b) && Moved(moves, a) > 0 && Moved(moves, b) > 0
    ensures NeverTogether(start, moves, a, b)
  {
    var shape, front, r := ShapeOf(start), moves[..|moves| - 1], moves[|moves| - 1];
    OriginsHaveMoved(shape, front);
    if EditsInLine(shape, front) {
      if Editor(shape, front).None? { NoEditNoOrigin(shape, front); }
      a, b := Editor(shape, front).value, r;
      PartedNow(start, moves);
    } else {
      a, b := OutOfLineParts(start, front);
      StillParted(start, moves, a, b);
    }
  }

  lemma {:induction false} NoEditNoOrigin(shape: Shape, moves: seq<nat>)
    requires GoodShape(shape) && Schedule(moves, shape.all) && Editor(shape, moves).None?
    ensures Current(shape, moves).None?
  {
    OriginsHaveMoved(shape, moves);
    if Current(shape, moves).Some? { MovedHasEdited(shape, moves, Current(shape, moves).value); }
  }

  lemma {:induction false} MovedHasEdited(shape: Shape, moves: seq<nat>, r: nat)
    requires Schedule(moves, shape.all) && r in shape.changing && Moved(moves, r) > 0
    ensures Editor(shape, moves).Some?
  {
    var front := moves[..|moves| - 1];
    if Moved(front, r) > 0 { MovedHasEdited(shape, front, r); }
  }

  lemma {:induction false} PartedNow(start: State, moves: seq<nat>)
    requires NewEdits(start) && Schedule(moves, start.requests.Keys) && moves != []
    requires var shape, front, r := ShapeOf(start), moves[..|moves| - 1], moves[|moves| - 1];
             && Changing(start, r) && Moved(front, r) == FIRST && Editor(shape, front).Some?
             && Changing(start, Editor(shape, front).value) && Current(shape, front) != Editor(shape, front)
    ensures NeverTogether(start, moves, Editor(ShapeOf(start), moves[..|moves| - 1]).value, moves[|moves| - 1])
  {
    var shape, front, r := ShapeOf(start), moves[..|moves| - 1], moves[|moves| - 1];
    var latest := Editor(shape, front).value;
    LastHasMoved(front, shape.all, shape.changing, FIRST);
    forall q | Changing(start, q) && Moved(moves, q) > 0
      ensures !HoldsBoth(start, Version(start, After(start, moves), Some(q)), latest, r)
    {
      if q == r {
        var found := Version(start, After(start, front), Current(shape, front));
        OriginsHaveMoved(shape, front);
        LatestIsNew(start, front, Current(shape, front));
        EditTakesConfig(start, moves);
        OtherEditKeeps(EditOf(start, latest), EditOf(start, r), found);
      } else {
        VersionsHoldOnlyMade(start, front, Some(q));
        VersionStays(start, moves, Some(q));
      }
    }
  }

  lemma {:induction false} StartHoldsNone(start: State, r: nat)
    requires NewEdits(start) && Changing(start, r)
    ensures !Holds(EditOf(start, r), start.config)
  {
  }

  lemma {:induction false} StillParted(start: State, moves: seq<nat>, a: nat, b: nat)
    requires NewEdits(start) && Schedule(moves, start.requests.Keys) && moves != []
    requires Changing(start, a) && Changing(start, b)
    requires Moved(moves[..|moves| - 1], a) > 0 && Moved(moves[..|moves| - 1], b) > 0
    requires NeverTogether(start, moves[..|moves| - 1], a, b)
    ensures NeverTogether(start, moves, a, b)
  {
    var front, r := moves[..|moves| - 1], moves[|moves| - 1];
    forall q | Changing(start, q) && Moved(moves, q) > 0
      ensures !HoldsBoth(start, Version(start, After(start, moves), Some(q)), a, b)
    {
      if Moved(front, q) > 0 {
        VersionStays(start, moves, Some(q));
      } else {
        var current := Current(ShapeOf(start), front);
        var found := Version(start, After(start, front), current);
        OriginsHaveMoved(ShapeOf(start), front);
        StartHoldsNone(start, a);
        assert !HoldsBoth(start, found, a, b);
        EditTakesConfig(start, moves);
        OtherEditKeeps(EditOf(start, a), EditOf(start, r), found);
        OtherEditKeeps(EditOf(start, b), EditOf(start, r), found);
      }
    }
  }

  /** At any point of any schedule of changes to different keys, with reloads among them and saves
      that fail, the shared config holds every edit made so far exactly when every edit found the
      latest version in it and it is there now. */
  lemma {:induction false} NothingLostIff(start: State, moves: seq<nat>)
    requires NewEdits(start) && Schedule(moves, start.requests.Keys)
    ensures NothingLost(start, moves, After(start, moves).config)
       <==> EditsInLine(ShapeOf(start), moves) && Current(ShapeOf(start), moves) == Editor(ShapeOf(start), moves)
  {
    var shape := ShapeOf(start);
    var current := Current(shape, moves);
    AgreementByOrigin(start, moves);
    OriginsHaveMoved(shape, moves);
    if !EditsInLine(shape, moves) {
      var a, b := OutOfLineParts(start, moves);
      StartHoldsNone(start, a);
      assert !HoldsBoth(start, Version(start, After(start, moves), current), a, b);
    } else if current == Editor(shape, moves) {
      InLineKeepsAll(start, moves);
    } else {
      if Editor(shape, moves).None? { NoEditNoOrigin(shape, moves); }
      LatestIsNew(start, moves, current);
    }
  }

  /** Once every request that moved has shared, the last writer is the last to share. */
  lemma {:induction false} WriterShares(shape: Shape, moves: seq<nat>)
    requires Schedule(moves, shape.all)
    ensures var writer := Writer(shape, moves);
            writer == Last(moves, shape.all, SHARE) || (writer.Some? && 1 <= Moved(moves, writer.value) <= 2)
  {
    if moves != [] { WriterShares(shape, moves[..|moves| - 1]); }
  }

  lemma {:induction false} TwoAreInLine(shape: Shape, moves: seq<nat>, a: nat, b: nat)
    requires shape.all == shape.changing == {a, b} && shape.saving <= shape.changing && Schedule(moves, shape.all)
    ensures EditsInLine(shape, moves)
  {
    if moves != [] {
      var front, r := moves[..|moves| - 1], moves[|moves| - 1];
      TwoAreInLine(shape, front, a, b);
      if Moved(front, r) == FIRST && front != [] {
        OriginsHaveMoved(shape, front);
        FirstWrites(shape, front);
      }
    }
  }

  lemma {:induction false} FirstWrites(shape: Shape, moves: seq<nat>)
    requires shape.all == shape.changing && Schedule(moves, shape.all) && moves != []
    ensures Writer(shape, moves).Some? && Editor(shape, moves).Some? && Current(shape, moves).Some?
  {
    var front, r := moves[..|moves| - 1], moves[|moves| - 1];
    if front == [] { assert Moved(front, r) == 0; } else { FirstWrites(shape, front); }
    WriterHasMoved(shape, moves);
  }

  /** Two changes of different keys, gone through to the end, lose nothing exactly when the one
      that edits last shares last. */
  lemma {:induction false} TwoLoseNothingIff(start: State, moves: seq<nat>, a: nat, b: nat)
    requires NewEdits(start) && start.requests.Keys == {a, b} && Changing(start, a) && Changing(start, b)
    requires Schedule(moves, {a, b}) && Moved(moves, a) == 4 && Moved(moves, b) == 4
    ensures NothingLost(start, moves, After(start, moves).config) <==> Last(moves, {a, b}, SHARE) == Last(moves, {a, b}, FIRST)
  {
    var shape := ShapeOf(start);
    assert shape.changing == {a, b};
    NothingLostIff(start, moves);
    TwoAreInLine(shape, moves, a, b);
    WriterShares(shape, moves);
    WriterHasMoved(shape, moves);
  }

  // ---- Two sets that overlap ----

  const A := map["a" := "1"]
  const AB := map["a" := "1", "b" := "2"]

  function Pair(first: Phase, second: Phase): map<nat, Phase> {
    map[0 := first, 1 := second]
  }

  const SETS_A := Waiting(Change(Put("a", "1"), true))
  const SETS_B := Waiting(Change(Put("b", "2"), true))
  const START := State(map[], map[], map[], Pair(SETS_A, SETS_B))

  /** The second request runs to its end between the first one's snapshot and its save. */
  function Losing(n: nat): State {
    match n
    case 0 => START
    case 1 => State(A, map[], map[], Pair(Snapped(A, true), SETS_B))
    case 2 => State(AB, map[], map[], Pair(Snapped(A, true), Snapped(AB, true)))
    case 3 => State(AB, map[], AB, Pair(Snapped(A, true), Saved(AB)))
    case 4 => State(AB, map[], AB, Pair(Snapped(A, true), Shared(AB)))
    case 5 => State(AB, AB, AB, Pair(Snapped(A, true), Answered(AB)))
    case 6 => State(AB, AB, A, Pair(Saved(A), Answered(AB)))
    case 7 => State(A, AB, A, Pair(Shared(A), Answered(AB)))
    case _ => State(A, A, A, Pair(Answered(A), Answered(AB)))
  }

  /** The first request reaches the runtime after the second, but the shared config before it. */
  function Splitting(n: nat): State {
    match n
    case 0 => START
    case 1 => State(A, map[], map[], Pair(Snapped(A, true), SETS_B))
    case 2 => State(AB, map[], map[], Pair(Snapped(A, true), Snapped(AB, true)))
    case 3 => State(AB, map[], A, Pair(Saved(A), Snapped(AB, true)))
    case 4 => State(A, map[], A, Pair(Shared(A), Snapped(AB, true)))
    case 5 => State(A, map[], AB, Pair(Shared(A), Saved(AB)))
    case 6 => State(AB, map[], AB, Pair(Shared(A), Shared(AB)))
    case 7 => State(AB, AB, AB, Pair(Shared(A), Answered(AB)))
    case _ => State(AB, A, AB, Pair(Answered(A), Answered(AB)))
  }

  lemma {:induction false} PairUpdates(first: Phase, second: Phase, phase: Phase)
    ensures Pair(first, second)[0 := phase] == Pair(phase, second)
    ensures Pair(first, second)[1 := phase] == Pair(first, phase)
  {
  }

  lemma {:induction false} EditUpdates()
    ensures map[]["a" := "1"] == A && A["b" := "2"] == AB
  {
  }

  const LOSING: seq<nat> := [0, 1, 1, 1, 1, 0, 0, 0]
  const SPLITTING: seq<nat> := [0, 1, 0, 0, 1, 1, 1, 0]

  lemma {:induction false} LosingLeads(n: nat)
    requires n < 8
    ensures Leads(Losing(n), LOSING[n], Losing(n + 1))
  {
    EditUpdates();
    var phases := Losing(n).requests;
    PairUpdates(phases[0], phases[1], Losing(n + 1).requests[LOSING[n]]);
  }

  lemma {:induction false} SplittingLeads(n: nat)
    requires n < 8
    ensures Leads(Splitting(n), SPLITTING[n], Splitting(n + 1))
  {
    EditUpdates();
    var phases := Splitting(n).requests;
    PairUpdates(phases[0], phases[1], Splitting(n + 1).requests[SPLITTING[n]]);
  }

  predicate AllAnswered(state: State) {
    forall r :: r in state.requests ==> state.requests[r].Answered?
  }

  /** Two overlapping sets, both answered: the earlier snapshot is shared last, and the other
      request's update is gone from the config, the runtime and the disk. */
  lemma {:induction false} OverlapLosesUpdate() returns (states: seq<State>, moves: seq<nat>)
    ensures Run(states, moves) && states[0] == START && Agreement(START) && Quiet(START)
    ensures AllAnswered(states[|moves|]) && Agreement(states[|moves|]) && "b" !in states[|moves|].config
  {
    states, moves := seq(9, i requires 0 <= i < 9 => Losing(i)), LOSING;
    forall n | 0 <= n < 8 ensures Leads(states[n], moves[n], states[n + 1]) { LosingLeads(n); }
  }

  /** Two overlapping sets can also leave shared config and runtime apart for good. */
  lemma {:induction false} OverlapBreaksAgreement() returns (states: seq<State>, moves: seq<nat>)
    ensures Run(states, moves) && states[0] == START && Agreement(START) && Quiet(START)
    ensures AllAnswered(states[|moves|]) && "b" in states[|moves|].config && "b" !in states[|moves|].runtime
  {
    states, moves := seq(9, i requires 0 <= i < 9 => Splitting(i)), SPLITTING;
    forall n | 0 <= n < 8 ensures Leads(states[n], moves[n], states[n + 1]) { SplittingLeads(n); }
  }
}
