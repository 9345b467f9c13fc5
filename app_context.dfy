/**
 * The application state machine of src/AppContext.tsx: the reducer over
 * (phase, sub-phase) states, its defaults, the current-training getter, the
 * provider's loading step and the random case selection.
 */
module AppContext {
  import opened Wrappers
  import opened Db
  import opened Scramble

  /** The user's training settings. */
  datatype TrainingParameters = TrainingParameters(drm: string, maxLength: int, maxTrigger: int,
                                                   minTrigger: int, maxDisplay: int)

  /** `Partial<TrainingParameters>`: `None` is a key the settings object does not have. */
  datatype PartialParameters = PartialParameters(drm: Option<string>, maxLength: Option<int>,
                                                 maxTrigger: Option<int>, minTrigger: Option<int>,
                                                 maxDisplay: Option<int>)

  datatype SetupStep = Initializing
  /** Sub-phases 'options' (Editing) and 'loading_data'. */
  datatype OptionsStep = Editing | LoadingData
  /** Sub-phases 'idle', 'training' (Active) and 'showing_solution'. */
  datatype TrainingStep = Idle | Active | ShowingSolution

  /** `AppStateValue`: the phase `state[0]` is the constructor, the sub-phase `state[1]` its argument. */
  datatype AppStateValue =
    | Setup(setupStep: SetupStep)
    | Options(optionsStep: OptionsStep)
    | Training(trainingStep: TrainingStep)

  /** The selected case and the scramble that sets it up. */
  datatype CurrentTraining = CurrentTraining(trainingCase: Case, setup: string)

  /** `AppState`; the optional fields are `None` while undefined. */
  datatype AppState = AppState(trainingParameters: TrainingParameters, state: AppStateValue,
                               currentTraining: Option<CurrentTraining>,
                               trainingCases: Option<seq<Case>>)

  datatype AppStateAction =
    | FinishedInit
    | SetTrainingParams(settings: PartialParameters)
    | Reset
    | DataLoaded(data: seq<Case>)
    | SetTrainingCase(trainingCase: Case, setup: string)
    | StartTraining
    | SeeSolutions
    | ChangeOptions

  /** What the core throws: the reducer's "invalid app state", the selector's errors, an unloaded file. */
  datatype AppError =
    | InvalidAppState
    | DataNotInitialized
    | TrainingCasesUndefined
    | NoCaseAtIndex
    | NoSolution
    | DbNotLoaded

  // ---------------------------------------------------------------------------
  // The reducer
  // ---------------------------------------------------------------------------

  /** The phase `state[0]`, the only thing the reducer branches on. */
  datatype Phase = SetupPhase | OptionsPhase | TrainingPhase

  function PhaseOf(v: AppStateValue): Phase
  {
    match v
    case Setup(_) => SetupPhase
    case Options(_) => OptionsPhase
    case Training(_) => TrainingPhase
  }

  /** The transition table: the actions each phase has a handler for. */
  predicate Handles(p: Phase, a: AppStateAction)
  {
    match p
    case SetupPhase => a.FinishedInit? || a.Reset?
    case OptionsPhase => a.SetTrainingParams? || a.StartTraining? || a.DataLoaded?
    case TrainingPhase => a.SetTrainingCase? || a.SeeSolutions? || a.ChangeOptions?
  }

  /** `initialAppState()`. */
  function InitialAppState(): AppState
  {
    AppState(TrainingParameters("4c4e", 5, 4, 1, 6), Setup(Initializing), None, None)
  }

  /**
   * The defaults: drm "4c4e", maximum length 5, triggers 1..4, 6 displayed,
   * setup/initializing with nothing loaded or selected; they satisfy the
   * reducer's invariant and have a non-empty trigger range.
   */
  lemma InitialDefaults()
    ensures var s := InitialAppState();
            s.trainingParameters.drm == "4c4e" && s.trainingParameters.maxLength == 5 &&
            s.trainingParameters.maxTrigger == 4 && s.trainingParameters.minTrigger == 1 &&
            s.trainingParameters.maxDisplay == 6 && s.state == Setup(Initializing) &&
            s.currentTraining.None? && s.trainingCases.None? &&
            s.trainingParameters.minTrigger <= s.trainingParameters.maxTrigger &&
            Invariant(s)
  {
  }

  function Or<T>(o: Option<T>, default: T): T
  {
    match o
    case Some(v) => v
    case None => default
  }

  /** `{...params, ...settings}`. */
  function Merge(p: TrainingParameters, settings: PartialParameters): TrainingParameters
  {
    TrainingParameters(Or(settings.drm, p.drm), Or(settings.maxLength, p.maxLength),
                       Or(settings.maxTrigger, p.maxTrigger), Or(settings.minTrigger, p.minTrigger),
                       Or(settings.maxDisplay, p.maxDisplay))
  }

  /**
   * `stateReducer`: succeeds exactly when the current phase has a handler for
   * the action, and otherwise throws "invalid app state".
   */
  function StateReducer(s: AppState, a: AppStateAction): (r: Result<AppState, AppError>)
    ensures r.Ok? <==> Handles(PhaseOf(s.state), a)
    ensures r.Err? ==> r.error == InvalidAppState
  {
    match s.state
    case Setup(_) =>
      (match a
       case FinishedInit => Ok(s.(state := Options(Editing)))
       case Reset => Ok(InitialAppState())
       case _ => Err(InvalidAppState))
    case Options(_) =>
      (match a
       case SetTrainingParams(settings) =>
         Ok(s.(state := Options(Editing), trainingParameters := Merge(s.trainingParameters, settings)))
       case StartTraining => Ok(s.(state := Options(LoadingData)))
       case DataLoaded(data) => Ok(s.(state := Training(Idle), trainingCases := Some(data), currentTraining := None))
       case _ => Err(InvalidAppState))
    case Training(_) =>
      (match a
       case SetTrainingCase(c, setup) =>
         Ok(s.(state := Training(Active), currentTraining := Some(CurrentTraining(c, setup))))
       case SeeSolutions => Ok(s.(state := Training(ShowingSolution)))
       case ChangeOptions => Ok(s.(state := Options(Editing)))
       case _ => Err(InvalidAppState))
  }

  /**
   * From setup, `finished_init` opens the options and keeps everything else;
   * `reset` restores the defaults: drm "4c4e", maximum length 5, triggers 1..4,
   * 6 displayed, phase setup/initializing, nothing loaded or selected.
   */
  lemma SetupTransitions(s: AppState)
    requires s.state.Setup?
    ensures var r := StateReducer(s, FinishedInit);
            r.Ok? && r.value.state == Options(Editing) &&
            r.value.trainingParameters == s.trainingParameters &&
            r.value.trainingCases == s.trainingCases && r.value.currentTraining == s.currentTraining
    ensures var r := StateReducer(s, Reset);
            r == Ok(InitialAppState()) &&
            r.value.trainingParameters.drm == "4c4e" && r.value.trainingParameters.maxLength == 5 &&
            r.value.trainingParameters.maxTrigger == 4 && r.value.trainingParameters.minTrigger == 1 &&
            r.value.trainingParameters.maxDisplay == 6 && r.value.state == Setup(Initializing) &&
            r.value.currentTraining.None? && r.value.trainingCases.None?
  {
  }

  /** Actions without a handler in the current phase throw; no state comes back. */
  lemma UnhandledActionsFail(s: AppState, c: Case, data: seq<Case>)
    ensures s.state.Options? || s.state.Training? ==> StateReducer(s, Reset) == Err(InvalidAppState)
    ensures s.state.Training? ==> StateReducer(s, DataLoaded(data)) == Err(InvalidAppState)
    ensures s.state.Setup? ==> StateReducer(s, SeeSolutions) == Err(InvalidAppState)
    ensures s.state.Options? ==> StateReducer(s, SetTrainingCase(c, "")) == Err(InvalidAppState)
    ensures s.state.Setup? || s.state.Training? ==> StateReducer(s, StartTraining) == Err(InvalidAppState)
  {
  }

  /**
   * The handler depends on the phase alone: changing the sub-phase within the
   * same phase changes neither whether the action is accepted nor the result.
   */
  lemma HandlerDependsOnlyOnPhase(s: AppState, v: AppStateValue, a: AppStateAction)
    requires PhaseOf(v) == PhaseOf(s.state)
    ensures StateReducer(s.(state := v), a) == StateReducer(s, a)
  {
  }

  /**
   * `set_training_params` (from either options sub-phase) overwrites exactly the
   * settings given, keeps the other parameters, the loaded cases and the current
   * training, and returns to options/options.
   */
  lemma SetTrainingParamsMerges(s: AppState, settings: PartialParameters)
    requires s.state.Options?
    ensures var r := StateReducer(s, SetTrainingParams(settings));
            var p, q := s.trainingParameters, r.value.trainingParameters;
            r.Ok? && r.value.state == Options(Editing) &&
            (q.drm == if settings.drm.Some? then settings.drm.value else p.drm) &&
            (q.maxLength == if settings.maxLength.Some? then settings.maxLength.value else p.maxLength) &&
            (q.maxTrigger == if settings.maxTrigger.Some? then settings.maxTrigger.value else p.maxTrigger) &&
            (q.minTrigger == if settings.minTrigger.Some? then settings.minTrigger.value else p.minTrigger) &&
            (q.maxDisplay == if settings.maxDisplay.Some? then settings.maxDisplay.value else p.maxDisplay) &&
            r.value.trainingCases == s.trainingCases && r.value.currentTraining == s.currentTraining
  {
  }

  /**
   * `start_training` moves to loading; `data_loaded` (from either options
   * sub-phase) stores the cases, clears the current training, keeps the
   * parameters and moves to training/idle.
   */
  lemma OptionsTransitions(s: AppState, data: seq<Case>)
    requires s.state.Options?
    ensures StateReducer(s, StartTraining) == Ok(s.(state := Options(LoadingData)))
    ensures var r := StateReducer(s, DataLoaded(data));
            r.Ok? && r.value.state == Training(Idle) && r.value.trainingCases == Some(data) &&
            r.value.currentTraining.None? && r.value.trainingParameters == s.trainingParameters
  {
  }

  /**
   * From any training sub-phase: a case selection becomes the active training;
   * `see_solutions` reveals without touching the training or the cases;
   * `change_options` returns to the options keeping cases and parameters.
   */
  lemma TrainingTransitions(s: AppState, c: Case, setup: string)
    requires s.state.Training?
    ensures var r := StateReducer(s, SetTrainingCase(c, setup));
            r.Ok? && r.value.state == Training(Active) &&
            r.value.currentTraining == Some(CurrentTraining(c, setup)) &&
            r.value.trainingCases == s.trainingCases && r.value.trainingParameters == s.trainingParameters
    ensures var r := StateReducer(s, SeeSolutions);
            r.Ok? && r.value.state == Training(ShowingSolution) &&
            r.value.currentTraining == s.currentTraining &&
            r.value.trainingCases == s.trainingCases && r.value.trainingParameters == s.trainingParameters
    ensures var r := StateReducer(s, ChangeOptions);
            r.Ok? && r.value.state == Options(Editing) && r.value.currentTraining == s.currentTraining &&
            r.value.trainingCases == s.trainingCases && r.value.trainingParameters == s.trainingParameters
  {
  }

  /** `useCurrentTraining`, read as a getter: nothing outside training or while idle. */
  function UseCurrentTraining(s: AppState): (r: Option<CurrentTraining>)
    ensures !s.state.Training? || s.state.trainingStep == Idle ==> r.None?
    ensures s.state.Training? && s.state.trainingStep != Idle ==> r == s.currentTraining
  {
    if !s.state.Training? || s.state.trainingStep == Idle then None else s.currentTraining
  }

  // ---------------------------------------------------------------------------
  // Runs of the machine
  // ---------------------------------------------------------------------------

  /** Dispatching the actions in order; the first throw ends the run. */
  function Run(s: AppState, actions: seq<AppStateAction>): Result<AppState, AppError>
    decreases |actions|
  {
    if |actions| == 0 then Ok(s)
    else
      match StateReducer(s, actions[0])
      case Err(e) => Err(e)
      case Ok(t) => Run(t, actions[1..])
  }

  /**
   * What the reducer keeps true: cases are loaded in every training sub-phase,
   * idle has no current training, and an active training always has one.
   */
  predicate Invariant(s: AppState)
  {
    (s.state.Training? ==> s.trainingCases.Some?) &&
    (s.state == Training(Idle) ==> s.currentTraining.None?) &&
    (s.state == Training(Active) ==> s.currentTraining.Some?)
  }

  lemma StepKeepsInvariant(s: AppState, a: AppStateAction)
    requires Invariant(s)
    ensures StateReducer(s, a).Ok? ==> Invariant(StateReducer(s, a).value)
  {
  }

  /** Every state a run from the initial state reaches keeps the invariant. */
  lemma {:induction false} RunKeepsInvariant(s: AppState, actions: seq<AppStateAction>)
    requires Invariant(s)
    ensures Run(s, actions).Ok? ==> Invariant(Run(s, actions).value)
    decreases |actions|
  {
    if |actions| > 0 && StateReducer(s, actions[0]).Ok? {
      StepKeepsInvariant(s, actions[0]);
      RunKeepsInvariant(StateReducer(s, actions[0]).value, actions[1..]);
    }
  }

  lemma ReachableKeepsInvariant(actions: seq<AppStateAction>)
    ensures Run(InitialAppState(), actions).Ok? ==> Invariant(Run(InitialAppState(), actions).value)
  {
    RunKeepsInvariant(InitialAppState(), actions);
  }

  /**
   * Because the reducer looks only at the phase, `see_solutions` from idle is
   * accepted: the solution is shown with no current training, and a stale
   * training survives `change_options` into the options phase.
   */
  lemma SubPhaseIgnoredExamples(c: Case)
    ensures var r := Run(InitialAppState(), [FinishedInit, StartTraining, DataLoaded([]), SeeSolutions]);
            r.Ok? && r.value.state == Training(ShowingSolution) && r.value.currentTraining.None? &&
            UseCurrentTraining(r.value).None?
    ensures var r := Run(InitialAppState(), [FinishedInit, DataLoaded([c]), SetTrainingCase(c, "R"), ChangeOptions]);
            r.Ok? && r.value.state == Options(Editing) && r.value.currentTraining == Some(CurrentTraining(c, "R"))
  {
    var s0 := InitialAppState();
    var s1 := s0.(state := Options(Editing));
    var s2 := s1.(state := Training(Idle), trainingCases := Some([c]), currentTraining := None);
    var s3 := s2.(state := Training(Active), currentTraining := Some(CurrentTraining(c, "R")));
    var s4 := s3.(state := Options(Editing));
    var actions := [FinishedInit, DataLoaded([c]), SetTrainingCase(c, "R"), ChangeOptions];
    assert Run(s3, actions[3..]) == Ok(s4);
    assert Run(s2, actions[2..]) == Ok(s4);
    assert Run(s1, actions[1..]) == Ok(s4);
  }

  // ---------------------------------------------------------------------------
  // The provider's loading step and the random case
  // ---------------------------------------------------------------------------

  /**
   * The check the provider makes while rendering: in options/loading_data it
   * runs the query with the current parameters and dispatches `data_loaded`.
   */
  function LoadingStep(s: AppState, data: Option<Data>): Result<AppState, AppError>
    requires data.Some? ==> Consistent(data.value)
  {
    if s.state == Options(LoadingData) then
      var p := s.trainingParameters;
      match GetCases(data, p.maxLength, p.maxTrigger, p.minTrigger)
      case Err(_) => Err(DbNotLoaded)
      case Ok(cases) => StateReducer(s, DataLoaded(cases))
    else
      Ok(s)
  }

  /**
   * While loading, the step stores the query result for the current parameters
   * as the training cases and moves to training/idle; it throws if the file is
   * not loaded; in any other state it does nothing.
   */
  lemma LoadingStepStoresQuery(s: AppState, data: Option<Data>)
    requires data.Some? ==> Consistent(data.value)
    ensures s.state != Options(LoadingData) ==> LoadingStep(s, data) == Ok(s)
    ensures s.state == Options(LoadingData) && data.None? ==> LoadingStep(s, data) == Err(DbNotLoaded)
    ensures s.state == Options(LoadingData) && data.Some? ==>
              var p := s.trainingParameters;
              var r := LoadingStep(s, data);
              r.Ok? && r.value.state == Training(Idle) &&
              r.value.trainingCases == Some(GetCases(data, p.maxLength, p.maxTrigger, p.minTrigger).value) &&
              r.value.currentTraining.None? && r.value.trainingParameters == p
  {
  }

  /**
   * The index `Math.floor(Math.random() * n)` can take: below n, and 0 when the
   * list is empty.
   */
  predicate DrawInRange(s: AppState, i: nat)
  {
    s.trainingCases.Some? ==> i == 0 || i < |s.trainingCases.value|
  }

  /**
   * The function `useDispatchRandomCase` returns, given the index draw, the
   * setup-move draws and the cube library's move-then-solve as `solve`: it picks
   * a case, builds the scramble input from its first solution and a random
   * state, and dispatches `set_training_case` with the solver's answer.
   */
  function DispatchRandomCase(s: AppState, i: nat, choices: seq<nat>, solve: string -> string): Result<AppState, AppError>
    requires DrawInRange(s, i) && ValidChoices(choices)
  {
    if s.state.Setup? then Err(DataNotInitialized)
    else if s.trainingCases.None? then Err(TrainingCasesUndefined)
    else if i >= |s.trainingCases.value| then Err(NoCaseAtIndex)
    else
      var c := s.trainingCases.value[i];
      if |c.solutions| == 0 then Err(NoSolution)
      else StateReducer(s, SetTrainingCase(c, solve(c.solutions[0].solution + " " + DrState(choices))))
  }

  /**
   * Selection throws in setup; it succeeds exactly in a training phase with a
   * case at the drawn index that has a solution, and then activates that case
   * with the solver's answer for its first solution followed by the random state.
   * With cases loaded but the phase back in options, the reducer throws.
   */
  lemma DispatchRandomCaseOutcome(s: AppState, i: nat, choices: seq<nat>, solve: string -> string)
    requires DrawInRange(s, i) && ValidChoices(choices)
    ensures s.state.Setup? ==> DispatchRandomCase(s, i, choices, solve) == Err(DataNotInitialized)
    ensures DispatchRandomCase(s, i, choices, solve).Ok? <==>
              s.state.Training? && s.trainingCases.Some? && i < |s.trainingCases.value| &&
              |s.trainingCases.value[i].solutions| > 0
    ensures DispatchRandomCase(s, i, choices, solve).Ok? ==>
              var c := s.trainingCases.value[i];
              DispatchRandomCase(s, i, choices, solve).value ==
                s.(state := Training(Active),
                   currentTraining := Some(CurrentTraining(c, solve(c.solutions[0].solution + " " + DrState(choices)))))
    ensures s.state.Options? && s.trainingCases.Some? && i < |s.trainingCases.value| &&
            |s.trainingCases.value[i].solutions| > 0 ==>
              DispatchRandomCase(s, i, choices, solve) == Err(InvalidAppState)
    ensures Invariant(s) && s.state.Training? ==> DispatchRandomCase(s, i, choices, solve) != Err(TrainingCasesUndefined)
  {
  }

  /** With a single candidate the selection always picks it. */
  lemma SingletonCandidate(s: AppState, i: nat, choices: seq<nat>, solve: string -> string, c: Case)
    requires s.state.Training? && s.trainingCases == Some([c]) && |c.solutions| > 0
    requires DrawInRange(s, i) && ValidChoices(choices)
    ensures var r := DispatchRandomCase(s, i, choices, solve);
            r.Ok? && UseCurrentTraining(r.value).Some? && UseCurrentTraining(r.value).value.trainingCase == c
  {
  }

  /**
   * A session: from options/options, start, load the query's cases, pick a case
   * and reveal it; what the getter returns survives the reveal unchanged.
   */
  lemma TrainingSession(s: AppState, data: Data, i: nat, choices: seq<nat>, solve: string -> string)
    requires s.state == Options(Editing) && Consistent(data) && ValidChoices(choices)
    ensures var loading := StateReducer(s, StartTraining);
            loading.Ok? && loading.value.state == Options(LoadingData) &&
            var idle := LoadingStep(loading.value, Some(data));
            idle.Ok? && idle.value.state == Training(Idle) &&
            (DrawInRange(idle.value, i) ==>
              var active := DispatchRandomCase(idle.value, i, choices, solve);
              active.Ok? ==>
                var shown := StateReducer(active.value, SeeSolutions);
                shown.Ok? && shown.value.state == Training(ShowingSolution) &&
                UseCurrentTraining(shown.value) == UseCurrentTraining(active.value) &&
                UseCurrentTraining(shown.value).Some?)
  {
  }
}
