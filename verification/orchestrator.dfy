/**
 * `GeneratorUI.generate_map`: validate the request, enqueue on the public
 * server, wait for a turn, drive the generation engine through its stages,
 * previews and packing inside a `try`, and release the queue slot in the
 * `finally`. The queuing module, the engine and the JSON parser are
 * collaborators whose behaviour is given as data.
 */
module Orchestrator {
  import opened Wrappers
  import Validation
  import PublicLimits
  import Progress

  /** How one call of `generate_map` ends. */
  datatype Outcome =
    | Rejected(msg: string)       // an error message is shown and nothing is queued
    | Succeeded(archive: string)  // the archive was packed
    | Failed(msg: string)         // an exception was caught by the `try`
    | Raised(error: string)       // an exception left `generate_map` uncaught

  /** The observable effects of a run, in order: calls into the queuing
      module, queue positions shown, and progress-bar updates. */
  datatype Event =
    | Enqueue(session: string)
    | Position(rank: nat)
    | Reported(report: Progress.Report)
    | Dequeue(session: string)

  /** The state `generate_map` hands to the download code: the persisted
      `generated` flag and the per-run `download_path`. */
  datatype Session = Session(generated: bool, downloadPath: Option<string>)

  /** What the form collected. Empty schema texts stand for "not given"
      (Python treats `None` and `""` alike in `if self.texture_schema_input`). */
  datatype Request = Request(
    coordinates: string,
    mapSize: string,
    expertMode: bool,
    rawConfig: string,
    formSettings: PublicLimits.Settings,
    customSchemas: bool,
    textureSchema: string,
    treeSchema: string)

  /** Where, if anywhere, the engine raises once the `try` is entered. */
  datatype Fault =
    | NoFault
    | StageFault(error: string)    // the stage generator raised after yielding its `stages`
    | PreviewFault(error: string)  // showing the previews raised
    | PackFault(error: string)     // packing the archive raised

  /** The generation engine as seen by `generate_map`. */
  datatype Engine = Engine(
    components: nat,                // `len(game.components)`
    settingsError: Option<string>,  // `SettingsModel.all_settings_from_json` raised
    constructError: Option<string>, // the `Map(...)` constructor raised
    stages: seq<string>,            // stage names yielded by `generate()`
    fault: Fault,
    archive: string)                // the path `pack` returns

  /** What `wait_in_queue` yields, and whether it raises afterwards. */
  datatype Waiting = Waiting(positions: seq<nat>, error: Option<string>)

  /** Python's `json.loads` as used for the raw configuration (`Failure` holds
      `repr` of the decode error) and for the schemas (`Some` holds it). */
  datatype Parsers = Parsers(
    parseFloat: Validation.FloatParser,
    parseInt: Validation.IntParser,
    loadSettings: string -> Result<PublicLimits.Settings, string>,
    schemaError: string -> Option<string>)

  /** Everything outside the request that a run depends on. */
  datatype World = World(
    public: bool,
    sessionName: string,
    parsers: Parsers,
    waiting: Waiting,
    engine: Engine)

  function RawConfigMsg(e: string): string { "Invalid raw configuration was provided: " + e }
  function TextureSchemaMsg(e: string): string { "Invalid texture schema was provided: " + e }
  function TreeSchemaMsg(e: string): string { "Invalid tree schema was provided: " + e }
  function FailureMsg(e: string): string { "An error occurred while generating the map: " + e + "." }

  /** Why validation stopped: a message shown to the user, or an exception
      that leaves `generate_map`. */
  datatype Stop = Reject(msg: string) | Raise(error: string)

  /** The settings before the public limits: the form's, or the raw JSON. */
  function LoadSettings(req: Request, p: Parsers): Result<PublicLimits.Settings, string>
  {
    if req.expertMode then p.loadSettings(req.rawConfig) else Success(req.formSettings)
  }

  /** A schema is parsed only when custom schemas are on and its text is non-empty. */
  function SchemaCheck(enabled: bool, text: string, schemaError: string -> Option<string>): (r: Option<string>)
    ensures r.Some? <==> enabled && |text| > 0 && schemaError(text).Some?
    ensures r.Some? ==> r == schemaError(text)
  {
    if enabled && |text| > 0 then schemaError(text) else None
  }

  /** The coordinates as parsed by the `lat_lon` property. */
  function Coordinates(req: Request, w: World): Option<(real, real)>
  {
    Validation.ParseCoordinates(req.coordinates, w.parsers.parseFloat)
  }

  /** The map-size check on the `map_size` property. */
  function SizeCheck(req: Request, w: World): Result<int, string>
  {
    Validation.CheckMapSize(req.mapSize, w.parsers.parseInt)
  }

  /** The settings as loaded from the raw configuration or the form. */
  function Loaded(req: Request, w: World): Result<PublicLimits.Settings, string>
  {
    LoadSettings(req, w.parsers)
  }

  /** The loaded settings after `limit_on_public`. */
  function Limited(req: Request, w: World): Result<PublicLimits.Settings, string>
    requires Loaded(req, w).Success?
  {
    PublicLimits.LimitOnPublic(w.public, Loaded(req, w).value)
  }

  /** The texture schema's parse error, when it is checked and fails. */
  function TextureError(req: Request, w: World): Option<string>
  {
    SchemaCheck(req.customSchemas, req.textureSchema, w.parsers.schemaError)
  }

  /** The tree schema's parse error, when it is checked and fails. */
  function TreeError(req: Request, w: World): Option<string>
  {
    SchemaCheck(req.customSchemas, req.treeSchema, w.parsers.schemaError)
  }

  /** Coordinates parse, the size is accepted and the settings load. */
  predicate SettingsLoaded(req: Request, w: World)
  {
    Coordinates(req, w).Some? && SizeCheck(req, w).Success? && Loaded(req, w).Success?
  }

  /** The settings load and the public-server limits apply without a KeyError. */
  predicate LimitsHold(req: Request, w: World)
  {
    SettingsLoaded(req, w) && Limited(req, w).Success?
  }

  /** Every check before the queue passes. */
  predicate Accepted(req: Request, w: World)
  {
    && LimitsHold(req, w)
    && w.engine.settingsError.None?
    && TextureError(req, w).None?
    && TreeError(req, w).None?
    && w.engine.constructError.None?
  }

  /** Everything `generate_map` checks before the queue, in source order; the
      first check that fails decides the result. On success the validated
      side length is returned. */
  function Validate(req: Request, w: World): (r: Result<int, Stop>)
    ensures r.Success? <==> Accepted(req, w)
    ensures r.Success? ==> SizeCheck(req, w) == Success(r.value)
    ensures Coordinates(req, w).None? ==>
      r == Failure(Reject(Validation.InvalidCoordinatesMsg))
    ensures Coordinates(req, w).Some? && SizeCheck(req, w).Failure? ==>
      r == Failure(Reject(SizeCheck(req, w).error))
    ensures Coordinates(req, w).Some? && SizeCheck(req, w).Success? && Loaded(req, w).Failure? ==>
      req.expertMode && r == Failure(Reject(RawConfigMsg(Loaded(req, w).error)))
    ensures SettingsLoaded(req, w) && Limited(req, w).Failure? ==>
      r == Failure(Raise(Limited(req, w).error))
    ensures LimitsHold(req, w) && w.engine.settingsError.Some? ==>
      r == Failure(Raise(w.engine.settingsError.value))
    ensures LimitsHold(req, w) && w.engine.settingsError.None? && TextureError(req, w).Some? ==>
      r == Failure(Reject(TextureSchemaMsg(TextureError(req, w).value)))
    ensures LimitsHold(req, w) && w.engine.settingsError.None? && TextureError(req, w).None? &&
            TreeError(req, w).Some? ==>
      r == Failure(Reject(TreeSchemaMsg(TreeError(req, w).value)))
    ensures LimitsHold(req, w) && w.engine.settingsError.None? && TextureError(req, w).None? &&
            TreeError(req, w).None? && w.engine.constructError.Some? ==>
      r == Failure(Raise(w.engine.constructError.value))
    // Which messages can be shown, and that exceptions come only after the settings load.
    ensures r.Failure? && r.error.Reject? ==>
      r.error.msg in {Validation.InvalidCoordinatesMsg, Validation.InvalidSizeMsg, Validation.OddSizeMsg, Validation.NonSquareMsg}
      || (req.expertMode && Loaded(req, w).Failure? && r.error.msg == RawConfigMsg(Loaded(req, w).error))
      || (TextureError(req, w).Some? && r.error.msg == TextureSchemaMsg(TextureError(req, w).value))
      || (TreeError(req, w).Some? && r.error.msg == TreeSchemaMsg(TreeError(req, w).value))
    ensures r.Failure? && r.error.Raise? ==> SizeCheck(req, w).Success? && Loaded(req, w).Success?
  {
    var p := w.parsers;
    if Validation.ParseCoordinates(req.coordinates, p.parseFloat).None? then
      Failure(Reject(Validation.InvalidCoordinatesMsg))
    else match Validation.CheckMapSize(req.mapSize, p.parseInt)
      case Failure(msg) => Failure(Reject(msg))
      case Success(side) =>
        var loaded := LoadSettings(req, p);
        if loaded.Failure? then Failure(Reject(RawConfigMsg(loaded.error)))
        else match PublicLimits.LimitOnPublic(w.public, loaded.value)
          case Failure(keyError) => Failure(Raise(keyError))
          case Success(_) =>
            if w.engine.settingsError.Some? then Failure(Raise(w.engine.settingsError.value))
            else if SchemaCheck(req.customSchemas, req.textureSchema, p.schemaError).Some? then
              Failure(Reject(TextureSchemaMsg(SchemaCheck(req.customSchemas, req.textureSchema, p.schemaError).value)))
            else if SchemaCheck(req.customSchemas, req.treeSchema, p.schemaError).Some? then
              Failure(Reject(TreeSchemaMsg(SchemaCheck(req.customSchemas, req.treeSchema, p.schemaError).value)))
            else if w.engine.constructError.Some? then Failure(Raise(w.engine.constructError.value))
            else Success(side)
  }

  /** How far the progress reports get for a given fault. */
  function ReachedBy(f: Fault): Progress.Reached
  {
    match f
    case StageFault(_) => Progress.StagesOnly
    case PreviewFault(_) => Progress.UpToPreviews
    case _ => Progress.UpToPacking
  }

  /** The body of the `try` and its `except`. */
  datatype Attempt = Attempt(outcome: Outcome, reports: seq<Progress.Report>, session: Session)

  function Drive(st: Session, e: Engine): (a: Attempt)
    ensures a.outcome.Succeeded? || a.outcome.Failed?
    ensures a.outcome.Succeeded? <==> e.fault.NoFault?
    ensures a.outcome.Succeeded? ==> a.outcome.archive == e.archive && a.session == Session(true, Some(e.archive))
    ensures a.outcome.Failed? ==> a.session == st && a.outcome.msg == FailureMsg(e.fault.error)
    ensures a.reports == Progress.Reports(e.stages, e.components, ReachedBy(e.fault))
  {
    var reports := Progress.Reports(e.stages, e.components, ReachedBy(e.fault));
    match e.fault
    case NoFault => Attempt(Succeeded(e.archive), reports, Session(true, Some(e.archive)))
    case StageFault(err) => Attempt(Failed(FailureMsg(err)), reports, st)
    case PreviewFault(err) => Attempt(Failed(FailureMsg(err)), reports, st)
    case PackFault(err) => Attempt(Failed(FailureMsg(err)), reports, st)
  }

  function PositionEvents(ps: seq<nat>): (es: seq<Event>)
    ensures |es| == |ps|
    ensures forall i :: 0 <= i < |ps| ==> es[i] == Position(ps[i])
  {
    seq(|ps|, i requires 0 <= i < |ps| => Position(ps[i]))
  }

  function ReportEvents(rs: seq<Progress.Report>): (es: seq<Event>)
    ensures |es| == |rs|
    ensures forall i :: 0 <= i < |rs| ==> es[i] == Reported(rs[i])
  {
    seq(|rs|, i requires 0 <= i < |rs| => Reported(rs[i]))
  }

  /** The progress-bar updates among `events`, in order. */
  function ProgressShown(events: seq<Event>): seq<Progress.Report>
  {
    if |events| == 0 then []
    else (if events[0].Reported? then [events[0].report] else []) + ProgressShown(events[1..])
  }

  /** The queue positions among `events`, in order. */
  function PositionsShown(events: seq<Event>): seq<nat>
  {
    if |events| == 0 then []
    else (if events[0].Position? then [events[0].rank] else []) + PositionsShown(events[1..])
  }

  /** Every queue position shown comes before every progress update. */
  predicate PositionsBeforeReports(events: seq<Event>)
  {
    forall i, j :: 0 <= i < |events| && 0 <= j < |events| && events[i].Position? && events[j].Reported? ==> i < j
  }

  /** No enqueue or release call occurs in `events`. */
  predicate NoQueueCalls(events: seq<Event>)
  {
    forall i :: 0 <= i < |events| ==> !events[i].Enqueue? && !events[i].Dequeue?
  }

  /** Events before the `try`: the enqueue and the positions shown while waiting. */
  function Queued(public: bool, n: string, ps: seq<nat>): seq<Event>
  {
    if public then [Enqueue(n)] + PositionEvents(ps) else []
  }

  /** The `finally`: the queue slot is released on the public server. */
  function Released(public: bool, n: string): seq<Event>
  {
    if public then [Dequeue(n)] else []
  }

  lemma NoQueueCallsCount(es: seq<Event>, n: string)
    requires NoQueueCalls(es)
    ensures multiset(es)[Enqueue(n)] == 0 && multiset(es)[Dequeue(n)] == 0
  {
    assert Enqueue(n) !in es;
    assert Dequeue(n) !in es;
  }

  lemma WaitingQueueCalls(n: string, ps: seq<nat>)
    ensures Queued(true, n, ps)[0] == Enqueue(n)
    ensures NoQueueCalls(Queued(true, n, ps)[1..])
    ensures Enqueue(n) in Queued(true, n, ps)
    ensures Dequeue(n) !in Queued(true, n, ps)
  {
    assert Queued(true, n, ps)[1..] == PositionEvents(ps);
    assert NoQueueCalls(PositionEvents(ps));
  }

  /** The events of a run that entered the `try` on the public server hold
      one enqueue, first, and one release, last. */
  lemma PublicTryQueueCalls(n: string, ps: seq<nat>, rs: seq<Progress.Report>)
    ensures var es := Queued(true, n, ps) + ReportEvents(rs) + Released(true, n);
      && multiset(es)[Enqueue(n)] == 1
      && multiset(es)[Dequeue(n)] == 1
      && es[0] == Enqueue(n) && es[|es| - 1] == Dequeue(n)
      && NoQueueCalls(es[1..|es| - 1])
  {
    var middle := PositionEvents(ps) + ReportEvents(rs);
    assert NoQueueCalls(middle) by {
      assert NoQueueCalls(PositionEvents(ps));
      assert NoQueueCalls(ReportEvents(rs));
    }
    var es := Queued(true, n, ps) + ReportEvents(rs) + Released(true, n);
    assert es == [Enqueue(n)] + middle + [Dequeue(n)] by {
      assert Queued(true, n, ps) == [Enqueue(n)] + PositionEvents(ps);
      assert Released(true, n) == [Dequeue(n)];
    }
    BracketCounts(n, middle);
  }

  /** A stretch without queue calls between one enqueue and one release. */
  lemma BracketCounts(n: string, middle: seq<Event>)
    requires NoQueueCalls(middle)
    ensures var es := [Enqueue(n)] + middle + [Dequeue(n)];
      && multiset(es)[Enqueue(n)] == 1
      && multiset(es)[Dequeue(n)] == 1
      && es[0] == Enqueue(n) && es[|es| - 1] == Dequeue(n)
      && es[1..|es| - 1] == middle
  {
    NoQueueCallsCount(middle, n);
    var es := [Enqueue(n)] + middle + [Dequeue(n)];
    assert multiset(es) == multiset{Enqueue(n)} + multiset(middle) + multiset{Dequeue(n)};
  }

  /** Off the public server a run makes no queue call at all. */
  lemma PrivateTryQueueCalls(n: string, ps: seq<nat>, rs: seq<Progress.Report>)
    ensures var es := Queued(false, n, ps) + ReportEvents(rs) + Released(false, n);
      && multiset(es)[Enqueue(n)] == 0
      && multiset(es)[Dequeue(n)] == 0
      && NoQueueCalls(es)
  {
    var es := Queued(false, n, ps) + ReportEvents(rs) + Released(false, n);
    assert es == ReportEvents(rs);
    assert NoQueueCalls(es);
    NoQueueCallsCount(es, n);
  }

  /** One call of `generate_map`. */
  datatype Run = Run(outcome: Outcome, events: seq<Event>, session: Session)

  /** `generate_map` after validation passed: enqueue and wait on the public
      server, then the `try`/`except`/`finally` around the engine. */
  function QueueAndGenerate(st: Session, w: World): (r: Run)
    // Once the `try` is entered the slot is released exactly once, last.
    ensures r.outcome.Succeeded? || r.outcome.Failed? ==>
      && multiset(r.events)[Enqueue(w.sessionName)] == (if w.public then 1 else 0)
      && multiset(r.events)[Dequeue(w.sessionName)] == (if w.public then 1 else 0)
      && (w.public ==> r.events[0] == Enqueue(w.sessionName) && r.events[|r.events| - 1] == Dequeue(w.sessionName))
      && (w.public ==> NoQueueCalls(r.events[1..|r.events| - 1]))
      && (!w.public ==> NoQueueCalls(r.events))
    // Only a failure of the wait loop escapes, and it releases nothing.
    ensures r.outcome.Raised? <==> w.public && w.waiting.error.Some?
    ensures r.outcome.Raised? ==>
      r.outcome.error == w.waiting.error.value &&
      Enqueue(w.sessionName) in r.events && Dequeue(w.sessionName) !in r.events &&
      r.events[0] == Enqueue(w.sessionName) && NoQueueCalls(r.events[1..])
    ensures w.public <==> Enqueue(w.sessionName) in r.events
    // `generated` and `download_path` are set only after packing returns.
    ensures r.outcome.Succeeded? <==> !(w.public && w.waiting.error.Some?) && w.engine.fault.NoFault?
    ensures r.outcome.Succeeded? ==> r.outcome.archive == w.engine.archive && r.session == Session(true, Some(w.engine.archive))
    ensures !r.outcome.Succeeded? ==> r.session == st
    ensures r.outcome.Failed? ==> r.outcome.msg == FailureMsg(w.engine.fault.error)
    ensures !r.outcome.Rejected?
  {
    var n := w.sessionName;
    var queued := Queued(w.public, n, w.waiting.positions);
    if w.public && w.waiting.error.Some? then
      WaitingQueueCalls(n, w.waiting.positions);
      Run(Raised(w.waiting.error.value), queued, st)
    else
      var a := Drive(st, w.engine);
      var events := queued + ReportEvents(a.reports) + Released(w.public, n);
      if w.public then
        PublicTryQueueCalls(n, w.waiting.positions, a.reports);
        Run(a.outcome, events, a.session)
      else
        PrivateTryQueueCalls(n, w.waiting.positions, a.reports);
        Run(a.outcome, events, a.session)
  }

  function GenerateMap(st: Session, req: Request, w: World): (r: Run)
    // Every early return happens before anything is queued or changed.
    ensures Validate(req, w).Failure? ==>
      && r.events == [] && r.session == st
      && r.outcome == (match Validate(req, w).error
                       case Reject(msg) => Rejected(msg)
                       case Raise(err) => Raised(err))
    // The session is queued iff the server is public and validation passed.
    ensures Enqueue(w.sessionName) in r.events <==> w.public && Validate(req, w).Success?
    ensures r.outcome.Rejected? ==> r.events == [] && r.session == st
    ensures r.outcome.Succeeded? ==> Validate(req, w).Success? && r.session.generated
    // A generation succeeds iff validation and the wait pass and the engine
    // does not raise; only then do `generated` and `download_path` change.
    ensures r.outcome.Succeeded? <==>
      Validate(req, w).Success? && !(w.public && w.waiting.error.Some?) && w.engine.fault.NoFault?
    ensures r.outcome.Succeeded? ==>
      r.outcome.archive == w.engine.archive && r.session == Session(true, Some(w.engine.archive))
    ensures !r.outcome.Succeeded? ==> r.session == st
    ensures r.outcome.Failed? ==> !w.engine.fault.NoFault? && r.outcome.msg == FailureMsg(w.engine.fault.error)
    // Once the `try` is entered the slot is taken once, first, and released
    // once, last, by the `finally`, with no other queue call in between.
    ensures Validate(req, w).Success? && !(w.public && w.waiting.error.Some?) ==>
      && (r.outcome.Succeeded? || r.outcome.Failed?)
      && multiset(r.events)[Enqueue(w.sessionName)] == (if w.public then 1 else 0)
      && multiset(r.events)[Dequeue(w.sessionName)] == (if w.public then 1 else 0)
      && (w.public ==> r.events[0] == Enqueue(w.sessionName) && r.events[|r.events| - 1] == Dequeue(w.sessionName))
      && (w.public ==> NoQueueCalls(r.events[1..|r.events| - 1]))
      && (!w.public ==> NoQueueCalls(r.events))
    // A failure of the wait loop escapes with the slot still taken.
    ensures Validate(req, w).Success? && w.public && w.waiting.error.Some? ==>
      && r.outcome == Raised(w.waiting.error.value)
      && r.events[0] == Enqueue(w.sessionName) && NoQueueCalls(r.events[1..])
  {
    match Validate(req, w)
    case Failure(Reject(msg)) => Run(Rejected(msg), [], st)
    case Failure(Raise(err)) => Run(Raised(err), [], st)
    case Success(_) => QueueAndGenerate(st, w)
  }

  lemma {:induction false} ProgressShownAppend(a: seq<Event>, b: seq<Event>)
    ensures ProgressShown(a + b) == ProgressShown(a) + ProgressShown(b)
    decreases |a|
  {
    if |a| == 0 {
      assert a + b == b;
    } else {
      assert (a + b)[0] == a[0];
      assert (a + b)[1..] == a[1..] + b;
      ProgressShownAppend(a[1..], b);
    }
  }

  lemma {:induction false} PositionsShownAppend(a: seq<Event>, b: seq<Event>)
    ensures PositionsShown(a + b) == PositionsShown(a) + PositionsShown(b)
    decreases |a|
  {
    if |a| == 0 {
      assert a + b == b;
    } else {
      assert (a + b)[0] == a[0];
      assert (a + b)[1..] == a[1..] + b;
      PositionsShownAppend(a[1..], b);
    }
  }

  lemma {:induction false} ProgressShownOfReports(rs: seq<Progress.Report>)
    ensures ProgressShown(ReportEvents(rs)) == rs
    ensures PositionsShown(ReportEvents(rs)) == []
    decreases |rs|
  {
    if |rs| > 0 {
      assert ReportEvents(rs)[1..] == ReportEvents(rs[1..]);
      ProgressShownOfReports(rs[1..]);
    }
  }

  lemma {:induction false} PositionsShownOfPositions(ps: seq<nat>)
    ensures PositionsShown(PositionEvents(ps)) == ps
    ensures ProgressShown(PositionEvents(ps)) == []
    decreases |ps|
  {
    if |ps| > 0 {
      assert PositionEvents(ps)[1..] == PositionEvents(ps[1..]);
      PositionsShownOfPositions(ps[1..]);
    }
  }

  /** A run that enters the `try` shows every queue position `wait_in_queue`
      yielded (public server only), then exactly the progress values of the
      stage loop and of the finishing steps it reached. */
  lemma RunShowsProgress(st: Session, w: World)
    requires !(w.public && w.waiting.error.Some?)
    ensures var r := QueueAndGenerate(st, w);
      && PositionsShown(r.events) == (if w.public then w.waiting.positions else [])
      && ProgressShown(r.events) == Progress.Reports(w.engine.stages, w.engine.components, ReachedBy(w.engine.fault))
      && PositionsBeforeReports(r.events)
  {
    var rs := Drive(st, w.engine).reports;
    assert QueueAndGenerate(st, w).events ==
      Queued(w.public, w.sessionName, w.waiting.positions) + ReportEvents(rs) + Released(w.public, w.sessionName);
    TryEventsShown(w.public, w.sessionName, w.waiting.positions, rs);
    TryEventsOrdered(w.public, w.sessionName, w.waiting.positions, rs);
  }

  /** In the events of a run the wait loop's positions precede the `try`'s
      progress updates. */
  lemma TryEventsOrdered(public: bool, n: string, ps: seq<nat>, rs: seq<Progress.Report>)
    ensures PositionsBeforeReports(Queued(public, n, ps) + ReportEvents(rs) + Released(public, n))
  {
    var queued := Queued(public, n, ps);
    var es := queued + ReportEvents(rs) + Released(public, n);
    assert forall k :: 0 <= k < |queued| ==> !queued[k].Reported? by {
      if public {
        assert forall k :: 1 <= k < |queued| ==> queued[k] == PositionEvents(ps)[k - 1];
      }
    }
    assert forall k :: 0 <= k < |queued| ==> es[k] == queued[k];
    assert forall k :: |queued| <= k < |queued| + |rs| ==> es[k] == ReportEvents(rs)[k - |queued|];
    assert forall k :: |queued| + |rs| <= k < |es| ==> es[k] == Released(public, n)[k - |queued| - |rs|];
    assert PositionsBeforeReports(es);
  }

  lemma TryEventsShown(public: bool, n: string, ps: seq<nat>, rs: seq<Progress.Report>)
    ensures var es := Queued(public, n, ps) + ReportEvents(rs) + Released(public, n);
      && PositionsShown(es) == (if public then ps else [])
      && ProgressShown(es) == rs
  {
    var queued := Queued(public, n, ps);
    var released := Released(public, n);
    ProgressShownAppend(queued + ReportEvents(rs), released);
    ProgressShownAppend(queued, ReportEvents(rs));
    PositionsShownAppend(queued + ReportEvents(rs), released);
    PositionsShownAppend(queued, ReportEvents(rs));
    ProgressShownOfReports(rs);
    assert PositionsShown(released) == [] && ProgressShown(released) == [] by {
      if public {
        assert PositionsShown([Dequeue(n)]) == [] + PositionsShown([]);
        assert ProgressShown([Dequeue(n)]) == [] + ProgressShown([]);
      }
    }
    assert PositionsShown(queued) == (if public then ps else []) && ProgressShown(queued) == [] by {
      if public {
        PositionsShownOfPositions(ps);
        PositionsShownAppend([Enqueue(n)], PositionEvents(ps));
        ProgressShownAppend([Enqueue(n)], PositionEvents(ps));
        assert PositionsShown([Enqueue(n)]) == [] + PositionsShown([]);
        assert ProgressShown([Enqueue(n)]) == [] + ProgressShown([]);
      }
    }
  }

  /** The progress values a run shows never decrease, and stay within
      0..100 when the engine yields no more stages than the game has
      components. */
  lemma RunProgressMonotone(st: Session, req: Request, w: World)
    requires GenerateMap(st, req, w).outcome.Succeeded? || GenerateMap(st, req, w).outcome.Failed?
    ensures var shown := ProgressShown(GenerateMap(st, req, w).events);
      forall i, j :: 0 <= i <= j < |shown| ==> shown[i].percent <= shown[j].percent
  {
    assert GenerateMap(st, req, w) == QueueAndGenerate(st, w);
    RunShowsProgress(st, w);
    Progress.ReportsNonDecreasing(w.engine.stages, w.engine.components, ReachedBy(w.engine.fault));
  }

  /** When the engine yields no more stages than the game has components,
      every progress value a run shows lies in 0..100. */
  lemma RunProgressWithinHundred(st: Session, req: Request, w: World)
    requires GenerateMap(st, req, w).outcome.Succeeded? || GenerateMap(st, req, w).outcome.Failed?
    requires |w.engine.stages| <= w.engine.components
    ensures var shown := ProgressShown(GenerateMap(st, req, w).events);
      forall i :: 0 <= i < |shown| ==> 0 <= shown[i].percent <= 100
  {
    assert GenerateMap(st, req, w) == QueueAndGenerate(st, w);
    RunShowsProgress(st, w);
    Progress.ReportsWithinHundred(w.engine.stages, w.engine.components, ReachedBy(w.engine.fault));
  }
}
