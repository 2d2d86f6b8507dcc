/**
 * The lower part of `GeneratorUI.add_left_widgets`: the Generate button with
 * its overload guard, the call to `generate_map`, and the download block that
 * offers the archive, schedules its deferred deletion and clears the
 * `generated` flag. Streamlit re-runs the script on every interaction, so a
 * fresh `GeneratorUI` starts each run with `download_path = None` while
 * `st.session_state.generated` carries over between runs.
 */
module Page {
  import opened Wrappers
  import PublicLimits
  import Orchestrator

  /** The `UnboundLocalError` raised where the sidebar reads `enable_debug`,
      which is assigned only off the public server (its message text depends
      on the Python version; only the exception and the variable are kept). */
  const UnboundDebugError := "UnboundLocalError('enable_debug')"

  /** `repr` of the `TypeError` that `open(None)` raises. */
  const OpenNoneError := "TypeError('expected str, bytes or os.PathLike object, not NoneType')"

  /** What the download block did: the path offered for download, the path
      handed to the deferred deletion, the `generated` flag afterwards, and an
      exception that left the block. */
  datatype HandOff = HandOff(offered: Option<string>, scheduled: Option<string>, generated: bool, error: Option<string>)

  function DownloadBlock(s: Orchestrator.Session): (h: HandOff)
    ensures !s.generated ==> h == HandOff(None, None, false, None)
    ensures s.generated && s.downloadPath.Some? ==>
      h.offered == s.downloadPath && h.scheduled == s.downloadPath && !h.generated && h.error.None?
    ensures s.generated && s.downloadPath.None? ==>
      h.offered.None? && h.scheduled.None? && h.generated && h.error == Some(OpenNoneError)
  {
    if !s.generated then HandOff(None, None, false, None)
    else match s.downloadPath
      case None => HandOff(None, None, true, Some(OpenNoneError))
      case Some(path) => HandOff(Some(path), Some(path), false, None)
  }

  /** One script run: the `generate_map` call if the button was pressed, and
      what the download block did. */
  datatype PageRun = PageRun(run: Option<Orchestrator.Run>, handOff: HandOff)

  /** The user's side of one script run and the world it meets. */
  datatype Interaction = Interaction(
    clicked: bool,
    queueLength: nat,             // `get_queue_length()` when the button is drawn
    onCommunityServer: bool,      // no Generate button at all
    request: Orchestrator.Request,
    world: Orchestrator.World)

  /** Whether `st.button(...)` returns true: drawn, enabled and clicked. */
  predicate Pressed(x: Interaction)
  {
    x.clicked && !x.onCommunityServer && !PublicLimits.GenerateButtonDisabled(x.world.public, x.queueLength)
  }

  /** One script run of `add_left_widgets` from the sidebar on, as intended:
      the sidebar's debug switch counts as off where it is not drawn (the
      public server), so the run reaches the Generate button. */
  function LeftColumn(generated: bool, x: Interaction): (p: PageRun)
    ensures p.run.Some? <==> Pressed(x)
    ensures p.run.Some? ==> p.run.value == Orchestrator.GenerateMap(Orchestrator.Session(generated, None), x.request, x.world)
    ensures x.world.public && x.queueLength >= PublicLimits.QueueLimit ==> p.run.None?
    // Starting from a cleared flag, the flag is cleared again afterwards,
    // and deletion is scheduled exactly when this run's generation succeeded,
    // for the archive it produced, which is also the one offered.
    ensures !generated ==> !p.handOff.generated
    ensures !generated ==>
      (p.handOff.scheduled.Some? <==> p.run.Some? && p.run.value.outcome.Succeeded?)
    ensures !generated && p.handOff.scheduled.Some? ==>
      p.handOff.scheduled == p.handOff.offered == Some(p.run.value.outcome.archive)
    // The same, in terms of the request and the world: deletion is scheduled
    // iff the button was pressed, every check and the wait passed and the
    // engine did not raise, and then it is the engine's archive.
    ensures !generated ==>
      (p.handOff.scheduled.Some? <==>
        && Pressed(x)
        && Orchestrator.Validate(x.request, x.world).Success?
        && !(x.world.public && x.world.waiting.error.Some?)
        && x.world.engine.fault.NoFault?)
    ensures !generated && p.handOff.scheduled.Some? ==> p.handOff.scheduled == Some(x.world.engine.archive)
    // The download block offers exactly what it schedules for deletion, and
    // offers something only after a generation succeeded in this run or a
    // flag was carried over.
    ensures p.handOff.offered == p.handOff.scheduled
    ensures p.handOff.offered.Some? ==> generated || (p.run.Some? && p.run.value.outcome.Succeeded?)
    // An exception from `generate_map` ends the page before the download
    // block, with the flag as it was.
    ensures p.run.Some? && p.run.value.outcome.Raised? ==>
      p.handOff == HandOff(None, None, generated, Some(p.run.value.outcome.error))
    // A flag left set by an earlier run has no path in a fresh run.
    ensures generated && !Pressed(x) ==> p.handOff.error == Some(OpenNoneError)
  {
    var initial := Orchestrator.Session(generated, None);
    if !Pressed(x) then PageRun(None, DownloadBlock(initial))
    else
      var r := Orchestrator.GenerateMap(initial, x.request, x.world);
      if r.outcome.Raised? then
        // The exception leaves `add_left_widgets`; the download block never runs.
        PageRun(Some(r), HandOff(None, None, r.session.generated, Some(r.outcome.error)))
      else
        PageRun(Some(r), DownloadBlock(r.session))
  }

  /** One script run of `add_left_widgets` from the sidebar on, as written:
      on the public server `enable_debug` is read without having been
      assigned, so the run raises before the Generate button and the download
      block exist; elsewhere it is the intended run. */
  function LeftColumnAsWritten(generated: bool, x: Interaction): (p: PageRun)
    ensures x.world.public ==>
      p.run.None? && p.handOff == HandOff(None, None, generated, Some(UnboundDebugError))
    ensures !x.world.public ==> p == LeftColumn(generated, x)
  {
    if x.world.public then PageRun(None, HandOff(None, None, generated, Some(UnboundDebugError)))
    else LeftColumn(generated, x)
  }

  /** The discrepancy: on the public server a pressed, enabled Generate
      button starts a generation in the intended run, but the run as written
      raises first and never calls `generate_map`. */
  lemma PublicPageNeverGenerates(generated: bool, x: Interaction)
    requires x.world.public && x.clicked && !x.onCommunityServer
    requires x.queueLength < PublicLimits.QueueLimit
    ensures LeftColumn(generated, x).run.Some?
    ensures LeftColumnAsWritten(generated, x).run.None?
    ensures LeftColumnAsWritten(generated, x).handOff.error == Some(UnboundDebugError)
  {
    assert Pressed(x);
  }

  /** A session's successive script runs, the flag carried from one to the next. */
  function Replay(generated: bool, xs: seq<Interaction>): (ps: seq<PageRun>)
    ensures |ps| == |xs|
    decreases |xs|
  {
    if |xs| == 0 then []
    else
      var p := LeftColumn(generated, xs[0]);
      [p] + Replay(p.handOff.generated, xs[1..])
  }

  predicate GenerationSucceeded(p: PageRun)
  {
    p.run.Some? && p.run.value.outcome.Succeeded?
  }

  /** A run that leaves the flag cleared, fails only by an exception from
      `generate_map`, offers exactly what it schedules for deletion, and
      schedules deletion exactly when its generation succeeded, for that
      generation's archive. */
  predicate CleanRun(p: PageRun)
  {
    && !p.handOff.generated
    && (p.handOff.error.Some? ==> p.run.Some? && p.run.value.outcome.Raised?)
    && p.handOff.offered == p.handOff.scheduled
    && (p.handOff.scheduled.Some? <==> GenerationSucceeded(p))
    && (GenerationSucceeded(p) ==> p.handOff.scheduled == Some(p.run.value.outcome.archive))
  }

  /** Over any sequence of runs of a new session, every run is the single
      run that starts from a cleared flag, every run ends with the flag
      cleared, the download block never fails, and deletion is scheduled
      in exactly the runs whose generation succeeded, once each, for that
      run's archive. */
  lemma {:induction false} ReplayDeletesOncePerSuccess(xs: seq<Interaction>)
    ensures forall i :: 0 <= i < |xs| ==> Replay(false, xs)[i] == LeftColumn(false, xs[i])
    ensures forall i :: 0 <= i < |xs| ==> CleanRun(Replay(false, xs)[i])
    decreases |xs|
  {
    if |xs| > 0 {
      var p := LeftColumn(false, xs[0]);
      assert CleanRun(p);
      ReplayDeletesOncePerSuccess(xs[1..]);
      var ps := Replay(false, xs);
      var rest := Replay(false, xs[1..]);
      assert ps == [p] + rest;
      forall i | 0 <= i < |ps|
        ensures ps[i] == LeftColumn(false, xs[i]) && CleanRun(ps[i])
      {
        if i > 0 {
          assert ps[i] == rest[i - 1];
          assert xs[1..][i - 1] == xs[i];
        }
      }
    }
  }
}
