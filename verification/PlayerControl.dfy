/**
 The player's content transaction: load, reload and rebuild over a renderer candidate, a decoded clip, a device seat
 and a playback session.  What the ports, the renderer, the seat and the session answer is an argument of each command,
 so every property holds whatever they answer.
 */
module PlayerControls {
  import opened Wrappers
  import opened WavDecoder
  import opened AudioClipStores

  datatype AppState = Empty | Loaded | Playing | Paused | Stopped | Failed
  datatype Kind = Load | Reload | Rebuild | Play | Pause | Stop | Seek
  datatype Mode = CuexisAudio | HostClock | ChartClock
  datatype Policy = KeepChartTime | RestartAtZero
  datatype Command = Command(kind: Kind, seekTargetMs: real, policy: Policy, mode: Option<Mode>)

  function RequestedMode(command: Command): Mode { if command.mode.Some? then command.mode.value else ChartClock }

  datatype PlayerError =
    | TransactionInProgress | NotLoaded | CommandFailed | Duplicate | NotPlaying
    | SourceUnavailable | ModeRequired | PrepareRefused | ModeChangeRequiresLoad | RendererRebuild
    | PreparedInvalid | TimingOffsetInvalid | Presentation | AudioPrepare | Precheck | AudioActivate | Commit
    | SeekNegative | Transport

  /** The errors after which nothing can be rolled back. */
  predicate Irreversible(error: PlayerError) { error == AudioActivate || error == Commit }

  datatype Config = Config(clockMode: Mode, outputCorrectionUs: int)

  function FreezeConfig(mode: Mode, profileCorrectionUs: int): Config {
    Config(mode, if mode == CuexisAudio then profileCorrectionUs else 0)
  }

  // ---------------------------------------------------------------- the command table

  function EvaluateCommand(state: AppState, transactionInProgress: bool, kind: Kind): (r: Result<AppState, PlayerError>)
    ensures r == Err(TransactionInProgress) <==> transactionInProgress
    ensures r.Ok? && state in {Empty, Failed} ==> kind in {Load, Rebuild}
    ensures r.Ok? && state == Failed ==> r.value == Loaded
    ensures r.Ok? ==> r.value != Failed && (r.value == Empty ==> kind == Rebuild && state == Empty)
    ensures r.Ok? && kind in {Seek, Reload} ==> r.value == state
    ensures r == Err(Duplicate) <==>
      !transactionInProgress && (kind, state) in {(Play, Playing), (Pause, Paused), (Stop, Stopped)}
    ensures !transactionInProgress && kind in {Load, Rebuild} ==> r.Ok?
    ensures r == Err(NotLoaded) <==> !transactionInProgress && state == Empty && kind !in {Load, Rebuild}
    ensures r == Err(CommandFailed) <==> !transactionInProgress && state == Failed && kind !in {Load, Rebuild}
    ensures r == Err(NotPlaying) <==>
      !transactionInProgress && kind == Pause && state !in {Empty, Failed, Paused, Playing}
    ensures r.Ok? && kind == Play ==> r.value == Playing
    ensures r.Ok? && kind == Pause ==> r.value == Paused
    ensures r.Ok? && kind == Stop ==> r.value == Stopped
    ensures r.Ok? && kind == Load ==> r.value == Loaded
    ensures r.Ok? && kind == Rebuild && state != Failed ==> r.value == state
  {
    if transactionInProgress then Err(TransactionInProgress)
    else
      match kind
      case Load => Ok(Loaded)
      case Rebuild => Ok(if state == Failed then Loaded else state)
      case Play =>
        if state == Empty then Err(NotLoaded)
        else if state == Failed then Err(CommandFailed)
        else if state == Playing then Err(Duplicate)
        else Ok(Playing)
      case Pause =>
        if state == Empty then Err(NotLoaded)
        else if state == Failed then Err(CommandFailed)
        else if state == Paused then Err(Duplicate)
        else if state != Playing then Err(NotPlaying)
        else Ok(Paused)
      case Stop =>
        if state == Empty then Err(NotLoaded)
        else if state == Failed then Err(CommandFailed)
        else if state == Stopped then Err(Duplicate)
        else Ok(Stopped)
      case Seek => Running(state)
      case Reload => Running(state)
  }

  function Running(state: AppState): Result<AppState, PlayerError> {
    if state == Empty then Err(NotLoaded) else if state == Failed then Err(CommandFailed) else Ok(state)
  }

  datatype Observation = Nothing | SeesPlaying | SeesPaused | SeesStopped | SeesEnded | SeesError

  function ObserveTransportState(current: AppState, observed: Observation): AppState {
    match observed
    case SeesError => if current == Empty then current else Failed
    case SeesEnded => if current == Playing then Stopped else current
    case _ => current
  }

  // ---------------------------------------------------------------- the renderer

  datatype Fate = Activated | Discarded

  datatype Candidate = Candidate(token: nat, content: nat)

  /** A presentation renderer, as far as its candidates go.  A candidate leaves by exactly one of Activate and
      Discard: both demand it outstanding. */
  class Renderer {
    var nextToken: nat
    var candidate: Option<Candidate>
    var active: Option<nat>
    /** What became of each candidate that is no longer outstanding. */
    ghost var fates: map<nat, Fate>

    ghost predicate Valid()
      reads this
    {
      && (candidate.Some? ==> candidate.value.token < nextToken)
      && forall t: nat :: t in fates <==> t < nextToken && (candidate.Some? ==> t != candidate.value.token)
    }

    constructor ()
      ensures Valid() && candidate.None? && active.None? && fates == map[]
    {
      nextToken, candidate, active, fates := 0, None, None, map[];
    }

    method Prepare(content: nat, renders: bool) returns (ok: bool)
      requires Valid()
      modifies this
      ensures Valid() && active == old(active) && fates == old(fates)
      ensures ok <==> renders && old(candidate).None?
      ensures if ok then candidate == Some(Candidate(old(nextToken), content)) && nextToken == old(nextToken) + 1
              else unchanged(this)
    {
      ok := renders && candidate.None?;
      if ok {
        candidate := Some(Candidate(nextToken, content));
        nextToken := nextToken + 1;
      }
    }

    method Activate()
      requires Valid() && candidate.Some?
      modifies this
      ensures Valid() && candidate.None? && active == Some(old(candidate).value.content) && nextToken == old(nextToken)
      ensures old(candidate).value.token !in old(fates) && fates == old(fates)[old(candidate).value.token := Activated]
    {
      active := Some(candidate.value.content);
      fates := fates[candidate.value.token := Activated];
      candidate := None;
    }

    method Discard()
      requires Valid() && candidate.Some?
      modifies this
      ensures Valid() && candidate.None? && active == old(active) && nextToken == old(nextToken)
      ensures old(candidate).value.token !in old(fates) && fates == old(fates)[old(candidate).value.token := Discarded]
    {
      fates := fates[candidate.value.token := Discarded];
      candidate := None;
    }

    method Rebuild(ok: bool)
      requires Valid() && candidate.None?
      modifies this
      ensures Valid() && candidate.None? && nextToken == old(nextToken) && fates == old(fates)
      ensures active == if ok then None else old(active)
    {
      if ok { active := None; }
    }
  }

  // ---------------------------------------------------------------- the seat and the ports

  datatype Stream = Stream(clip: ClipHandle, startMs: real)

  /** An open device: the stream it plays and the replacement waiting in it. */
  datatype Seat = Seat(device: nat, playing: Option<Stream>, staged: Option<Stream>)

  datatype Info = Missing | NotFinite | Offset(ms: real)
  datatype Preparation = Prepared(content: nat) | ContentMismatch | Refused
  datatype Activation = Replaced | NotOpened | NotResumed

  /** The answers one command gets. */
  datatype Ports = Ports(source: bool, preparation: Preparation, info: Info, renders: bool, clip: Option<Clip>,
                         stages: bool, accepts: bool, device: Option<nat>, activation: Activation, commits: bool,
                         rebuilds: bool, transport: bool)

  /** A playback session and what it holds, nothing once it was unloaded. */
  datatype Session = Session(serial: nat, content: Option<nat>)

  /** Everything a transaction publishes, but the seat and the state. */
  datatype Bundle = Bundle(session: Option<Session>, timeline: Option<real>, chartClock: Option<real>, mode: Mode,
                           config: Config, timingOffsetMs: real, clip: Option<ClipHandle>, replaced: bool,
                           sourcePositionMs: real, chartResumeMs: real, pendingChartSeekMs: Option<real>)

  function ActivateSeat(seat: Seat, activation: Activation): (Seat, bool) {
    if seat.staged.None? then (seat, false)
    else
      match activation
      case Replaced => (seat.(playing := seat.staged, staged := None), true)
      case NotOpened => (seat.(playing := None, staged := None), false)
      case NotResumed => (seat.(playing := seat.staged, staged := None), false)
  }

  function Handles(clip: Option<ClipHandle>): set<ClipHandle> { if clip.Some? then {clip.value} else {} }

  /** Where staging stops, given whether the store takes the clip: the steps in their order. */
  function StagingStops(ports: Ports, needsAudio: bool, deviceChanges: bool, registered: bool): Option<PlayerError> {
    if ports.info == Missing then Some(PreparedInvalid)
    else if ports.info == NotFinite then Some(TimingOffsetInvalid)
    else if !ports.renders then Some(Presentation)
    else ClipStops(ports, needsAudio, deviceChanges, registered)
  }

  function ClipStops(ports: Ports, needsAudio: bool, deviceChanges: bool, registered: bool): Option<PlayerError> {
    if needsAudio && (!registered || (!deviceChanges && !ports.stages)) then Some(AudioPrepare)
    else if !ports.accepts then Some(Precheck)
    else None
  }

  /** Where the steps after staging stop. */
  function ActivationStops(ports: Ports, needsAudio: bool, deviceChanges: bool): (r: Option<PlayerError>)
    ensures r.Some? ==> Irreversible(r.value)
  {
    if needsAudio && (if deviceChanges then ports.device.None? else ports.activation != Replaced)
        then Some(AudioActivate)
    else if !ports.commits then Some(Commit)
    else None
  }

  lemma StagingCanBeUndone(ports: Ports, needsAudio: bool, deviceChanges: bool, registered: bool)
    ensures var stop := StagingStops(ports, needsAudio, deviceChanges, registered);
            if stop.Some? then !Irreversible(stop.value) else ports.info.Offset?
  {
  }

  /** Where the whole transaction stops. */
  function Stops(ports: Ports, needsAudio: bool, deviceChanges: bool, registered: bool): Option<PlayerError> {
    var staging := StagingStops(ports, needsAudio, deviceChanges, registered);
    if staging.Some? then staging else ActivationStops(ports, needsAudio, deviceChanges)
  }

  /** Every refusal of a transaction has its one reason: the first answer, in the order of the steps, that is not what
      is needed. */
  lemma StopsExactly(ports: Ports, needsAudio: bool, deviceChanges: bool, registered: bool)
    ensures var stop := Stops(ports, needsAudio, deviceChanges, registered);
      var staged := needsAudio ==> registered && (deviceChanges || ports.stages);
      var shown := ports.info.Offset? && ports.renders;
      var checked := shown && staged && ports.accepts;
      var active := needsAudio ==> if deviceChanges then ports.device.Some? else ports.activation == Replaced;
      && (stop == Some(PreparedInvalid) <==> ports.info == Missing)
      && (stop == Some(TimingOffsetInvalid) <==> ports.info == NotFinite)
      && (stop == Some(Presentation) <==> ports.info.Offset? && !ports.renders)
      && (stop == Some(AudioPrepare) <==> shown && !staged)
      && (stop == Some(Precheck) <==> shown && staged && !ports.accepts)
      && (stop == Some(AudioActivate) <==> checked && !active)
      && (stop == Some(Commit) <==> checked && active && !ports.commits)
      && (stop == None <==> checked && active && ports.commits)
  {
  }

  /** Where a load stops, from its source on. */
  function LoadStops(command: Command, ports: Ports, deviceChanges: bool, registered: bool): Option<PlayerError> {
    if !ports.source then Some(SourceUnavailable)
    else
      match ports.preparation
      case ContentMismatch => Some(if command.mode.None? then ModeRequired else PrepareRefused)
      case Refused => Some(PrepareRefused)
      case Prepared(_) => Stops(ports, RequestedMode(command) == CuexisAudio, deviceChanges, registered)
  }

  /** Where a reload of loaded content stops. */
  function ReloadStops(ports: Ports, mode: Mode, deviceChanges: bool, registered: bool): Option<PlayerError> {
    if !ports.source then Some(SourceUnavailable)
    else
      match ports.preparation
      case ContentMismatch => Some(ModeChangeRequiresLoad)
      case Refused => Some(PrepareRefused)
      case Prepared(_) => Stops(ports, mode == CuexisAudio, deviceChanges, registered)
  }

  /** Where a rebuild of loaded content stops; its seat is closed by then. */
  function RebuildStops(ports: Ports, mode: Mode, registered: bool): Option<PlayerError> {
    if !ports.rebuilds then Some(RendererRebuild)
    else if !ports.source then Some(SourceUnavailable)
    else if !ports.preparation.Prepared? then Some(PrepareRefused)
    else Stops(ports, mode == CuexisAudio, mode == CuexisAudio, registered)
  }

  /** What can refuse a load, a reload or a rebuild before its transaction. */
  lemma OpeningStopsExactly(command: Command, ports: Ports, mode: Mode, deviceChanges: bool, registered: bool)
    ensures var load := LoadStops(command, ports, deviceChanges, registered);
      && (load == Some(SourceUnavailable) <==> !ports.source)
      && (load == Some(ModeRequired) <==> ports.source && ports.preparation == ContentMismatch && command.mode == None)
      && (load == Some(PrepareRefused) <==>
            && ports.source
            && (ports.preparation == Refused || (ports.preparation == ContentMismatch && command.mode.Some?)))
    ensures var reload := ReloadStops(ports, mode, deviceChanges, registered);
      && (reload == Some(SourceUnavailable) <==> !ports.source)
      && (reload == Some(ModeChangeRequiresLoad) <==> ports.source && ports.preparation == ContentMismatch)
      && (reload == Some(PrepareRefused) <==> ports.source && ports.preparation == Refused)
    ensures var rebuild := RebuildStops(ports, mode, registered);
      && (rebuild == Some(RendererRebuild) <==> !ports.rebuilds)
      && (rebuild == Some(SourceUnavailable) <==> ports.rebuilds && !ports.source)
      && (rebuild == Some(PrepareRefused) <==> ports.rebuilds && ports.source && !ports.preparation.Prepared?)
  {
  }

  function TransportStops(command: Command, ports: Ports, seated: bool): Option<PlayerError> {
    if command.kind == Seek && command.seekTargetMs < 0.0 then Some(SeekNegative)
    else if seated && !ports.transport then Some(Transport)
    else None
  }

  /** Where an accepted command stops, from what the controller has before it. */
  function CommandStops(command: Command, ports: Ports, loaded: bool, state: AppState, mode: Mode, seated: bool,
                        registered: bool): Option<PlayerError>
  {
    var load := LoadStops(command, ports, ChangesDevice(mode, seated, RequestedMode(command)), registered);
    match command.kind
    case Load => load
    case Reload =>
      if !loaded then Some(NotLoaded) else ReloadStops(ports, mode, ChangesDevice(mode, seated, mode), registered)
    case Rebuild =>
      if loaded then RebuildStops(ports, mode, registered) else if state != Failed then Some(NotLoaded) else load
    case _ => TransportStops(command, ports, seated)
  }

  /** What can refuse a command that the table lets through, apart from the transactions themselves. */
  lemma CommandStopsExactly(command: Command, ports: Ports, loaded: bool, state: AppState, mode: Mode, seated: bool,
                            registered: bool)
    ensures var stop := CommandStops(command, ports, loaded, state, mode, seated, registered);
      match command.kind
      case Load => stop == LoadStops(command, ports, ChangesDevice(mode, seated, RequestedMode(command)), registered)
      case Reload => stop == Some(NotLoaded) <==> !loaded
      case Rebuild => stop == Some(NotLoaded) <==> !loaded && state != Failed
      case Seek =>
        && (stop == Some(SeekNegative) <==> command.seekTargetMs < 0.0)
        && (stop == Some(Transport) <==> command.seekTargetMs >= 0.0 && seated && !ports.transport)
        && (stop == None <==> command.seekTargetMs >= 0.0 && (seated ==> ports.transport))
      case _ => stop == if seated && !ports.transport then Some(Transport) else None
  {
  }

  /** Whether a transaction to that mode opens or drops a device. */
  function ChangesDevice(activeMode: Mode, seated: bool, mode: Mode): bool {
    if mode == CuexisAudio then !seated || activeMode != mode else seated
  }

  function With(held: map<ClipHandle, Clip>, handle: Option<ClipHandle>, clip: Option<Clip>): map<ClipHandle, Clip> {
    if handle.Some? && clip.Some? then held[handle.value := clip.value] else held
  }

  function Restaged(seat: Option<Seat>, handle: Option<ClipHandle>, startMs: real): Option<Seat> {
    if seat.Some? && handle.Some? then Some(seat.value.(staged := Some(Stream(handle.value, startMs)))) else seat
  }

  /** The chart time a later Play resumes from, and the seek the next frame applies. */
  function ResumesAt(mode: Mode, restart: bool, preservedMs: real): (real, Option<real>) {
    if mode != ChartClock then (0.0, None) else if restart then (0.0, Some(0.0)) else (preservedMs, Some(preservedMs))
  }

  function StartsAt(restart: bool, positionMs: real): real { if restart then 0.0 else positionMs }

  /** The bundle a committed transaction publishes. */
  function Replacing(serial: nat, content: nat, mode: Mode, config: Config, restart: bool, offsetMs: real,
                     clip: Option<ClipHandle>, positionMs: real, preservedMs: real): Bundle
  {
    var (resumeMs, seek) := ResumesAt(mode, restart, preservedMs);
    Bundle(Some(Session(serial, Some(content))), Some(offsetMs), Some(offsetMs), mode, config, offsetMs, clip, true,
           StartsAt(restart, positionMs), resumeMs, seek)
  }

  /** What the frame loop does to the controller. */
  datatype Event =
    | Issued(command: Command, ports: Ports) | Observed(observed: Observation, positionMs: real)
    | Framed(chartTimeMs: real) | PresentFailed | SeekConsumed | ReplacementConsumed | ShutDown

  /** Whether a store that holds those clips takes one more. */
  ghost predicate Registers(limits: Limits, held: map<ClipHandle, Clip>, bytes: nat, clip: Option<Clip>) {
    clip.Some? && Refusal(limits, |held|, bytes, ByteSize(clip.value), |held| == INVALID_INDEX).None?
  }

  /** The candidates prepared since are settled that way, and no earlier one changed its fate. */
  ghost predicate Settles(tokens: nat, fates: map<nat, Fate>, fate: Fate, laterTokens: nat, later: map<nat, Fate>) {
    (laterTokens == tokens && later == fates) || (laterTokens == tokens + 1 && later == fates[tokens := fate])
  }

  /** A store in which one clip of the permitted size always fits beside another. */
  predicate RoomForTwo(limits: Limits) {
    limits.maxClipBytes > 0 && limits.maxClips >= 2 && limits.maxTotalBytes >= 2 * limits.maxClipBytes
  }

  /** What is loaded is loaded in every part; a clip, and a seat, are kept in audio mode only. */
  predicate Fits(bundle: Bundle, shown: Option<nat>, correctionUs: int) {
    && (bundle.session.Some? <==> bundle.timeline.Some?) && bundle.timeline == bundle.chartClock
    && (bundle.session.None? ==> bundle.clip.None? && shown.None?)
    && (bundle.session.Some? ==> bundle.config == FreezeConfig(bundle.mode, correctionUs))
    && (bundle.clip.Some? ==> bundle.mode == CuexisAudio)
    && (shown.Some? && bundle.session.value.content.Some? ==> shown == bundle.session.value.content)
  }

  predicate SeatFits(bundle: Bundle, seat: Option<Seat>) {
    seat.Some? ==>
      && bundle.session.Some? && bundle.mode == CuexisAudio
      && (seat.value.staged.Some? ==> seat.value.staged.value.clip !in Handles(bundle.clip))
  }

  /** The parts belong together: a seat exists exactly in audio mode and plays the active clip, and the renderer shows
      the session's content. */
  predicate Belongs(bundle: Bundle, seat: Option<Seat>, shown: Option<nat>) {
    && bundle.session.Some? && shown.Some? && shown == bundle.session.value.content
    && (seat.Some? <==> bundle.mode == CuexisAudio)
    && (seat.Some? ==> seat.value.playing.Some? && Some(seat.value.playing.value.clip) == bundle.clip)
  }

  /** A stream of the new clip, which the store has given up again. */
  predicate IsStray(stream: Option<Stream>, startMs: real, held: map<ClipHandle, Clip>) {
    stream.Some? && stream.value.startMs == startMs && stream.value.clip !in held
  }

  /** What a failed transaction leaves of the seat.  Only a replacement on the same device that got as far as the
      precheck leaves a trace: refused there, its stream goes on waiting; after that it has replaced the stream there
      was, or the device could not be opened again and plays nothing. */
  predicate LeftSeat(error: PlayerError, sameDevice: bool, activation: Activation, startMs: real, before: Option<Seat>,
                     seat: Option<Seat>, held: map<ClipHandle, Clip>)
  {
    if !sameDevice || error !in {Precheck, AudioActivate, Commit} then seat == before
    else
      && before.Some? && seat.Some? && seat.value.device == before.value.device
      && if error == Precheck then
           seat.value.playing == before.value.playing && IsStray(seat.value.staged, startMs, held)
         else
           && seat.value.staged.None?
           && if error == AudioActivate && activation == NotOpened then seat.value.playing.None?
              else IsStray(seat.value.playing, startMs, held)
  }

  /** Where a committed transaction starts: the source at zero or at its last position, the chart clock at zero or at
      the last frame, and a seat exactly in audio mode, playing from there; the correction of the profile applies to
      audio only. */
  predicate Begins(restart: bool, frameMs: real, positionMs: real, correctionUs: int, bundle: Bundle,
                   seat: Option<Seat>)
  {
    && bundle.sourcePositionMs == (if restart then 0.0 else positionMs)
    && bundle.config == Config(bundle.mode, if bundle.mode == CuexisAudio then correctionUs else 0)
    && (bundle.mode == ChartClock ==>
          bundle.chartResumeMs == (if restart then 0.0 else frameMs)
              && bundle.pendingChartSeekMs == Some(bundle.chartResumeMs))
    && (bundle.mode != ChartClock ==> bundle.chartResumeMs == 0.0 && bundle.pendingChartSeekMs == None)
    && (bundle.mode == CuexisAudio <==> seat.Some?)
    && (seat.Some? ==>
          && seat.value.staged == None && bundle.clip.Some?
          && seat.value.playing == Some(Stream(bundle.clip.value, bundle.sourcePositionMs)))
  }

  /** A seat that there was in audio mode keeps its device; another one is on the device that was opened. */
  predicate SeatedOn(mode: Mode, before: Option<Seat>, device: Option<nat>, seat: Option<Seat>) {
    seat.Some? ==>
      Some(seat.value.device) == if mode == CuexisAudio && before.Some? then Some(before.value.device) else device
  }

  /** The seat plays a clip the store does not hold. */
  predicate Strays(seat: Option<Seat>, held: map<ClipHandle, Clip>) {
    seat.Some? && seat.value.playing.Some? && seat.value.playing.value.clip !in held
  }

  /** What a controller has, its store and its renderer included. */
  datatype Picture = Picture(bundle: Bundle, state: AppState, seat: Option<Seat>, held: map<ClipHandle, Clip>,
                             shown: Option<nat>)

  /** A failed transaction: everything is as it was, but for the seat, and the state if a device or the commit
      failed. */
  predicate RollsBack(error: PlayerError, mode: Mode, restart: bool, activation: Activation, before: Picture,
                      after: Picture)
  {
    && after.bundle == before.bundle && after.held == before.held && after.shown == before.shown
    && after.state == (if Irreversible(error) then Failed else before.state)
    && LeftSeat(error, mode == CuexisAudio && !ChangesDevice(before.bundle.mode, before.seat.Some?, mode), activation,
                StartsAt(restart, before.bundle.sourcePositionMs), before.seat, after.seat, after.held)
  }

  /** Unless the application is empty or failed, its parts belong together. */
  predicate Steady(p: Picture) { p.state !in {Empty, Failed} ==> Belongs(p.bundle, p.seat, p.shown) }

  lemma RollingBackStaysSteady(error: PlayerError, mode: Mode, restart: bool, activation: Activation, before: Picture,
                               after: Picture)
    requires RollsBack(error, mode, restart, activation, before, after) && Steady(before)
    ensures Steady(after)
  {
  }

  /** A failed transaction makes the seat stray exactly when it had replaced the stream on the same device. */
  lemma StraysExactly(error: PlayerError, sameDevice: bool, activation: Activation, startMs: real, before: Option<Seat>,
                      seat: Option<Seat>, held: map<ClipHandle, Clip>)
    requires LeftSeat(error, sameDevice, activation, startMs, before, seat, held)
    ensures Strays(seat, held) <==>
      if sameDevice && Irreversible(error) then error == Commit || activation != NotOpened else Strays(before, held)
  {
  }

  /** The seat after a committed transaction: none without audio, else the new stream on the newly opened device or on
      the one there was, with nothing waiting. */
  function SeatAfter(mode: Mode, deviceChanges: bool, device: Option<nat>, before: Option<Seat>,
                     clip: Option<ClipHandle>, startMs: real): Option<Seat>
  {
    if mode != CuexisAudio || clip.None? then None
    else if deviceChanges then
      if device.None? then None else Some(Seat(device.value, Some(Stream(clip.value, startMs)), None))
    else if before.None? then None
    else Some(Seat(before.value.device, Some(Stream(clip.value, startMs)), None))
  }

  class PlayerController {
    const renderer: Renderer
    const store: AudioClipStore
    const profileCorrectionUs: int

    var state: AppState
    var transactionInProgress: bool
    var bundleReplaced: bool
    var activeMode: Mode
    var sessionConfig: Config
    var timingOffsetMs: real
    var session: Option<Session>
    var timeline: Option<real>
    var chartClock: Option<real>
    var audioSeat: Option<Seat>
    var activeClip: Option<ClipHandle>
    var lastFrameMs: real
    var lastSourcePositionMs: real
    var chartResumeMs: real
    var pendingChartSeekMs: Option<real>
    /** How many sessions were created, each load's included. */
    var sessionsMade: nat

    ghost function Published(): Bundle
      reads this`session, this`timeline, this`chartClock, this`activeMode, this`sessionConfig, this`timingOffsetMs
      reads this`activeClip, this`bundleReplaced, this`lastSourcePositionMs, this`chartResumeMs, this`pendingChartSeekMs
    {
      Bundle(session, timeline, chartClock, activeMode, sessionConfig, timingOffsetMs, activeClip, bundleReplaced,
             lastSourcePositionMs, chartResumeMs, pendingChartSeekMs)
    }

    ghost function Seen(): Picture
      reads this`session, this`timeline, this`chartClock, this`activeMode, this`sessionConfig, this`timingOffsetMs
      reads this`activeClip, this`bundleReplaced, this`lastSourcePositionMs, this`chartResumeMs, this`pendingChartSeekMs
      reads this`audioSeat, this`state, renderer, store
    {
      Picture(Published(), state, audioSeat, store.Held(), renderer.active)
    }

    /** What the controller owns: no candidate is outstanding, the store holds exactly the active clip, and what is
        loaded is loaded in every part. */
    ghost predicate Owns()
      reads this`session, this`timeline, this`chartClock, this`activeMode, this`sessionConfig, this`timingOffsetMs
      reads this`activeClip, this`bundleReplaced, this`lastSourcePositionMs, this`chartResumeMs, this`pendingChartSeekMs
      reads this`audioSeat, this`state, renderer, store
    {
      && renderer.Valid() && renderer.candidate.None?
      && store.Valid() && store.Held().Keys == Handles(activeClip)
      && Fits(Published(), renderer.active, profileCorrectionUs) && SeatFits(Published(), audioSeat)
      && (session.None? ==> state in {Empty, Failed})
    }

    ghost predicate Coherent()
      reads this`session, this`timeline, this`chartClock, this`activeMode, this`sessionConfig, this`timingOffsetMs
      reads this`activeClip, this`bundleReplaced, this`lastSourcePositionMs, this`chartResumeMs, this`pendingChartSeekMs
      reads this`audioSeat, renderer
    {
      Belongs(Published(), audioSeat, renderer.active)
    }

    /** Between commands. */
    ghost predicate Consistent()
      reads this`session, this`timeline, this`chartClock, this`activeMode, this`sessionConfig, this`timingOffsetMs
      reads this`activeClip, this`bundleReplaced, this`lastSourcePositionMs, this`chartResumeMs, this`pendingChartSeekMs
      reads this`audioSeat, this`state, renderer, store
    {
      Owns() && Steady(Seen())
    }

    constructor (renderer: Renderer, store: AudioClipStore, profileCorrectionUs: int)
      requires renderer.Valid() && renderer.candidate.None? && renderer.active.None?
      requires store.Valid() && store.Held() == map[]
      ensures Consistent() && state == Empty && !transactionInProgress && session.None?
      ensures this.renderer == renderer && this.store == store && this.profileCorrectionUs == profileCorrectionUs
    {
      this.renderer, this.store, this.profileCorrectionUs := renderer, store, profileCorrectionUs;
      state, transactionInProgress, bundleReplaced, activeMode := Empty, false, false, ChartClock;
      sessionConfig, timingOffsetMs := FreezeConfig(ChartClock, 0), 0.0;
      session, timeline, chartClock, audioSeat, activeClip := None, None, None, None, None;
      lastFrameMs, lastSourcePositionMs, chartResumeMs, pendingChartSeekMs := 0.0, 0.0, 0.0, None;
      sessionsMade := 0;
    }

    method DiscardClip(clip: Option<ClipHandle>)
      requires store.Valid()
      modifies store
      ensures store.Valid() && store.Held() == old(store.Held()) - Handles(clip)
    {
      if clip.Some? { var removed := store.Remove(clip.value); }
    }

    /** What every failure after staging does: the new clip leaves the store and the candidate the renderer. */
    method Abandon(ghost held: map<ClipHandle, Clip>, replacement: Option<ClipHandle>, clip: Option<Clip>)
      requires renderer.Valid() && renderer.candidate.Some? && store.Valid()
      requires store.Held() == With(held, replacement, clip) && Handles(replacement) !! held.Keys
      requires replacement.Some? ==> clip.Some?
      modifies store, renderer
      ensures store.Valid() && store.Held() == held
      ensures renderer.Valid() && renderer.candidate.None? && renderer.active == old(renderer.active)
      ensures renderer.nextToken == old(renderer.nextToken)
      ensures renderer.fates == old(renderer.fates)[old(renderer.candidate).value.token := Discarded]
    {
      DiscardClip(replacement);
      renderer.Discard();
    }

    function DeviceChanges(mode: Mode): bool
      reads this`audioSeat, this`activeMode
    {
      ChangesDevice(activeMode, audioSeat.Some?, mode)
    }

    /** The clip and the replacement stream of step 2. */
    method PrepareAudio(deviceChanges: bool, startMs: real, ports: Ports) returns (r: Option<ClipHandle>)
      requires store.Valid() && store.Held().Keys == Handles(activeClip)
      requires !deviceChanges ==> audioSeat.Some?
      modifies this`audioSeat, store
      ensures store.Valid()
      ensures r.Some? <==>
        && Registers(store.limits, old(store.Held()), old(store.registeredBytes), ports.clip)
        && (deviceChanges || ports.stages)
      ensures r.None? ==> store.Held() == old(store.Held()) && audioSeat == old(audioSeat)
      ensures r.Some? ==>
        r.value !in old(store.Held()) && store.Held() == old(store.Held())[r.value := ports.clip.value]
      ensures r.Some? ==> audioSeat == if deviceChanges then old(audioSeat)
                                       else Some(old(audioSeat).value.(staged := Some(Stream(r.value, startMs))))
    {
      if ports.clip.None? { return None; }
      var registered := store.RegisterClip(ports.clip.value);
      if registered.Err? { return None; }
      r := Some(registered.value);
      if !deviceChanges {
        if !ports.stages {
          DiscardClip(r);
          return None;
        }
        audioSeat := Some(audioSeat.value.(staged := Some(Stream(r.value, startMs))));
      }
    }

    /** What staging leaves for the steps that activate: the candidate is outstanding, the new clip is in the store
        beside the active one, and a replacement on the same device waits in the seat. */
    ghost predicate StagedFor(content: nat, mode: Mode, deviceChanges: bool, replacement: Option<ClipHandle>,
                              startMs: real, clip: Option<Clip>, before: Picture)
      reads this, store, renderer
    {
      && renderer.Valid() && renderer.candidate.Some? && renderer.candidate.value.content == content
      && store.Valid() && store.Held() == With(before.held, replacement, clip)
          && before.held.Keys == Handles(activeClip)
      && Handles(replacement) !! before.held.Keys && (replacement.Some? ==> clip.Some?)
      && (replacement.Some? <==> mode == CuexisAudio) && Fits(Published(), renderer.active, profileCorrectionUs)
      && SeatFits(Published(), before.seat) && deviceChanges == ChangesDevice(activeMode, before.seat.Some?, mode)
      && audioSeat == Restaged(before.seat, if deviceChanges then None else replacement, startMs)
      && before == Seen().(seat := before.seat, held := before.held)
    }

    /** Steps 1 to 3: nothing is activated, and a failure leaves only a replacement stream behind in the seat. */
    method StageBundle(content: nat, mode: Mode, restart: bool, ports: Ports)
      returns (failure: Option<PlayerError>, replacement: Option<ClipHandle>)
      requires Owns()
      modifies this`audioSeat, store, renderer
      ensures renderer.Valid() && store.Valid()
      ensures failure == StagingStops(ports, mode == CuexisAudio,
                                      ChangesDevice(old(activeMode), old(audioSeat).Some?, mode),
                                      Registers(store.limits, old(store.Held()), old(store.registeredBytes),
                                                ports.clip))
      ensures failure.Some? ==> Owns()
      ensures failure.Some? ==> replacement.None?
      ensures failure.Some? ==> RollsBack(failure.value, mode, restart, ports.activation, old(Seen()), Seen())
      ensures failure.Some? ==>
        renderer.candidate.None?
            && Settles(old(renderer.nextToken), old(renderer.fates), Discarded, renderer.nextToken, renderer.fates)
      ensures failure.None? ==>
        StagedFor(content, mode, ChangesDevice(old(activeMode), old(audioSeat).Some?, mode), replacement,
                  StartsAt(restart, lastSourcePositionMs), ports.clip, old(Seen()))
      ensures failure.None? ==> renderer.candidate.value.token == old(renderer.nextToken)
      ensures failure.None? ==>
        renderer.nextToken == old(renderer.nextToken) + 1 && renderer.fates == old(renderer.fates)
    {
      if ports.info == Missing { return Some(PreparedInvalid), None; }
      if ports.info == NotFinite { return Some(TimingOffsetInvalid), None; }
      var prepared := renderer.Prepare(content, ports.renders);
      if !prepared { return Some(Presentation), None; }
      failure, replacement := StageAndCheck(content, mode, restart, ports);
    }

    /** Staging once the candidate is prepared. */
    method StageAndCheck(content: nat, mode: Mode, restart: bool, ports: Ports)
      returns (failure: Option<PlayerError>, replacement: Option<ClipHandle>)
      requires renderer.Valid() && renderer.candidate.Some? && renderer.candidate.value.content == content
      requires store.Valid() && store.Held().Keys == Handles(activeClip)
      requires Fits(Published(), renderer.active, profileCorrectionUs) && SeatFits(Published(), audioSeat)
      modifies this`audioSeat, store, renderer
      ensures renderer.Valid() && store.Valid() && renderer.nextToken == old(renderer.nextToken)
      ensures failure == ClipStops(ports, mode == CuexisAudio,
                                   ChangesDevice(old(activeMode), old(audioSeat).Some?, mode),
                                   Registers(store.limits, old(store.Held()), old(store.registeredBytes), ports.clip))
      ensures failure.Some? ==> replacement.None? && renderer.candidate.None?
      ensures failure.Some? ==> RollsBack(failure.value, mode, restart, ports.activation, old(Seen()), Seen())
      ensures failure.Some? ==> renderer.fates == old(renderer.fates)[old(renderer.candidate).value.token := Discarded]
      ensures failure.None? ==>
        StagedFor(content, mode, ChangesDevice(old(activeMode), old(audioSeat).Some?, mode), replacement,
                  StartsAt(restart, lastSourcePositionMs), ports.clip, old(Seen()))
      ensures failure.None? ==> renderer.candidate == old(renderer.candidate) && renderer.fates == old(renderer.fates)
    {
      ghost var before := Seen();
      var staged;
      staged, replacement := StageClip(content, mode, restart, ports);
      if !staged {
        renderer.Discard();
        return Some(AudioPrepare), None;
      }
      failure := None;
      var accepted := CheckCandidate(content, mode, DeviceChanges(mode), replacement, restart, ports, before);
      if !accepted { failure, replacement := Some(Precheck), None; }
    }

    /** The clip and the replacement stream of a transaction with audio. */
    method StageClip(content: nat, mode: Mode, restart: bool, ports: Ports)
      returns (ok: bool, replacement: Option<ClipHandle>)
      requires renderer.Valid() && renderer.candidate.Some? && renderer.candidate.value.content == content
      requires store.Valid() && store.Held().Keys == Handles(activeClip)
      requires Fits(Published(), renderer.active, profileCorrectionUs) && SeatFits(Published(), audioSeat)
      modifies this`audioSeat, store
      ensures store.Valid()
      ensures ok == (mode == CuexisAudio ==>
        Registers(store.limits, old(store.Held()), old(store.registeredBytes), ports.clip)
        && (ChangesDevice(old(activeMode), old(audioSeat).Some?, mode) || ports.stages))
      ensures !ok ==> store.Held() == old(store.Held()) && audioSeat == old(audioSeat)
      ensures ok ==> StagedFor(content, mode, ChangesDevice(old(activeMode), old(audioSeat).Some?, mode), replacement,
                               StartsAt(restart, lastSourcePositionMs), ports.clip, old(Seen()))
    {
      ok, replacement := true, None;
      if mode == CuexisAudio {
        replacement := PrepareAudio(DeviceChanges(mode), StartsAt(restart, lastSourcePositionMs), ports);
        ok := replacement.Some?;
      }
    }

    /** Step 3. */
    method CheckCandidate(content: nat, mode: Mode, deviceChanges: bool, replacement: Option<ClipHandle>, restart: bool,
                          ports: Ports, ghost before: Picture)
      returns (accepted: bool)
      requires StagedFor(content, mode, deviceChanges, replacement, StartsAt(restart, lastSourcePositionMs), ports.clip,
                         before)
      modifies store, renderer
      ensures renderer.Valid() && store.Valid() && renderer.nextToken == old(renderer.nextToken)
      ensures accepted == ports.accepts && (accepted ==> unchanged(store) && unchanged(renderer))
      ensures !accepted ==> renderer.candidate.None? && store.Held() == before.held
      ensures !accepted ==> RollsBack(Precheck, mode, restart, ports.activation, before, Seen())
      ensures !accepted ==> renderer.fates == old(renderer.fates)[old(renderer.candidate).value.token := Discarded]
    {
      accepted := ports.accepts;
      if !accepted { Abandon(before.held, replacement, ports.clip); }
    }

    /** Step 4: the last step allowed to fail on a device.  The seat opened for a new device is not published yet. */
    method ActivateAudio(deviceChanges: bool, replacement: ClipHandle, startMs: real, ports: Ports)
      returns (ok: bool, newSeat: Option<Seat>)
      requires deviceChanges || (audioSeat.Some? && audioSeat.value.staged == Some(Stream(replacement, startMs)))
      modifies this`audioSeat
      ensures ok <==> if deviceChanges then ports.device.Some? else ports.activation == Replaced
      ensures deviceChanges ==> audioSeat == old(audioSeat)
      ensures deviceChanges && ok ==>
        newSeat == Some(Seat(ports.device.value, Some(Stream(replacement, startMs)), None))
      ensures !deviceChanges ==> audioSeat.Some? && audioSeat.value.device == old(audioSeat).value.device
      ensures !deviceChanges ==> newSeat.None? && audioSeat.value.staged.None?
      ensures !deviceChanges ==>
        audioSeat.value.playing == if ports.activation == NotOpened then None else Some(Stream(replacement, startMs))
    {
      newSeat := None;
      if deviceChanges {
        ok := ports.device.Some?;
        if ok { newSeat := Some(Seat(ports.device.value, Some(Stream(replacement, startMs)), None)); }
      } else {
        var (seat, activated) := ActivateSeat(audioSeat.value, ports.activation);
        audioSeat, ok := Some(seat), activated;
      }
    }

    /** The part of step 6 about the clips: the active one changes and the previous one leaves the store. */
    method SwapClip(replacement: Option<ClipHandle>, ghost held: map<ClipHandle, Clip>, clip: Option<Clip>)
      requires store.Valid() && store.Held() == With(held, replacement, clip)
      requires held.Keys == Handles(activeClip) && Handles(replacement) !! held.Keys
      requires replacement.Some? ==> clip.Some?
      modifies this`activeClip, store
      ensures activeClip == replacement
      ensures store.Valid() && store.Held() == With(map[], replacement, clip)
    {
      var previous := activeClip;
      activeClip := replacement;
      if previous.Some? && (activeClip.None? || previous.value != activeClip.value) {
        var removed := store.Remove(previous.value);
      }
    }

    /** The part of step 6 about the chart clock. */
    method RebaseChartClock(mode: Mode, restart: bool, preservedMs: real)
      modifies this`pendingChartSeekMs, this`chartResumeMs
      ensures (chartResumeMs, pendingChartSeekMs) == ResumesAt(mode, restart, preservedMs)
    {
      if mode == ChartClock {
        var targetMs := if restart then 0.0 else preservedMs;
        pendingChartSeekMs, chartResumeMs := Some(targetMs), targetMs;
      } else {
        pendingChartSeekMs, chartResumeMs := None, 0.0;
      }
    }

    /** Step 6: what a committed transaction publishes. */
    method Publish(serial: nat, content: nat, mode: Mode, config: Config, restart: bool, offsetMs: real,
                   newSeat: Option<Seat>, deviceChanges: bool)
      modifies this`session, this`timeline, this`chartClock, this`activeMode, this`sessionConfig, this`timingOffsetMs
      modifies this`bundleReplaced, this`chartResumeMs, this`pendingChartSeekMs, this`lastSourcePositionMs
      modifies this`audioSeat
      ensures session == Some(Session(serial, Some(content))) && timeline == chartClock == Some(offsetMs)
      ensures activeMode == mode && sessionConfig == config && timingOffsetMs == offsetMs && bundleReplaced
      ensures (chartResumeMs, pendingChartSeekMs) == ResumesAt(mode, restart, lastFrameMs)
      ensures lastSourcePositionMs == if restart then 0.0 else old(lastSourcePositionMs)
      ensures audioSeat == if deviceChanges then newSeat else old(audioSeat)
    {
      session := Some(Session(serial, Some(content)));
      timeline, chartClock, activeMode, sessionConfig, timingOffsetMs := Some(offsetMs), Some(offsetMs), mode, config,
          offsetMs;
      RebaseChartClock(mode, restart, lastFrameMs);
      if restart { lastSourcePositionMs := 0.0; }
      if deviceChanges { audioSeat := newSeat; }
      bundleReplaced := true;
    }

    /** A failure that cannot be rolled back: the candidate and the clip go, and the application fails. */
    method FailAfterStaging(ghost held: map<ClipHandle, Clip>, replacement: Option<ClipHandle>, clip: Option<Clip>)
      requires renderer.Valid() && renderer.candidate.Some? && store.Valid()
      requires store.Held() == With(held, replacement, clip) && Handles(replacement) !! held.Keys
      requires replacement.Some? ==> clip.Some?
      modifies this`state, store, renderer
      ensures state == Failed && store.Valid() && store.Held() == held
      ensures renderer.Valid() && renderer.candidate.None? && renderer.active == old(renderer.active)
      ensures renderer.nextToken == old(renderer.nextToken)
      ensures renderer.fates == old(renderer.fates)[old(renderer.candidate).value.token := Discarded]
    {
      Abandon(held, replacement, clip);
      state := Failed;
    }

    /** Steps 4 and 5 up to the session's answer, on what staging left. */
    method ActivateBundle(mode: Mode, deviceChanges: bool, replacement: Option<ClipHandle>, startMs: real, ports: Ports,
                          ghost held: map<ClipHandle, Clip>)
      returns (failure: Option<PlayerError>, newSeat: Option<Seat>)
      requires renderer.Valid() && renderer.candidate.Some? && store.Valid()
      requires store.Held() == With(held, replacement, ports.clip) && Handles(replacement) !! held.Keys
      requires (replacement.Some? <==> mode == CuexisAudio) && (replacement.Some? ==> ports.clip.Some?)
      requires mode == CuexisAudio && !deviceChanges ==>
        audioSeat.Some? && audioSeat.value.staged == Some(Stream(replacement.value, startMs))
      modifies this`audioSeat, this`state, store, renderer
      ensures renderer.Valid() && renderer.active == old(renderer.active)
      ensures renderer.nextToken == old(renderer.nextToken)
      ensures store.Valid() && failure == ActivationStops(ports, mode == CuexisAudio, deviceChanges)
      ensures failure.None? ==> state == old(state) && renderer.candidate == old(renderer.candidate)
      ensures failure.None? ==> renderer.fates == old(renderer.fates) && store.Held() == old(store.Held())
      ensures failure.Some? ==> state == Failed && renderer.candidate.None? && store.Held() == held
      ensures failure.Some? ==> renderer.fates == old(renderer.fates)[old(renderer.candidate).value.token := Discarded]
      ensures mode != CuexisAudio || deviceChanges ==> audioSeat == old(audioSeat)
      ensures mode == CuexisAudio && !deviceChanges ==> audioSeat.Some? && audioSeat.value.staged.None?
      ensures mode == CuexisAudio && !deviceChanges ==> audioSeat.value.device == old(audioSeat).value.device
      ensures mode == CuexisAudio && !deviceChanges ==>
        audioSeat.value.playing == if ports.activation == NotOpened then None
            else Some(Stream(replacement.value, startMs))
      ensures failure.None? ==> newSeat == if mode == CuexisAudio && deviceChanges && ports.device.Some?
        then Some(Seat(ports.device.value, Some(Stream(replacement.value, startMs)), None)) else None
    {
      newSeat := None;
      if mode == CuexisAudio {
        var activated;
        activated, newSeat := ActivateAudio(deviceChanges, replacement.value, startMs, ports);
        if !activated {
          FailAfterStaging(held, replacement, ports.clip);
          return Some(AudioActivate), None;
        }
      }
      if !ports.commits {
        FailAfterStaging(held, replacement, ports.clip);
        return Some(Commit), None;
      }
      failure := None;
    }

    /** Steps 5 and 6 once the session has committed. */
    method CompleteBundle(serial: nat, content: nat, mode: Mode, config: Config, restart: bool, offsetMs: real,
                          newSeat: Option<Seat>,
                          deviceChanges: bool, replacement: Option<ClipHandle>, ghost held: map<ClipHandle, Clip>,
                          clip: Option<Clip>)
      requires renderer.Valid() && renderer.candidate.Some? && renderer.candidate.value.content == content
      requires store.Valid() && store.Held() == With(held, replacement, clip) && held.Keys == Handles(activeClip)
      requires Handles(replacement) !! held.Keys && (replacement.Some? ==> clip.Some?)
      requires config == FreezeConfig(mode, profileCorrectionUs) && (replacement.Some? <==> mode == CuexisAudio)
      requires var seat := if deviceChanges then newSeat else audioSeat;
               if seat.None? then mode != CuexisAudio
               else mode == CuexisAudio && seat.value.staged.None? && seat.value.playing.Some?
                    && Some(seat.value.playing.value.clip) == replacement
      modifies this, store, renderer
      ensures Owns() && Coherent() && audioSeat == if deviceChanges then newSeat else old(audioSeat)
      ensures renderer.active == Some(content) && store.Held() == With(map[], activeClip, clip)
      ensures activeClip == replacement
      ensures renderer.nextToken == old(renderer.nextToken)
      ensures renderer.fates == old(renderer.fates)[old(renderer.candidate).value.token := Activated]
      ensures state == old(state) && transactionInProgress == old(transactionInProgress)
      ensures sessionsMade == old(sessionsMade) && lastFrameMs == old(lastFrameMs)
      ensures Published() == Replacing(serial, content, mode, config, restart, offsetMs, replacement,
                                       old(lastSourcePositionMs), lastFrameMs)
    {
      renderer.Activate();
      Publish(serial, content, mode, config, restart, offsetMs, newSeat, deviceChanges);
      SwapClip(replacement, held, clip);
    }

    /** Steps 4 to 6, on what staging left. */
    method FinishBundle(serial: nat, content: nat, mode: Mode, config: Config, restart: bool, deviceChanges: bool,
                        replacement: Option<ClipHandle>, ports: Ports, ghost before: Picture)
      returns (failure: Option<PlayerError>)
      requires ports.info.Offset? && config == FreezeConfig(mode, profileCorrectionUs)
      requires StagedFor(content, mode, deviceChanges, replacement, StartsAt(restart, lastSourcePositionMs), ports.clip,
                         before)
      modifies this, store, renderer
      ensures Owns() && failure == ActivationStops(ports, mode == CuexisAudio, deviceChanges)
      ensures transactionInProgress == old(transactionInProgress)
      ensures sessionsMade == old(sessionsMade) && lastFrameMs == old(lastFrameMs)
      ensures renderer.nextToken == old(renderer.nextToken)
      ensures renderer.fates
        == old(renderer.fates)[old(renderer.candidate).value.token := if failure.None? then Activated else Discarded]
      ensures failure.Some? ==> RollsBack(failure.value, mode, restart, ports.activation, before, Seen())
      ensures failure.None? ==>
        state == old(state) && activeClip == replacement && (mode == CuexisAudio ==> audioSeat.Some?)
      ensures failure.None? ==> renderer.active == Some(content) && store.Held() == With(map[], replacement, ports.clip)
      ensures failure.None? ==>
        Published() == Replacing(serial, content, mode, config, restart, ports.info.ms, replacement,
                                 old(lastSourcePositionMs), lastFrameMs)
      ensures failure.None? ==> audioSeat == SeatAfter(mode, deviceChanges, ports.device, before.seat, replacement,
                                                      StartsAt(restart, old(lastSourcePositionMs)))
    {
      var startMs := StartsAt(restart, lastSourcePositionMs);
      var newSeat;
      failure, newSeat := ActivateBundle(mode, deviceChanges, replacement, startMs, ports, before.held);
      if failure.None? {
        CompleteBundle(serial, content, mode, config, restart, ports.info.ms, newSeat, deviceChanges, replacement,
                       before.held, ports.clip);
      }
    }

    /** The six steps.  The transaction stops exactly where the first answer demands it.  On success every part is the
        new one; on failure nothing published, stored or shown has changed, the state becomes Failed exactly when audio
        activation or the commit failed, and the seat is left as LeftSeat says: a seat that played a registered clip
        comes to play one the store does not hold exactly when the stream was replaced on the same device. */
    method CommitBundle(serial: nat, content: nat, mode: Mode, config: Config, restart: bool, ports: Ports)
      returns (failure: Option<PlayerError>)
      requires Owns() && config == FreezeConfig(mode, profileCorrectionUs)
      modifies this, store, renderer
      ensures Owns()
      ensures failure == Stops(ports, mode == CuexisAudio, ChangesDevice(old(activeMode), old(audioSeat).Some?, mode),
                               Registers(store.limits, old(store.Held()), old(store.registeredBytes), ports.clip))
      ensures transactionInProgress == old(transactionInProgress)
      ensures sessionsMade == old(sessionsMade) && lastFrameMs == old(lastFrameMs)
      ensures Settles(old(renderer.nextToken), old(renderer.fates), if failure.None? then Activated else Discarded,
                      renderer.nextToken, renderer.fates)
      ensures failure.Some? ==> RollsBack(failure.value, mode, restart, ports.activation, old(Seen()), Seen())
      ensures failure.None? ==> ports.info.Offset? && state == old(state) && (mode == CuexisAudio ==> audioSeat.Some?)
      ensures failure.None? ==> renderer.active == Some(content) && store.Held() == With(map[], activeClip, ports.clip)
      ensures failure.None? ==>
        Published() == Replacing(serial, content, mode, config, restart, ports.info.ms, activeClip,
                                 old(lastSourcePositionMs), lastFrameMs)
      ensures failure.None? ==> (activeClip.Some? <==> mode == CuexisAudio)
      ensures failure.None? ==>
        audioSeat == SeatAfter(mode, ChangesDevice(old(activeMode), old(audioSeat).Some?, mode), ports.device,
                               old(audioSeat), activeClip, StartsAt(restart, old(lastSourcePositionMs)))
    {
      var deviceChanges := DeviceChanges(mode);
      ghost var before := Seen();
      var replacement;
      StagingCanBeUndone(ports, mode == CuexisAudio, deviceChanges,
                         Registers(store.limits, before.held, store.registeredBytes, ports.clip));
      failure, replacement := StageBundle(content, mode, restart, ports);
      if failure.Some? { return; }
      failure := FinishBundle(serial, content, mode, config, restart, deviceChanges, replacement, ports, before);
    }

    // -------------------------------------------------------------- commands

    /** A transaction as its command sees it. */
    method Transact(serial: nat, content: nat, mode: Mode, config: Config, restart: bool, ports: Ports)
      returns (failure: Option<PlayerError>)
      requires Owns() && config == FreezeConfig(mode, profileCorrectionUs)
      modifies this, store, renderer
      ensures Owns() && transactionInProgress == old(transactionInProgress)
      ensures sessionsMade == old(sessionsMade) && lastFrameMs == old(lastFrameMs)
      ensures Settles(old(renderer.nextToken), old(renderer.fates), if failure.None? then Activated else Discarded,
                      renderer.nextToken, renderer.fates)
      ensures failure == Stops(ports, mode == CuexisAudio, ChangesDevice(old(activeMode), old(audioSeat).Some?, mode),
                               Registers(store.limits, old(store.Held()), old(store.registeredBytes), ports.clip))
      ensures failure.Some? ==> RollsBack(failure.value, mode, restart, ports.activation, old(Seen()), Seen())
      ensures failure.Some? && !old(Strays(audioSeat, store.Held())) ==> (Strays(audioSeat, store.Held()) <==>
        mode == CuexisAudio && !ChangesDevice(old(activeMode), old(audioSeat).Some?, mode) && (failure == Some(Commit)
          || (failure == Some(AudioActivate) && ports.activation == NotResumed)))
      ensures failure.None? ==> Coherent() && state == old(state) && activeMode == mode
      ensures failure.None? ==> session == Some(Session(serial, Some(content))) && renderer.active == Some(content)
      ensures failure.None? ==> lastSourcePositionMs == StartsAt(restart, old(lastSourcePositionMs))
      ensures failure.None? ==>
        Begins(restart, lastFrameMs, old(lastSourcePositionMs), profileCorrectionUs, Published(), audioSeat)
      ensures failure.None? ==> SeatedOn(old(activeMode), old(audioSeat), ports.device, audioSeat)
    {
      failure := CommitBundle(serial, content, mode, config, restart, ports);
      if failure.Some? {
        StraysExactly(failure.value, mode == CuexisAudio
                      && !ChangesDevice(old(activeMode), old(audioSeat).Some?, mode), ports.activation,
                      StartsAt(restart, old(lastSourcePositionMs)), old(audioSeat), audioSeat, store.Held());
      }
    }

    method RunLoad(command: Command, ports: Ports) returns (failure: Option<PlayerError>)
      requires Consistent()
      modifies this, store, renderer
      ensures Consistent() && !transactionInProgress && lastFrameMs == old(lastFrameMs)
      ensures Settles(old(renderer.nextToken), old(renderer.fates), if failure.None? then Activated else Discarded,
                      renderer.nextToken, renderer.fates)
      ensures failure.Some? ==>
        RollsBack(failure.value, RequestedMode(command), true, ports.activation, old(Seen()), Seen())
      ensures failure == LoadStops(command, ports,
                                   ChangesDevice(old(activeMode), old(audioSeat).Some?, RequestedMode(command)),
                                   Registers(store.limits, old(store.Held()), old(store.registeredBytes), ports.clip))
      ensures failure.None? ==> Coherent() && state == old(state) && session.value.serial == old(sessionsMade)
      ensures failure.None? ==> activeMode == if command.mode.Some? then command.mode.value else ChartClock
      ensures failure.None? ==>
        Begins(true, lastFrameMs, old(lastSourcePositionMs), profileCorrectionUs, Published(), audioSeat)
      ensures failure.None? ==> ports.preparation == Prepared(renderer.active.value) && lastSourcePositionMs == 0.0
      ensures failure.None? ==> SeatedOn(old(activeMode), old(audioSeat), ports.device, audioSeat)
    {
      transactionInProgress := true;
      failure := Open(command, ports);
      transactionInProgress := false;
    }

    method Open(command: Command, ports: Ports) returns (failure: Option<PlayerError>)
      requires Consistent() && transactionInProgress
      modifies this, store, renderer
      ensures Consistent() && lastFrameMs == old(lastFrameMs)
      ensures Settles(old(renderer.nextToken), old(renderer.fates), if failure.None? then Activated else Discarded,
                      renderer.nextToken, renderer.fates)
      ensures failure.Some? ==>
        RollsBack(failure.value, RequestedMode(command), true, ports.activation, old(Seen()), Seen())
      ensures failure == LoadStops(command, ports,
                                   ChangesDevice(old(activeMode), old(audioSeat).Some?, RequestedMode(command)),
                                   Registers(store.limits, old(store.Held()), old(store.registeredBytes), ports.clip))
      ensures failure.None? ==> Coherent() && state == old(state) && session.value.serial == old(sessionsMade)
      ensures failure.None? ==> activeMode == if command.mode.Some? then command.mode.value else ChartClock
      ensures failure.None? ==>
        Begins(true, lastFrameMs, old(lastSourcePositionMs), profileCorrectionUs, Published(), audioSeat)
      ensures failure.None? ==> ports.preparation == Prepared(renderer.active.value) && lastSourcePositionMs == 0.0
      ensures failure.None? ==> SeatedOn(old(activeMode), old(audioSeat), ports.device, audioSeat)
    {
      if !ports.source { return Some(SourceUnavailable); }
      var serial, mode := sessionsMade, RequestedMode(command);
      sessionsMade := sessionsMade + 1;
      match ports.preparation {
        case ContentMismatch => failure := Some(if command.mode.None? then ModeRequired else PrepareRefused);
        case Refused => failure := Some(PrepareRefused);
        case Prepared(content) =>
          failure := Transact(serial, content, mode, FreezeConfig(mode, profileCorrectionUs), true, ports);
          if failure.Some? {
            RollingBackStaysSteady(failure.value, mode, true, ports.activation, old(Seen()), Seen());
          }
      }
    }

    method RunReload(command: Command, ports: Ports) returns (failure: Option<PlayerError>)
      requires Consistent()
      modifies this, store, renderer
      ensures Consistent() && (transactionInProgress ==> old(transactionInProgress)) && lastFrameMs == old(lastFrameMs)
      ensures Settles(old(renderer.nextToken), old(renderer.fates), if failure.None? then Activated else Discarded,
                      renderer.nextToken, renderer.fates)
      ensures failure.Some? ==>
        RollsBack(failure.value, old(activeMode), command.policy == RestartAtZero, ports.activation, old(Seen()),
                  Seen())
      ensures failure == if old(session).None? then Some(NotLoaded)
        else ReloadStops(ports, old(activeMode), ChangesDevice(old(activeMode), old(audioSeat).Some?, old(activeMode)),
                         Registers(store.limits, old(store.Held()), old(store.registeredBytes), ports.clip))
      ensures failure.None? ==> Coherent() && state == old(state) && activeMode == old(activeMode)
      ensures failure.None? ==> old(session).Some? && session.value.serial == old(session).value.serial
      ensures failure.None? ==> ports.preparation == Prepared(renderer.active.value)
      ensures failure.None? ==>
        Begins(command.policy == RestartAtZero, lastFrameMs, old(lastSourcePositionMs), profileCorrectionUs,
               Published(), audioSeat)
      ensures failure.None? ==> SeatedOn(old(activeMode), old(audioSeat), ports.device, audioSeat)
    {
      if session.None? || timeline.None? || chartClock.None? { return Some(NotLoaded); }
      transactionInProgress := true;
      failure := Replace(command, ports);
      transactionInProgress := false;
    }

    method Replace(command: Command, ports: Ports) returns (failure: Option<PlayerError>)
      requires Consistent() && session.Some? && transactionInProgress
      modifies this, store, renderer
      ensures Consistent() && lastFrameMs == old(lastFrameMs)
      ensures Settles(old(renderer.nextToken), old(renderer.fates), if failure.None? then Activated else Discarded,
                      renderer.nextToken, renderer.fates)
      ensures failure.Some? ==>
        RollsBack(failure.value, old(activeMode), command.policy == RestartAtZero, ports.activation, old(Seen()),
                  Seen())
      ensures failure == ReloadStops(ports, old(activeMode),
                                     ChangesDevice(old(activeMode), old(audioSeat).Some?, old(activeMode)),
                                     Registers(store.limits, old(store.Held()), old(store.registeredBytes), ports.clip))
      ensures failure.None? ==> Coherent() && state == old(state) && activeMode == old(activeMode)
      ensures failure.None? ==> session.value.serial == old(session).value.serial
      ensures failure.None? ==> ports.preparation == Prepared(renderer.active.value)
      ensures failure.None? ==>
        Begins(command.policy == RestartAtZero, lastFrameMs, old(lastSourcePositionMs), profileCorrectionUs,
               Published(), audioSeat)
      ensures failure.None? ==> SeatedOn(old(activeMode), old(audioSeat), ports.device, audioSeat)
    {
      if !ports.source {
        failure := Some(SourceUnavailable);
      } else {
        match ports.preparation {
          case ContentMismatch => failure := Some(ModeChangeRequiresLoad);
          case Refused => failure := Some(PrepareRefused);
          case Prepared(content) =>
            failure := Transact(session.value.serial, content, activeMode, sessionConfig,
                                command.policy == RestartAtZero, ports);
            if failure.Some? {
              RollingBackStaysSteady(failure.value, old(activeMode), command.policy == RestartAtZero, ports.activation,
                                     old(Seen()), Seen());
            }
        }
      }
    }

    /** A rebuild closes the seat and drops what the renderer shows before it can still fail; then the application has
        failed, with its bundle and its clip kept. */
    method RunRebuild(command: Command, ports: Ports) returns (failure: Option<PlayerError>)
      requires Consistent()
      modifies this, store, renderer
      ensures Consistent() && (transactionInProgress ==> old(transactionInProgress)) && lastFrameMs == old(lastFrameMs)
      ensures Settles(old(renderer.nextToken), old(renderer.fates), if failure.None? then Activated else Discarded,
                      renderer.nextToken, renderer.fates)
      ensures failure.None? ==> Coherent() && state == old(state)
      ensures failure.Some? ==> Published() == old(Published()) && store.Held() == old(store.Held())
      ensures old(session).None? && failure.Some? ==>
        RollsBack(failure.value, RequestedMode(command), true, ports.activation, old(Seen()), Seen())
      ensures failure == if old(session).Some?
          then RebuildStops(ports, old(activeMode),
                            Registers(store.limits, old(store.Held()), old(store.registeredBytes), ports.clip))
        else if old(state) != Failed then Some(NotLoaded)
        else LoadStops(command, ports, ChangesDevice(old(activeMode), old(audioSeat).Some?, RequestedMode(command)),
                       Registers(store.limits, old(store.Held()), old(store.registeredBytes), ports.clip))
      ensures old(session).Some? && failure.Some? ==> state == Failed
      ensures old(session).Some? && failure.Some? && failure != Some(RendererRebuild) ==>
        audioSeat.None? && renderer.active.None?
      ensures old(session).Some? && failure == Some(RendererRebuild) ==>
        audioSeat == old(audioSeat) && renderer.active == old(renderer.active)
      ensures old(session).Some? && failure.None? ==> activeMode == old(activeMode)
      ensures failure.None? ==>
        Begins(old(session).None?, lastFrameMs, old(lastSourcePositionMs), profileCorrectionUs, Published(), audioSeat)
      ensures old(session).Some? && failure.None? ==> session.value.serial == old(session).value.serial
    {
      if session.None? {
        if state != Failed { return Some(NotLoaded); }
        failure := RunLoad(command, ports);
        return;
      }
      transactionInProgress := true;
      failure := RebuildBundle(ports);
      transactionInProgress := false;
    }

    method RebuildBundle(ports: Ports) returns (failure: Option<PlayerError>)
      requires Owns() && session.Some? && transactionInProgress
      modifies this, store, renderer
      ensures Owns() && lastFrameMs == old(lastFrameMs)
      ensures Settles(old(renderer.nextToken), old(renderer.fates), if failure.None? then Activated else Discarded,
                      renderer.nextToken, renderer.fates)
      ensures failure == RebuildStops(ports, old(activeMode),
                                      Registers(store.limits, old(store.Held()), old(store.registeredBytes),
                                                ports.clip))
      ensures failure.None? ==> Coherent() && state == old(state)
      ensures failure.Some? ==> state == Failed && Published() == old(Published()) && store.Held() == old(store.Held())
      ensures failure.Some? && failure != Some(RendererRebuild) ==> audioSeat.None? && renderer.active.None?
      ensures failure == Some(RendererRebuild) ==>
        audioSeat == old(audioSeat) && renderer.active == old(renderer.active)
      ensures failure.None? ==> activeMode == old(activeMode)
      ensures failure.None? ==>
        Begins(false, lastFrameMs, old(lastSourcePositionMs), profileCorrectionUs, Published(), audioSeat)
      ensures failure.None? ==> session.value.serial == old(session).value.serial
    {
      renderer.Rebuild(ports.rebuilds);
      if ports.rebuilds {
        failure := Reopen(ports);
      } else {
        state, failure := Failed, Some(RendererRebuild);
      }
    }

    /** The part of a rebuild after the renderer was rebuilt: the seat is closed before anything is read. */
    method Reopen(ports: Ports) returns (failure: Option<PlayerError>)
      requires Owns() && session.Some? && renderer.active.None?
      modifies this, store, renderer
      ensures Owns() && transactionInProgress == old(transactionInProgress) && lastFrameMs == old(lastFrameMs)
      ensures Settles(old(renderer.nextToken), old(renderer.fates), if failure.None? then Activated else Discarded,
                      renderer.nextToken, renderer.fates)
      ensures failure.Some? ==> Seen() == old(Seen()).(state := Failed, seat := None)
      ensures ports.rebuilds
          ==> failure == RebuildStops(ports, old(activeMode),
                                      Registers(store.limits, old(store.Held()), old(store.registeredBytes),
                                                ports.clip))
      ensures failure.None? ==> Coherent() && state == old(state) && activeMode == old(activeMode)
      ensures failure.None? ==> session.value.serial == old(session).value.serial
      ensures failure.None? ==>
        Begins(false, lastFrameMs, old(lastSourcePositionMs), profileCorrectionUs, Published(), audioSeat)
    {
      audioSeat := None;
      if !ports.source {
        state := Failed;
        return Some(SourceUnavailable);
      }
      if !ports.preparation.Prepared? {
        state := Failed;
        return Some(PrepareRefused);
      }
      failure := Transact(session.value.serial, ports.preparation.content, activeMode, sessionConfig, false, ports);
      if failure.Some? { state := Failed; }
    }

    /** Play, pause, stop and seek: on the seat's transport in audio mode, else on the chart clock. */
    method RunTransport(command: Command, ports: Ports) returns (failure: Option<PlayerError>)
      requires Consistent()
      modifies this`pendingChartSeekMs, this`chartResumeMs
      ensures Consistent()
      ensures failure == TransportStops(command, ports, audioSeat.Some?)
      ensures failure.Some? || (activeMode == CuexisAudio && audioSeat.Some?) ==>
        pendingChartSeekMs == old(pendingChartSeekMs) && chartResumeMs == old(chartResumeMs)
      ensures failure.None? && audioSeat.None? && command.kind == Play ==>
        pendingChartSeekMs == Some(old(chartResumeMs)) && chartResumeMs == old(chartResumeMs)
      ensures failure.None? && audioSeat.None? && command.kind == Pause ==>
        pendingChartSeekMs == old(pendingChartSeekMs) && chartResumeMs == lastFrameMs
      ensures failure.None? && audioSeat.None? && command.kind in {Stop, Seek} ==>
        chartResumeMs == (if command.kind == Stop then 0.0 else command.seekTargetMs)
            && pendingChartSeekMs == Some(chartResumeMs)
    {
      if command.kind == Seek && command.seekTargetMs < 0.0 { return Some(SeekNegative); }
      if activeMode == CuexisAudio && audioSeat.Some? {
        return if ports.transport then None else Some(Transport);
      }
      match command.kind {
        case Play => pendingChartSeekMs := Some(chartResumeMs);
        case Pause => chartResumeMs := lastFrameMs;
        case Stop => pendingChartSeekMs, chartResumeMs := Some(0.0), 0.0;
        case Seek => pendingChartSeekMs, chartResumeMs := Some(command.seekTargetMs), command.seekTargetMs;
        case _ =>
      }
      failure := None;
    }

    /** The command's own method. */
    method Run(command: Command, ports: Ports) returns (failure: Option<PlayerError>)
      requires Consistent() && !transactionInProgress
      modifies this, store, renderer
      ensures Consistent() && !transactionInProgress && lastFrameMs == old(lastFrameMs)
      ensures state == old(state) || (failure.Some? && state == Failed && command.kind in {Load, Reload, Rebuild})
      ensures failure == CommandStops(command, ports, old(session).Some?, old(state), old(activeMode),
                                      old(audioSeat).Some?,
                                      Registers(store.limits, old(store.Held()), old(store.registeredBytes),
                                                ports.clip))
      ensures failure.Some? && command.kind in {Load, Reload} ==>
        RollsBack(failure.value, if command.kind == Load then RequestedMode(command) else old(activeMode),
                   command.kind == Load || command.policy == RestartAtZero, ports.activation, old(Seen()), Seen())
      ensures failure.Some? && command.kind !in {Load, Reload, Rebuild} ==>
        unchanged(this) && unchanged(store) && unchanged(renderer)
      ensures failure.Some? ==> Published() == old(Published()) && store.Held() == old(store.Held())
      ensures failure.None? && command.kind in {Load, Reload, Rebuild} ==> Coherent()
      ensures failure.None? && command.kind == Load ==>
        activeMode == if command.mode.Some? then command.mode.value else ChartClock
      ensures failure.None? && command.kind in {Load, Reload, Rebuild} ==>
        Begins(command.kind == Load || (command.kind == Reload && command.policy == RestartAtZero)
               || (command.kind == Rebuild && old(session).None?), lastFrameMs, old(lastSourcePositionMs),
               profileCorrectionUs, Published(), audioSeat)
      ensures failure.None? && command.kind == Reload ==> activeMode == old(activeMode)
      ensures Settles(old(renderer.nextToken), old(renderer.fates),
                      if failure.None? && command.kind in {Load, Reload, Rebuild} then Activated
                      else Discarded, renderer.nextToken, renderer.fates)
    {
      match command.kind {
        case Load => failure := RunLoad(command, ports);
        case Reload => failure := RunReload(command, ports);
        case Rebuild => failure := RunRebuild(command, ports);
        case _ => failure := RunTransport(command, ports);
      }
    }

    /** The single entry.  During a transaction, whatever its progress, a command is refused and changes nothing;
        between transactions the controller stays consistent, and a failed application is left by a load or a rebuild
        only. */
    method Apply(command: Command, ports: Ports) returns (r: Result<(), PlayerError>)
      requires transactionInProgress || Consistent()
      modifies this, store, renderer
      ensures old(transactionInProgress) ==>
        r == Err(TransactionInProgress) && unchanged(this) && unchanged(store) && unchanged(renderer)
      ensures !old(transactionInProgress) ==> Consistent() && !transactionInProgress && lastFrameMs == old(lastFrameMs)
      ensures r.Ok? ==> EvaluateCommand(old(state), false, command.kind) == Ok(state)
      ensures r.Err? ==> state == old(state) || (state == Failed && command.kind in {Load, Reload, Rebuild})
      ensures !old(transactionInProgress) ==>
        r == var decision := EvaluateCommand(old(state), false, command.kind);
             if decision.Err? then Err(decision.error)
             else match CommandStops(command, ports, old(session).Some?, old(state), old(activeMode),
                                     old(audioSeat).Some?,
                                     Registers(store.limits, old(store.Held()), old(store.registeredBytes), ports.clip))
                  case Some(error) => Err(error) case None => Ok(())
      ensures !old(transactionInProgress) && r.Err? && command.kind in {Load, Reload} ==>
        RollsBack(r.error, if command.kind == Load then RequestedMode(command) else old(activeMode),
                   command.kind == Load || command.policy == RestartAtZero, ports.activation, old(Seen()), Seen())
      ensures r.Err? && command.kind !in {Load, Reload, Rebuild} ==>
        unchanged(this) && unchanged(store) && unchanged(renderer)
      ensures r.Err? ==> Published() == old(Published()) && store.Held() == old(store.Held())
      ensures r.Ok? && command.kind in {Load, Reload, Rebuild} ==> Coherent()
      ensures r.Ok? && command.kind == Load ==>
        activeMode == if command.mode.Some? then command.mode.value else ChartClock
      ensures r.Ok? && command.kind in {Load, Reload, Rebuild} ==>
        Begins(command.kind == Load || (command.kind == Reload && command.policy == RestartAtZero)
               || (command.kind == Rebuild && old(session).None?), lastFrameMs, old(lastSourcePositionMs),
               profileCorrectionUs, Published(), audioSeat)
      ensures r.Ok? && command.kind == Reload ==> activeMode == old(activeMode)
      ensures old(state) == Failed && state != Failed ==>
        r.Ok? && command.kind in {Load, Rebuild} && state == Loaded && Coherent()
      ensures Settles(old(renderer.nextToken), old(renderer.fates),
                      if r.Ok? && command.kind in {Load, Reload, Rebuild} then Activated
                      else Discarded, renderer.nextToken, renderer.fates)
    {
      var decision := EvaluateCommand(state, transactionInProgress, command.kind);
      if decision.Err? { return Err(decision.error); }
      var failure := Run(command, ports);
      if failure.Some? { return Err(failure.value); }
      state := decision.value;
      r := Ok(());
    }

    method ObserveTransport(observed: Observation, positionMs: real)
      requires Consistent()
      modifies this`state, this`lastSourcePositionMs
      ensures Consistent() && lastSourcePositionMs == positionMs
      ensures observed == SeesError && old(state) != Empty ==> state == Failed
      ensures observed == SeesEnded && old(state) == Playing ==> state == Stopped
      ensures (observed != SeesError || old(state) == Empty) && (observed != SeesEnded || old(state) != Playing) ==>
        state == old(state)
    {
      lastSourcePositionMs := positionMs;
      state := ObserveTransportState(state, observed);
    }

    method Shutdown()
      requires Consistent()
      modifies this, store
      ensures Consistent() && state == Empty && audioSeat.None? && activeClip.None? && store.Held() == map[]
      ensures transactionInProgress == old(transactionInProgress)
    {
      audioSeat := None;
      DiscardClip(activeClip);
      activeClip := None;
      if session.Some? { session := Some(session.value.(content := None)); }
      state := Empty;
    }

    method NoteRuntimeFrame(chartTimeMs: real)
      requires Consistent()
      modifies this`lastFrameMs
      ensures Consistent() && lastFrameMs == chartTimeMs
    {
      lastFrameMs := chartTimeMs;
    }

    method ConsumeChartSeekTarget() returns (target: Option<real>)
      requires Consistent()
      modifies this`pendingChartSeekMs
      ensures Consistent() && target == old(pendingChartSeekMs) && pendingChartSeekMs.None?
    {
      target, pendingChartSeekMs := pendingChartSeekMs, None;
    }

    method ConsumeBundleReplaced() returns (replaced: bool)
      requires Consistent()
      modifies this`bundleReplaced
      ensures Consistent() && replaced == old(bundleReplaced) && !bundleReplaced
    {
      replaced, bundleReplaced := bundleReplaced, false;
    }

    method MarkFailed()
      requires Consistent()
      modifies this`state
      ensures Consistent() && state == Failed
    {
      state := Failed;
    }

    /** A transaction always finds room for its clip beside the active one. */
    lemma AlwaysRoom(clip: Clip)
      requires Owns() && RoomForTwo(store.limits) && ByteSize(clip) <= store.limits.maxClipBytes
      ensures Registers(store.limits, store.Held(), store.registeredBytes, Some(clip))
    {
      store.CountersAgree();
      assert |store.Held()| == |store.Held().Keys|;
      if activeClip.Some? { assert store.Held().Keys == {activeClip.value}; }
    }

    /** Whatever happens to the controller, between events every candidate ever prepared was activated or discarded,
        and the store's counters are those of the active clip alone. */
    method Live(events: seq<Event>)
      requires Consistent() && !transactionInProgress
      modifies this, store, renderer
      ensures Consistent() && !transactionInProgress
      ensures forall t: nat :: t in renderer.fates <==> t < renderer.nextToken
      ensures forall t: nat :: t in old(renderer.fates) ==>
        t in renderer.fates && renderer.fates[t] == old(renderer.fates)[t]
      ensures store.registeredClips == (if activeClip.Some? then 1 else 0)
      ensures activeClip.None? ==> store.registeredBytes == 0
      ensures activeClip.Some? ==>
        activeClip.value in store.Held() && store.registeredBytes == ByteSize(store.Held()[activeClip.value])
    {
      for i := 0 to |events|
        invariant Consistent() && !transactionInProgress
        invariant forall t: nat :: t in old(renderer.fates) ==>
          t in renderer.fates && renderer.fates[t] == old(renderer.fates)[t]
      {
        Happen(events[i]);
      }
      store.CountersAgree();
      assert |store.Held()| == |store.Held().Keys|;
      if activeClip.Some? { assert store.Held().Keys == {activeClip.value}; }
    }

    method Happen(event: Event)
      requires Consistent() && !transactionInProgress
      modifies this, store, renderer
      ensures Consistent() && !transactionInProgress
      ensures forall t: nat :: t in old(renderer.fates) ==>
        t in renderer.fates && renderer.fates[t] == old(renderer.fates)[t]
    {
      match event {
        case Issued(command, ports) =>
          var r := Apply(command, ports);
        case Observed(observed, positionMs) => ObserveTransport(observed, positionMs);
        case Framed(chartTimeMs) => NoteRuntimeFrame(chartTimeMs);
        case PresentFailed => MarkFailed();
        case SeekConsumed =>
          var target := ConsumeChartSeekTarget();
        case ReplacementConsumed =>
          var replaced := ConsumeBundleReplaced();
        case ShutDown => Shutdown();
      }
    }
  }

  const RELOAD := Command(Reload, 0.0, KeepChartTime, None)

  /** Answers under which every command succeeds. */
  function Willing(clip: Clip): Ports {
    Ports(true, Prepared(0), Offset(0.0), true, Some(clip), true, true, Some(1), Replaced, true, true, true)
  }

  predicate IsUsable(clip: Clip) { ByteSize(clip) <= MAX_DECODED_BYTES }

  /** Loaded in audio mode, with room for one more clip. */
  ghost predicate LoadedWithAudio(c: PlayerController)
    reads c, c.renderer, c.store
  {
    c.Consistent() && !c.transactionInProgress && c.state == Loaded && c.activeMode == CuexisAudio && c.audioSeat.Some?
    && c.store.limits == DEFAULT_LIMITS
  }

  method LoadAudio(clip: Clip) returns (c: PlayerController)
    requires IsUsable(clip)
    ensures fresh(c) && fresh(c.renderer) && fresh(c.store) && LoadedWithAudio(c)
  {
    var renderer := new Renderer();
    var store := new AudioClipStore(DEFAULT_LIMITS, 1);
    c := new PlayerController(renderer, store, 0);
    c.AlwaysRoom(clip);
    var loaded := c.Apply(Command(Load, 0.0, KeepChartTime, Some(CuexisAudio)), Willing(clip));
  }

  method ReloadUnchecked(c: PlayerController, clip: Clip)
    requires LoadedWithAudio(c) && IsUsable(clip)
    modifies c, c.renderer, c.store
    ensures LoadedWithAudio(c) && c.audioSeat.value.staged.Some?
    ensures c.audioSeat.value.staged.value.clip !in c.store.Held()
    ensures c.audioSeat.value.playing == old(c.audioSeat.value.playing)
  {
    c.AlwaysRoom(clip);
    var unchecked := c.Apply(RELOAD, Willing(clip).(accepts := false));
  }

  method ReloadUncommitted(c: PlayerController, clip: Clip, resumes: bool)
    requires LoadedWithAudio(c) && IsUsable(clip)
    modifies c, c.renderer, c.store
    ensures c.Consistent() && c.state == Failed && Strays(c.audioSeat, c.store.Held())
  {
    c.AlwaysRoom(clip);
    var ports := if resumes then Willing(clip).(commits := false) else Willing(clip).(activation := NotResumed);
    var uncommitted := c.Apply(RELOAD, ports);
  }

  /** An audio load, a reload refused by the precheck, and a reload whose commit fails, or whose device does not resume:
      after the second the seat still plays the active clip and a stream of a clip the store has given up waits in it;
      after the third it plays such a stream. */
  method StrandedSeat(clip: Clip, resumes: bool) returns (c: PlayerController, ghost refused: Picture)
    requires IsUsable(clip)
    ensures refused.state == Loaded && refused.seat.Some? && !Strays(refused.seat, refused.held)
    ensures refused.seat.value.staged.Some? && refused.seat.value.staged.value.clip !in refused.held
    ensures c.Consistent() && c.state == Failed && Strays(c.audioSeat, c.store.Held())
  {
    c := LoadAudio(clip);
    ReloadUnchecked(c, clip);
    refused := c.Seen();
    ReloadUncommitted(c, clip, resumes);
  }
}
