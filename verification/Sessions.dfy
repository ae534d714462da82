/** The AssistantSession object: the entities of `communication/infra/assistant_sessions.py` as values. */
module Sessions {
  import opened Prelude
  import Json

  /** Seconds on the controller's clock. */
  type Time = real

  const RUNNING := "Running"
  const STOPPED := "Stopped"
  const IN_PROGRESS := "in_progress"
  const ASSIGNED := "assigned"

  datatype ObjectRef = ObjectRef(name: string, namespace: string)

  datatype VmRef = VmRef(name: string, hostname: string, vmType: string, poolLocation: string, region: string,
      zone: string)

  /** `observedAt` is None when the stored text is missing or is no timestamp. */
  datatype VmAssignment = VmAssignment(state: string, attemptId: string, observedAt: Option<Time>, message: string)

  datatype Binding = Binding(
    id: string,
    jobRef: Option<ObjectRef>,
    podRef: Option<ObjectRef>,
    vmAssignment: Option<VmAssignment>,
    vmRef: Option<VmRef>,
    desktopUrl: string,
    desktopSecret: string,
    createdAt: Option<Time>,
    containerBootstrapStartedAt: Option<Time>,
    containerReadyAt: Option<Time>,
    vmAssignedAt: Option<Time>,
    guestHandshakeStartedAt: Option<Time>,
    vmReadyObservedAt: Option<Time>,
    vmReadyHostname: string,
    vmReadyMessageId: string,
    releaseRequestedAt: Option<Time>,
    releaseCompletedAt: Option<Time>,
    releaseGeneration: nat)

  /** An absent binding: every accessor of the source reads an absent field as empty. */
  const NO_BINDING := Binding("", None, None, None, None, "", "", None, None, None, None, None, None, "", "", None,
      None, 0)

  /** A fresh binding as the controller mints it: an id, a creation time and nothing else. */
  function MintBinding(id: string, createdAt: Time): Binding {
    NO_BINDING.(id := id, createdAt := Some(createdAt))
  }

  /** `kind` is the `type` field, empty if missing. */
  datatype Condition = Condition(kind: string, status: Option<string>, reason: Option<string>, message: Option<string>,
      lastTransitionTime: Option<string>)

  datatype SuspendIntent = SuspendIntent(bindingId: string, intent: string, source: string, requestedAt: Option<Time>)

  /** `releaseGeneration` is None when the payload carries none, or one that is no integer. */
  datatype Signal = Signal(bindingId: string, observedAt: Option<Time>, state: string, releaseGeneration: Option<int>,
      source: string)

  datatype ReleasedBinding = ReleasedBinding(bindingId: string, releaseRequestedAt: Option<Time>,
      releaseCompletedAt: Time)

  datatype Status = Status(
    phase: string,
    observedActivationId: string,
    binding: Binding,
    lastError: string,
    conditions: seq<Condition>,
    bootstrapRetries: int,
    vmRetries: int,
    desktopProbeFailures: int,
    suspendIntent: Option<SuspendIntent>,
    signals: map<string, Signal>,
    releasedBindings: seq<ReleasedBinding>)

  const EMPTY_STATUS := Status("", "", NO_BINDING, "", [], 0, 0, 0, None, map[], [])

  /** `terminating` is a set `metadata.deletionTimestamp`. */
  datatype Session = Session(resourceVersion: nat, terminating: bool, spec: map<string, Json.Value>, status: Status)

  /** What the accessors see where there is no object at all. */
  const NO_SESSION := Session(0, false, map[], EMPTY_STATUS)

  function OrEmpty(stored: Option<Session>): Session {
    if stored.Some? then stored.value else NO_SESSION
  }

  /** `assistant_session_desired_state`: deletion counts as Stopped, an absent field as Running. */
  function DesiredState(session: Session): string {
    if session.terminating then STOPPED else
    match Json.Get(session.spec, "desiredState")
    case Text(s) => if s == "" then RUNNING else s
    case _ => RUNNING
  }

  /**
   * The state wanted, read off the fields: deletion stops, an absent or empty text runs, any other text is
   * taken as it is.
   */
  lemma DesiredStateMeans(session: Session)
    ensures var field := Json.Get(session.spec, "desiredState");
            && (DesiredState(session) == "Running" <==>
                !session.terminating && (field.Text? ==> field.s == "" || field.s == "Running"))
            && (DesiredState(session) == "Stopped" <==> session.terminating || field == Json.Text("Stopped"))
            && (!session.terminating && field.Text? && field.s != "" ==> DesiredState(session) == field.s)
  {
  }
}
