/** Commands on a campaign and its latest workflow, and the statuses they leave. */
module CampaignControl {
  import opened Prelude

  // Campaigns and workflows share these six names.
  datatype Status = Pending | Running | Paused | Completed | Failed | Cancelled

  // A campaign and its latest workflow.
  datatype Control = Control(campaign: Status, workflow: Status)

  const RUNNING: Control := Control(Running, Running)

  // What a resume or a retry leaves until the batch it dispatches opens.
  const TAKEN_BACK: Control := Control(Running, Pending)

  // `Launch` is the command named start.
  datatype Action = Launch | Pause | Resume | Cancel | Retry

  // A command reaches the pair through the campaign or through the workflow.
  datatype Command = OnCampaign(action: Action) | OnWorkflow(action: Action)

  function CampaignNext(s: Status, a: Action): Option<Status> {
    match (s, a)
    case (Pending, Launch) => Some(Running)
    case (Running, Pause) => Some(Paused)
    case (Paused, Resume) => Some(Running)
    case (Running, Cancel) => Some(Cancelled)
    case (Paused, Cancel) => Some(Cancelled)
    case (Pending, Cancel) => Some(Cancelled)
    case (Failed, Retry) => Some(Running)
    case _ => None
  }

  function WorkflowNext(s: Status, a: Action): Option<Status> {
    match (s, a)
    case (Running, Pause) => Some(Paused)
    case (Pending, Pause) => Some(Paused)
    case (Paused, Resume) => Some(Pending)
    case (Running, Cancel) => Some(Cancelled)
    case (Pending, Cancel) => Some(Cancelled)
    case (Paused, Cancel) => Some(Cancelled)
    case (Failed, Retry) => Some(Pending)
    case (Cancelled, Retry) => Some(Pending)
    case _ => None
  }

  // A campaign command moves the active workflow, or creates one when it starts, retries or finds none.
  function WorkflowAfter(workflow: Status, a: Action): Status {
    if a == Launch || a == Retry || workflow !in {Pending, Running, Paused} then Pending
    else if a == Pause then Paused
    else if a == Cancel then Cancelled
    else Pending
  }

  // A workflow command moves the campaign with it.
  function CampaignAfter(campaign: Status, workflow: Status): Status {
    match workflow
    case Paused => Paused
    case Cancelled => Cancelled
    case Pending => Running
    case _ => campaign
  }

  // A refused command raises and changes nothing.
  function Apply(c: Control, command: Command): Control {
    match command
    case OnCampaign(a) =>
      var next := CampaignNext(c.campaign, a);
      if next.None? then c else Control(next.value, WorkflowAfter(c.workflow, a))
    case OnWorkflow(a) =>
      var next := WorkflowNext(c.workflow, a);
      if next.None? then c else Control(CampaignAfter(c.campaign, next.value), next.value)
  }

  function After(c: Control, commands: seq<Command>): Control {
    if commands == [] then c else Apply(After(c, commands[..|commands| - 1]), commands[|commands| - 1])
  }

  /** A command on an aligned pair dispatches a batch exactly when it starts a PENDING campaign, resumes a
      PAUSED pair, or retries a FAILED campaign or a FAILED or CANCELLED workflow; it is then RUNNING and
      PENDING. */
  lemma DispatchesIff(c: Control, command: Command)
    requires c.campaign == c.workflow
    ensures Apply(c, command) == TAKEN_BACK <==>
      || (command == OnCampaign(Launch) && c.campaign == Pending)
      || (command.action == Resume && c.campaign == Paused)
      || (command.action == Retry && c.campaign == Failed)
      || (command == OnWorkflow(Retry) && c.workflow == Cancelled)
  {
  }

  /** A pause is taken by a RUNNING pair, a cancellation by one that is RUNNING, PAUSED or PENDING; only a
      workflow can be paused while PENDING. */
  lemma HaltsIff(c: Control, command: Command)
    requires c.campaign == c.workflow
    ensures command.action == Pause ==>
      (Apply(c, command) == Control(Paused, Paused) <==>
         c.campaign == Running || c.campaign == Paused || (command.OnWorkflow? && c.workflow == Pending))
    ensures command.action == Cancel ==>
      (Apply(c, command) == Control(Cancelled, Cancelled) <==>
         c.campaign in {Running, Paused, Pending, Cancelled})
  {
  }

  // Some command asks for a pause or a cancellation.
  predicate Interrupting(commands: seq<Command>) {
    exists i :: 0 <= i < |commands| && (commands[i].action == Pause || commands[i].action == Cancel)
  }

  /** From RUNNING commands lead to four pairs only. The batch may continue if and only if nobody asked
      for a pause or a cancellation: what a resume gives back is not RUNNING. */
  lemma {:induction false} RunningUnlessInterrupted(commands: seq<Command>)
    ensures var c := After(RUNNING, commands);
      && (c == RUNNING <==> !Interrupting(commands))
      && c in {RUNNING, Control(Paused, Paused), TAKEN_BACK, Control(Cancelled, Cancelled)}
  {
    if commands != [] {
      var n := |commands| - 1;
      RunningUnlessInterrupted(commands[..n]);
      InterruptingNext(commands);
    }
  }

  lemma InterruptingNext(commands: seq<Command>)
    requires commands != []
    ensures var last := commands[|commands| - 1].action;
      Interrupting(commands) <==> Interrupting(commands[..|commands| - 1]) || last == Pause || last == Cancel
  {
    var n := |commands| - 1;
    assert forall i :: 0 <= i < n ==> commands[..n][i] == commands[i];
  }

  lemma {:induction false} AfterConcat(c: Control, a: seq<Command>, b: seq<Command>)
    ensures After(c, a + b) == After(After(c, a), b)
  {
    if b == [] {
      assert a + b == a;
    } else {
      assert (a + b)[..|a + b| - 1] == a + b[..|b| - 1];
      AfterConcat(c, a, b[..|b| - 1]);
    }
  }

  // The pair agrees, or waits for the batch that a command dispatched.
  predicate Aligned(c: Control) {
    c.campaign == c.workflow || c == TAKEN_BACK
  }

  lemma CommandKeepsAligned(c: Control, command: Command)
    requires Aligned(c)
    ensures Aligned(Apply(c, command))
  {
  }
}
