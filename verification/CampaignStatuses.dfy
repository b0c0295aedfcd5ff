/** The statuses of a direct campaign and its workflow over runs of batches and commands. */
module CampaignStatuses {
  import opened Prelude
  import opened CampaignControl
  import opened CampaignRunner

  datatype Event = BatchEvent(batch: Batch) | CommandEvent(command: Command)

  ghost predicate Tracks(board: Board, c: nat, w: nat) {
    c in board.campaigns && w in board.workflows
  }

  function ControlOf(board: Board, c: nat, w: nat): Control
    requires c in board.campaigns && w in board.workflows
  {
    Control(board.campaigns[c].status, board.workflows[w].status)
  }

  // The board after a command; `w` stands for the latest workflow of the campaign.
  function Commanded(board: Board, c: nat, w: nat, command: Command): Board
    requires c in board.campaigns && w in board.workflows
  {
    var next := Apply(ControlOf(board, c, w), command);
    board.(campaigns := board.campaigns[c := board.campaigns[c].(status := next.campaign)],
           workflows := board.workflows[w := board.workflows[w].(status := next.workflow)])
  }

  ghost predicate IsStep(board: Board, e: Event, board': Board, c: nat, w: nat) {
    && Tracks(board, c, w)
    && match e
       case BatchEvent(b) => b.campaign == c && b.workflow == Some(w) && Probed(b) && board' == RunBatch(board, b).0
       case CommandEvent(command) => board' == Commanded(board, c, w, command)
  }

  ghost predicate IsRun(trace: seq<Board>, events: seq<Event>, c: nat, w: nat) {
    && |trace| == |events| + 1
    && forall i :: 0 <= i < |events| ==> IsStep(trace[i], events[i], trace[i + 1], c, w)
  }

  lemma StepKeepsAligned(board: Board, e: Event, board': Board, c: nat, w: nat)
    requires IsStep(board, e, board', c, w) && Aligned(ControlOf(board, c, w))
    ensures Tracks(board', c, w) && Aligned(ControlOf(board', c, w))
    ensures e.BatchEvent? && RunBatch(board, e.batch).1.Done? ==>
      var status := RunBatch(board, e.batch).1.status; ControlOf(board', c, w) == Control(status, status)
  {
    match e
    case BatchEvent(b) =>
    case CommandEvent(command) => CommandKeepsAligned(ControlOf(board, c, w), command);
  }

  /** Over any run of batches and commands the campaign and its workflow carry the same status, except
      between a start, resume or retry and the batch it dispatches, when they are RUNNING and PENDING; and
      after every processed batch they carry the status it reported. */
  lemma {:induction false} RunKeepsAligned(trace: seq<Board>, events: seq<Event>, c: nat, w: nat, n: nat)
    requires IsRun(trace, events, c, w) && n < |trace| && Tracks(trace[0], c, w) && Aligned(ControlOf(trace[0], c, w))
    ensures Tracks(trace[n], c, w) && Aligned(ControlOf(trace[n], c, w))
    ensures n > 0 && events[n - 1].BatchEvent? && Probed(events[n - 1].batch) ==>
      var o := RunBatch(trace[n - 1], events[n - 1].batch).1;
      o.Done? ==> ControlOf(trace[n], c, w) == Control(o.status, o.status)
  {
    if n > 0 {
      RunKeepsAligned(trace, events, c, w, n - 1);
      StepKeepsAligned(trace[n - 1], events[n - 1], trace[n], c, w);
    }
  }

  /** After a processed batch the campaign and its workflow carry the status it reported, and no other
      workflow changed. */
  lemma ProcessedStatusesAgree(board: Board, b: Batch)
    requires Probed(b) && RunBatch(board, b).1.Done?
    ensures var (board', o) := RunBatch(board, b);
      && b.campaign in board'.campaigns && board'.campaigns[b.campaign].status == o.status
      && (b.workflow.Some? && b.workflow.value in board.workflows ==>
            b.workflow.value in board'.workflows && board'.workflows[b.workflow.value].status == o.status)
      && (forall w :: w in board.workflows && Some(w) != b.workflow ==>
            w in board'.workflows && board'.workflows[w] == board.workflows[w])
  {
  }
}
