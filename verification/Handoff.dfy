/** How a worker hands a node's checkpoint to the headnode (src/runner/local_workspace.py): the
    node archive, its pending marker, the runner records and the headnode's copy, changed by
    single file operations that a crash can separate. */
module Handoff {
  import opened Prelude

  type Node = string
  type Runner = string
  type Path = string
  type Content = string

  /** The stage that declares each output file; no two stages share one. */
  type Owners = map<Path, Node>

  /** A worktree: its files, and the stage entries of its dvc.lock. */
  datatype Workspace = Workspace(files: map<Path, Content>, lock: map<Node, Content>)

  /** A node archive: output files, and the node's dvc.lock entry if it has one. */
  datatype Checkpoint = Checkpoint(files: map<Path, Content>, entry: Option<Content>)

  // ---------------------------------------------------------------- archives

  /** save_node_archive: the declared outputs that exist. */
  function Save(owners: Owners, ws: Workspace, n: Node): Checkpoint {
    Checkpoint(map p | p in ws.files && p in owners && owners[p] == n :: ws.files[p], Lookup(ws.lock, n))
  }

  /** restore_node_archive refuses a file that the node does not declare. */
  predicate Acceptable(owners: Owners, n: Node, c: Checkpoint) {
    forall p :: p in c.files ==> p in owners && owners[p] == n
  }

  function Restore(ws: Workspace, n: Node, c: Checkpoint): Workspace {
    Workspace(ws.files + c.files, if c.entry.Some? then ws.lock[n := c.entry.value] else ws.lock)
  }

  /** What a workspace saves, every workspace accepts. */
  lemma SavedIsAcceptable(owners: Owners, ws: Workspace, n: Node)
    ensures Acceptable(owners, n, Save(owners, ws, n))
  {
  }

  /** A restored checkpoint is saved again as it was, exactly if the workspace had nothing of the
      node that the checkpoint does not replace. */
  lemma RestoreThenSave(owners: Owners, ws: Workspace, n: Node, c: Checkpoint)
    requires Acceptable(owners, n, c)
    ensures Save(owners, Restore(ws, n, c), n) == c <==>
            && (forall p :: p in ws.files && p in owners && owners[p] == n ==> p in c.files)
            && (n in ws.lock ==> c.entry.Some?)
  {
    var saved := Save(owners, Restore(ws, n, c), n);
    if (forall p :: p in ws.files && p in owners && owners[p] == n ==> p in c.files) {
      assert saved.files == c.files;
    } else {
      var p :| p in ws.files && p in owners && owners[p] == n && p !in c.files;
      assert p in saved.files;
    }
  }

  /** Restoring one node leaves what every other node would save. */
  lemma RestoreKeepsOtherNodes(owners: Owners, ws: Workspace, n: Node, c: Checkpoint, other: Node)
    requires Acceptable(owners, n, c) && other != n
    ensures Save(owners, Restore(ws, n, c), other) == Save(owners, ws, other)
  {
    assert Save(owners, Restore(ws, n, c), other).files == Save(owners, ws, other).files;
  }

  // ---------------------------------------------------------------- state

  /** A checkpoint that has reached the headnode. */
  datatype Delivery = Delivery(node: Node, c: Checkpoint)

  /** How far a handoff has come; it holds the lock of its runner record. */
  datatype Stage =
    | Opened
    | Saved
    | Retained
    | Sending(c: Checkpoint)
    | Delivered(c: Checkpoint)
    | Cleared(c: Checkpoint)

  /** One call of preserve_runner_record; `full` unless it was called with pending_only. */
  datatype Transfer = Transfer(node: Node, full: bool, stage: Stage)

  datatype State = State(
    owners: Owners,
    archives: map<Node, Checkpoint>, pending: set<Node>, records: map<Runner, Node>,
    workspaces: map<Runner, Workspace>, headnode: map<Node, Checkpoint>,
    received: set<Delivery>,        // every upload of this worker that the headnode took
    transfers: map<Runner, Transfer>,
    restoring: map<Runner, Node>,   // past the check of the marker, before the download
    stopped: set<Runner>)

  /** What an executor does besides handing off; `Stop` is also its failure or its kill. */
  datatype Action =
    | Allocate(ws: Workspace)
    | RestoreLocal(n: Node)
    | BeginRestore(n: Node)
    | EndRestore
    | StartNode(n: Node)
    | Work(ws: Workspace)
    | Stop
    | CleanUp
    | Wipe

  /** The file operations of preserve_runner_record, in order; `Abort` ends it anywhere. */
  datatype Operation =
    | Open(full: bool) | SaveArchive | MarkPending | SkipSave | Read
    | Deliver | ClearPending | DropRecord | Abort

  datatype Event =
    | OtherWorker(n: Node, c: Checkpoint)
    | Acts(r: Runner, a: Action)
    | Hands(r: Runner, op: Operation)

  /** A runner that can act: its executor runs and no handoff of its own is under way. */
  predicate Free(s: State, r: Runner) {
    && r in s.workspaces && r !in s.stopped && r !in s.restoring
    && (r in s.transfers ==> !s.transfers[r].full)
  }

  ghost predicate CanHand(s: State, r: Runner, op: Operation) {
    if op.Open? then
      && r in s.records && r !in s.transfers
      && (if op.full then r !in s.restoring else s.records[r] in s.pending)
    else
      && r in s.transfers
      && var t := s.transfers[r];
         match op
         case SaveArchive => t.stage.Opened? && t.full && r in s.workspaces
         case MarkPending => t.stage.Saved?
         case SkipSave => t.stage.Opened? && (t.full ==> r !in s.workspaces)
         case Read => t.stage.Retained? && t.node in s.archives
         case Deliver => t.stage.Sending?
         case ClearPending => t.stage.Delivered?
         case DropRecord => t.stage.Cleared?
         case _ => true
  }

  ghost predicate CanAct(s: State, r: Runner, a: Action) {
    match a
    case Allocate(_) => r !in s.workspaces && r !in s.records && r !in s.stopped
    case RestoreLocal(n) => Free(s, r) && n in s.pending && n in s.archives && Acceptable(s.owners, n, s.archives[n])
    case BeginRestore(n) => Free(s, r) && (n !in s.pending || n !in s.archives)
    case EndRestore => r in s.restoring && r in s.workspaces
    case StartNode(_) => Free(s, r)
    case Work(_) => Free(s, r) && r in s.records
    case Stop => true
    case CleanUp => Free(s, r) && r !in s.records
    case Wipe => r in s.stopped
  }

  ghost predicate Enabled(s: State, e: Event) {
    match e
    case OtherWorker(_, _) => true
    case Acts(r, a) => CanAct(s, r, a)
    case Hands(r, op) => CanHand(s, r, op)
  }

  // ---------------------------------------------------------------- steps

  function Advance(s: State, r: Runner, stage: Stage): State
    requires r in s.transfers
  {
    s.(transfers := s.transfers[r := s.transfers[r].(stage := stage)])
  }

  function StopRunner(s: State, r: Runner): State {
    s.(stopped := s.stopped + {r}, restoring := s.restoring - {r})
  }

  function RestoreInto(s: State, r: Runner, n: Node): State
    requires r in s.workspaces
  {
    if n in s.archives then s.(workspaces := s.workspaces[r := Restore(s.workspaces[r], n, s.archives[n])]) else s
  }

  /** The download replaces the archive if the headnode has one. */
  function Download(s: State, n: Node): State {
    if n in s.headnode then s.(archives := s.archives[n := s.headnode[n]]) else s
  }

  ghost function HandStep(s: State, r: Runner, op: Operation): State
    requires CanHand(s, r, op)
  {
    if op.Open? then s.(transfers := s.transfers[r := Transfer(s.records[r], op.full, Opened)])
    else
      var t := s.transfers[r];
      match op
      case SaveArchive =>
        Advance(s.(archives := s.archives[t.node := Save(s.owners, s.workspaces[r], t.node)]), r, Saved)
      case MarkPending => Advance(s.(pending := s.pending + {t.node}), r, Retained)
      case SkipSave => Advance(s, r, Retained)
      case Read => Advance(s, r, Sending(s.archives[t.node]))
      case Deliver =>
        Advance(s.(headnode := s.headnode[t.node := t.stage.c], received := s.received + {Delivery(t.node, t.stage.c)}),
                r, Delivered(t.stage.c))
      case ClearPending => Advance(s.(pending := s.pending - {t.node}), r, Cleared(t.stage.c))
      case DropRecord => s.(records := s.records - {r}, transfers := s.transfers - {r})
      case _ =>
        // An upload that fails, a process that dies, or a lost acknowledgement.
        var s' := s.(transfers := s.transfers - {r});
        if t.full then StopRunner(s', r) else s'
  }

  ghost function FinishRestore(s: State, r: Runner): (s': State)
    requires r in s.restoring && r in s.workspaces
    ensures s' == s.(workspaces := s'.workspaces, stopped := s'.stopped, restoring := s.restoring - {r})
    ensures forall q :: q != r ==>
              Lookup(s'.workspaces, q) == Lookup(s.workspaces, q) && (q in s'.stopped <==> q in s.stopped)
    ensures r in s'.workspaces
  {
    var n := s.restoring[r];
    var d := s.(restoring := s.restoring - {r});
    if n in s.archives && !Acceptable(s.owners, n, s.archives[n]) then StopRunner(d, r) else RestoreInto(d, r, n)
  }

  ghost function ActStep(s: State, r: Runner, a: Action): State
    requires CanAct(s, r, a)
  {
    match a
    case Allocate(ws) => s.(workspaces := s.workspaces[r := ws])
    case RestoreLocal(n) => RestoreInto(s, r, n)
    case BeginRestore(n) => s.(restoring := s.restoring[r := n])
    case EndRestore => FinishRestore(Download(s, s.restoring[r]), r)
    case StartNode(n) => s.(records := s.records[r := n])
    case Work(ws) => s.(workspaces := s.workspaces[r := ws])
    case Stop => StopRunner(s, r)
    case CleanUp => StopRunner(s.(workspaces := s.workspaces - {r}), r)
    case Wipe => s.(workspaces := s.workspaces - {r})
  }

  ghost function Step(s: State, e: Event): State
    requires Enabled(s, e)
  {
    match e
    case OtherWorker(n, c) => s.(headnode := s.headnode[n := c])
    case Acts(r, a) => ActStep(s, r, a)
    case Hands(r, op) => HandStep(s, r, op)
  }

  ghost predicate IsRun(s: State, events: seq<Event>)
    decreases |events|, 0
  {
    events != [] ==>
      && IsRun(s, events[..|events| - 1])
      && Enabled(After(s, events[..|events| - 1]), events[|events| - 1])
  }

  ghost function After(s: State, events: seq<Event>): State
    requires IsRun(s, events)
    decreases |events|, 1
  {
    if events == [] then s else Step(After(s, events[..|events| - 1]), events[|events| - 1])
  }

  /** A worker that has not started anything. */
  ghost predicate Initial(s: State) {
    && s.archives == map[] && s.pending == {} && s.records == map[] && s.workspaces == map[]
    && s.received == {} && s.transfers == map[] && s.restoring == map[] && s.stopped == {}
  }
}
