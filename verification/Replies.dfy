/**
 What the FUSE callbacks tell the kernel (tuxstack-vfs/src/adapter.rs): every reply answers its
 own call with what the provider said to that very callback, everything cached was said by the
 provider of that path, and a callback fails only for a reason of its own.
 */
module Replies {
  import opened Common
  import opened VfsPath
  import opened Inodes
  import opened Namespace
  import opened Symlink
  import opened Runs
  import A = Adapter

  type Steps = seq<A.Step>

  // ----- what has happened in a run -----

  ghost predicate Took(steps: Steps, n: nat, step: A.Step) { exists k: nat :: k < n && k < |steps| && steps[k] == step }

  lemma TookMore(steps: Steps, n: nat, step: A.Step)
    requires n < |steps|
    ensures Took(steps, n, step) ==> Took(steps, n + 1, step)
    ensures Took(steps, n + 1, steps[n])
  {
  }

  ghost predicate Called(steps: Steps, n: nat, t: nat, call: A.Call) { Took(steps, n, A.Begin(t, call)) }

  ghost predicate ToldMetadata(steps: Steps, n: nat, t: nat, m: Metadata) { Took(steps, n, A.AnswerMetadata(t, Ok(m))) }

  ghost predicate ToldList(steps: Steps, n: nat, t: nat, es: seq<Entry>) { Took(steps, n, A.AnswerList(t, Ok(es))) }

  ghost predicate ToldTarget(steps: Steps, n: nat, t: nat, raw: LinkTarget) {
    Took(steps, n, A.AnswerTarget(t, Ok(raw)))
  }

  /** A child comes from the answer of lookup, or is the next entry of the list that readdir was given. */
  ghost predicate ChildHonest(steps: Steps, n: nat, t: nat, c: A.Child, todo: A.Todo) {
    match todo
    case ReplyEntry => Called(steps, n, t, A.LookupCall(c.parent, c.name)) && ToldMetadata(steps, n, t, c.metadata)
    case GoOn(up, done, rows, left) =>
      && Called(steps, n, t, A.ReadDirCall(c.parent))
      && ToldList(steps, n, t, done + [Entry(c.name, c.metadata)] + left)
  }

  ghost predicate ReplyHonest(steps: Steps, n: nat, t: nat, reply: A.Reply) {
    match reply
    case Failed(_) => true
    case EntryReply(c, _) => ChildHonest(steps, n, t, c, A.ReplyEntry)
    case AttrReply(i, _, m) => Called(steps, n, t, A.GetAttrCall(i)) && ToldMetadata(steps, n, t, m)
    case LinkReply(i, _, raw, _) => Called(steps, n, t, A.ReadLinkCall(i)) && ToldTarget(steps, n, t, raw)
    case OpenReply(i, _) => Called(steps, n, t, A.OpenCall(i, true)) && Took(steps, n, A.AnswerOpen(t, Ok(())))
    case DirReply(i, _, _, entries, _) => Called(steps, n, t, A.ReadDirCall(i)) && ToldList(steps, n, t, entries)
  }

  ghost predicate TaskHonest(steps: Steps, n: nat, t: nat, task: A.Task) {
    match task
    case AskLookup(parent, _, name, _) => Called(steps, n, t, A.LookupCall(parent, name))
    case AskAttr(i, _) => Called(steps, n, t, A.GetAttrCall(i))
    case AskLink(i, _) => Called(steps, n, t, A.ReadLinkCall(i))
    case AskOpen(i, _) => Called(steps, n, t, A.OpenCall(i, true))
    case AskList(i, _) => Called(steps, n, t, A.ReadDirCall(i))
    case NeedParent(i, _, es) => Called(steps, n, t, A.ReadDirCall(i)) && ToldList(steps, n, t, es)
    case NeedInode(c, todo) => ChildHonest(steps, n, t, c, todo)
    case NeedStore(c, _, todo) => ChildHonest(steps, n, t, c, todo)
    case NeedWriteBack(i, _, m) => Called(steps, n, t, A.GetAttrCall(i)) && ToldMetadata(steps, n, t, m)
    case Done(reply) => ReplyHonest(steps, n, t, reply)
  }

  ghost predicate AllHonest(steps: Steps, n: nat, tasks: map<nat, A.Task>) {
    forall t :: t in tasks ==> TaskHonest(steps, n, t, tasks[t])
  }

  /** What was honest stays honest as the run goes on. */
  lemma StillHonest(steps: Steps, n: nat, t: nat, task: A.Task)
    requires n < |steps| && TaskHonest(steps, n, t, task)
    ensures TaskHonest(steps, n + 1, t, task)
  {
    forall step ensures Took(steps, n, step) ==> Took(steps, n + 1, step) { TookMore(steps, n, step); }
  }

  lemma NextEntryHonest(steps: Steps, n: nat, t: nat, inode: nat, dir: VirtualPath, up: nat,
                        done: seq<Entry>, rows: seq<A.DirRow>, left: seq<Entry>)
    requires A.NamesValid(left) && Called(steps, n, t, A.ReadDirCall(inode)) && ToldList(steps, n, t, done + left)
    ensures TaskHonest(steps, n, t, A.NextEntry(inode, dir, up, done, rows, left))
  {
    if left == [] {
      assert done + left == done;
    } else {
      assert left[0] == Entry(left[0].name, left[0].metadata);
      assert done + left == done + [left[0]] + left[1..];
    }
  }

  lemma StoredHonest(steps: Steps, n: nat, t: nat, c: A.Child, i: nat, todo: A.Todo)
    requires ChildHonest(steps, n, t, c, todo) && (todo.GoOn? ==> A.NamesValid(todo.left))
    ensures TaskHonest(steps, n, t, A.Stored(c, i, todo))
  {
    if todo.GoOn? {
      var rows := todo.rows + [A.DirRow(i, c.metadata.fileType, c.name)];
      NextEntryHonest(steps, n, t, c.parent, c.dir, todo.up, todo.done + [Entry(c.name, c.metadata)], rows, todo.left);
    }
  }

  lemma OpeningHonest(nodes: map<nat, A.CachedNode>, steps: Steps, n: nat, t: nat, call: A.Call)
    requires Called(steps, n, t, call)
    ensures TaskHonest(steps, n, t, A.Opening(nodes, call))
  {
  }

  lemma AnsweredHonest(steps: Steps, n: nat, t: nat, task: A.Task, m: Result<Metadata, VfsError>)
    requires (task.AskLookup? || task.AskAttr?) && TaskHonest(steps, n, t, task)
    requires Took(steps, n, A.AnswerMetadata(t, m))
    ensures TaskHonest(steps, n, t, A.Answered(task, m))
  {
  }

  lemma LinkedHonest(steps: Steps, n: nat, t: nat, task: A.Task, target: Result<LinkTarget, VfsError>)
    requires task.AskLink? && TaskHonest(steps, n, t, task) && Took(steps, n, A.AnswerTarget(t, target))
    ensures TaskHonest(steps, n, t, A.Linked(task, target))
  {
  }

  predicate IsAnswer(step: A.Step) {
    step.Begin? || step.AnswerMetadata? || step.AnswerTarget? || step.AnswerOpen? || step.AnswerList?
  }

  lemma AnswerTaskHonest(owner: Owner, s: A.State, steps: Steps, n: nat)
    requires n < |steps| && A.Enabled(s, steps[n]) && IsAnswer(steps[n])
    requires !steps[n].Begin? ==> TaskHonest(steps, n + 1, steps[n].task, s.tasks[steps[n].task])
    ensures var t := steps[n].task; TaskHonest(steps, n + 1, t, A.Move(owner, s, steps[n]).tasks[t])
  {
    var step := steps[n];
    var t := step.task;
    TookMore(steps, n, step);
    match step
    case Begin(_, call) => OpeningHonest(s.nodes, steps, n + 1, t, call);
    case AnswerMetadata(_, m) => AnsweredHonest(steps, n + 1, t, s.tasks[t], m);
    case AnswerTarget(_, target) => LinkedHonest(steps, n + 1, t, s.tasks[t], target);
    case AnswerOpen(_, r) => if r.Ok? { assert r.value == (); }
    case AnswerList(_, _) =>
  }

  /** The task that takes a step answers as it should. */
  lemma OwnTaskHonest(owner: Owner, s: A.State, steps: Steps, n: nat)
    requires n < |steps| && A.Enabled(s, steps[n]) && !steps[n].ForgetInode? && AllHonest(steps, n, s.tasks)
    ensures var t := steps[n].task; TaskHonest(steps, n + 1, t, A.Move(owner, s, steps[n]).tasks[t])
  {
    var step := steps[n];
    var t := step.task;
    if !step.Begin? { StillHonest(steps, n, t, s.tasks[t]); }
    if IsAnswer(step) {
      AnswerTaskHonest(owner, s, steps, n);
    } else if step.FindParent? {
      var task := s.tasks[t];
      assert [] + task.entries == task.entries;
      NextEntryHonest(steps, n + 1, t, task.inode, task.path, step.up, [], [], task.entries);
    } else if step.StoreNode? {
      StoredHonest(steps, n + 1, t, s.tasks[t].child, s.tasks[t].number, s.tasks[t].todo);
    }
  }

  lemma StepHonest(owner: Owner, s: A.State, steps: Steps, n: nat)
    requires n < |steps| && A.Enabled(s, steps[n]) && AllHonest(steps, n, s.tasks)
    ensures AllHonest(steps, n + 1, A.Move(owner, s, steps[n]).tasks)
  {
    var u := A.Move(owner, s, steps[n]);
    if !steps[n].ForgetInode? { OwnTaskHonest(owner, s, steps, n); }
    forall t | t in u.tasks ensures TaskHonest(steps, n + 1, t, u.tasks[t]) {
      if steps[n].ForgetInode? || t != steps[n].task { StillHonest(steps, n, t, s.tasks[t]); }
    }
  }

  /** `run(n)` is the state before step n. */
  type Run = nat -> A.State

  ghost predicate Moves(owner: Owner, run: Run, steps: Steps, n: nat) {
    n < |steps| && A.Enabled(run(n), steps[n]) && run(n + 1) == A.Move(owner, run(n), steps[n])
  }

  ghost predicate IsRun(owner: Owner, root: Metadata, run: Run, steps: Steps) {
    run(0) == A.Start(root) && forall n: nat :: n < |steps| ==> Moves(owner, run, steps, n)
  }

  lemma HonestNext(owner: Owner, run: Run, steps: Steps, n: nat)
    requires Moves(owner, run, steps, n) && AllHonest(steps, n, run(n).tasks)
    ensures AllHonest(steps, n + 1, run(n + 1).tasks)
  {
    StepHonest(owner, run(n), steps, n);
  }

  /** At every moment of every run, each callback holds and replies what its own call and its own answers were. */
  lemma {:induction false} RunHonest(owner: Owner, root: Metadata, run: Run, steps: Steps, n: nat)
    requires IsRun(owner, root, run, steps) && n <= |steps|
    ensures AllHonest(steps, n, run(n).tasks)
  {
    if n > 0 {
      RunHonest(owner, root, run, steps, n - 1);
      assert Moves(owner, run, steps, n - 1);
      HonestNext(owner, run, steps, n - 1);
    }
  }

  // ----- where cached metadata comes from -----

  /** In this step the provider answers for the node's own path with the node's metadata. */
  ghost predicate Answers(s: A.State, step: A.Step, node: A.CachedNode) {
    match step
    case AnswerMetadata(t, m) =>
      && t in s.tasks && (s.tasks[t].AskLookup? || s.tasks[t].AskAttr?)
      && s.tasks[t].path == node.path && m == Ok(node.metadata)
    case AnswerList(t, es) =>
      && t in s.tasks && s.tasks[t].AskList? && es.Ok?
      && exists i ::
           && 0 <= i < |es.value| && node.path == s.tasks[t].path + [es.value[i].name]
           && node.metadata == es.value[i].metadata
    case _ => false
  }

  ghost predicate Sourced(root: Metadata, run: Run, steps: Steps, n: nat, node: A.CachedNode) {
    || node == A.CachedNode([], root)
    || exists k: nat :: k < n && k < |steps| && Answers(run(k), steps[k], node)
  }

  type Source = A.CachedNode -> bool

  /** Whatever of these entries can be cached in the directory has a source. */
  ghost predicate EntriesSourced(src: Source, dir: VirtualPath, es: seq<Entry>) {
    forall i :: 0 <= i < |es| && ValidPath(dir + [es[i].name]) ==> src(A.CachedNode(dir + [es[i].name], es[i].metadata))
  }

  ghost predicate ChildSourced(src: Source, c: A.Child, todo: A.Todo) {
    src(A.CachedNode(c.path, c.metadata)) && (todo.GoOn? ==> EntriesSourced(src, c.dir, todo.left))
  }

  ghost predicate TaskSourced(src: Source, task: A.Task) {
    match task
    case NeedParent(_, dir, es) => EntriesSourced(src, dir, es)
    case NeedInode(c, todo) => ChildSourced(src, c, todo)
    case NeedStore(c, _, todo) => ChildSourced(src, c, todo)
    case NeedWriteBack(_, path, m) => src(A.CachedNode(path, m))
    case _ => true
  }

  ghost predicate AllSourced(src: Source, s: A.State) {
    (forall i :: i in s.nodes ==> src(s.nodes[i])) && (forall t :: t in s.tasks ==> TaskSourced(src, s.tasks[t]))
  }

  lemma NextEntrySourced(src: Source, inode: nat, dir: VirtualPath, up: nat, done: seq<Entry>, rows: seq<A.DirRow>,
                         left: seq<Entry>)
    requires A.NamesValid(left) && EntriesSourced(src, dir, left)
    ensures TaskSourced(src, A.NextEntry(inode, dir, up, done, rows, left))
  {
    if left != [] {
      assert forall i :: 0 <= i < |left[1..]| ==> left[1..][i] == left[i + 1];
    }
  }

  lemma TaskStillSourced(src: Source, more: Source, task: A.Task)
    requires TaskSourced(src, task) && forall node :: src(node) ==> more(node)
    ensures TaskSourced(more, task)
  {
  }

  lemma AnswerSourced(more: Source, s: A.State, step: A.Step, owner: Owner)
    requires A.Enabled(s, step) && (step.AnswerMetadata? || step.AnswerList?)
    requires forall node :: Answers(s, step, node) ==> more(node)
    ensures TaskSourced(more, A.Move(owner, s, step).tasks[step.task])
  {
    var t := step.task;
    if step.AnswerMetadata? && step.metadata.Ok? {
      assert Answers(s, step, A.CachedNode(s.tasks[t].path, step.metadata.value));
    } else if step.AnswerList? && step.entries.Ok? {
      var dir, es := s.tasks[t].path, step.entries.value;
      forall i | 0 <= i < |es| && ValidPath(dir + [es[i].name])
        ensures more(A.CachedNode(dir + [es[i].name], es[i].metadata))
      {
        assert Answers(s, step, A.CachedNode(dir + [es[i].name], es[i].metadata));
      }
    }
  }

  lemma OwnTaskSourced(owner: Owner, src: Source, more: Source, s: A.State, step: A.Step)
    requires A.Enabled(s, step) && !step.ForgetInode? && AllSourced(src, s)
    requires (forall node :: src(node) ==> more(node)) && forall node :: Answers(s, step, node) ==> more(node)
    ensures TaskSourced(more, A.Move(owner, s, step).tasks[step.task])
  {
    var t := step.task;
    if !step.Begin? { TaskStillSourced(src, more, s.tasks[t]); }
    if step.AnswerMetadata? || step.AnswerList? {
      AnswerSourced(more, s, step, owner);
    } else if step.FindParent? {
      NextEntrySourced(more, s.tasks[t].inode, s.tasks[t].path, step.up, [], [], s.tasks[t].entries);
    } else if step.StoreNode? {
      StoredSourced(more, s.tasks[t].child, s.tasks[t].number, s.tasks[t].todo);
    } else {
      OtherSourced(owner, more, s, step);
    }
  }

  lemma OtherSourced(owner: Owner, src: Source, s: A.State, step: A.Step)
    requires step.Begin? || step.AnswerTarget? || step.AnswerOpen? || step.ObtainInode? || step.WriteBack?
    requires A.Enabled(s, step) && (step.Begin? || TaskSourced(src, s.tasks[step.task]))
    ensures TaskSourced(src, A.Move(owner, s, step).tasks[step.task])
  {
  }

  lemma StoredSourced(src: Source, c: A.Child, i: nat, todo: A.Todo)
    requires ChildSourced(src, c, todo) && (todo.GoOn? ==> A.NamesValid(todo.left))
    ensures TaskSourced(src, A.Stored(c, i, todo))
  {
    if todo.GoOn? {
      NextEntrySourced(src, c.parent, c.dir, todo.up, todo.done + [Entry(c.name, c.metadata)],
                       todo.rows + [A.DirRow(i, c.metadata.fileType, c.name)], todo.left);
    }
  }

  lemma StepSourced(owner: Owner, src: Source, more: Source, s: A.State, step: A.Step)
    requires A.Enabled(s, step) && AllSourced(src, s)
    requires (forall node :: src(node) ==> more(node)) && forall node :: Answers(s, step, node) ==> more(node)
    ensures AllSourced(more, A.Move(owner, s, step))
  {
    var u := A.Move(owner, s, step);
    if !step.ForgetInode? { OwnTaskSourced(owner, src, more, s, step); }
    forall t | t in u.tasks ensures TaskSourced(more, u.tasks[t]) {
      if step.ForgetInode? || t != step.task { TaskStillSourced(src, more, s.tasks[t]); }
    }
    forall i | i in u.nodes ensures more(u.nodes[i]) {
      if step.StoreNode? || step.WriteBack? { assert TaskSourced(src, s.tasks[step.task]); }
    }
  }

  ghost function SourcedBy(root: Metadata, run: Run, steps: Steps, n: nat): Source {
    (node: A.CachedNode) => Sourced(root, run, steps, n, node)
  }

  lemma SourcedNext(owner: Owner, root: Metadata, run: Run, steps: Steps, n: nat)
    requires Moves(owner, run, steps, n) && AllSourced(SourcedBy(root, run, steps, n), run(n))
    ensures AllSourced(SourcedBy(root, run, steps, n + 1), run(n + 1))
  {
    var src, more := SourcedBy(root, run, steps, n), SourcedBy(root, run, steps, n + 1);
    forall node | src(node) ensures more(node) {
      if node != A.CachedNode([], root) {
        var k: nat :| k < n && k < |steps| && Answers(run(k), steps[k], node);
        assert k < n + 1;
      }
    }
    StepSourced(owner, src, more, run(n), steps[n]);
  }

  /** Everything in the node cache was said by the provider when it was asked about that very path. */
  lemma {:induction false} RunSourced(owner: Owner, root: Metadata, run: Run, steps: Steps, n: nat)
    requires IsRun(owner, root, run, steps) && n <= |steps|
    ensures AllSourced(SourcedBy(root, run, steps, n), run(n))
  {
    if n > 0 {
      RunSourced(owner, root, run, steps, n - 1);
      assert Moves(owner, run, steps, n - 1);
      SourcedNext(owner, root, run, steps, n - 1);
    }
  }

  /** Every legal sequence of steps is such a run. */
  lemma LegalIsRun(owner: Owner, root: Metadata, steps: Steps) returns (run: Run)
    requires Legal(A.Next(owner), A.Start(root), steps)
    ensures IsRun(owner, root, run, steps)
    ensures forall n: nat :: n <= |steps| ==> run(n) == StateAt(A.Next(owner), A.Start(root), steps, n)
  {
    run := (n: nat) => if n <= |steps| then StateAt(A.Next(owner), A.Start(root), steps, n) else A.Start(root);
    forall n: nat | n < |steps| ensures Moves(owner, run, steps, n) {
      LegalMoment(A.Next(owner), A.Start(root), steps, n);
      LegalMoment(A.Next(owner), A.Start(root), steps, n + 1);
    }
  }

  // ----- which answer is cached -----

  /** The node that the step puts into the cache under inode i: a found child, or what getattr was told. */
  ghost predicate Puts(s: A.State, step: A.Step, i: nat, node: A.CachedNode) {
    match step
    case StoreNode(t) =>
      && t in s.tasks && s.tasks[t].NeedStore? && s.tasks[t].number == i
      && node == A.CachedNode(s.tasks[t].child.path, s.tasks[t].child.metadata)
    case WriteBack(t) =>
      && t in s.tasks && s.tasks[t].NeedWriteBack? && s.tasks[t].inode == i
      && node == A.CachedNode(s.tasks[t].path, s.tasks[t].metadata)
    case _ => false
  }

  ghost predicate LeavesAlone(s: A.State, step: A.Step, i: nat) { forall other :: !Puts(s, step, i, other) }

  /** The latest store before moment n is of this node. */
  ghost predicate LatestPut(run: Run, steps: Steps, n: nat, i: nat, node: A.CachedNode) {
    n > 0 && n <= |steps| &&
    (Puts(run(n - 1), steps[n - 1], i, node)
     || (LatestPut(run, steps, n - 1, i, node) && LeavesAlone(run(n - 1), steps[n - 1], i)))
  }

  lemma PutNext(owner: Owner, s: A.State, step: A.Step, i: nat, node: A.CachedNode)
    requires A.Enabled(s, step)
    ensures Puts(s, step, i, node) ==> i in A.Move(owner, s, step).nodes && A.Move(owner, s, step).nodes[i] == node
    ensures LeavesAlone(s, step, i) ==>
              && (i in A.Move(owner, s, step).nodes <==> i in s.nodes)
              && (i in s.nodes ==> A.Move(owner, s, step).nodes[i] == s.nodes[i])
  {
    match step
    case StoreNode(t) =>
      var c := s.tasks[t].child;
      assert Puts(s, step, s.tasks[t].number, A.CachedNode(c.path, c.metadata));
    case WriteBack(t) => assert Puts(s, step, s.tasks[t].inode, A.CachedNode(s.tasks[t].path, s.tasks[t].metadata));
    case _ =>
  }

  /** The cache holds for each inode what was stored last. */
  lemma {:induction false} CachesLatest(owner: Owner, root: Metadata, run: Run, steps: Steps, n: nat, i: nat,
                                        node: A.CachedNode)
    requires IsRun(owner, root, run, steps) && n <= |steps| && LatestPut(run, steps, n, i, node)
    ensures i in run(n).nodes && run(n).nodes[i] == node
  {
    assert Moves(owner, run, steps, n - 1);
    PutNext(owner, run(n - 1), steps[n - 1], i, node);
    if !Puts(run(n - 1), steps[n - 1], i, node) { CachesLatest(owner, root, run, steps, n - 1, i, node); }
  }

  // ----- when a callback fails -----

  /** Why the first section of a call fails, judged from the cached node. */
  ghost predicate Refused(nodes: map<nat, A.CachedNode>, call: A.Call, e: VfsError) {
    match call
    case LookupCall(parent, name) =>
      if parent !in nodes then e == NotFound
      else if !ValidName(name) then FileName(name) == Err(e)
      else !ValidPath(nodes[parent].path + [name]) && e == PathTooLong
    case GetAttrCall(i) => i !in nodes && e == NotFound
    case ReadLinkCall(i) =>
      (i !in nodes && e == NotFound) || (i in nodes && !nodes[i].metadata.fileType.SymbolicLink? && e == InvalidInput)
    case OpenCall(i, readOnly) =>
      if !readOnly then e == ReadOnly
      else if i !in nodes then e == NotFound
      else
        || (nodes[i].metadata.fileType == Directory && e == IsDirectory)
        || (nodes[i].metadata.fileType == SymbolicLink && e == InvalidInput)
        || (nodes[i].metadata.fileType == Special && e == SpecialFile)
    case ReadDirCall(i) =>
      (i !in nodes && e == NotFound) || (i in nodes && nodes[i].metadata.fileType != Directory && e == NotDirectory)
  }

  /** Otherwise the provider is asked about the cached path. */
  ghost predicate Asks(nodes: map<nat, A.CachedNode>, call: A.Call, task: A.Task) {
    match call
    case LookupCall(p, name) =>
      p in nodes && task.AskLookup? && task.dir == nodes[p].path && task.path == nodes[p].path + [name]
    case GetAttrCall(i) => i in nodes && task == A.AskAttr(i, nodes[i].path)
    case ReadLinkCall(i) =>
      i in nodes && nodes[i].metadata.fileType == SymbolicLink && task == A.AskLink(i, nodes[i].path)
    case OpenCall(i, r) =>
      r && i in nodes && nodes[i].metadata.fileType == RegularFile && task == A.AskOpen(i, nodes[i].path)
    case ReadDirCall(i) =>
      i in nodes && nodes[i].metadata.fileType == Directory && task == A.AskList(i, nodes[i].path)
  }

  lemma OpeningExact(nodes: map<nat, A.CachedNode>, call: A.Call)
    ensures var task := A.Opening(nodes, call);
            if task.Done? then task.reply.Failed? && Refused(nodes, call, task.reply.error)
            else Asks(nodes, call, task) && forall e :: !Refused(nodes, call, e)
  {
  }

  /** Why a later step of a callback fails. */
  ghost predicate Breaks(owner: Owner, s: A.State, step: A.Step, e: VfsError)
    requires A.Enabled(s, step)
  {
    match step
    case Begin(_, call) => Refused(s.nodes, call, e)
    case AnswerMetadata(_, m) => m == Err(e)
    case AnswerTarget(t, r) =>
      r == Err(e) || (r.Ok? && Rewrite(s.tasks[t].path, r.value) == Err(e))
    case AnswerOpen(_, r) => r == Err(e)
    case AnswerList(_, es) => es == Err(e)
    case FindParent(t, _) =>
      var es := s.tasks[t].entries;
      es != [] && !ValidPath(s.tasks[t].path + [es[0].name]) && e == PathTooLong
    case ObtainInode(t) => s.inodes.next == MAX_U64 && e == Unavailable
    case StoreNode(t) =>
      var todo := s.tasks[t].todo;
      todo.GoOn? && todo.left != [] && !ValidPath(s.tasks[t].child.dir + [todo.left[0].name]) && e == PathTooLong
    case _ => false
  }

  /** A step makes its callback fail exactly for such a reason; when numbers have run out, only if it needs one. */
  lemma FailsOnlyFor(owner: Owner, s: A.State, step: A.Step)
    requires Inv(s.inodes) && A.Enabled(s, step) && !step.ForgetInode?
    ensures var task := A.Move(owner, s, step).tasks[step.task];
            && (task.Done? && task.reply.Failed? ==> Breaks(owner, s, step, task.reply.error))
            && (!step.ObtainInode? ==> forall e :: Breaks(owner, s, step, e) ==> task == A.Done(A.Failed(e)))
  {
  }
}
