/**
 The FUSE adapter's node cache over the inode table (tuxstack-vfs/src/adapter.rs) as a transition
 system. Callbacks run on several threads: each lock section and each provider answer is one
 step, and what a callback holds between two sections is part of the state.
 */
module Adapter {
  import opened Common
  import opened VfsPath
  import opened Inodes
  import opened Namespace
  import opened Symlink
  import opened Routing
  import opened Runs

  datatype CachedNode = CachedNode(path: VirtualPath, metadata: Metadata)

  /** One row of a readdir reply. */
  datatype DirRow = DirRow(inode: nat, fileType: FileType, name: Bytes)

  /** What the provider said of a file's identity. */
  datatype Identity = Identity(nodeId: Bytes, generation: nat)

  type Seen = map<NodeKey, Identity>

  function KeyFor(owner: Owner, path: VirtualPath, m: Metadata): NodeKey { NodeKey(owner, path, m.generation) }

  function LinkFor(owner: Owner, m: Metadata): HardlinkKey { HardlinkKey(owner, m.nodeId, m.generation) }

  ghost predicate NoneDeleted(t: Table) { forall i :: i in t.byInode ==> !t.byInode[i].deleted }

  /** `seen` is the identity each key was first seen with; the root has none. */
  ghost predicate Remembers(owner: Owner, t: Table, seen: Seen) {
    && ROOT_KEY !in seen && t.byKey.Keys == seen.Keys + {ROOT_KEY} && t.byKey[ROOT_KEY] == ROOT_INODE
    && ROOT_INODE in t.byInode && t.byInode[ROOT_INODE].hardlink == None
    && (forall k :: k in seen ==> t.byKey[k] in t.byInode && Identifies(owner, t.byInode[t.byKey[k]], seen[k]))
  }

  /** The record carries the hardlink key of this identity, and no other. */
  ghost predicate Identifies(owner: Owner, rec: Record, id: Identity) {
    rec.hardlink == Some(HardlinkKey(owner, id.nodeId, id.generation))
  }

  ghost predicate Tracks(owner: Owner, t: Table, seen: Seen) {
    Inv(t) && Indexed(t) && NoneDeleted(t) && Remembers(owner, t, seen)
  }

  ghost predicate NamedBy(t: Table, i: nat, path: VirtualPath) {
    i in t.byInode && exists k :: k in t.byInode[i].aliases && k.path == path
  }

  /** Two keys share an inode exactly when the provider gave both the same node ID and generation at first. */
  lemma SharedInode(owner: Owner, t: Table, seen: Seen, j: NodeKey, k: NodeKey)
    requires Tracks(owner, t, seen) && j in seen && k in seen
    ensures t.byKey[j] == t.byKey[k] <==>
              seen[j].nodeId == seen[k].nodeId && seen[j].generation == seen[k].generation
  {
    assert Live(t, t.byKey[j]) && Live(t, t.byKey[k]);
  }

  function NoteSeen(seen: Seen, key: NodeKey, m: Metadata): Seen {
    if key in seen then seen else seen[key := Identity(m.nodeId, m.generation)]
  }

  lemma ObtainTracks(owner: Owner, t: Table, seen: Seen, key: NodeKey, m: Metadata)
    requires Tracks(owner, t, seen) && key != ROOT_KEY
    ensures var (u, r) := InodeFor(t, key, Some(LinkFor(owner, m)));
            Tracks(owner, u, if r.Ok? then NoteSeen(seen, key, m) else seen)
  {
    var link := LinkFor(owner, m);
    var (u, r) := InodeFor(t, key, Some(link));
    InodeForKeeps(t, key, Some(link));
    ObtainGrows(t, key, Some(link));
    LookupOutcomes(t, key, Some(link));
    if r.Ok? {
      assert NoneDeleted(u);
      RemembersMore(owner, t, u, seen, key, m, r.value);
    }
  }

  lemma RemembersMore(owner: Owner, t: Table, u: Table, seen: Seen, key: NodeKey, m: Metadata, inode: nat)
    requires Remembers(owner, t, seen) && key != ROOT_KEY && Grows(t, u)
    requires u.byKey == t.byKey[key := inode] && (key in t.byKey ==> inode == t.byKey[key])
    requires inode in u.byInode && (key !in t.byKey ==> u.byInode[inode].hardlink == Some(LinkFor(owner, m)))
    ensures Remembers(owner, u, NoteSeen(seen, key, m))
  {
    var more := NoteSeen(seen, key, m);
    forall k | k in more
      ensures k in u.byKey && u.byKey[k] in u.byInode && Identifies(owner, u.byInode[u.byKey[k]], more[k])
    {
      if k in seen {
        assert t.byKey[k] in t.byInode && u.byKey[k] == t.byKey[k];
      }
    }
  }

  // ----- what a callback holds between two lock sections -----

  /** A child about to be cached: the directory it was found in, its name, its path and the provider's answer. */
  datatype Child = Child(parent: nat, dir: VirtualPath, name: Bytes, path: VirtualPath, metadata: Metadata)

  /** What follows once a child is cached: the reply of lookup, or the remaining entries of readdir. */
  datatype Todo = ReplyEntry | GoOn(up: nat, done: seq<Entry>, rows: seq<DirRow>, left: seq<Entry>)

  datatype Reply =
    | Failed(error: VfsError)
    | EntryReply(child: Child, number: nat)
    | AttrReply(inode: nat, path: VirtualPath, metadata: Metadata)
    | LinkReply(inode: nat, path: VirtualPath, raw: LinkTarget, sent: LinkTarget)
    | OpenReply(inode: nat, path: VirtualPath)
    | DirReply(inode: nat, dir: VirtualPath, up: nat, entries: seq<Entry>, rows: seq<DirRow>)

  datatype Task =
    | AskLookup(parent: nat, dir: VirtualPath, name: Bytes, path: VirtualPath)
    | AskAttr(inode: nat, path: VirtualPath)
    | AskLink(inode: nat, path: VirtualPath)
    | AskOpen(inode: nat, path: VirtualPath)
    | AskList(inode: nat, path: VirtualPath)
    | NeedParent(inode: nat, path: VirtualPath, entries: seq<Entry>)
    | NeedInode(child: Child, todo: Todo)
    | NeedStore(child: Child, number: nat, todo: Todo)
    | NeedWriteBack(inode: nat, path: VirtualPath, metadata: Metadata)
    | Done(reply: Reply)

  /** `seen` is history: the identity each key was first seen with. */
  datatype State = State(inodes: Table, nodes: map<nat, CachedNode>, tasks: map<nat, Task>, seen: Seen)

  datatype Call =
    | LookupCall(parent: nat, name: Bytes)
    | GetAttrCall(inode: nat)
    | ReadLinkCall(inode: nat)
    | OpenCall(inode: nat, readOnly: bool)
    | ReadDirCall(inode: nat)

  datatype Step =
    | Begin(task: nat, call: Call)
    | AnswerMetadata(task: nat, metadata: Result<Metadata, VfsError>)
    | AnswerTarget(task: nat, target: Result<LinkTarget, VfsError>)
    | AnswerOpen(task: nat, outcome: Result<(), VfsError>)
    | AnswerList(task: nat, entries: Result<seq<Entry>, VfsError>)
    | FindParent(task: nat, up: nat)
    | ObtainInode(task: nat)
    | StoreNode(task: nat)
    | WriteBack(task: nat)
    | ForgetInode(inode: nat, count: nat)

  predicate NamesValid(entries: seq<Entry>) { forall i :: 0 <= i < |entries| ==> ValidName(entries[i].name) }

  /** A legal result of searching the node cache, in any iteration order, for the parent's path. */
  predicate IsUp(nodes: map<nat, CachedNode>, path: VirtualPath, up: nat) {
    if path != [] && exists i :: i in nodes && nodes[i].path == Parent(path).value
    then up in nodes && nodes[up].path == Parent(path).value
    else up == ROOT_INODE
  }

  predicate Enabled(s: State, step: Step) {
    match step
    case Begin(t, _) => t !in s.tasks
    case AnswerMetadata(t, _) => t in s.tasks && (s.tasks[t].AskLookup? || s.tasks[t].AskAttr?)
    case AnswerTarget(t, _) => t in s.tasks && s.tasks[t].AskLink?
    case AnswerOpen(t, _) => t in s.tasks && s.tasks[t].AskOpen?
    case AnswerList(t, es) => t in s.tasks && s.tasks[t].AskList? && (es.Ok? ==> NamesValid(es.value))
    case FindParent(t, up) =>
      && t in s.tasks && s.tasks[t].NeedParent? && NamesValid(s.tasks[t].entries)
      && IsUp(s.nodes, s.tasks[t].path, up)
    case ObtainInode(t) => t in s.tasks && s.tasks[t].NeedInode?
    case StoreNode(t) =>
      && t in s.tasks && s.tasks[t].NeedStore?
      && (s.tasks[t].todo.GoOn? ==> NamesValid(s.tasks[t].todo.left))
    case WriteBack(t) => t in s.tasks && s.tasks[t].NeedWriteBack?
    case ForgetInode(_, _) => true
  }

  /** The first section of every callback: the node is read and the request checked. */
  function Opening(nodes: map<nat, CachedNode>, call: Call): Task {
    match call
    case LookupCall(parent, name) =>
      if parent !in nodes then Done(Failed(NotFound))
      else (match FileName(name)
            case Err(e) => Done(Failed(e))
            case Ok(n) =>
              match Join(nodes[parent].path, n)
              case Err(e) => Done(Failed(e))
              case Ok(path) => AskLookup(parent, nodes[parent].path, n, path))
    case GetAttrCall(i) =>
      if i !in nodes then Done(Failed(NotFound)) else AskAttr(i, nodes[i].path)
    case ReadLinkCall(i) =>
      if i !in nodes then Done(Failed(NotFound))
      else if nodes[i].metadata.fileType != SymbolicLink then Done(Failed(InvalidInput))
      else AskLink(i, nodes[i].path)
    case OpenCall(i, readOnly) =>
      if !readOnly then Done(Failed(ReadOnly))
      else if i !in nodes then Done(Failed(NotFound))
      else (match nodes[i].metadata.fileType
            case Directory => Done(Failed(IsDirectory))
            case RegularFile => AskOpen(i, nodes[i].path)
            case SymbolicLink => Done(Failed(InvalidInput))
            case Special => Done(Failed(SpecialFile)))
    case ReadDirCall(i) =>
      if i !in nodes then Done(Failed(NotFound))
      else if nodes[i].metadata.fileType != Directory then Done(Failed(NotDirectory))
      else AskList(i, nodes[i].path)
  }

  function Answered(task: Task, answer: Result<Metadata, VfsError>): Task
    requires task.AskLookup? || task.AskAttr?
  {
    match answer
    case Err(e) => Done(Failed(e))
    case Ok(m) =>
      if task.AskLookup? then NeedInode(Child(task.parent, task.dir, task.name, task.path, m), ReplyEntry)
      else NeedWriteBack(task.inode, task.path, m)
  }

  /** The next turn of readdir's loop over the entries. */
  function NextEntry(inode: nat, dir: VirtualPath, up: nat, done: seq<Entry>, rows: seq<DirRow>, left: seq<Entry>): Task
    requires NamesValid(left)
  {
    if left == [] then Done(DirReply(inode, dir, up, done, rows))
    else match Join(dir, left[0].name)
      case Err(e) => Done(Failed(e))
      case Ok(path) =>
        NeedInode(Child(inode, dir, left[0].name, path, left[0].metadata), GoOn(up, done, rows, left[1..]))
  }

  function Stored(c: Child, number: nat, todo: Todo): Task
    requires todo.GoOn? ==> NamesValid(todo.left)
  {
    match todo
    case ReplyEntry => Done(EntryReply(c, number))
    case GoOn(up, done, rows, left) =>
      NextEntry(c.parent, c.dir, up, done + [Entry(c.name, c.metadata)],
                rows + [DirRow(number, c.metadata.fileType, c.name)], left)
  }

  function Linked(task: Task, target: Result<LinkTarget, VfsError>): Task
    requires task.AskLink?
  {
    match target
    case Err(e) => Done(Failed(e))
    case Ok(raw) =>
      match Rewrite(task.path, raw)
      case Err(e) => Done(Failed(e))
      case Ok(sent) => Done(LinkReply(task.inode, task.path, raw, sent))
  }

  function Put(s: State, t: nat, task: Task): State { s.(tasks := s.tasks[t := task]) }

  function Move(owner: Owner, s: State, step: Step): State
    requires Enabled(s, step)
  {
    match step
    case Begin(t, call) => Put(s, t, Opening(s.nodes, call))
    case AnswerMetadata(t, m) => Put(s, t, Answered(s.tasks[t], m))
    case AnswerTarget(t, target) => Put(s, t, Linked(s.tasks[t], target))
    case AnswerOpen(t, r) =>
      Put(s, t, Done(if r.Ok? then OpenReply(s.tasks[t].inode, s.tasks[t].path) else Failed(r.error)))
    case AnswerList(t, es) =>
      Put(s, t, if es.Ok? then NeedParent(s.tasks[t].inode, s.tasks[t].path, es.value) else Done(Failed(es.error)))
    case FindParent(t, up) =>
      Put(s, t, NextEntry(s.tasks[t].inode, s.tasks[t].path, up, [], [], s.tasks[t].entries))
    case ObtainInode(t) =>
      var c := s.tasks[t].child;
      var key, link := KeyFor(owner, c.path, c.metadata), LinkFor(owner, c.metadata);
      var (u, r) := InodeFor(s.inodes, key, Some(link));
      (match r
       case Err(e) => Put(s.(inodes := u), t, Done(Failed(e)))
       case Ok(i) =>
         Put(s.(inodes := u, seen := NoteSeen(s.seen, key, c.metadata)), t, NeedStore(c, i, s.tasks[t].todo)))
    case StoreNode(t) =>
      var c, i := s.tasks[t].child, s.tasks[t].number;
      Put(s.(nodes := s.nodes[i := CachedNode(c.path, c.metadata)]), t, Stored(c, i, s.tasks[t].todo))
    case WriteBack(t) =>
      var i, m := s.tasks[t].inode, s.tasks[t].metadata;
      Put(s.(nodes := s.nodes[i := CachedNode(s.tasks[t].path, m)]), t, Done(AttrReply(i, s.tasks[t].path, m)))
    case ForgetInode(i, n) => s.(inodes := Forget(s.inodes, i, n))
  }

  function Next(owner: Owner): (State, Step) -> Option<State> {
    (s: State, step: Step) => if Enabled(s, step) then Some(Move(owner, s, step)) else None
  }

  function Start(rootMetadata: Metadata): State {
    State(NewTable(), map[ROOT_INODE := CachedNode([], rootMetadata)], map[], map[])
  }

  // ----- what is true of everything cached and everything held -----

  /** The key of this path and generation is bound to the inode and one of its aliases. */
  ghost predicate Bound(t: Table, owner: Owner, path: VirtualPath, m: Metadata, i: nat) {
    var k := KeyFor(owner, path, m);
    k in t.byKey && t.byKey[k] == i && i in t.byInode && k in t.byInode[i].aliases
  }

  ghost predicate ChildOk(t: Table, c: Child) {
    NamedBy(t, c.parent, c.dir) && ValidName(c.name) && c.path == c.dir + [c.name]
  }

  /** The `..` row of a listing: an inode that has the parent's path, or the root. */
  ghost predicate UpOk(t: Table, dir: VirtualPath, up: nat) {
    up == ROOT_INODE || (dir != [] && NamedBy(t, up, Parent(dir).value))
  }

  /** A row tells its entry's name and type, and a cached inode its path and generation are bound to. */
  ghost predicate RowOk(owner: Owner, s: State, dir: VirtualPath, e: Entry, row: DirRow) {
    && row.name == e.name && row.fileType == e.metadata.fileType && row.inode in s.nodes
    && ValidPath(dir + [e.name]) && Bound(s.inodes, owner, dir + [e.name], e.metadata, row.inode)
  }

  ghost predicate RowsOk(owner: Owner, s: State, dir: VirtualPath, entries: seq<Entry>, rows: seq<DirRow>) {
    |rows| == |entries| && forall i :: 0 <= i < |rows| ==> RowOk(owner, s, dir, entries[i], rows[i])
  }

  ghost predicate TodoOk(owner: Owner, s: State, dir: VirtualPath, todo: Todo) {
    todo.GoOn? ==>
      NamesValid(todo.left) && UpOk(s.inodes, dir, todo.up) && RowsOk(owner, s, dir, todo.done, todo.rows)
  }

  /** What each reply promises the kernel. */
  ghost predicate ReplyOk(owner: Owner, s: State, reply: Reply) {
    match reply
    case Failed(_) => true
    case EntryReply(c, i) => ChildOk(s.inodes, c) && Bound(s.inodes, owner, c.path, c.metadata, i) && i in s.nodes
    case AttrReply(i, path, _) => NamedBy(s.inodes, i, path) && i in s.nodes
    case LinkReply(i, path, raw, sent) =>
      && NamedBy(s.inodes, i, path) && path != [] && !IsAbsolute(sent)
      && Resolve(Parent(path).value, sent) == Resolve(Parent(path).value, raw)
    case OpenReply(i, path) => NamedBy(s.inodes, i, path)
    case DirReply(i, dir, up, entries, rows) =>
      NamedBy(s.inodes, i, dir) && UpOk(s.inodes, dir, up) && RowsOk(owner, s, dir, entries, rows)
  }

  /** Each path a callback holds for an inode is the path of an alias of that inode. */
  ghost predicate TaskOk(owner: Owner, s: State, task: Task) {
    match task
    case AskLookup(parent, dir, name, path) =>
      NamedBy(s.inodes, parent, dir) && ValidName(name) && path == dir + [name]
    case AskAttr(i, path) => NamedBy(s.inodes, i, path) && i in s.nodes
    case AskLink(i, path) => NamedBy(s.inodes, i, path)
    case AskOpen(i, path) => NamedBy(s.inodes, i, path)
    case AskList(i, path) => NamedBy(s.inodes, i, path)
    case NeedParent(i, path, entries) => NamedBy(s.inodes, i, path) && NamesValid(entries)
    case NeedInode(c, todo) => ChildOk(s.inodes, c) && TodoOk(owner, s, c.dir, todo)
    case NeedStore(c, i, todo) =>
      ChildOk(s.inodes, c) && Bound(s.inodes, owner, c.path, c.metadata, i) && TodoOk(owner, s, c.dir, todo)
    case NeedWriteBack(i, path, _) => NamedBy(s.inodes, i, path) && i in s.nodes
    case Done(reply) => ReplyOk(owner, s, reply)
  }

  ghost predicate TasksOk(owner: Owner, s: State) { forall t :: t in s.tasks ==> TaskOk(owner, s, s.tasks[t]) }

  /** Each cached path is the path of an alias of that live inode, and the root is cached. */
  ghost predicate Caches(t: Table, nodes: map<nat, CachedNode>) {
    ROOT_INODE in nodes && forall i :: i in nodes ==> NamedBy(t, i, nodes[i].path)
  }

  predicate Storing(s: State, t: nat, i: nat) { t in s.tasks && s.tasks[t].NeedStore? && s.tasks[t].number == i }

  /** An inode is missing from the cache only while a callback is about to store it. */
  ghost predicate MissingIsStoring(s: State) {
    forall i :: i in s.inodes.byInode && i !in s.nodes ==> exists t :: Storing(s, t, i)
  }

  ghost predicate Held(owner: Owner, s: State) {
    Caches(s.inodes, s.nodes) && TasksOk(owner, s) && MissingIsStoring(s)
  }

  /** Every key belongs to this adapter and has the generation it was seen with. */
  ghost predicate Owned(owner: Owner, seen: Seen) {
    forall k :: k in seen ==> k.owner == owner && seen[k].generation == k.generation
  }

  ghost predicate Safe(owner: Owner, s: State) {
    Tracks(owner, s.inodes, s.seen) && Owned(owner, s.seen) && Held(owner, s)
  }

  // ----- every step keeps it -----

  /** Tables only grow and nothing leaves the cache. */
  ghost predicate Extends(s: State, u: State) {
    && Grows(s.inodes, u.inodes)
    && (forall k :: k in s.inodes.byKey ==> k in u.inodes.byKey && u.inodes.byKey[k] == s.inodes.byKey[k])
    && s.nodes.Keys <= u.nodes.Keys
  }

  lemma StillNamed(t: Table, u: Table, i: nat, path: VirtualPath)
    requires Grows(t, u) && NamedBy(t, i, path)
    ensures NamedBy(u, i, path)
  {
    var k :| k in t.byInode[i].aliases && k.path == path;
    assert k in u.byInode[i].aliases;
  }

  lemma StillRows(owner: Owner, s: State, u: State, dir: VirtualPath, entries: seq<Entry>, rows: seq<DirRow>)
    requires Extends(s, u) && RowsOk(owner, s, dir, entries, rows)
    ensures RowsOk(owner, u, dir, entries, rows)
  {
    forall i | 0 <= i < |rows| ensures RowOk(owner, u, dir, entries[i], rows[i]) {
      assert RowOk(owner, s, dir, entries[i], rows[i]);
    }
  }

  lemma StillUp(t: Table, u: Table, dir: VirtualPath, up: nat)
    requires Grows(t, u) && UpOk(t, dir, up)
    ensures UpOk(u, dir, up)
  {
    if up != ROOT_INODE { StillNamed(t, u, up, Parent(dir).value); }
  }

  lemma StillTodo(owner: Owner, s: State, u: State, dir: VirtualPath, todo: Todo)
    requires Extends(s, u) && TodoOk(owner, s, dir, todo)
    ensures TodoOk(owner, u, dir, todo)
  {
    if todo.GoOn? {
      StillUp(s.inodes, u.inodes, dir, todo.up);
      StillRows(owner, s, u, dir, todo.done, todo.rows);
    }
  }

  lemma StillReply(owner: Owner, s: State, u: State, reply: Reply)
    requires Extends(s, u) && ReplyOk(owner, s, reply)
    ensures ReplyOk(owner, u, reply)
  {
    match reply
    case EntryReply(c, i) => StillNamed(s.inodes, u.inodes, c.parent, c.dir);
    case AttrReply(i, path, _) => StillNamed(s.inodes, u.inodes, i, path);
    case LinkReply(i, path, _, _) => StillNamed(s.inodes, u.inodes, i, path);
    case OpenReply(i, path) => StillNamed(s.inodes, u.inodes, i, path);
    case DirReply(i, dir, up, entries, rows) =>
      StillNamed(s.inodes, u.inodes, i, dir);
      StillUp(s.inodes, u.inodes, dir, up);
      StillRows(owner, s, u, dir, entries, rows);
    case _ =>
  }

  /** Whatever other callbacks do, what this one holds stays true. */
  lemma StillOk(owner: Owner, s: State, u: State, task: Task)
    requires Extends(s, u) && TaskOk(owner, s, task)
    ensures TaskOk(owner, u, task)
  {
    match task
    case AskLookup(parent, dir, _, _) => StillNamed(s.inodes, u.inodes, parent, dir);
    case NeedInode(c, todo) =>
      StillNamed(s.inodes, u.inodes, c.parent, c.dir);
      StillTodo(owner, s, u, c.dir, todo);
    case NeedStore(c, _, todo) =>
      StillNamed(s.inodes, u.inodes, c.parent, c.dir);
      StillTodo(owner, s, u, c.dir, todo);
    case Done(reply) => StillReply(owner, s, u, reply);
    case _ => StillNamed(s.inodes, u.inodes, task.inode, task.path);
  }

  lemma OthersOk(owner: Owner, s: State, u: State, t: nat, task: Task)
    requires TasksOk(owner, s) && Extends(s, u) && u.tasks == s.tasks[t := task] && TaskOk(owner, u, task)
    ensures TasksOk(owner, u)
  {
    forall x | x in u.tasks ensures TaskOk(owner, u, u.tasks[x]) {
      if x != t { StillOk(owner, s, u, s.tasks[x]); }
    }
  }

  /** Nothing goes missing as long as what the callback was about to store is now in the cache. */
  lemma StillMissing(s: State, u: State, t: nat, task: Task)
    requires MissingIsStoring(s) && u.inodes.byInode.Keys == s.inodes.byInode.Keys && s.nodes.Keys <= u.nodes.Keys
    requires u.tasks == s.tasks[t := task] && (t in s.tasks && s.tasks[t].NeedStore? ==> s.tasks[t].number in u.nodes)
    ensures MissingIsStoring(u)
  {
    forall i | i in u.inodes.byInode && i !in u.nodes ensures exists x :: Storing(u, x, i) {
      var x :| Storing(s, x, i);
      assert Storing(u, x, i);
    }
  }

  lemma GrowsSelf(s: State, u: State)
    requires u.inodes == s.inodes && s.nodes.Keys <= u.nodes.Keys
    ensures Extends(s, u)
  {
  }

  /** A callback that was not about to store moves on without touching the tables. */
  lemma PutKeeps(owner: Owner, s: State, t: nat, task: Task)
    requires Held(owner, s) && TaskOk(owner, s, task) && (t in s.tasks ==> !s.tasks[t].NeedStore?)
    ensures Held(owner, Put(s, t, task))
  {
    var u := Put(s, t, task);
    GrowsSelf(s, u);
    StillOk(owner, s, u, task);
    OthersOk(owner, s, u, t, task);
    StillMissing(s, u, t, task);
  }

  lemma LookupOpeningOk(owner: Owner, s: State, parent: nat, name: Bytes)
    requires Caches(s.inodes, s.nodes)
    ensures TaskOk(owner, s, Opening(s.nodes, LookupCall(parent, name)))
  {
    if parent in s.nodes { assert NamedBy(s.inodes, parent, s.nodes[parent].path); }
  }

  lemma OpeningOk(owner: Owner, s: State, call: Call)
    requires Caches(s.inodes, s.nodes)
    ensures TaskOk(owner, s, Opening(s.nodes, call))
  {
    if call.LookupCall? {
      LookupOpeningOk(owner, s, call.parent, call.name);
    } else if call.inode in s.nodes {
      assert NamedBy(s.inodes, call.inode, s.nodes[call.inode].path);
    }
  }

  lemma LinkedOk(owner: Owner, s: State, task: Task, target: Result<LinkTarget, VfsError>)
    requires task.AskLink? && TaskOk(owner, s, task)
    ensures TaskOk(owner, s, Linked(task, target))
  {
    if target.Ok? { RewriteMeaning(task.path, target.value); }
  }

  lemma NextEntryOk(owner: Owner, s: State, inode: nat, dir: VirtualPath, up: nat, done: seq<Entry>,
                    rows: seq<DirRow>, left: seq<Entry>)
    requires NamesValid(left) && NamedBy(s.inodes, inode, dir) && UpOk(s.inodes, dir, up)
    requires RowsOk(owner, s, dir, done, rows)
    ensures TaskOk(owner, s, NextEntry(inode, dir, up, done, rows, left))
  {
  }

  lemma StoredOk(owner: Owner, s: State, c: Child, i: nat, todo: Todo)
    requires TaskOk(owner, s, NeedStore(c, i, todo)) && i in s.nodes
    ensures TaskOk(owner, s, Stored(c, i, todo))
  {
    if todo.GoOn? {
      var e, row := Entry(c.name, c.metadata), DirRow(i, c.metadata.fileType, c.name);
      assert RowOk(owner, s, c.dir, e, row);
      var es, rs := todo.done + [e], todo.rows + [row];
      forall k | 0 <= k < |rs| ensures RowOk(owner, s, c.dir, es[k], rs[k]) {
        if k < |todo.rows| { assert RowOk(owner, s, c.dir, todo.done[k], todo.rows[k]); }
      }
      NextEntryOk(owner, s, c.parent, c.dir, todo.up, es, rs, todo.left);
    }
  }

  /** Every path cached under a grown table still names its inode. */
  lemma StillCaches(t: Table, u: Table, nodes: map<nat, CachedNode>)
    requires Caches(t, nodes) && Grows(t, u)
    ensures Caches(u, nodes)
  {
    forall i | i in nodes ensures NamedBy(u, i, nodes[i].path) { StillNamed(t, u, i, nodes[i].path); }
  }

  /** What the inode lock of cache_node does to the table. */
  lemma ObtainBinds(owner: Owner, t: Table, c: Child)
    requires Inv(t)
    ensures var (u, r) := InodeFor(t, KeyFor(owner, c.path, c.metadata), Some(LinkFor(owner, c.metadata)));
            && Grows(t, u) && (r.Err? ==> u == t)
            && (forall k :: k in t.byKey ==> k in u.byKey && u.byKey[k] == t.byKey[k])
            && (r.Ok? ==> u.byInode.Keys == t.byInode.Keys + {r.value} && Bound(u, owner, c.path, c.metadata, r.value))
  {
    var key, link := KeyFor(owner, c.path, c.metadata), Some(LinkFor(owner, c.metadata));
    ObtainGrows(t, key, link);
    LookupOutcomes(t, key, link);
  }

  lemma ObtainKeeps(owner: Owner, s: State, u: State, t: nat, c: Child, i: nat, todo: Todo)
    requires Held(owner, s) && t in s.tasks && s.tasks[t] == NeedInode(c, todo)
    requires u.nodes == s.nodes && u.tasks == s.tasks[t := NeedStore(c, i, todo)]
    requires Extends(s, u) && u.inodes.byInode.Keys == s.inodes.byInode.Keys + {i}
    requires Bound(u.inodes, owner, c.path, c.metadata, i)
    ensures Held(owner, u)
  {
    StillCaches(s.inodes, u.inodes, s.nodes);
    StillOk(owner, s, u, s.tasks[t]);
    OthersOk(owner, s, u, t, NeedStore(c, i, todo));
    ObtainMissing(s, u, t, c, i, todo);
  }

  lemma ObtainMissing(s: State, u: State, t: nat, c: Child, i: nat, todo: Todo)
    requires MissingIsStoring(s) && t in s.tasks && s.tasks[t] == NeedInode(c, todo)
    requires u.nodes == s.nodes && u.tasks == s.tasks[t := NeedStore(c, i, todo)]
    requires u.inodes.byInode.Keys == s.inodes.byInode.Keys + {i}
    ensures MissingIsStoring(u)
  {
    forall j | j in u.inodes.byInode && j !in u.nodes ensures exists x :: Storing(u, x, j) {
      if j == i {
        assert Storing(u, t, j);
      } else {
        var x :| Storing(s, x, j);
        assert Storing(u, x, j);
      }
    }
  }

  /** The node lock of cache_node. */
  lemma StoreKeeps(owner: Owner, s: State, t: nat)
    requires Held(owner, s) && Enabled(s, StoreNode(t))
    ensures Held(owner, Move(owner, s, StoreNode(t)))
  {
    var u := Move(owner, s, StoreNode(t));
    var c, i := s.tasks[t].child, s.tasks[t].number;
    assert TaskOk(owner, s, s.tasks[t]);
    NodeStored(owner, s, c, i);
    GrowsSelf(s, u);
    StillOk(owner, s, u, s.tasks[t]);
    StoredOk(owner, u, c, i, s.tasks[t].todo);
    OthersOk(owner, s, u, t, u.tasks[t]);
    StillMissing(s, u, t, u.tasks[t]);
  }

  lemma NodeStored(owner: Owner, s: State, c: Child, i: nat)
    requires Caches(s.inodes, s.nodes) && Bound(s.inodes, owner, c.path, c.metadata, i)
    ensures Caches(s.inodes, s.nodes[i := CachedNode(c.path, c.metadata)])
  {
    assert KeyFor(owner, c.path, c.metadata) in s.inodes.byInode[i].aliases;
  }

  /** The node lock of getattr: an older path may come back, but only one that still names the inode. */
  lemma WriteBackKeeps(owner: Owner, s: State, t: nat)
    requires Held(owner, s) && Enabled(s, WriteBack(t))
    ensures Held(owner, Move(owner, s, WriteBack(t)))
  {
    var u := Move(owner, s, WriteBack(t));
    assert TaskOk(owner, s, s.tasks[t]);
    GrowsSelf(s, u);
    OthersOk(owner, s, u, t, u.tasks[t]);
    StillMissing(s, u, t, u.tasks[t]);
  }

  lemma ForgetGrows(t: Table, i: nat, n: nat)
    ensures Grows(t, Forget(t, i, n)) && Forget(t, i, n).byKey == t.byKey
    ensures Forget(t, i, n).byInode.Keys == t.byInode.Keys
  {
  }

  /** forget lowers a count and nothing else. */
  lemma ForgetHolds(owner: Owner, s: State, u: State)
    requires Held(owner, s) && u.nodes == s.nodes && u.tasks == s.tasks
    requires Extends(s, u) && u.inodes.byInode.Keys == s.inodes.byInode.Keys
    ensures Held(owner, u)
  {
    StillCaches(s.inodes, u.inodes, s.nodes);
    forall x | x in u.tasks ensures TaskOk(owner, u, u.tasks[x]) { StillOk(owner, s, u, s.tasks[x]); }
    forall j | j in u.inodes.byInode && j !in u.nodes ensures exists x :: Storing(u, x, j) {
      var x :| Storing(s, x, j);
      assert Storing(u, x, j);
    }
  }

  /** The steps that leave both tables alone. */
  predicate Local(step: Step) {
    !step.ObtainInode? && !step.StoreNode? && !step.WriteBack? && !step.ForgetInode?
  }

  lemma AnsweredOk(owner: Owner, s: State, task: Task, m: Result<Metadata, VfsError>)
    requires Caches(s.inodes, s.nodes) && (task.AskLookup? || task.AskAttr?) && TaskOk(owner, s, task)
    ensures TaskOk(owner, s, Answered(task, m))
  {
  }

  lemma FoundOk(owner: Owner, s: State, task: Task, up: nat)
    requires Caches(s.inodes, s.nodes) && task.NeedParent? && TaskOk(owner, s, task) && IsUp(s.nodes, task.path, up)
    ensures TaskOk(owner, s, NextEntry(task.inode, task.path, up, [], [], task.entries))
  {
    UpFound(s, task.path, up);
    NextEntryOk(owner, s, task.inode, task.path, up, [], [], task.entries);
  }

  lemma UpFound(s: State, path: VirtualPath, up: nat)
    requires Caches(s.inodes, s.nodes) && IsUp(s.nodes, path, up)
    ensures UpOk(s.inodes, path, up)
  {
  }

  lemma LocalHolds(owner: Owner, s: State, step: Step)
    requires Held(owner, s) && Enabled(s, step) && Local(step)
    ensures Held(owner, Move(owner, s, step))
  {
    var t := step.task;
    if !step.Begin? { assert TaskOk(owner, s, s.tasks[t]); }
    match step {
      case Begin(_, call) => OpeningOk(owner, s, call);
      case AnswerMetadata(_, m) => AnsweredOk(owner, s, s.tasks[t], m);
      case AnswerTarget(_, target) => LinkedOk(owner, s, s.tasks[t], target);
      case FindParent(_, up) => FoundOk(owner, s, s.tasks[t], up);
      case _ =>
    }
    PutKeeps(owner, s, t, Move(owner, s, step).tasks[t]);
  }

  lemma StepHolds(owner: Owner, s: State, step: Step)
    requires Inv(s.inodes) && Held(owner, s) && Enabled(s, step)
    ensures Held(owner, Move(owner, s, step))
  {
    if Local(step) {
      LocalHolds(owner, s, step);
    } else if step.StoreNode? {
      StoreKeeps(owner, s, step.task);
    } else if step.WriteBack? {
      WriteBackKeeps(owner, s, step.task);
    } else if step.ForgetInode? {
      ForgetGrows(s.inodes, step.inode, step.count);
      ForgetHolds(owner, s, Move(owner, s, step));
    } else {
      ObtainHolds(owner, s, step.task);
    }
  }

  lemma ObtainHolds(owner: Owner, s: State, t: nat)
    requires Inv(s.inodes) && Held(owner, s) && Enabled(s, ObtainInode(t))
    ensures Held(owner, Move(owner, s, ObtainInode(t)))
  {
    var c := s.tasks[t].child;
    ObtainBinds(owner, s.inodes, c);
    var (_, r) := InodeFor(s.inodes, KeyFor(owner, c.path, c.metadata), Some(LinkFor(owner, c.metadata)));
    if r.Err? {
      PutKeeps(owner, s, t, Done(Failed(r.error)));
    } else {
      ObtainKeeps(owner, s, Move(owner, s, ObtainInode(t)), t, c, r.value, s.tasks[t].todo);
    }
  }

  lemma StepTracks(owner: Owner, s: State, step: Step)
    requires Tracks(owner, s.inodes, s.seen) && Enabled(s, step)
    requires step.ObtainInode? ==> s.tasks[step.task].child.path != []
    ensures var u := Move(owner, s, step); Tracks(owner, u.inodes, u.seen)
  {
    if step.ObtainInode? {
      var c := s.tasks[step.task].child;
      ObtainTracks(owner, s.inodes, s.seen, KeyFor(owner, c.path, c.metadata), c.metadata);
    } else if step.ForgetInode? {
      ForgetTracks(owner, s.inodes, s.seen, step.inode, step.count);
    }
  }

  /** Every step of every callback keeps everything the adapter relies on. */
  lemma StepSafe(owner: Owner, s: State, step: Step)
    requires Safe(owner, s) && Enabled(s, step)
    ensures Safe(owner, Move(owner, s, step))
  {
    if step.ObtainInode? { ChildNotRoot(owner, s, step.task); }
    StepHolds(owner, s, step);
    StepTracks(owner, s, step);
    StepOwned(owner, s, step);
  }

  lemma StepOwned(owner: Owner, s: State, step: Step)
    requires Owned(owner, s.seen) && Enabled(s, step)
    ensures Owned(owner, Move(owner, s, step).seen)
  {
  }

  lemma ChildNotRoot(owner: Owner, s: State, t: nat)
    requires TasksOk(owner, s) && t in s.tasks && s.tasks[t].NeedInode?
    ensures s.tasks[t].child.path != []
  {
    assert TaskOk(owner, s, s.tasks[t]);
  }

  lemma ForgetTracks(owner: Owner, t: Table, seen: Seen, i: nat, n: nat)
    requires Tracks(owner, t, seen)
    ensures Tracks(owner, Forget(t, i, n), seen)
  {
    ForgetKeeps(t, i, n);
  }

  /**
   In every interleaving of callbacks: two keys share an inode exactly when they were first seen
   with one node ID and generation, each cached path and each path a callback holds for an inode is the
   path of an alias of that live inode, each finished callback's reply is right, and an inode is
   missing from the cache only while a callback is about to store it.
   */
  lemma RunSafe(owner: Owner, root: Metadata, steps: seq<Step>, n: nat)
    requires Legal(Next(owner), Start(root), steps) && n <= |steps|
    ensures Safe(owner, StateAt(Next(owner), Start(root), steps, n))
  {
    StartSafe(owner, root);
    forall s, a | Safe(owner, s) && Next(owner)(s, a).Some? ensures Safe(owner, Next(owner)(s, a).value) {
      StepSafe(owner, s, a);
    }
    AlwaysHolds(Next(owner), Start(root), (s: State) => Safe(owner, s), steps, n);
  }

  /** At every moment of every run, two keys the adapter knows share an inode exactly for one file. */
  lemma RunShares(owner: Owner, root: Metadata, steps: seq<Step>, n: nat, j: NodeKey, k: NodeKey)
    requires Legal(Next(owner), Start(root), steps) && n <= |steps|
    requires var s := StateAt(Next(owner), Start(root), steps, n); j in s.seen && k in s.seen
    ensures var s := StateAt(Next(owner), Start(root), steps, n);
            && j in s.inodes.byKey && k in s.inodes.byKey
            && (s.inodes.byKey[j] == s.inodes.byKey[k] <==>
                  s.seen[j].nodeId == s.seen[k].nodeId && s.seen[j].generation == s.seen[k].generation)
  {
    RunSafe(owner, root, steps, n);
    var s := StateAt(Next(owner), Start(root), steps, n);
    SharedInode(owner, s.inodes, s.seen, j, k);
  }

  /** Between callbacks' stores the cache holds exactly the inodes ever handed out. */
  lemma QuietCacheIsComplete(owner: Owner, s: State)
    requires Safe(owner, s) && forall t :: t in s.tasks ==> !s.tasks[t].NeedStore?
    ensures s.nodes.Keys == s.inodes.byInode.Keys
  {
    forall i | i in s.nodes ensures i in s.inodes.byInode { assert NamedBy(s.inodes, i, s.nodes[i].path); }
    forall i | i in s.inodes.byInode ensures i in s.nodes {
      assert i in s.nodes || exists t :: Storing(s, t, i);
    }
  }

  // ----- when a cached node leads back to its inode -----

  lemma AliasGeneration(owner: Owner, s: State, i: nat, k: NodeKey)
    requires Tracks(owner, s.inodes, s.seen) && Owned(owner, s.seen) && i != ROOT_INODE
    requires i in s.inodes.byInode && k in s.inodes.byInode[i].aliases
    ensures k.owner == owner && s.inodes.byKey.Keys == s.seen.Keys + {ROOT_KEY} && k in s.inodes.byKey
    ensures s.inodes.byKey[k] == i && s.inodes.byInode[i].hardlink.Some?
    ensures s.inodes.byInode[i].hardlink.value.generation == k.generation
  {
    assert k in s.inodes.byKey && s.inodes.byKey[k] == i;
  }

  /**
   getattr stores whatever generation the provider reports. The path of a cached node, with the
   generation of its metadata, is bound to the node's inode exactly when that generation is the
   one of the inode's hardlink key; and exactly then the next lookup that sees the same metadata
   returns the same inode.
   */
  lemma CachedNodeLeadsBackExactly(owner: Owner, s: State, i: nat)
    requires Safe(owner, s) && i in s.nodes && i != ROOT_INODE
    ensures i in s.inodes.byInode && s.inodes.byInode[i].hardlink.Some?
    ensures var node := s.nodes[i];
            var key, link := KeyFor(owner, node.path, node.metadata), LinkFor(owner, node.metadata);
            var same := node.metadata.generation == s.inodes.byInode[i].hardlink.value.generation;
            && (Bound(s.inodes, owner, node.path, node.metadata, i) <==> same)
            && (InodeFor(s.inodes, key, Some(link)).1 == Ok(i) <==> same)
  {
    var node := s.nodes[i];
    assert NamedBy(s.inodes, i, node.path);
    var k :| k in s.inodes.byInode[i].aliases && k.path == node.path;
    AliasGeneration(owner, s, i, k);
    var key, link := KeyFor(owner, node.path, node.metadata), LinkFor(owner, node.metadata);
    LookupOutcomes(s.inodes, key, Some(link));
    if node.metadata.generation == k.generation {
      assert key == k;
    } else if key in s.inodes.byKey && s.inodes.byKey[key] == i {
      AliasGeneration(owner, s, i, key);
    }
  }

  /** A lookup, then a getattr of the inode it returned that sees other metadata. */
  function RefreshRun(name: Bytes, m: Metadata, later: Metadata): seq<Step> {
    [Begin(0, LookupCall(ROOT_INODE, name)), AnswerMetadata(0, Ok(m)), ObtainInode(0), StoreNode(0),
     Begin(1, GetAttrCall(ROOT_INODE + 1)), AnswerMetadata(1, Ok(later)), WriteBack(1)]
  }

  lemma OneComponent(name: Bytes)
    requires ValidName(name)
    ensures ValidPath([name]) && Join([], name) == Ok([name]) && [] + [name] == [name]
  {
    assert Weight([name][..0]) == 0;
  }

  /** The state after the lookup. */
  function LookedUp(owner: Owner, root: Metadata, name: Bytes, m: Metadata): State
    requires ValidName(name)
  {
    OneComponent(name);
    var key, link := KeyFor(owner, [name], m), LinkFor(owner, m);
    State(Allocate(NewTable(), key, Some(link)).0,
          map[ROOT_INODE := CachedNode([], root), 2 := CachedNode([name], m)],
          map[0 := Done(EntryReply(Child(ROOT_INODE, [], name, [name], m), 2))],
          map[key := Identity(m.nodeId, m.generation)])
  }

  lemma PutPut(s: State, t: nat, a: Task, b: Task)
    ensures Put(Put(s, t, a), t, b) == Put(s, t, b)
  {
    assert s.tasks[t := a][t := b] == s.tasks[t := b];
  }

  lemma OneMore(owner: Owner, root: Metadata, steps: seq<Step>, n: nat, s: State, u: State)
    requires n < |steps| && Moment(Next(owner), Start(root), steps, n) == Some(s)
    requires Enabled(s, steps[n]) && Move(owner, s, steps[n]) == u
    ensures Moment(Next(owner), Start(root), steps, n + 1) == Some(u)
  {
  }

  lemma LookupAsks(owner: Owner, root: Metadata, child: Child, steps: seq<Step>)
    requires ValidName(child.name) && child.path == [child.name] && child.dir == [] && child.parent == ROOT_INODE
    requires |steps| >= 4 && steps[0] == Begin(0, LookupCall(ROOT_INODE, child.name))
    requires steps[1] == AnswerMetadata(0, Ok(child.metadata))
    ensures Moment(Next(owner), Start(root), steps, 2) == Some(Put(Start(root), 0, NeedInode(child, ReplyEntry)))
  {
    OneComponent(child.name);
    var s, asked := Start(root), AskLookup(ROOT_INODE, [], child.name, child.path);
    OneMore(owner, root, steps, 0, s, Put(s, 0, asked));
    PutPut(s, 0, asked, NeedInode(child, ReplyEntry));
    OneMore(owner, root, steps, 1, Put(s, 0, asked), Put(s, 0, NeedInode(child, ReplyEntry)));
  }

  lemma LookupRuns(owner: Owner, root: Metadata, name: Bytes, m: Metadata, steps: seq<Step>)
    requires ValidName(name) && |steps| >= 4 && steps[0] == Begin(0, LookupCall(ROOT_INODE, name))
    requires steps[1] == AnswerMetadata(0, Ok(m)) && steps[2] == ObtainInode(0) && steps[3] == StoreNode(0)
    ensures Moment(Next(owner), Start(root), steps, 4) == Some(LookedUp(owner, root, name, m))
  {
    OneComponent(name);
    var s, child := Start(root), Child(ROOT_INODE, [], name, [name], m);
    var key, link := KeyFor(owner, [name], m), LinkFor(owner, m);
    var bound := State(Allocate(NewTable(), key, Some(link)).0, s.nodes, map[],
                       map[key := Identity(m.nodeId, m.generation)]);
    var answered, stored := NeedInode(child, ReplyEntry), NeedStore(child, 2, ReplyEntry);
    LookupAsks(owner, root, child, steps);
    PutPut(bound, 0, answered, stored);
    OneMore(owner, root, steps, 2, Put(s, 0, answered), Put(bound, 0, stored));
    assert Move(owner, Put(bound, 0, stored), steps[3]) == LookedUp(owner, root, name, m);
    OneMore(owner, root, steps, 3, Put(bound, 0, stored), LookedUp(owner, root, name, m));
  }

  /** Lookups of two names in the root. */
  function TwoLookups(a: Bytes, m: Metadata, b: Bytes, n: Metadata): seq<Step> {
    [Begin(0, LookupCall(ROOT_INODE, a)), AnswerMetadata(0, Ok(m)), ObtainInode(0), StoreNode(0),
     Begin(1, LookupCall(ROOT_INODE, b)), AnswerMetadata(1, Ok(n)), ObtainInode(1), StoreNode(1)]
  }

  /** The number the second name gets: that of the first if node ID and generation agree, else a new one. */
  lemma SecondNumber(owner: Owner, a: Bytes, m: Metadata, b: Bytes, n: Metadata)
    requires ValidName(a) && ValidName(b) && a != b
    ensures ValidPath([a]) && ValidPath([b])
    ensures var t := Allocate(NewTable(), KeyFor(owner, [a], m), Some(LinkFor(owner, m))).0;
            InodeFor(t, KeyFor(owner, [b], n), Some(LinkFor(owner, n))).1
            == Ok(if m.nodeId == n.nodeId && m.generation == n.generation then 2 else 3)
  {
    OneComponent(a);
    OneComponent(b);
    assert [a][0] != [b][0];
  }

  /** Two names get one inode exactly when the provider says they are one file. */
  lemma TwoNames(owner: Owner, root: Metadata, a: Bytes, m: Metadata, b: Bytes, n: Metadata)
    requires ValidName(a) && ValidName(b) && a != b
    ensures Legal(Next(owner), Start(root), TwoLookups(a, m, b, n)) && ValidPath([a]) && ValidPath([b])
    ensures var s := StateAt(Next(owner), Start(root), TwoLookups(a, m, b, n), 8);
            var second := if m.nodeId == n.nodeId && m.generation == n.generation then 2 else 3;
            && 0 in s.tasks && s.tasks[0] == Done(EntryReply(Child(ROOT_INODE, [], a, [a], m), 2))
            && 1 in s.tasks && s.tasks[1] == Done(EntryReply(Child(ROOT_INODE, [], b, [b], n), second))
  {
    OneComponent(a);
    OneComponent(b);
    var steps, s := TwoLookups(a, m, b, n), LookedUp(owner, root, a, m);
    LookupRuns(owner, root, a, m, steps);
    SecondNumber(owner, a, m, b, n);
    var answered := Put(s, 1, NeedInode(Child(ROOT_INODE, [], b, [b], n), ReplyEntry));
    SecondAsks(owner, root, b, n, steps, s);
    var second := if m.nodeId == n.nodeId && m.generation == n.generation then 2 else 3;
    SecondStores(owner, root, steps, answered, Child(ROOT_INODE, [], b, [b], n), second);
  }

  lemma SecondStores(owner: Owner, root: Metadata, steps: seq<Step>, s: State, c: Child, number: nat)
    requires |steps| == 8 && Moment(Next(owner), Start(root), steps, 6) == Some(s)
    requires steps[6] == ObtainInode(1) && steps[7] == StoreNode(1)
    requires 1 in s.tasks && s.tasks[1] == NeedInode(c, ReplyEntry)
    requires InodeFor(s.inodes, KeyFor(owner, c.path, c.metadata), Some(LinkFor(owner, c.metadata))).1 == Ok(number)
    ensures Legal(Next(owner), Start(root), steps)
    ensures StateAt(Next(owner), Start(root), steps, 8).tasks == s.tasks[1 := Done(EntryReply(c, number))]
  {
    var bound := Move(owner, s, ObtainInode(1));
    OneMore(owner, root, steps, 6, s, bound);
    OneMore(owner, root, steps, 7, bound, Move(owner, bound, StoreNode(1)));
    assert s.tasks[1 := NeedStore(c, number, ReplyEntry)][1 := Done(EntryReply(c, number))]
           == s.tasks[1 := Done(EntryReply(c, number))];
  }

  lemma SecondAsks(owner: Owner, root: Metadata, b: Bytes, n: Metadata, steps: seq<Step>, s: State)
    requires ValidName(b) && |steps| == 8 && Moment(Next(owner), Start(root), steps, 4) == Some(s)
    requires steps[4] == Begin(1, LookupCall(ROOT_INODE, b)) && steps[5] == AnswerMetadata(1, Ok(n))
    requires 1 !in s.tasks && ROOT_INODE in s.nodes && s.nodes[ROOT_INODE].path == []
    ensures ValidPath([b])
    ensures Moment(Next(owner), Start(root), steps, 6)
            == Some(Put(s, 1, NeedInode(Child(ROOT_INODE, [], b, [b], n), ReplyEntry)))
  {
    OneComponent(b);
    var asked, answered := AskLookup(ROOT_INODE, [], b, [b]), NeedInode(Child(ROOT_INODE, [], b, [b], n), ReplyEntry);
    OneMore(owner, root, steps, 4, s, Put(s, 1, asked));
    PutPut(s, 1, asked, answered);
    OneMore(owner, root, steps, 5, Put(s, 1, asked), Put(s, 1, answered));
  }

  /** One file, one path: after the refresh the next lookup that sees the same metadata gets a second inode. */
  lemma RefreshSplitsInode(owner: Owner, root: Metadata, name: Bytes, m: Metadata, later: Metadata)
    requires ValidName(name) && m.generation != later.generation
    ensures Legal(Next(owner), Start(root), RefreshRun(name, m, later)) && ValidPath([name])
    ensures var s := StateAt(Next(owner), Start(root), RefreshRun(name, m, later), 7);
            && 2 in s.nodes && s.nodes[2] == CachedNode([name], later)
            && InodeFor(s.inodes, KeyFor(owner, [name], later), Some(LinkFor(owner, later))).1 == Ok(3)
  {
    OneComponent(name);
    var steps, s := RefreshRun(name, m, later), LookedUp(owner, root, name, m);
    LookupRuns(owner, root, name, m, steps);
    var asked, answered := AskAttr(2, [name]), NeedWriteBack(2, [name], later);
    OneMore(owner, root, steps, 4, s, Put(s, 1, asked));
    PutPut(s, 1, asked, answered);
    OneMore(owner, root, steps, 5, Put(s, 1, asked), Put(s, 1, answered));
    OneMore(owner, root, steps, 6, Put(s, 1, answered), Move(owner, Put(s, 1, answered), WriteBack(1)));
    SecondInode(owner, name, m, later);
  }

  lemma SecondInode(owner: Owner, name: Bytes, m: Metadata, later: Metadata)
    requires ValidName(name) && m.generation != later.generation
    ensures ValidPath([name])
    ensures var t := Allocate(NewTable(), KeyFor(owner, [name], m), Some(LinkFor(owner, m))).0;
            InodeFor(t, KeyFor(owner, [name], later), Some(LinkFor(owner, later))).1 == Ok(3)
  {
    OneComponent(name);
  }

  lemma StartSafe(owner: Owner, root: Metadata)
    ensures Safe(owner, Start(root))
  {
    var start := Start(root);
    assert ROOT_KEY in start.inodes.byInode[ROOT_INODE].aliases;
    assert NamedBy(start.inodes, ROOT_INODE, []);
  }

  // ----- the adapter object -----

  /** One method per lock section; each performs exactly its step for the calling callback `t`. */
  class FuseAdapter {
    const owner: Owner
    const inodes: InodeTable
    var nodes: map<nat, CachedNode>
    /** The callbacks' local variables, and the identity each key was first seen with. */
    ghost var tasks: map<nat, Task>
    ghost var seen: Seen

    ghost function View(): State
      reads this, inodes
    {
      State(inodes.Value(), nodes, tasks, seen)
    }

    ghost predicate Valid()
      reads inodes
    {
      inodes.Valid()
    }

    constructor (owner: Owner, rootMetadata: Metadata)
      ensures Valid() && this.owner == owner && fresh(inodes) && View() == Start(rootMetadata)
    {
      this.owner := owner;
      inodes := new InodeTable();
      nodes := map[ROOT_INODE := CachedNode([], rootMetadata)];
      tasks, seen := map[], map[];
    }

    /** `node`: the read lock of the cache. */
    method Node(inode: nat) returns (r: Result<CachedNode, VfsError>)
      ensures r == if inode in nodes then Ok(nodes[inode]) else Err(NotFound)
    {
      if inode !in nodes { return Err(NotFound); }
      return Ok(nodes[inode]);
    }

    method BeginLookup(parent: nat, name: Bytes) returns (task: Task)
      ensures task == Opening(nodes, LookupCall(parent, name))
    {
      var node := Node(parent);
      if node.Err? { return Done(Failed(node.error)); }
      var n := FileName(name);
      if n.Err? { return Done(Failed(n.error)); }
      var path := Join(node.value.path, n.value);
      if path.Err? { return Done(Failed(path.error)); }
      return AskLookup(parent, node.value.path, n.value, path.value);
    }

    method BeginOpen(inode: nat, readOnly: bool) returns (task: Task)
      ensures task == Opening(nodes, OpenCall(inode, readOnly))
    {
      if !readOnly { return Done(Failed(ReadOnly)); }
      var node := Node(inode);
      if node.Err? { return Done(Failed(node.error)); }
      match node.value.metadata.fileType {
        case Directory => return Done(Failed(IsDirectory));
        case RegularFile => return AskOpen(inode, node.value.path);
        case SymbolicLink => return Done(Failed(InvalidInput));
        case Special => return Done(Failed(SpecialFile));
      }
    }

    /** The read lock of `node`, and the checks up to the provider call. */
    method BeginCall(ghost t: nat, call: Call) returns (task: Task)
      requires Valid() && t !in tasks
      modifies this`tasks
      ensures Valid() && View() == Move(owner, old(View()), Begin(t, call)) && task == tasks[t]
    {
      match call {
        case LookupCall(parent, name) => task := BeginLookup(parent, name);
        case OpenCall(inode, readOnly) => task := BeginOpen(inode, readOnly);
        case GetAttrCall(inode) =>
          var node := Node(inode);
          task := if node.Err? then Done(Failed(node.error)) else AskAttr(inode, node.value.path);
        case ReadLinkCall(inode) =>
          var node := Node(inode);
          if node.Err? {
            task := Done(Failed(node.error));
          } else if node.value.metadata.fileType != SymbolicLink {
            task := Done(Failed(InvalidInput));
          } else {
            task := AskLink(inode, node.value.path);
          }
        case ReadDirCall(inode) =>
          var node := Node(inode);
          if node.Err? {
            task := Done(Failed(node.error));
          } else if node.value.metadata.fileType != Directory {
            task := Done(Failed(NotDirectory));
          } else {
            task := AskList(inode, node.value.path);
          }
      }
      tasks := tasks[t := task];
    }

    /** The inode lock of cache_node. */
    method LockInodes(ghost t: nat, child: Child, todo: Todo) returns (task: Task)
      requires Valid() && t in tasks && tasks[t] == NeedInode(child, todo)
      modifies this`tasks, this`seen, inodes
      ensures Valid() && View() == Move(owner, old(View()), ObtainInode(t)) && task == tasks[t]
    {
      var key, link := KeyFor(owner, child.path, child.metadata), LinkFor(owner, child.metadata);
      var r := inodes.Obtain(key, Some(link));
      if r.Err? {
        task := Done(Failed(r.error));
      } else {
        task := NeedStore(child, r.value, todo);
        seen := NoteSeen(seen, key, child.metadata);
      }
      tasks := tasks[t := task];
    }

    /** The node lock of cache_node, and what lookup or readdir does next. */
    method LockNodes(ghost t: nat, child: Child, number: nat, todo: Todo) returns (task: Task)
      requires Valid() && t in tasks && tasks[t] == NeedStore(child, number, todo)
      requires todo.GoOn? ==> NamesValid(todo.left)
      modifies this`tasks, this`nodes
      ensures Valid() && View() == Move(owner, old(View()), StoreNode(t)) && task == tasks[t]
    {
      nodes := nodes[number := CachedNode(child.path, child.metadata)];
      match todo {
        case ReplyEntry => task := Done(EntryReply(child, number));
        case GoOn(up, done, rows, left) =>
          rows := rows + [DirRow(number, child.metadata.fileType, child.name)];
          done := done + [Entry(child.name, child.metadata)];
          if left == [] {
            task := Done(DirReply(child.parent, child.dir, up, done, rows));
          } else {
            var e := left[0];
            var path := Join(child.dir, e.name);
            task := if path.Err? then Done(Failed(path.error))
                    else NeedInode(Child(child.parent, child.dir, e.name, path.value, e.metadata),
                                   GoOn(up, done, rows, left[1..]));
          }
      }
      tasks := tasks[t := task];
    }

    /** The node lock of getattr: the path read before the provider call is written back. */
    method LockNodesForRefresh(ghost t: nat, inode: nat, path: VirtualPath, metadata: Metadata) returns (task: Task)
      requires Valid() && t in tasks && tasks[t] == NeedWriteBack(inode, path, metadata)
      modifies this`tasks, this`nodes
      ensures Valid() && View() == Move(owner, old(View()), WriteBack(t)) && task == tasks[t]
    {
      nodes := nodes[inode := CachedNode(path, metadata)];
      task := Done(AttrReply(inode, path, metadata));
      tasks := tasks[t := task];
    }

    /** The search for the `..` row, in whatever order the map is iterated. */
    method ParentInode(path: VirtualPath) returns (up: nat)
      ensures IsUp(nodes, path, up)
      ensures path != [] && (exists i :: i in nodes && nodes[i].path == path[..|path| - 1]) ==>
                up in nodes && nodes[up].path == path[..|path| - 1]
      ensures path == [] || !(exists i :: i in nodes && nodes[i].path == path[..|path| - 1]) ==> up == 1
    {
      var parent := Parent(path);
      if parent.None? { return ROOT_INODE; }
      var left := nodes.Keys;
      while left != {}
        invariant left <= nodes.Keys
        invariant forall i :: i in nodes && i !in left ==> nodes[i].path != parent.value
        decreases |left|
      {
        var i :| i in left;
        if nodes[i].path == parent.value { return i; }
        left := left - {i};
      }
      return ROOT_INODE;
    }
  }

  // ----- readlink over the namespace -----

  /**
   The callback after its node is read: only a cached symlink is asked for; what the kernel gets
   is relative; followed from the link's directory an alias leads to its target, an absolute
   provider link below the link's own mount, and a relative one stays in its mount exactly when
   its text ends below it.
   */
  method ReadLinkThroughAdapter(ns: NamespaceProvider, world: World, node: CachedNode)
    returns (r: Result<LinkTarget, VfsError>)
    requires ns.Valid()
    ensures node.metadata.fileType != SymbolicLink ==> r == Err(InvalidInput)
    ensures r.Ok? ==> node.path != [] && !IsAbsolute(r.value)
    ensures r.Ok? && node.path in ns.aliases ==>
              Resolve(Parent(node.path).value, r.value) == AbsolutePath(ns.aliases[node.path])
    ensures r.Ok? && node.path !in ns.aliases ==>
              Longest(ns.mounts.Keys, node.path).Some? &&
              LeadsFrom(ns.mounts, world, Longest(ns.mounts.Keys, node.path).value, node.path, r.value)
  {
    if node.metadata.fileType != SymbolicLink { return Err(InvalidInput); }
    var target := ns.ReadLink(world, node.path);
    if target.Err? { return Err(target.error); }
    r := RewriteSymlink(node.path, target.value);
    RewriteMeaning(node.path, target.value);
    if r.Ok? {
      if node.path in ns.aliases {
        ResolveAbsolute(Parent(node.path).value, target.value);
      } else {
        LongestIsDeepest(ns.mounts.Keys, node.path);
        ghost var d := Longest(ns.mounts.Keys, node.path).value;
        ghost var rest: VirtualPath :|
          d + rest == node.path && target == Anchor(d, world.readLink(ns.mounts[d].provider, rest));
        RewrittenLeads(ns.mounts, world, d, rest, node.path, r.value);
      }
    }
  }

  /** Where the text sent for a provider link below mount `d` leads. */
  ghost predicate LeadsFrom(mounts: Mounts, world: World, d: VirtualPath, path: VirtualPath, sent: LinkTarget) {
    && path != [] && d in mounts
    && exists rest: VirtualPath ::
         d + rest == path && LeadsRight(d, world.readLink(mounts[d].provider, rest), Parent(path).value, sent)
  }

  ghost predicate LeadsRight(d: VirtualPath, raw: Result<LinkTarget, VfsError>, parent: VirtualPath, sent: LinkTarget) {
    && raw.Ok? && Resolve(parent, sent).Ok?
    && if IsAbsolute(raw.value)
       then AbsolutePath(raw.value).Ok? && Resolve(parent, sent).value == d + AbsolutePath(raw.value).value
       else sent == raw.value && (d <= Resolve(parent, sent).value <==> EndsBelow(d, |parent|, Split(sent)))
  }

  lemma RewrittenLeads(mounts: Mounts, world: World, d: VirtualPath, rest: VirtualPath, path: VirtualPath,
                       sent: LinkTarget)
    requires d in mounts && path != [] && d + rest == path
    requires var t := Anchor(d, world.readLink(mounts[d].provider, rest));
             t.Ok? && Rewrite(path, t.value) == Ok(sent)
    ensures LeadsFrom(mounts, world, d, path, sent)
  {
    var raw := world.readLink(mounts[d].provider, rest);
    var target, parent := Anchor(d, raw).value, Parent(path).value;
    RewriteMeaning(path, target);
    if IsAbsolute(raw.value) {
      AnchoredStaysInMount(d, raw.value, parent);
    } else {
      assert if rest == [] then parent <= d else d <= parent;
      RelativeStaysExactly(d, parent, raw.value);
    }
    assert LeadsRight(d, raw, parent, sent);
  }
}
