/** Editing a file over the web: compare-and-swap on a branch that pushes and other editors move at the same time
  (git_host_main.py, `_serve_edit`). */
module WebEdit {
  import opened Seats
  import opened Bytes

  type Sha = nat

  datatype Mode = Regular | Executable | Symlink | Submodule

  datatype Entry = Entry(mode: Mode, blob: seq<Byte>)

  /** A path, split at its slashes. */
  type Path = seq<string>

  /** A tree, as the paths of its files. */
  type Tree = map<Path, Entry>

  /** Which names git takes into an index; it refuses at least spellings of its own directory. */
  type NameRule = string -> bool

  datatype Commit = Commit(tree: Tree, parents: seq<Sha>)

  type Store = map<Sha, Commit>

  /** `base` is the commit the editor's page was showing; None when the client sends none. */
  datatype Request = Request(path: Path, base: Option<Sha>, delete: bool, content: seq<Byte>)

  datatype Answer = Installed(commit: Sha) | Same(commit: Sha) | Stale | NotFound | SymlinkRefused | Failed

  /** One editor: before reading the tip, with the tip read, with a commit built on it, answered. */
  datatype Editor = Waiting(req: Request) | AtTip(req: Request, tip: Option<Sha>)
    | Built(req: Request, tip: Option<Sha>, commit: Sha) | Answered(req: Request, answer: Answer)

  /** A ref update the edit route made. */
  datatype Update = Update(req: Request, before: Option<Sha>, after: Sha)

  datatype World = World(rule: NameRule, store: Store, branch: Option<Sha>, editors: map<nat, Editor>, log: seq<Update>)

  datatype Event = Arrive(id: nat, req: Request) | ReadTip(id: nat) | Build(id: nat, sha: Sha) | UpdateRef(id: nat)
    | Crash(id: nat) | Push(commits: Store, to: Option<Sha>)

  // ---- the steps of one edit ----

  function TipTree(store: Store, tip: Option<Sha>): Tree
    requires tip.Some? ==> tip.value in store
  {
    if tip.Some? then store[tip.value].tree else map[]
  }

  function Parents(tip: Option<Sha>): seq<Sha> {
    if tip.Some? then [tip.value] else []
  }

  /** The path as it is looked up: git drops empty names and dots. */
  function Plain(path: Path): Path {
    if path == [] then []
    else (if path[0] == "" || path[0] == "." then [] else [path[0]]) + Plain(path[1..])
  }

  /** Git takes the path into an index. Any other path it passes over without an error. */
  predicate Stageable(rule: NameRule, path: Path) {
    path != [] && forall i :: 0 <= i < |path| ==> path[i] != "" && path[i] != "." && path[i] != ".." && rule(path[i])
  }

  /** One of the two would have to be a file and a directory at once. */
  predicate Clash(p: Path, q: Path) { p < q || q < p }

  /** There is a file or a directory at the path. */
  predicate Listed(t: Tree, path: Path) {
    exists q :: q in t && path <= q
  }

  /** An executable file or a link keeps its mode; everything else becomes a regular file. */
  function KeptMode(t: Tree, path: Path): Mode {
    var p := Plain(path);
    if p in t && (t[p].mode == Executable || t[p].mode == Symlink) then t[p].mode else Regular
  }

  /** Staging a file makes room for it: whatever clashes with its path goes. */
  function Staged(rule: NameRule, t: Tree, path: Path, entry: Entry): Tree {
    if Stageable(rule, path) then (map q | q in t && !Clash(q, path) :: t[q])[path := entry] else t
  }

  function Unstaged(rule: NameRule, t: Tree, path: Path): Tree {
    if Stageable(rule, path) then t - {path} else t
  }

  datatype Plan = Refuse(answer: Answer) | Write(tree: Tree)

  function Planned(rule: NameRule, t: Tree, tip: Option<Sha>, req: Request): Plan {
    if req.delete && !Listed(t, Plain(req.path)) then Refuse(NotFound)
    else if !req.delete && KeptMode(t, req.path) == Symlink then Refuse(SymlinkRefused)
    else
      var tree := if req.delete then Unstaged(rule, t, req.path)
                  else Staged(rule, t, req.path, Entry(KeptMode(t, req.path), req.content));
      if tip.Some? && tree == t then Refuse(Same(tip.value)) else Write(tree)
  }

  /** Reading the tip, and the checks made on it at once. */
  function AfterTip(req: Request, tip: Option<Sha>): Editor {
    if req.base.Some? && tip.Some? && req.base != tip then Answered(req, Stale)
    else if req.delete && tip.None? then Answered(req, NotFound)
    else AtTip(req, tip)
  }

  /** Objects are named by their content: a name never changes meaning. */
  predicate Names(store: Store, sha: Sha, c: Commit) {
    sha in store ==> store[sha] == c
  }

  predicate Extends(store: Store, more: Store) {
    forall s :: s in store ==> s in more && more[s] == store[s]
  }

  /** Parents of stored commits are stored. */
  predicate Closed(store: Store) {
    forall s :: s in store ==> forall i :: 0 <= i < |store[s].parents| ==> store[s].parents[i] in store
  }

  /** What git can write as a tree: every path stageable, none both a file and a directory. */
  ghost predicate TreeShaped(rule: NameRule, t: Tree) {
    && (forall p :: p in t ==> Stageable(rule, p))
    && forall p, q :: p in t && q in t ==> !Clash(p, q)
  }

  ghost predicate AllShaped(rule: NameRule, store: Store) {
    forall s :: s in store ==> TreeShaped(rule, store[s].tree)
  }

  /** What may happen next. */
  ghost predicate Allowed(w: World, e: Event) {
    match e
    case Arrive(id, req) => id !in w.editors
    case ReadTip(id) => id in w.editors && w.editors[id].Waiting?
    case Build(id, sha) =>
      && id in w.editors && w.editors[id].AtTip?
      && var ed := w.editors[id];
      && (ed.tip.Some? ==> ed.tip.value in w.store)
      && var plan := Planned(w.rule, TipTree(w.store, ed.tip), ed.tip, ed.req);
      plan.Write? ==> Names(w.store, sha, Commit(plan.tree, Parents(ed.tip)))
    case UpdateRef(id) => id in w.editors && w.editors[id].Built?
    case Crash(id) => id in w.editors && !w.editors[id].Answered?
    case Push(commits, to) =>
      && Closed(w.store + commits) && AllShaped(w.rule, commits) && (to.Some? ==> to.value in w.store + commits)
      && forall s :: s in commits ==> Names(w.store, s, commits[s])
  }

  function Step(w: World, e: Event): World
    requires Allowed(w, e)
  {
    match e
    case Arrive(id, req) => w.(editors := w.editors[id := Waiting(req)])
    case ReadTip(id) => w.(editors := w.editors[id := AfterTip(w.editors[id].req, w.branch)])
    case Build(id, sha) =>
      var ed := w.editors[id];
      (match Planned(w.rule, TipTree(w.store, ed.tip), ed.tip, ed.req)
       case Refuse(answer) => w.(editors := w.editors[id := Answered(ed.req, answer)])
       case Write(tree) =>
         w.(store := w.store[sha := Commit(tree, Parents(ed.tip))], editors := w.editors[id := Built(ed.req, ed.tip, sha)]))
    case UpdateRef(id) =>
      // the ref moves only if it still has the value read before; None means that it must still not exist
      var ed := w.editors[id];
      if w.branch != ed.tip then w.(editors := w.editors[id := Answered(ed.req, Stale)])
      else World(w.rule, w.store, Some(ed.commit), w.editors[id := Answered(ed.req, Installed(ed.commit))],
                 w.log + [Update(ed.req, ed.tip, ed.commit)])
    case Crash(id) => w.(editors := w.editors[id := Answered(w.editors[id].req, Failed)])
    case Push(commits, to) => w.(store := w.store + commits, branch := to)
  }

  // ---- what every run keeps ----

  /** Nothing but the entry at `path` differs. */
  ghost predicate OnlyPathChanged(t: Tree, t': Tree, path: Path) {
    && (forall p :: p != path ==> (p in t' <==> p in t))
    && (forall p :: p != path && p in t && p in t' ==> t'[p] == t[p])
  }

  /** The tip holds nothing that the request's path clashes with. */
  ghost predicate NoClash(t: Tree, req: Request) {
    req.delete || forall p :: p in t ==> !Clash(p, req.path)
  }

  /** `t'` is `t` with the request carried out: a file removed, or a file written and what clashes with it gone. A path
      that git does not take is written nowhere; that gets as far as a commit only on a branch without one. */
  ghost predicate CarriedOut(rule: NameRule, t: Tree, t': Tree, req: Request) {
    if req.delete then req.path in t && t' == t - {req.path}
    else if !Stageable(rule, req.path) then t == t' == map[]
    else
      && req.path in t' && t'[req.path].blob == req.content && !(req.path in t && t[req.path].mode == Symlink)
      && t'[req.path].mode == (if req.path in t && t[req.path].mode == Executable then Executable else Regular)
      && (forall p :: p != req.path ==> (p in t' <==> p in t && !Clash(p, req.path)))
      && (forall p :: p != req.path && p in t' ==> t'[p] == t[p])
  }

  /** `sha` is a commit of the request's edit, made on `tip`, and `tip` is the request's base if it has one. Only the
      edited path differs from the tip exactly when nothing clashes with it. */
  ghost predicate GoodCommit(rule: NameRule, store: Store, req: Request, tip: Option<Sha>, sha: Sha) {
    && sha in store && (tip.Some? ==> tip.value in store)
    && store[sha].parents == (if tip.Some? then [tip.value] else [])
    && var t, t' := if tip.Some? then store[tip.value].tree else map[], store[sha].tree;
    && CarriedOut(rule, t, t', req)
    && (OnlyPathChanged(t, t', req.path) <==> NoClash(t, req))
    && (tip.Some? ==> t' != t)
    && (req.base.Some? && tip.Some? ==> req.base == tip)
    && (req.delete ==> tip.Some?)
  }

  ghost predicate EditorGood(rule: NameRule, store: Store, ed: Editor) {
    match ed
    case AtTip(req, tip) =>
      (tip.Some? ==> tip.value in store) && (req.base.Some? && tip.Some? ==> req.base == tip) && (req.delete ==> tip.Some?)
    case Built(req, tip, commit) => GoodCommit(rule, store, req, tip, commit)
    case _ => true
  }

  ghost predicate Sound(w: World) {
    && Closed(w.store) && AllShaped(w.rule, w.store) && (w.branch.Some? ==> w.branch.value in w.store)
    && (forall id :: id in w.editors ==> EditorGood(w.rule, w.store, w.editors[id]))
    && (forall i :: 0 <= i < |w.log| ==> GoodCommit(w.rule, w.store, w.log[i].req, w.log[i].before, w.log[i].after))
  }

  lemma {:induction false} StageableIsPlain(rule: NameRule, path: Path)
    requires forall i :: 0 <= i < |path| ==> path[i] != "" && path[i] != "."
    ensures Plain(path) == path
  {
    if path != [] { StageableIsPlain(rule, path[1..]); }
  }

  lemma StagedIsShaped(rule: NameRule, t: Tree, path: Path, entry: Entry)
    requires TreeShaped(rule, t)
    ensures TreeShaped(rule, Staged(rule, t, path, entry)) && TreeShaped(rule, Unstaged(rule, t, path))
  {
    hide Stageable;
  }

  /** The path is looked up with its empty names and dots dropped, and nothing else. */
  lemma {:induction false} PlainDrops(a: Path, name: string, b: Path)
    ensures Plain(a + [name] + b) == if name == "" || name == "." then Plain(a + b) else Plain(a) + [name] + Plain(b)
  {
    if a == [] {
      assert a + [name] + b == [name] + b && a + b == b;
    } else {
      PlainDrops(a[1..], name, b);
      assert (a + [name] + b)[1..] == a[1..] + [name] + b && (a + b)[1..] == a[1..] + b;
    }
  }

  /** The mode a written file gets. */
  function ModeAfter(t: Tree, path: Path): Mode {
    if path in t && t[path].mode == Executable then Executable else Regular
  }

  lemma KeptModeIs(rule: NameRule, t: Tree, path: Path)
    requires Stageable(rule, path)
    ensures KeptMode(t, path) == if path in t && t[path].mode == Symlink then Symlink else ModeAfter(t, path)
  {
    StageableIsPlain(rule, path);
    hide Plain, Stageable;
  }

  /** Nothing would change: a removal of what is no file, a write of what is there already, or a path git passes over. */
  ghost predicate ChangesNothing(rule: NameRule, t: Tree, req: Request) {
    || !Stageable(rule, req.path)
    || (if req.delete then req.path !in t else req.path in t && t[req.path] == Entry(ModeAfter(t, req.path), req.content))
  }

  /** Each answer that is given before anything is committed, exactly when. */
  lemma PlanAnswers(rule: NameRule, t: Tree, tip: Option<Sha>, req: Request)
    requires TreeShaped(rule, t)
    ensures var p, plan := Plain(req.path), Planned(rule, t, tip, req);
      var missing := req.delete && forall q :: q in t ==> !(p <= q);
      var link := !req.delete && p in t && t[p].mode == Symlink;
      && (plan == Refuse(NotFound) <==> missing)
      && (plan == Refuse(SymlinkRefused) <==> link)
      && (tip.Some? && plan == Refuse(Same(tip.value)) <==> tip.Some? && !missing && !link && ChangesNothing(rule, t, req))
      && (plan.Write? <==> !missing && !link && (tip.None? || !ChangesNothing(rule, t, req)))
  {
    var p := Plain(req.path);
    assert Listed(t, p) <==> !forall q :: q in t ==> !(p <= q);
    assert KeptMode(t, req.path) == Symlink <==> p in t && t[p].mode == Symlink;
    if Stageable(rule, req.path) {
      KeptModeIs(rule, t, req.path);
      StageableIsPlain(rule, req.path);
      if !req.delete { SameWhenStaged(rule, t, req.path, Entry(KeptMode(t, req.path), req.content)); }
    }
    hide Stageable, KeptMode, Listed, Plain, Staged;
    assert !Stageable(rule, req.path) ==> Staged(rule, t, req.path, Entry(KeptMode(t, req.path), req.content)) == t by {
      NotStaged(rule, t, req.path, Entry(KeptMode(t, req.path), req.content));
    }
    if req.delete { assert (t - {req.path} == t) <==> req.path !in t; }
  }

  lemma NotStaged(rule: NameRule, t: Tree, path: Path, entry: Entry)
    ensures !Stageable(rule, path) ==> Staged(rule, t, path, entry) == t
  {
    hide Stageable;
  }

  lemma SameWhenStaged(rule: NameRule, t: Tree, path: Path, entry: Entry)
    requires TreeShaped(rule, t) && Stageable(rule, path)
    ensures Staged(rule, t, path, entry) == t <==> path in t && t[path] == entry
  {
    hide Stageable;
    var t' := Staged(rule, t, path, entry);
    assert path in t' && t'[path] == entry;
    if path in t && t[path] == entry {
      forall q ensures q in t' <==> q in t { if q in t { assert !Clash(q, path); } }
    }
  }

  /** The tree that is written carries the request out, is one that git can hold, and is not the tip's own. */
  lemma PlanCarriesOut(rule: NameRule, t: Tree, tip: Option<Sha>, req: Request)
    requires TreeShaped(rule, t) && Planned(rule, t, tip, req).Write?
    requires tip.None? ==> t == map[] && !req.delete
    ensures var t' := Planned(rule, t, tip, req).tree;
      TreeShaped(rule, t') && CarriedOut(rule, t, t', req) && (tip.Some? ==> t' != t)
  {
    StagedIsShaped(rule, t, req.path, Entry(KeptMode(t, req.path), req.content));
    if Stageable(rule, req.path) { KeptModeIs(rule, t, req.path); }
    hide Stageable, KeptMode, Listed, Plain;
    assert req.path !in t ==> t - {req.path} == t;
  }

  /** Carrying a request out changes the one path alone exactly when the tip holds nothing that clashes with it. */
  lemma OnlyPathIffNoClash(rule: NameRule, t: Tree, t': Tree, req: Request)
    requires CarriedOut(rule, t, t', req)
    ensures OnlyPathChanged(t, t', req.path) <==> NoClash(t, req)
  {
    hide Stageable, KeptMode;
    if !req.delete && Stageable(rule, req.path) && !NoClash(t, req) {
      var p :| p in t && Clash(p, req.path);
      assert p != req.path && p !in t';
    }
  }

  /** A file written where a directory is takes the directory's place: its files are gone. */
  lemma DirectoryIsLost(rule: NameRule, tip: Option<Sha>, entry: Entry, content: seq<Byte>)
    requires rule("docs")
    ensures var t: Tree := map[["docs", "x"] := entry];
      var req := Request(["docs"], None, false, content);
      var t' := map[["docs"] := Entry(Regular, content)];
      Planned(rule, t, tip, req) == Write(t') && !OnlyPathChanged(t, t', ["docs"])
  {
    var t: Tree := map[["docs", "x"] := entry];
    var file := Entry(Regular, content);
    assert ["docs"] < ["docs", "x"];
    assert Stageable(rule, ["docs"]);
    assert ["docs", "x"] in t && ["docs", "x"] !in map[["docs"] := file];
    assert Staged(rule, t, ["docs"], file) == map[["docs"] := file];
    assert ["docs"] !in t && Plain(["docs"]) == ["docs"] by { StageableIsPlain(rule, ["docs"]); }
    hide Staged, Stageable;
  }

  /** A file written below a link takes the link's place, though an edit of the link itself is refused. */
  lemma LinkIsLost(rule: NameRule, tip: Option<Sha>, target: seq<Byte>, content: seq<Byte>)
    requires rule("link") && rule("q")
    ensures var t: Tree := map[["link"] := Entry(Symlink, target)];
      && Planned(rule, t, tip, Request(["link"], None, false, content)) == Refuse(SymlinkRefused)
      && Planned(rule, t, tip, Request(["link", "q"], None, false, content))
         == Write(map[["link", "q"] := Entry(Regular, content)])
  {
    var t: Tree := map[["link"] := Entry(Symlink, target)];
    var path, file := ["link", "q"], Entry(Regular, content);
    assert ["link"] < path;
    assert Stageable(rule, path);
    assert Staged(rule, t, path, file) == map[path := file];
    assert path !in t && path in map[path := file];
    StageableIsPlain(rule, path);
    StageableIsPlain(rule, ["link"]);
    hide Staged, Stageable;
  }

  /** A path with an empty name is written nowhere: on a new branch that makes an empty first commit. */
  lemma IgnoredPathMakesEmptyCommit(rule: NameRule, content: seq<Byte>)
    ensures Planned(rule, map[], None, Request(["a", "", "b"], None, false, content)) == Write(map[])
  {
    var path: Path := ["a", "", "b"];
    assert path[1] == "";
    assert !Stageable(rule, path);
  }

  /** A bigger store says the same about the commits it had. */
  lemma GoodCommitStays(rule: NameRule, store: Store, more: Store, req: Request, tip: Option<Sha>, sha: Sha)
    requires Extends(store, more) && GoodCommit(rule, store, req, tip, sha)
    ensures GoodCommit(rule, more, req, tip, sha)
  {
    hide CarriedOut, OnlyPathChanged, NoClash;
  }

  lemma StoreGrows(w: World, more: Store)
    requires Sound(w) && Extends(w.store, more) && Closed(more) && AllShaped(w.rule, more)
    ensures Sound(w.(store := more))
  {
    forall id | id in w.editors ensures EditorGood(w.rule, more, w.editors[id]) {
      var ed := w.editors[id];
      assert EditorGood(w.rule, w.store, ed);
      if ed.Built? { GoodCommitStays(w.rule, w.store, more, ed.req, ed.tip, ed.commit); }
    }
    forall i | 0 <= i < |w.log| ensures GoodCommit(w.rule, more, w.log[i].req, w.log[i].before, w.log[i].after) {
      GoodCommitStays(w.rule, w.store, more, w.log[i].req, w.log[i].before, w.log[i].after);
    }
    hide GoodCommit;
  }

  lemma BuildKeeps(w: World, id: nat, sha: Sha)
    requires Sound(w) && Allowed(w, Build(id, sha))
    ensures Sound(Step(w, Build(id, sha)))
  {
    var ed := w.editors[id];
    assert EditorGood(w.rule, w.store, ed);
    var t := TipTree(w.store, ed.tip);
    var plan := Planned(w.rule, t, ed.tip, ed.req);
    if plan.Write? {
      var c := Commit(plan.tree, Parents(ed.tip));
      var more := w.store[sha := c];
      EmptyIsShaped(w.rule);
      PlanCarriesOut(w.rule, t, ed.tip, ed.req);
      OnlyPathIffNoClash(w.rule, t, plan.tree, ed.req);
      hide Planned, CarriedOut, KeptMode, TreeShaped, OnlyPathChanged, NoClash;
      StoreGrows(w, more);
      assert GoodCommit(w.rule, more, ed.req, ed.tip, sha);
    }
  }

  lemma EmptyIsShaped(rule: NameRule)
    ensures TreeShaped(rule, map[])
  {
  }

  lemma StepKeeps(w: World, e: Event)
    requires Sound(w) && Allowed(w, e)
    ensures Sound(Step(w, e))
  {
    hide Planned, CarriedOut, KeptMode, TreeShaped, OnlyPathChanged, NoClash;
    match e
    case Build(id, sha) => BuildKeeps(w, id, sha);
    case Push(commits, to) => StoreGrows(w, w.store + commits);
    case UpdateRef(id) => assert EditorGood(w.rule, w.store, w.editors[id]);
    case _ =>
  }

  ghost predicate AllAllowed(w: World, es: seq<Event>)
    decreases |es|
  {
    es == [] || (Allowed(w, es[0]) && AllAllowed(Step(w, es[0]), es[1..]))
  }

  function Run(w: World, es: seq<Event>): World
    requires AllAllowed(w, es)
    decreases |es|
  {
    if es == [] then w else Run(Step(w, es[0]), es[1..])
  }

  /** In every interleaving of editors and pushes, each commit the edit route installed has as its parent exactly the
      value it replaced, carries its request out on it, and replaced the base its client named; only the edited path
      differs if and only if the replaced tree holds no file above or below that path. */
  lemma {:induction false} RunKeeps(w: World, es: seq<Event>)
    requires Sound(w) && AllAllowed(w, es)
    ensures Sound(Run(w, es))
    decreases |es|
  {
    if es != [] {
      StepKeeps(w, es[0]);
      hide Sound, Allowed, Step;
      RunKeeps(Step(w, es[0]), es[1..]);
    }
  }

  // ---- what an editor is answered ----

  /** Reading the tip answers at once when it is not the base the client named, or when there is nothing to delete from. */
  lemma TipAnswers(w: World, id: nat)
    requires Allowed(w, ReadTip(id))
    ensures var req, w' := w.editors[id].req, Step(w, ReadTip(id));
      && w'.editors[id] == (if req.base.Some? && w.branch.Some? && w.branch != req.base then Answered(req, Stale)
                            else if req.delete && w.branch.None? then Answered(req, NotFound) else AtTip(req, w.branch))
      && w'.branch == w.branch && w'.store == w.store && w'.log == w.log
  {
  }

  /** A built commit is installed exactly when the branch still has the value it was built on. */
  lemma InstalledIffUnmoved(w: World, id: nat)
    requires Allowed(w, UpdateRef(id))
    ensures var ed, w' := w.editors[id], Step(w, UpdateRef(id));
      && (w.branch == ed.tip <==> w'.editors[id] == Answered(ed.req, Installed(ed.commit)))
      && (w.branch != ed.tip <==> w'.editors[id] == Answered(ed.req, Stale))
      && w'.branch == (if w.branch == ed.tip then Some(ed.commit) else w.branch)
      && w'.store == w.store
      && forall other :: other != id && other in w.editors ==> other in w'.editors && w'.editors[other] == w.editors[other]
  {
  }

  function EditSteps(id: nat, req: Request, sha: Sha): seq<Event> {
    [Arrive(id, req), ReadTip(id), Build(id, sha), UpdateRef(id)]
  }

  /** An editor nobody interferes with, whose base is current and whose request changes something, gets its commit onto the
      branch. */
  lemma UndisturbedEditIsInstalled(w: World, id: nat, req: Request, sha: Sha)
    requires Sound(w) && id !in w.editors && (req.base.Some? && w.branch.Some? ==> req.base == w.branch)
    requires req.delete ==> w.branch.Some?
    requires var t := if w.branch.Some? then w.store[w.branch.value].tree else map[];
      var plan := Planned(w.rule, t, w.branch, req);
      plan.Write? && Names(w.store, sha, Commit(plan.tree, if w.branch.Some? then [w.branch.value] else []))
    ensures AllAllowed(w, EditSteps(id, req, sha))
    ensures var w' := Run(w, EditSteps(id, req, sha));
      w'.branch == Some(sha) && id in w'.editors && w'.editors[id] == Answered(req, Installed(sha))
  {
    hide Planned, Sound;
    var es := EditSteps(id, req, sha);
    SoundTip(w);
    var w1 := Step(w, es[0]);
    var w2 := Step(w1, es[1]);
    assert w2.editors[id] == AtTip(req, w.branch);
    var w3 := Step(w2, es[2]);
    assert w3.editors[id] == Built(req, w.branch, sha);
    assert es[1..][1..] == [Build(id, sha), UpdateRef(id)] && es[1..][1..][1..] == [UpdateRef(id)] && es[1..][1..][1..][1..] == [];
    LastStep(w3, UpdateRef(id));
    FirstStep(w2, Build(id, sha), [UpdateRef(id)]);
    FirstStep(w1, ReadTip(id), [Build(id, sha), UpdateRef(id)]);
    FirstStep(w, Arrive(id, req), [ReadTip(id), Build(id, sha), UpdateRef(id)]);
    assert [ReadTip(id)] + [Build(id, sha), UpdateRef(id)] == [ReadTip(id), Build(id, sha), UpdateRef(id)];
    assert [Arrive(id, req)] + [ReadTip(id), Build(id, sha), UpdateRef(id)] == es;
    assert [Build(id, sha)] + [UpdateRef(id)] == [Build(id, sha), UpdateRef(id)];
  }

  lemma SoundTip(w: World)
    requires Sound(w)
    ensures w.branch.Some? ==> w.branch.value in w.store
  {
  }

  lemma LastStep(w: World, e: Event)
    requires Allowed(w, e)
    ensures AllAllowed(w, [e]) && Run(w, [e]) == Step(w, e)
  {
    hide Allowed, Step;
    assert [e][1..] == [];
  }

  lemma FirstStep(w: World, e: Event, es: seq<Event>)
    requires Allowed(w, e) && AllAllowed(Step(w, e), es)
    ensures AllAllowed(w, [e] + es) && Run(w, [e] + es) == Run(Step(w, e), es)
  {
    hide Allowed, Step;
    assert ([e] + es)[1..] == es;
  }

  // ---- no update is lost ----

  /** `a` is reached from `b` over `n` parent links. */
  ghost predicate Reaches(store: Store, a: Sha, b: Sha, n: nat)
    decreases n
  {
    b in store
    && if n == 0 then a == b else exists i :: 0 <= i < |store[b].parents| && Reaches(store, a, store[b].parents[i], n - 1)
  }

  ghost predicate Ancestor(store: Store, a: Sha, b: Sha) {
    exists n: nat :: Reaches(store, a, b, n)
  }

  lemma {:induction false} ReachesStays(store: Store, more: Store, a: Sha, b: Sha, n: nat)
    requires Extends(store, more) && Reaches(store, a, b, n)
    ensures Reaches(more, a, b, n)
    decreases n
  {
    if n > 0 {
      var i :| 0 <= i < |store[b].parents| && Reaches(store, a, store[b].parents[i], n - 1);
      ReachesStays(store, more, a, store[b].parents[i], n - 1);
      assert more[b].parents[i] == store[b].parents[i];
    }
  }

  lemma {:induction false} ReachesOn(store: Store, a: Sha, b: Sha, c: Sha, m: nat, n: nat)
    requires Reaches(store, a, b, m) && Reaches(store, b, c, n)
    ensures Reaches(store, a, c, m + n)
    decreases n
  {
    if n > 0 {
      var i :| 0 <= i < |store[c].parents| && Reaches(store, b, store[c].parents[i], n - 1);
      ReachesOn(store, a, b, store[c].parents[i], m, n - 1);
    }
  }

  /** Every commit the edit route installed is in the branch's history. */
  ghost predicate NothingLost(w: World) {
    w.log == [] || (w.branch.Some? && forall i :: 0 <= i < |w.log| ==> Ancestor(w.store, w.log[i].after, w.branch.value))
  }

  /** A push that keeps the branch's history. */
  ghost predicate FastForward(w: World, e: Event) {
    e.Push? && w.branch.Some? ==> e.to.Some? && Ancestor(w.store + e.commits, w.branch.value, e.to.value)
  }

  ghost predicate AllFastForward(w: World, es: seq<Event>)
    requires AllAllowed(w, es)
    decreases |es|
  {
    es == [] || (FastForward(w, es[0]) && AllFastForward(Step(w, es[0]), es[1..]))
  }

  lemma MovesOn(w: World, more: Store, to: Sha)
    requires Sound(w) && NothingLost(w) && Extends(w.store, more)
    requires w.branch.Some? ==> Ancestor(more, w.branch.value, to)
    ensures forall i :: 0 <= i < |w.log| ==> Ancestor(more, w.log[i].after, to)
  {
    forall i | 0 <= i < |w.log| ensures Ancestor(more, w.log[i].after, to) {
      var m: nat :| Reaches(w.store, w.log[i].after, w.branch.value, m);
      ReachesStays(w.store, more, w.log[i].after, w.branch.value, m);
      var n: nat :| Reaches(more, w.branch.value, to, n);
      ReachesOn(more, w.log[i].after, w.branch.value, to, m, n);
    }
  }

  lemma ParentIsAncestor(store: Store, a: Sha, b: Sha)
    requires a in store && b in store && store[b].parents == [a]
    ensures Ancestor(store, a, b)
  {
    assert Reaches(store, a, a, 0);
    assert Reaches(store, a, store[b].parents[0], 0);
    assert Reaches(store, a, b, 1);
  }

  lemma SelfIsAncestor(store: Store, a: Sha)
    requires a in store
    ensures Ancestor(store, a, a)
  {
    assert Reaches(store, a, a, 0);
  }

  lemma NothingLostStep(w: World, e: Event)
    requires Sound(w) && Allowed(w, e) && NothingLost(w) && FastForward(w, e)
    ensures NothingLost(Step(w, e))
  {
    hide Ancestor, Planned, CarriedOut, KeptMode, TreeShaped;
    match e
    case Push(commits, to) => PushLosesNothing(w, commits, to);
    case Build(id, sha) => BuildLosesNothing(w, id, sha);
    case UpdateRef(id) => UpdateLosesNothing(w, id);
    case _ => SameLosesNothing(w, Step(w, e));
  }

  lemma PushLosesNothing(w: World, commits: Store, to: Option<Sha>)
    requires Sound(w) && Allowed(w, Push(commits, to)) && NothingLost(w) && FastForward(w, Push(commits, to))
    ensures NothingLost(Step(w, Push(commits, to)))
  {
    hide Ancestor, GoodCommit, EditorGood;
    if w.log != [] {
      MovesOn(w, w.store + commits, to.value);
    }
  }

  lemma BuildLosesNothing(w: World, id: nat, sha: Sha)
    requires Sound(w) && Allowed(w, Build(id, sha)) && NothingLost(w)
    ensures NothingLost(Step(w, Build(id, sha)))
  {
    hide Ancestor, GoodCommit, EditorGood, Planned, CarriedOut, KeptMode, TreeShaped;
    var w' := Step(w, Build(id, sha));
    assert w'.branch == w.branch && w'.log == w.log && Extends(w.store, w'.store);
    if w.branch.Some? {
      assert w.branch.value in w'.store;
      SelfIsAncestor(w'.store, w.branch.value);
      MovesOn(w, w'.store, w.branch.value);
      forall i | 0 <= i < |w'.log| ensures Ancestor(w'.store, w'.log[i].after, w'.branch.value) {
        assert w.log[i].after == w'.log[i].after;
      }
    }
  }

  lemma UpdateLosesNothing(w: World, id: nat)
    requires Sound(w) && Allowed(w, UpdateRef(id)) && NothingLost(w)
    ensures NothingLost(Step(w, UpdateRef(id)))
  {
    var ed := w.editors[id];
    assert EditorGood(w.rule, w.store, ed);
    hide CarriedOut, KeptMode, Ancestor, TreeShaped, OnlyPathChanged, NoClash;
    if w.branch == ed.tip {
      if ed.tip.Some? { ParentIsAncestor(w.store, ed.tip.value, ed.commit); }
      MovesOn(w, w.store, ed.commit);
      SelfIsAncestor(w.store, ed.commit);
    } else {
      SameLosesNothing(w, Step(w, UpdateRef(id)));
    }
  }

  lemma SameLosesNothing(w: World, w': World)
    requires NothingLost(w) && w'.store == w.store && w'.branch == w.branch && w'.log == w.log
    ensures NothingLost(w')
  {
    hide Ancestor;
    if w.log != [] {
      forall i | 0 <= i < |w'.log| ensures Ancestor(w'.store, w'.log[i].after, w'.branch.value) {
        assert w.log[i].after == w'.log[i].after;
      }
    }
  }

  /** As long as pushes are fast-forward, no edit that was installed ever drops out of the branch's history. */
  lemma {:induction false} NoUpdateLost(w: World, es: seq<Event>)
    requires Sound(w) && NothingLost(w) && AllAllowed(w, es) && AllFastForward(w, es)
    ensures NothingLost(Run(w, es))
    decreases |es|
  {
    if es != [] {
      StepKeeps(w, es[0]);
      NothingLostStep(w, es[0]);
      hide Sound, NothingLost, Allowed, Step, FastForward;
      NoUpdateLost(Step(w, es[0]), es[1..]);
    }
  }
}
